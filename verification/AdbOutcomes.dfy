/** What every step does to the session and its connector, in every run, told by the
    steps alone; and that the session comes back. */
module AdbOutcomes {
  import opened Wrappers
  import opened AdbSession
  import opened AdbRuns

  /** An attempt of the connector, or its health check, does not succeed. */
  predicate ConnectorFails(y: Sys, step: Step) {
    || (step.Listed? && y.connector.Listing? && step.serial.None?)
    || (step.Prepared? && y.connector.Preparing? && step.token.None?)
    || (step.Launched? && y.connector.Launching? && !step.ok)
  }

  predicate LosesChannel(y: Sys, step: Step) {
    y.s.state != Stopped && (step.LoseChannel? || (step.HealthChecked? && y.connector.CheckingHealth? && !step.ok))
  }

  /** The session has to try again. */
  predicate Retries(y: Sys, step: Step) {
    !y.s.shutdown && (ConnectorFails(y, step) || LosesChannel(y, step))
  }

  /** When the last such step told it to. */
  function RetryTime(steps: seq<Step>): int {
    if steps == [] then 0
    else
      var before, last := steps[..|steps| - 1], steps[|steps| - 1];
      if Retries(Run(before), last) then last.retryAt else RetryTime(before)
  }

  predicate Connects(y: Sys, step: Step) {
    step.Launched? && y.connector.Launching? && step.ok && y.s.state == Starting
  }

  /** The health check is due a second after the session connected or began the last one. */
  predicate ChecksHealth(steps: seq<Step>, step: Step)
    decreases |steps|, 1
  {
    step.Tick? && Run(steps).connector.Idle? && Run(steps).s.state == Connected && step.now >= LastSeen(steps) + 1000
  }

  function LastSeen(steps: seq<Step>): int
    decreases |steps|, 0
  {
    if steps == [] then 0
    else
      var before, last := steps[..|steps| - 1], steps[|steps| - 1];
      if Connects(Run(before), last) || ChecksHealth(before, last) then last.now else LastSeen(before)
  }

  /** The connector begins an attempt: on a start, or on a tick once the retry is due. */
  predicate Begins(steps: seq<Step>, step: Step) {
    var y := Run(steps);
    && y.connector.Idle? && !y.s.shutdown
    && (|| (step.Start? && (y.s.state == Stopped || y.s.state == Reconnecting))
        || (step.Tick? && y.s.state == Reconnecting && step.now >= RetryTime(steps)))
  }

  /** A token is armed. */
  predicate ArmsToken(y: Sys, step: Step) {
    step.Prepared? && y.connector.Preparing? && step.token.Some? && y.s.state == Starting
  }

  predicate Stops(y: Sys, step: Step) {
    step.BeginStop? && !(y.s.shutdown && y.s.state == Stopped)
  }

  function StateAfter(steps: seq<Step>, step: Step): State {
    var y := Run(steps);
    if Begins(steps, step) then Starting
    else if Connects(y, step) then Connected
    else if Retries(y, step) then Reconnecting
    else if Stops(y, step) then Stopping
    else if ConnectorFails(y, step) || (step.EndStop? && y.stopping > 0) then Stopped
    else y.s.state
  }

  function TokenAfter(steps: seq<Step>, step: Step): Option<Token> {
    var y := Run(steps);
    if ArmsToken(y, step) then step.token
    else if Begins(steps, step) || Retries(y, step) || ConnectorFails(y, step) || Stops(y, step) then None
    else y.s.token
  }

  function ConnectorAfter(steps: seq<Step>, step: Step): Connector {
    var y := Run(steps);
    if Begins(steps, step) then Listing
    else if ChecksHealth(steps, step) then CheckingHealth
    else
      match y.connector
      case Idle => Idle
      case Listing => if !step.Listed? then Listing else if step.serial.Some? then Preparing else Idle
      case Preparing =>
        if !step.Prepared? then Preparing else if ArmsToken(y, step) then Launching(step.token.value) else Idle
      case Launching(token) => if step.Launched? then Idle else Launching(token)
      case CheckingHealth => if step.HealthChecked? then Idle else CheckingHealth
  }

  /** The whole of what is visible after a step. */
  ghost predicate Outcome(steps: seq<Step>, step: Step, z: Sys) {
    var y := Run(steps);
    && z.s.state == StateAfter(steps, step)
    && z.s.token == TokenAfter(steps, step) && (z.s.armed <==> z.s.token.Some?)
    && z.connector == ConnectorAfter(steps, step)
    && z.attempt == y.attempt + (if Begins(steps, step) then 1 else 0)
    && (z.s.shutdown <==> y.s.shutdown || Stops(y, step))
    && z.s.failures == (if Connects(y, step) then 0 else if Retries(y, step) then y.s.failures + 1 else y.s.failures)
    && z.s.serial == (if step.Listed? && y.connector.Listing? && step.serial.Some? then step.serial.value
                      else if step.EndStop? && y.stopping > 0 then ""
                      else y.s.serial)
    && z.stopping == y.stopping + (if Stops(y, step) then 1 else if step.EndStop? && y.stopping > 0 then -1 else 0)
  }

  /** What the session remembers of the times. */
  ghost predicate Remembers(steps: seq<Step>) {
    var s := Run(steps).s;
    && (s.state == Reconnecting && !s.shutdown ==> s.retryAt == RetryTime(steps))
    && (s.state == Connected ==> s.lastHealthCheck == LastSeen(steps))
  }

  lemma StepLeaves(steps: seq<Step>, step: Step)
    requires Holds(Run(steps)) && Remembers(steps)
    ensures Outcome(steps, step, Next(Run(steps), step))
  {
    hide Run, RetryTime, LastSeen;
  }

  lemma RemembersOn(steps: seq<Step>, step: Step)
    requires Holds(Run(steps)) && Remembers(steps)
    ensures Remembers(steps + [step])
  {
    RunOn(steps, step);
    assert (steps + [step])[..|steps|] == steps;
  }

  lemma {:induction false} RunRemembers(steps: seq<Step>)
    ensures Holds(Run(steps)) && Remembers(steps)
  {
    if steps != [] {
      var before, last := steps[..|steps| - 1], steps[|steps| - 1];
      RunRemembers(before);
      RunHolds(steps);
      assert before + [last] == steps;
      RemembersOn(before, last);
    } else {
      RunOfNothing();
    }
  }

  /** After any steps, one more leaves the session with exactly this state, token,
      serial and count of failures, and the connector at exactly this place. */
  lemma {:induction false} EveryStepLeaves(steps: seq<Step>, step: Step)
    ensures Outcome(steps, step, Run(steps + [step]))
  {
    hide Outcome, Remembers, Holds;
    RunRemembers(steps);
    RunOn(steps, step);
    StepLeaves(steps, step);
  }

  /** A tick with the connector idle: an attempt begins if and only if the session is
      reconnecting and the time the last failure set has come; a health check if and
      only if it is connected and a second has passed; otherwise nothing changes. */
  lemma {:induction false} TickDoes(steps: seq<Step>, now: int)
    requires Run(steps).connector.Idle?
    ensures var y, z := Run(steps), Run(steps + [Tick(now)]);
            var due := y.s.state == Reconnecting && !y.s.shutdown && now >= RetryTime(steps);
            var check := y.s.state == Connected && !y.s.shutdown && now >= LastSeen(steps) + 1000;
            && (z.connector.Listing? <==> due) && (z.connector.CheckingHealth? <==> check)
            && (due ==> z.s.state == Starting && z.s.token.None? && z.attempt == y.attempt + 1)
            && (check ==> z.s == y.s.(lastHealthCheck := now) && z.attempt == y.attempt)
            && (!due && !check ==> z == y)
  {
    hide Run, RetryTime, LastSeen;
    RunRemembers(steps);
    RunOn(steps, Tick(now));
  }

  /** In every state exactly the token held authenticates: while its launch is in
      progress, and while the session is connected. */
  lemma {:induction false} AcceptedIsTheTokenHeld(steps: seq<Step>, bytes: seq<bv8>)
    ensures Accepts(Run(steps).s, bytes) <==> Run(steps).s.token == Some(bytes)
  {
    RunHolds(steps);
  }

  // The session comes back.

  /** The connector brings what it was doing to an end. */
  function Finishing(connector: Connector, serial: string, token: Token): seq<Step> {
    match connector
    case Idle => []
    case Listing => [Listed(Some(serial), 0)] + [Prepared(Some(token), 0)]
    case Preparing => [Prepared(Some(token), 0)]
    case Launching(_) => [Launched(true, 0, 0)]
    case CheckingHealth => [HealthChecked(true, 0)]
  }

  /** A session that has to try again, its connector wherever it is. */
  ghost predicate MustRetry(steps: seq<Step>) {
    Run(steps).s.state == Reconnecting && !Run(steps).s.shutdown
  }

  lemma {:induction false} FinishingStep(steps: seq<Step>, step: Step)
    requires MustRetry(steps) && !ConnectorFails(Run(steps), step)
    requires step.Listed? || step.Prepared? || step.Launched? || (step.HealthChecked? && step.ok)
    ensures var next := steps + [step];
            && MustRetry(next) && RetryTime(next) == RetryTime(steps)
            && Run(next).connector == ConnectorAfter(steps, step)
  {
    hide Run;
    assert (steps + [step])[..|steps|] == steps;
    EveryStepLeaves(steps, step);
  }

  lemma {:induction false} ConnectorFinishes(steps: seq<Step>, serial: string, token: Token)
    requires MustRetry(steps)
    ensures var idle := steps + Finishing(Run(steps).connector, serial, token);
            MustRetry(idle) && Run(idle).connector.Idle? && RetryTime(idle) == RetryTime(steps)
  {
    hide Run, MustRetry, RetryTime;
    var listed, prepared := Listed(Some(serial), 0), Prepared(Some(token), 0);
    match Run(steps).connector
    case Idle => assert steps + [] == steps;
    case Listing =>
      FinishingStep(steps, listed);
      FinishingStep(steps + [listed], prepared);
      StillRetrying(steps + [listed]);
      assert steps + ([listed] + [prepared]) == (steps + [listed]) + [prepared];
    case Preparing =>
      FinishingStep(steps, prepared);
      StillRetrying(steps);
    case Launching(_) => FinishingStep(steps, Launched(true, 0, 0));
    case CheckingHealth => FinishingStep(steps, HealthChecked(true, 0));
  }

  lemma StillRetrying(steps: seq<Step>)
    requires MustRetry(steps)
    ensures Run(steps).s.state != Starting
  {
  }

  /** From any state of any run in which the session has to try again: the connector
      comes to its end, and a tick at the retry time with a device, mappings and a
      launch that succeed ends connected, and the token armed is the one accepted. */
  lemma {:induction false} SessionComesBack(steps: seq<Step>, serial: string, token: Token, now: int)
    requires MustRetry(steps) && now >= RetryTime(steps)
    ensures var idle := steps + Finishing(Run(steps).connector, serial, token);
            var z := Run(idle + [Tick(now)] + [Listed(Some(serial), 0)] + [Prepared(Some(token), 0)]
                         + [Launched(true, now, 0)]);
            && z.s.state == Connected && z.connector.Idle? && z.s.serial == serial && z.s.failures == 0
            && (forall bytes :: Accepts(z.s, bytes) <==> bytes == token)
  {
    hide Run, MustRetry, RetryTime;
    var idle := steps + Finishing(Run(steps).connector, serial, token);
    ConnectorFinishes(steps, serial, token);
    Reconnects(idle, serial, token, now);
  }

  lemma {:induction false} Reconnects(steps: seq<Step>, serial: string, token: Token, now: int)
    requires MustRetry(steps) && Run(steps).connector.Idle? && now >= RetryTime(steps)
    ensures var z := Run(steps + [Tick(now)] + [Listed(Some(serial), 0)] + [Prepared(Some(token), 0)]
                         + [Launched(true, now, 0)]);
            && z.s.state == Connected && z.connector.Idle? && z.s.serial == serial && z.s.failures == 0
            && (forall bytes :: Accepts(z.s, bytes) <==> bytes == token)
  {
    hide Run, RetryTime, LastSeen;
    var begun := steps + [Tick(now)];
    var listed := begun + [Listed(Some(serial), 0)];
    var armed := listed + [Prepared(Some(token), 0)];
    EveryStepLeaves(steps, Tick(now));
    EveryStepLeaves(begun, Listed(Some(serial), 0));
    EveryStepLeaves(listed, Prepared(Some(token), 0));
    EveryStepLeaves(armed, Launched(true, now, 0));
  }
}
