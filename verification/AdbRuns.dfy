/** Authentication over every interleaving: one connector thread runs Start,
    Tick and the connection attempts; any number of other threads stop the
    session, report channel losses and validate tokens in between. */
module AdbRuns {
  import opened Wrappers
  import opened AdbSession

  /** Where the connector thread is between two lock regions. */
  datatype Connector =
    | Idle
    | Listing
    | Preparing
    | Launching(token: Token)
    | CheckingHealth

  datatype Step =
    // the connector thread
    | Start
    | Tick(now: int)
    | Listed(serial: Option<string>, retryAt: int)
    | Prepared(token: Option<Token>, retryAt: int)
    | Launched(ok: bool, now: int, retryAt: int)
    | HealthChecked(ok: bool, retryAt: int)
    // other threads
    | BeginStop
    | EndStop
    | LoseChannel(retryAt: int)

  /** The session and its threads.  `stopping` counts the Stop calls between
      their two regions; the last three fields are history: how many attempts
      began, during which of them the token was armed, and every token that
      was armed and then dropped. */
  datatype Sys = Sys(s: Session, connector: Connector, stopping: nat, attempt: nat, armedIn: nat, revoked: set<Token>)

  const INITIAL := Sys(NEW, Idle, 0, 0, 0, {})

  function Moved(y: Sys, s: Session): Sys {
    y.(s := s, revoked := y.revoked + if y.s.token.Some? && s.token != y.s.token then {y.s.token.value} else {})
  }

  /** A step that its thread cannot take leaves everything as it is. */
  function Next(y: Sys, step: Step): Sys {
    match step
    case Start =>
      if !y.connector.Idle? || !StartsAttempt(y.s) then y
      else Moved(y, Attempting(y.s)).(connector := Listing, attempt := y.attempt + 1)
    case Tick(now) =>
      if !y.connector.Idle? then y
      else if HealthCheckIsDue(y.s, now) then y.(s := y.s.(lastHealthCheck := now), connector := CheckingHealth)
      else if RetryIsDue(y.s, now) then Moved(y, Attempting(y.s)).(connector := Listing, attempt := y.attempt + 1)
      else y
    case Listed(serial, retryAt) =>
      if !y.connector.Listing? then y
      else if serial.None? then Moved(y, ReconnectScheduled(y.s, retryAt)).(connector := Idle)
      else y.(s := y.s.(serial := serial.value), connector := Preparing)
    case Prepared(token, retryAt) =>
      if !y.connector.Preparing? then y
      else if token.None? then Moved(y, ReconnectScheduled(y.s, retryAt)).(connector := Idle)
      else if MayArm(y.s) then
        Moved(y, Armed(y.s, token.value)).(connector := Launching(token.value), armedIn := y.attempt)
      else y.(connector := Idle)
    case Launched(ok, now, retryAt) =>
      if !y.connector.Launching? then y
      else if ok then y.(s := Completed(y.s, now), connector := Idle)
      else Moved(y, ReconnectScheduled(y.s, retryAt)).(connector := Idle)
    case HealthChecked(ok, retryAt) =>
      if !y.connector.CheckingHealth? then y
      else if ok then y.(connector := Idle)
      else Moved(y, ChannelLost(y.s, retryAt)).(connector := Idle)
    case BeginStop =>
      if y.s.shutdown && y.s.state == Stopped then y
      else Moved(y, StopBegun(y.s)).(stopping := y.stopping + 1)
    case EndStop =>
      if y.stopping == 0 then y else y.(s := StopEnded(y.s), stopping := y.stopping - 1)
    case LoseChannel(retryAt) => Moved(y, ChannelLost(y.s, retryAt))
  }

  function Run(steps: seq<Step>): Sys {
    if steps == [] then INITIAL else Next(Run(steps[..|steps| - 1]), steps[|steps| - 1])
  }

  /** No two steps of the schedule generate the same token. */
  ghost predicate Fresh(steps: seq<Step>) {
    forall i, j | 0 <= i < j < |steps| && steps[i].Prepared? && steps[j].Prepared? && steps[i].token.Some? ::
      steps[i].token != steps[j].token
  }

  ghost predicate Generated(steps: seq<Step>, token: Token) {
    exists i | 0 <= i < |steps| :: steps[i].Prepared? && steps[i].token == Some(token)
  }

  /** What every reachable configuration keeps. */
  ghost predicate Holds(y: Sys) {
    var s := y.s;
    && (s.armed <==> s.token.Some?)
    && (s.armed ==> !s.shutdown && (s.state == Starting || s.state == Connected) && y.armedIn == y.attempt)
    && (s.state == Connected ==> s.armed && (y.connector.Idle? || y.connector.CheckingHealth?))
    && (s.state == Starting ==> y.connector.Listing? || y.connector.Preparing? || y.connector.Launching?)
    && (s.state == Starting && s.armed ==> y.connector == Launching(s.token.value))
    && (y.connector.Launching? && s.state == Starting ==> s.armed)
    && (s.shutdown ==> s.state == Stopping || s.state == Stopped)
    && (!s.shutdown ==> s.state != Stopping && y.stopping == 0)
    && (s.state == Stopping ==> y.stopping > 0)
    && (!s.shutdown && s.state == Stopped ==> y.attempt == 0)
  }

  lemma {:induction false} RunHolds(steps: seq<Step>)
    ensures Holds(Run(steps))
  {
    if steps != [] {
      RunHolds(steps[..|steps| - 1]);
    }
  }

  /** Bytes that authenticate are the token armed by the current attempt, which
      is still launching or connected; and nobody has asked for a shutdown. */
  lemma {:induction false} AcceptedTokenIsCurrent(steps: seq<Step>, bytes: seq<bv8>)
    requires Accepts(Run(steps).s, bytes)
    ensures var y := Run(steps);
            && y.armedIn == y.attempt && !y.s.shutdown
            && (y.s.state == Connected || y.connector == Launching(bytes))
  {
    RunHolds(steps);
  }

  lemma {:induction false} ConnectedIsArmed(steps: seq<Step>)
    requires Run(steps).s.state == Connected
    ensures Run(steps).s.armed && Run(steps).s.token.Some?
  {
    RunHolds(steps);
  }

  /** The connector never leaves the session stuck in an attempt nobody makes. */
  lemma {:induction false} IdleIsNotStarting(steps: seq<Step>)
    requires Run(steps).connector.Idle? && !Run(steps).s.shutdown
    ensures var y := Run(steps);
            y.s.state == Connected || y.s.state == Reconnecting || (y.s.state == Stopped && y.attempt == 0)
  {
    RunHolds(steps);
  }

  // Revoked tokens.

  /** Tokens come from the generator, and the one held now was not dropped before. */
  ghost predicate TokensFresh(y: Sys, steps: seq<Step>) {
    && (forall t: Token | t in y.revoked :: Generated(steps, t))
    && (y.s.token.Some? ==> Generated(steps, y.s.token.value) && y.s.token.value !in y.revoked)
  }

  lemma {:induction false} GeneratedLater(steps: seq<Step>, k: nat, token: Token)
    requires k <= |steps| && Generated(steps[..k], token)
    ensures Generated(steps, token)
  {
    var i :| 0 <= i < k && steps[..k][i].Prepared? && steps[..k][i].token == Some(token);
    assert steps[i].Prepared? && steps[i].token == Some(token);
  }

  lemma {:induction false} RunTokensFresh(steps: seq<Step>)
    requires Fresh(steps)
    ensures TokensFresh(Run(steps), steps)
  {
    if steps != [] {
      var n := |steps| - 1;
      RunTokensFresh(steps[..n]);
      RunHolds(steps[..n]);
      var y, z := Run(steps[..n]), Run(steps);
      forall t: Token | Generated(steps[..n], t) ensures Generated(steps, t) {
        GeneratedLater(steps, n, t);
      }
      if z.s.token.Some? && z.s.token != y.s.token {
        assert steps[n].Prepared? && steps[n].token == z.s.token;
        assert !Generated(steps[..n], z.s.token.value);
      }
    }
  }

  lemma StepForgetsNothing(y: Sys, step: Step)
    ensures y.revoked <= Next(y, step).revoked
    ensures y.s.shutdown ==> Next(y, step).s.shutdown
  {
  }

  lemma {:induction false} RevokedStays(steps: seq<Step>, k: nat)
    requires k <= |steps|
    ensures Run(steps[..k]).revoked <= Run(steps).revoked
    decreases |steps|
  {
    hide Next;
    var n := |steps| - 1;
    if k == |steps| {
      assert steps[..k] == steps;
    } else {
      assert steps[..n][..k] == steps[..k];
      RevokedStays(steps[..n], k);
      StepForgetsNothing(Run(steps[..n]), steps[n]);
    }
  }

  /** A token that was dropped at some point of a run never authenticates again. */
  lemma {:induction false} RevokedIsNeverAccepted(steps: seq<Step>, k: nat, token: Token)
    requires Fresh(steps) && k <= |steps| && token in Run(steps[..k]).revoked
    ensures !Accepts(Run(steps).s, token)
  {
    RevokedStays(steps, k);
    RunTokensFresh(steps);
  }

  /** How often the token was armed. */
  function TimesArmed(steps: seq<Step>, token: Token): nat {
    if steps == [] then 0
    else
      var before, last := steps[..|steps| - 1], steps[|steps| - 1];
      TimesArmed(before, token) + if Arms(Run(before), last, token) then 1 else 0
  }

  predicate Arms(y: Sys, step: Step, token: Token) {
    y.connector.Preparing? && step.Prepared? && step.token == Some(token) && MayArm(y.s)
  }

  /** One step and one token: armed, dropped, or neither. */
  lemma TokenStep(y: Sys, step: Step, token: Token)
    requires Holds(y)
    ensures var z := Next(y, step);
            var before, after := y.s.token == Some(token), z.s.token == Some(token);
            && (Arms(y, step, token) ==> after && !before)
            && (after && !before ==> Arms(y, step, token))
            && (token in z.revoked <==> token in y.revoked || (before && !after))
  {
  }

  /** A token is held or was dropped exactly when some step armed it; and while
      it is held it was dropped before exactly when it was armed twice. */
  lemma {:induction false} ArmedTokens(steps: seq<Step>, token: Token)
    ensures var y, n := Run(steps), TimesArmed(steps, token);
            && (token in y.revoked || y.s.token == Some(token) <==> n > 0)
            && (y.s.token == Some(token) ==> (token in y.revoked <==> n > 1))
  {
    if steps != [] {
      hide Next, Arms;
      var before := steps[..|steps| - 1];
      ArmedTokens(before, token);
      RunHolds(before);
      TokenStep(Run(before), steps[|steps| - 1], token);
    }
  }

  /** The exact condition, whatever the generator does: a token that authenticates
      was revoked earlier in the run if and only if it was armed more than once. */
  lemma {:induction false} AcceptedAgainIffArmedTwice(steps: seq<Step>, token: Token)
    requires Accepts(Run(steps).s, token)
    ensures token in Run(steps).revoked <==> TimesArmed(steps, token) > 1
  {
    ArmedTokens(steps, token);
  }

  lemma RunOn(steps: seq<Step>, step: Step)
    ensures Run(steps + [step]) == Next(Run(steps), step)
  {
    assert (steps + [step])[..|steps|] == steps;
  }

  /** The generator must not repeat itself: a token generated again after it was
      revoked authenticates again. */
  lemma RepeatedTokenReturns(token: Token)
    ensures exists steps, k :: 0 <= k <= |steps| && token in Run(steps[..k]).revoked && Accepts(Run(steps).s, token)
  {
    hide Run;
    var arm := [Start, Listed(Some("tablet"), 0), Prepared(Some(token), 0)];
    var lose := arm + [LoseChannel(0)];
    var again := lose + [Launched(false, 0, 0)] + [Tick(0)] + [Listed(Some("tablet"), 0)];
    var steps := again + [Prepared(Some(token), 0)];
    ArmedRun(token);
    RunOn(arm, LoseChannel(0));
    RunOn(lose, Launched(false, 0, 0));
    RunOn(lose + [Launched(false, 0, 0)], Tick(0));
    RunOn(lose + [Launched(false, 0, 0)] + [Tick(0)], Listed(Some("tablet"), 0));
    RunOn(again, Prepared(Some(token), 0));
    assert steps[..4] == lose;
    assert token in Run(steps[..4]).revoked;
  }

  lemma ArmedRun(token: Token)
    ensures Run([Start, Listed(Some("tablet"), 0), Prepared(Some(token), 0)])
         == Sys(NEW.(state := Starting, serial := "tablet", token := Some(token), armed := true),
                Launching(token), 0, 1, 1, {})
  {
    var listed, prepared := Listed(Some("tablet"), 0), Prepared(Some(token), 0);
    RunOn([], Start);
    RunOn([Start], listed);
    RunOn([Start, listed], prepared);
    assert [] + [Start] == [Start] && [Start] + [listed] == [Start, listed];
    assert [Start, listed] + [prepared] == [Start, listed, prepared];
  }

  // Shutdown.

  lemma {:induction false} ShutdownStays(steps: seq<Step>, k: nat)
    requires k <= |steps| && Run(steps[..k]).s.shutdown
    ensures Run(steps).s.shutdown
    decreases |steps|
  {
    hide Next;
    var n := |steps| - 1;
    if k == |steps| {
      assert steps[..k] == steps;
    } else {
      assert steps[..n][..k] == steps[..k];
      ShutdownStays(steps[..n], k);
      StepForgetsNothing(Run(steps[..n]), steps[n]);
    }
  }

  /** From the first Stop on: the session is stopping or stopped, no attempt
      begins, no bytes authenticate, and once every Stop call has returned it
      is stopped. */
  lemma {:induction false} ShutdownIsFinal(steps: seq<Step>, k: nat, bytes: seq<bv8>)
    requires k <= |steps| && Run(steps[..k]).s.shutdown
    ensures var y := Run(steps);
            && (y.s.state == Stopping || y.s.state == Stopped)
            && !Accepts(y.s, bytes) && !StartsAttempt(y.s)
            && (y.stopping == 0 ==> y.s.state == Stopped)
  {
    ShutdownStays(steps, k);
    RunHolds(steps);
  }

  // The session object, driven through a schedule.

  /** The connector's place, and the Stop calls between their two regions. */
  datatype Threads = Threads(connector: Connector, stopping: nat)

  method Drive(steps: seq<Step>) returns (session: AdbSession, threads: Threads)
    ensures fresh(session) && session.Value() == Run(steps).s
    ensures threads == Threads(Run(steps).connector, Run(steps).stopping)
  {
    hide Next, Run;
    session := new AdbSession();
    threads := Threads(Idle, 0);
    RunOfNothing();
    for i := 0 to |steps|
      invariant fresh(session) && session.Value() == Run(steps[..i]).s
      invariant threads == Threads(Run(steps[..i]).connector, Run(steps[..i]).stopping)
    {
      RunOn(steps[..i], steps[i]);
      assert steps[..i] + [steps[i]] == steps[..i + 1];
      threads := Advance(session, threads, steps[i], Run(steps[..i]));
    }
    assert steps[..|steps|] == steps;
  }

  lemma RunOfNothing()
    ensures Run([]) == INITIAL
  {
  }

  /** One step of the thread that can take it, on the object. */
  method Advance(session: AdbSession, threads: Threads, step: Step, ghost y: Sys) returns (after: Threads)
    requires session.Value() == y.s && threads == Threads(y.connector, y.stopping)
    modifies session
    ensures session.Value() == Next(y, step).s
    ensures after == Threads(Next(y, step).connector, Next(y, step).stopping)
  {
    after := threads;
    match step
    case Start =>
      if threads.connector.Idle? {
        var attempt := session.BeginStart();
        after := threads.(connector := if attempt then Listing else Idle);
      }
    case Tick(now) =>
      if threads.connector.Idle? {
        var attempt, healthCheck := session.BeginTick(now);
        after := threads.(connector := if attempt then Listing else if healthCheck.Some? then CheckingHealth else Idle);
      }
    case Listed(serial, retryAt) =>
      if threads.connector.Listing? {
        if serial.None? {
          session.ScheduleReconnect(retryAt);
          after := threads.(connector := Idle);
        } else {
          session.PublishSerial(serial.value);
          after := threads.(connector := Preparing);
        }
      }
    case Prepared(token, retryAt) =>
      if threads.connector.Preparing? {
        if token.None? {
          session.ScheduleReconnect(retryAt);
          after := threads.(connector := Idle);
        } else {
          var ok := session.Arm(token.value);
          after := threads.(connector := if ok then Launching(token.value) else Idle);
        }
      }
    case Launched(ok, now, retryAt) =>
      if threads.connector.Launching? {
        if ok {
          var _ := session.CompleteConnect(now);
        } else {
          session.ScheduleReconnect(retryAt);
        }
        after := threads.(connector := Idle);
      }
    case HealthChecked(ok, retryAt) =>
      if threads.connector.CheckingHealth? {
        if !ok {
          session.NotifyChannelLoss(retryAt);
        }
        after := threads.(connector := Idle);
      }
    case BeginStop =>
      if !(session.shutdownRequested && session.state == Stopped) {
        var _ := session.BeginStop();
        after := threads.(stopping := threads.stopping + 1);
      }
    case EndStop =>
      if threads.stopping > 0 {
        session.EndStop();
        after := threads.(stopping := threads.stopping - 1);
      }
    case LoseChannel(retryAt) => session.NotifyChannelLoss(retryAt);
  }
}
