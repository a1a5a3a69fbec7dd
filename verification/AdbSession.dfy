/** The desktop's ADB session.  One step per lock region; what ADB, the clock
    and the token generator answer are parameters. */
module AdbSession {
  import opened Wrappers

  type Token = t: seq<bv8> | |t| == 32 witness seq(32, _ => 0)

  datatype State = Stopped | Starting | Connected | Reconnecting | Stopping

  datatype Session = Session(
    state: State, serial: string, token: Option<Token>, armed: bool, shutdown: bool,
    failures: nat, retryAt: int, lastHealthCheck: int)

  const NEW := Session(Stopped, "", None, false, false, 0, 0, 0)

  const HEALTH_CHECK_INTERVAL := 1000

  function Revoked(s: Session): Session {
    s.(armed := false, token := None)
  }

  function Attempting(s: Session): Session {
    Revoked(s).(state := Starting)
  }

  /** `Start` begins an attempt unless it is pointless or already under way. */
  predicate StartsAttempt(s: Session) {
    !(s.shutdown || s.state == Connected || s.state == Starting || s.state == Stopping)
  }

  predicate RetryIsDue(s: Session, now: int) {
    !s.shutdown && s.state == Reconnecting && now >= s.retryAt
  }

  predicate HealthCheckIsDue(s: Session, now: int) {
    !s.shutdown && s.state == Connected && now >= s.lastHealthCheck + HEALTH_CHECK_INTERVAL
  }

  function StopBegun(s: Session): Session {
    if s.shutdown && s.state == Stopped then s else Revoked(s).(shutdown := true, state := Stopping)
  }

  function StopEnded(s: Session): Session {
    s.(state := Stopped, serial := "", retryAt := 0, lastHealthCheck := 0)
  }

  function Failing(s: Session, retryAt: int): Session {
    Revoked(s).(failures := s.failures + 1, state := Reconnecting, retryAt := retryAt)
  }

  function ChannelLost(s: Session, retryAt: int): Session {
    if s.shutdown || s.state == Stopped then s else Failing(s, retryAt)
  }

  function ReconnectScheduled(s: Session, retryAt: int): Session {
    if s.shutdown then Revoked(s).(state := Stopped) else Failing(s, retryAt)
  }

  predicate MayArm(s: Session) {
    !s.shutdown && s.state == Starting
  }

  function Armed(s: Session, token: Token): Session {
    if MayArm(s) then s.(token := Some(token), armed := true) else s
  }

  function Completed(s: Session, now: int): Session {
    if MayArm(s) && s.armed then s.(state := Connected, retryAt := 0, failures := 0, lastHealthCheck := now) else s
  }

  /** Which bytes authenticate a channel. */
  predicate Accepts(s: Session, bytes: seq<bv8>) {
    s.armed && (s.state == Starting || s.state == Connected) && s.token == Some(bytes)
  }

  lemma NoDifference(d: bv8, a: bv8, b: bv8)
    ensures d | (a ^ b) == 0 <==> d == 0 && a == b
  {
  }

  /** The session object; every method is one region under its mutex. */
  class AdbSession {
    var state: State
    var serial: string
    var sessionToken: Option<Token>
    var authenticationArmed: bool
    var shutdownRequested: bool
    var failures: nat
    var nextRetry: int
    var lastHealthCheck: int

    ghost function Value(): Session
      reads this
    {
      Session(state, serial, sessionToken, authenticationArmed, shutdownRequested, failures, nextRetry, lastHealthCheck)
    }

    constructor ()
      ensures Value() == NEW
    {
      state, serial, sessionToken, authenticationArmed := Stopped, "", None, false;
      shutdownRequested, failures, nextRetry, lastHealthCheck := false, 0, 0, 0;
    }

    method BeginStart() returns (attempt: bool)
      modifies this
      ensures attempt == StartsAttempt(old(Value()))
      ensures Value() == if attempt then Attempting(old(Value())) else old(Value())
    {
      if shutdownRequested || state == Connected || state == Starting || state == Stopping {
        return false;
      }
      state := Starting;
      authenticationArmed := false;
      sessionToken := None;
      return true;
    }

    method BeginTick(now: int) returns (attempt: bool, healthCheck: Option<string>)
      modifies this
      ensures attempt == RetryIsDue(old(Value()), now)
      ensures healthCheck == if HealthCheckIsDue(old(Value()), now) then Some(old(serial)) else None
      ensures Value() == if attempt then Attempting(old(Value()))
                         else if healthCheck.Some? then old(Value()).(lastHealthCheck := now)
                         else old(Value())
    {
      attempt, healthCheck := false, None;
      if shutdownRequested {
        return;
      }
      if state == Connected {
        if now < lastHealthCheck + HEALTH_CHECK_INTERVAL {
          return;
        }
        lastHealthCheck := now;
        healthCheck := Some(serial);
      } else {
        if state != Reconnecting || now < nextRetry {
          return;
        }
        state := Starting;
        authenticationArmed := false;
        sessionToken := None;
        attempt := true;
      }
    }

    method BeginStop() returns (cleanup: bool)
      modifies this
      ensures Value() == StopBegun(old(Value()))
      ensures cleanup == (!(old(shutdownRequested) && old(state) == Stopped) && old(serial) != "")
    {
      if shutdownRequested && state == Stopped {
        return false;
      }
      shutdownRequested := true;
      state := Stopping;
      authenticationArmed := false;
      sessionToken := None;
      return serial != "";
    }

    method EndStop()
      modifies this
      ensures Value() == StopEnded(old(Value()))
    {
      state := Stopped;
      serial := "";
      nextRetry := 0;
      lastHealthCheck := 0;
    }

    method NotifyChannelLoss(retryAt: int)
      modifies this
      ensures Value() == ChannelLost(old(Value()), retryAt)
    {
      if shutdownRequested || state == Stopped {
        return;
      }
      authenticationArmed := false;
      sessionToken := None;
      failures := failures + 1;
      state := Reconnecting;
      nextRetry := retryAt;
    }

    method PublishSerial(selected: string)
      modifies this
      ensures Value() == old(Value()).(serial := selected)
    {
      serial := selected;
    }

    method Arm(generated: Token) returns (ok: bool)
      modifies this
      ensures ok == MayArm(old(Value())) && Value() == Armed(old(Value()), generated)
    {
      if shutdownRequested || state != Starting {
        return false;
      }
      sessionToken := Some(generated);
      authenticationArmed := true;
      return true;
    }

    method CompleteConnect(now: int) returns (ok: bool)
      modifies this
      ensures ok == (MayArm(old(Value())) && old(Value()).armed) && Value() == Completed(old(Value()), now)
    {
      if shutdownRequested || state != Starting || !authenticationArmed {
        return false;
      }
      state := Connected;
      nextRetry := 0;
      failures := 0;
      lastHealthCheck := now;
      return true;
    }

    method ScheduleReconnect(retryAt: int)
      modifies this
      ensures Value() == ReconnectScheduled(old(Value()), retryAt)
    {
      authenticationArmed := false;
      sessionToken := None;
      if shutdownRequested {
        state := Stopped;
        return;
      }
      failures := failures + 1;
      state := Reconnecting;
      nextRetry := retryAt;
    }

    /** Looks at every byte, whatever differs, and accepts exactly the armed token. */
    method ValidateSessionToken(token: seq<bv8>) returns (valid: bool)
      ensures valid == Accepts(Value(), token)
    {
      var launchIsInProgress := state == Starting && authenticationArmed;
      var sessionIsConnected := state == Connected && authenticationArmed;
      if (!launchIsInProgress && !sessionIsConnected) || sessionToken.None? || |token| != 32 {
        return false;
      }
      var difference: bv8 := 0;
      for i := 0 to 32
        invariant difference == 0 <==> token[..i] == sessionToken.value[..i]
      {
        NoDifference(difference, token[i], sessionToken.value[i]);
        assert token[..i + 1] == token[..i] + [token[i]];
        assert sessionToken.value[..i + 1] == sessionToken.value[..i] + [sessionToken.value[i]];
        difference := difference | (token[i] ^ sessionToken.value[i]);
      }
      assert token[..32] == token && sessionToken.value[..32] == sessionToken.value;
      return difference == 0;
    }
  }
}
