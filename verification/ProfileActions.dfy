/** Keys and mouse buttons pressed on behalf of the pen's buttons. */
module ProfileActions {
  import opened Bytes
  import opened Config

  datatype Control = Key(code: u16) | Mouse(button: MouseButton)

  datatype InputEvent = InputEvent(control: Control, down: bool)

  /** `sent` is everything handed to the system so far. */
  datatype Buttons = Buttons(held: seq<bool>, pressed: seq<Action>, eraser: bool, sent: seq<InputEvent>)

  const RELEASED := Buttons([false, false, false], [NO_ACTION, NO_ACTION, NO_ACTION], false, [])

  ghost predicate Three(b: Buttons) {
    |b.held| == 3 && |b.pressed| == 3
  }

  function KeyEvents(keys: seq<u16>, down: bool): (events: seq<InputEvent>)
    ensures |events| == |keys|
  {
    seq(|keys|, i requires 0 <= i < |keys| => InputEvent(Key(keys[i]), down))
  }

  function Backwards<T>(s: seq<T>): (r: seq<T>)
    ensures |r| == |s|
  {
    seq(|s|, i requires 0 <= i < |s| => s[|s| - 1 - i])
  }

  function MouseEvents(action: Action, down: bool): seq<InputEvent> {
    if action.kind == MouseAction then [InputEvent(Mouse(action.mouseButton), down)] else []
  }

  predicate Silent(action: Action) {
    action.kind == Disabled || action.kind == Eraser
  }

  /** The keys of a chord go down first to last before the mouse button, and up
      last to first after it. */
  function Sent(action: Action, down: bool): seq<InputEvent> {
    if Silent(action) then []
    else if down then KeyEvents(action.virtualKeys, true) + MouseEvents(action, true)
    else MouseEvents(action, false) + KeyEvents(Backwards(action.virtualKeys), false)
  }

  function Changed(b: Buttons, i: nat, now: bool, action: Action): Buttons
    requires Three(b) && i < 3
  {
    if now == b.held[i] then b.(eraser := b.eraser || (now && b.pressed[i].kind == Eraser))
    else if now then
      b.(held := b.held[i := true], pressed := b.pressed[i := action], sent := b.sent + Sent(action, true),
         eraser := b.eraser || action.kind == Eraser)
    else
      b.(held := b.held[i := false], pressed := b.pressed[i := NO_ACTION], sent := b.sent + Sent(b.pressed[i], false))
  }

  /** The first n buttons after a pen sample. */
  function ChangedUpTo(b: Buttons, n: nat, pen: seq<bool>, profile: Profile): (r: Buttons)
    requires Three(b) && n <= 3 && |pen| == 3
    ensures Three(r)
  {
    if n == 0 then b else Changed(ChangedUpTo(b, n - 1, pen, profile), n - 1, pen[n - 1], profile.buttons[n - 1])
  }

  function Applied(b: Buttons, pen: seq<bool>, eraser: bool, profile: Profile): Buttons
    requires Three(b) && |pen| == 3
  {
    ChangedUpTo(b.(eraser := eraser), 3, pen, profile)
  }

  function ReleasedUpTo(b: Buttons, n: nat): (r: Buttons)
    requires Three(b) && n <= 3
    ensures Three(r)
  {
    if n == 0 then b
    else
      var r := ReleasedUpTo(b, n - 1);
      r.(held := r.held[n - 1 := false], pressed := r.pressed[n - 1 := NO_ACTION],
         sent := r.sent + if r.held[n - 1] then Sent(r.pressed[n - 1], false) else [])
  }

  function AllReleased(b: Buttons): Buttons
    requires Three(b)
  {
    ReleasedUpTo(b, 3).(eraser := false)
  }

  /** Position by position: a press sends the keys first to last and then the button,
      a release the button and then the keys last to first; the disabled action and
      the eraser send nothing. */
  lemma SentInOrder(action: Action)
    ensures var keys, down, up := action.virtualKeys, Sent(action, true), Sent(action, false);
            if action.kind == Disabled || action.kind == Eraser then down == up == []
            else
              var n := |keys| + if action.kind == MouseAction then 1 else 0;
              && |down| == |up| == n
              && (forall i | 0 <= i < |keys| :: down[i] == InputEvent(Key(keys[i]), true))
              && (forall i | 0 <= i < |keys| :: up[n - 1 - i] == InputEvent(Key(keys[i]), false))
              && (action.kind == MouseAction ==>
                    down[n - 1] == InputEvent(Mouse(action.mouseButton), true)
                    && up[0] == InputEvent(Mouse(action.mouseButton), false))
  {
  }

  class InputSystem {
    const profileButtons: array<bool>
    const pressedActions: array<Action>
    var effectiveEraser: bool
    var sent: seq<InputEvent>

    ghost predicate Valid()
      reads this
    {
      profileButtons.Length == 3 && pressedActions.Length == 3
    }

    ghost function Value(): (b: Buttons)
      requires Valid()
      reads this, profileButtons, pressedActions
      ensures Three(b)
    {
      Buttons(profileButtons[..], pressedActions[..], effectiveEraser, sent)
    }

    constructor ()
      ensures Valid() && Value() == RELEASED && fresh(profileButtons) && fresh(pressedActions)
    {
      profileButtons := new bool[3](_ => false);
      pressedActions := new Action[3](_ => NO_ACTION);
      effectiveEraser := false;
      sent := [];
    }

    method SendAction(action: Action, down: bool)
      modifies this`sent
      ensures sent == old(sent) + Sent(action, down)
    {
      if action.kind == Disabled || action.kind == Eraser {
        return;
      }
      var keys := action.virtualKeys;
      if down {
        for i := 0 to |keys|
          invariant sent == old(sent) + KeyEvents(keys[..i], true)
        {
          assert keys[..i + 1] == keys[..i] + [keys[i]];
          sent := sent + [InputEvent(Key(keys[i]), true)];
        }
        assert keys[..|keys|] == keys;
      }
      if action.kind == MouseAction {
        sent := sent + [InputEvent(Mouse(action.mouseButton), down)];
      }
      if !down {
        ghost var upward := Backwards(keys);
        assert sent == old(sent) + MouseEvents(action, false) + KeyEvents(upward[..0], false);
        for i := 0 to |keys|
          invariant sent == old(sent) + MouseEvents(action, false) + KeyEvents(upward[..i], false)
        {
          assert upward[..i + 1] == upward[..i] + [upward[i]];
          sent := sent + [InputEvent(Key(keys[|keys| - 1 - i]), false)];
        }
        assert upward[..|keys|] == upward;
      }
    }

    method ApplyProfileButton(i: nat, nowPressed: bool, profile: Profile)
      requires Valid() && i < 3
      modifies this, profileButtons, pressedActions
      ensures Valid() && Value() == Changed(old(Value()), i, nowPressed, profile.buttons[i])
    {
      hide Sent;
      if nowPressed == profileButtons[i] {
        if nowPressed && pressedActions[i].kind == Eraser {
          effectiveEraser := true;
        }
        return;
      }
      if profileButtons[i] {
        SendAction(pressedActions[i], false);
      }
      profileButtons[i] := nowPressed;
      if nowPressed {
        pressedActions[i] := profile.buttons[i];
        SendAction(pressedActions[i], true);
        if pressedActions[i].kind == Eraser {
          effectiveEraser := true;
        }
      } else {
        pressedActions[i] := NO_ACTION;
      }
    }

    method ApplyProfileButtons(pen: seq<bool>, eraser: bool, profile: Profile)
      requires Valid() && |pen| == 3
      modifies this, profileButtons, pressedActions
      ensures Valid() && Value() == Applied(old(Value()), pen, eraser, profile)
    {
      hide Changed;
      effectiveEraser := eraser;
      for i := 0 to 3
        invariant Valid() && Value() == ChangedUpTo(old(Value()).(eraser := eraser), i, pen, profile)
      {
        ApplyProfileButton(i, pen[i], profile);
      }
    }

    method ReleaseProfileActions()
      requires Valid()
      modifies this, profileButtons, pressedActions
      ensures Valid() && Value() == AllReleased(old(Value()))
    {
      hide Sent;
      for i := 0 to 3
        invariant Valid() && Value() == ReleasedUpTo(old(Value()), i)
      {
        if profileButtons[i] {
          SendAction(pressedActions[i], false);
        }
        profileButtons[i] := false;
        pressedActions[i] := NO_ACTION;
      }
      effectiveEraser := false;
    }
  }

  // Balance.

  /** How often the control went down less how often it went up. */
  function Balance(events: seq<InputEvent>, c: Control): int {
    if events == [] then 0
    else
      var last := events[|events| - 1];
      Balance(events[..|events| - 1], c) + if last.control != c then 0 else if last.down then 1 else -1
  }

  lemma {:induction false} BalanceAdds(a: seq<InputEvent>, b: seq<InputEvent>, c: Control)
    ensures Balance(a + b, c) == Balance(a, c) + Balance(b, c)
    decreases |b|
  {
    if b == [] {
      assert a + b == a;
    } else {
      assert (a + b)[..|a + b| - 1] == a + b[..|b| - 1];
      BalanceAdds(a, b[..|b| - 1], c);
    }
  }

  /** How many times an action presses the control. */
  function Presses(action: Action, c: Control): nat {
    if Silent(action) then 0
    else
      match c
      case Key(code) => multiset(action.virtualKeys)[code]
      case Mouse(button) => if action.kind == MouseAction && action.mouseButton == button then 1 else 0
  }

  lemma {:induction false} KeysBalance(keys: seq<u16>, down: bool, c: Control)
    ensures var n: int := if c.Key? then multiset(keys)[c.code] else 0;
            Balance(KeyEvents(keys, down), c) == if down then n else -n
  {
    if keys != [] {
      var before := keys[..|keys| - 1];
      assert keys == before + [keys[|keys| - 1]];
      KeysBalance(before, down, c);
      assert KeyEvents(keys, down)[..|keys| - 1] == KeyEvents(before, down);
    }
  }

  lemma {:induction false} BackwardsKeeps(keys: seq<u16>)
    ensures multiset(Backwards(keys)) == multiset(keys)
  {
    if keys != [] {
      var before, last := keys[..|keys| - 1], keys[|keys| - 1];
      assert keys == before + [last];
      assert Backwards(keys) == [last] + Backwards(before);
      BackwardsKeeps(before);
    } else {
      assert Backwards(keys) == [];
    }
  }

  lemma MouseBalance(action: Action, down: bool, c: Control)
    ensures var n: int := if c.Mouse? && action.kind == MouseAction && action.mouseButton == c.button then 1 else 0;
            Balance(MouseEvents(action, down), c) == if down then n else -n
  {
    if action.kind == MouseAction {
      var e := MouseEvents(action, down);
      assert e[..|e| - 1] == [] && Balance([], c) == 0;
    }
  }

  /** A press and the release of the same action cancel out. */
  lemma ActionBalance(action: Action, c: Control)
    ensures Balance(Sent(action, true), c) == Presses(action, c)
    ensures Balance(Sent(action, false), c) == -(Presses(action, c) as int)
  {
    hide KeyEvents, MouseEvents, Backwards;
    if !Silent(action) {
      var keys := action.virtualKeys;
      BackwardsKeeps(keys);
      KeysBalance(keys, true, c);
      KeysBalance(Backwards(keys), false, c);
      MouseBalance(action, true, c);
      MouseBalance(action, false, c);
      BalanceAdds(KeyEvents(keys, true), MouseEvents(action, true), c);
      BalanceAdds(MouseEvents(action, false), KeyEvents(Backwards(keys), false), c);
    }
  }

  /** Never has a control gone up more often than down. */
  ghost predicate NeverNegative(events: seq<InputEvent>, c: Control) {
    forall k | 0 <= k <= |events| :: Balance(events[..k], c) >= 0
  }

  /** The balance of a run of events in one direction moves in that direction. */
  lemma {:induction false} OneWay(events: seq<InputEvent>, down: bool, c: Control, k: nat)
    requires k <= |events| && forall e | e in events :: e.down == down
    ensures if down then 0 <= Balance(events[..k], c) else Balance(events, c) <= Balance(events[..k], c)
    decreases |events|
  {
    if k < |events| {
      assert events[..|events| - 1][..k] == events[..k];
      OneWay(events[..|events| - 1], down, c, k);
    } else {
      assert events[..k] == events;
      if down && k > 0 {
        OneWay(events[..k - 1], down, c, k - 1);
        assert events[..k - 1][..k - 1] == events[..k - 1];
      }
    }
  }

  lemma SentGoesOneWay(action: Action, down: bool)
    ensures forall e | e in Sent(action, down) :: e.down == down
  {
  }

  lemma {:induction false} StaysNonNegative(events: seq<InputEvent>, action: Action, down: bool, c: Control)
    requires NeverNegative(events, c)
    requires !down ==> Balance(events, c) >= Presses(action, c)
    ensures NeverNegative(events + Sent(action, down), c)
  {
    hide Sent, Presses;
    var more := Sent(action, down);
    ActionBalance(action, c);
    SentGoesOneWay(action, down);
    forall k | 0 <= k <= |events + more| ensures Balance((events + more)[..k], c) >= 0 {
      if k <= |events| {
        assert (events + more)[..k] == events[..k];
      } else {
        assert (events + more)[..k] == events + more[..k - |events|];
        BalanceAdds(events, more[..k - |events|], c);
        OneWay(more, down, c, k - |events|);
        assert events[..|events|] == events;
      }
    }
  }

  // Runs.

  datatype Call =
    | PenSample(buttons: (bool, bool, bool), eraser: bool, profile: Profile)
    | Release

  function Next(b: Buttons, call: Call): (r: Buttons)
    requires Three(b)
    ensures Three(r)
  {
    match call
    case PenSample(buttons, eraser, profile) => Applied(b, [buttons.0, buttons.1, buttons.2], eraser, profile)
    case Release => AllReleased(b)
  }

  function Run(calls: seq<Call>): (r: Buttons)
    ensures Three(r)
  {
    if calls == [] then RELEASED else Next(Run(calls[..|calls| - 1]), calls[|calls| - 1])
  }

  lemma RunOn(calls: seq<Call>, call: Call)
    ensures Run(calls + [call]) == Next(Run(calls), call) && Run([]) == RELEASED
  {
    assert (calls + [call])[..|calls|] == calls;
  }

  /** Any calls on the object leave it, and the events sent, where the run of the calls ends. */
  method Drive(calls: seq<Call>) returns (system: InputSystem)
    ensures fresh(system) && system.Valid() && system.Value() == Run(calls)
  {
    hide Run, Applied, AllReleased;
    system := new InputSystem();
    RunOn([], Release);
    for i := 0 to |calls|
      invariant fresh(system) && fresh(system.profileButtons) && fresh(system.pressedActions)
      invariant system.Valid() && system.Value() == Run(calls[..i])
    {
      RunOn(calls[..i], calls[i]);
      assert calls[..i] + [calls[i]] == calls[..i + 1];
      match calls[i] {
        case PenSample(buttons, eraser, profile) =>
          system.ApplyProfileButtons([buttons.0, buttons.1, buttons.2], eraser, profile);
        case Release => system.ReleaseProfileActions();
      }
    }
    assert calls[..|calls|] == calls;
  }

  function HeldPresses(b: Buttons, i: nat, c: Control): nat
    requires Three(b) && i < 3
  {
    if b.held[i] then Presses(b.pressed[i], c) else 0
  }

  /** How often the actions of the held buttons press the control. */
  function Multiplicity(b: Buttons, c: Control): nat
    requires Three(b)
  {
    HeldPresses(b, 0, c) + HeldPresses(b, 1, c) + HeldPresses(b, 2, c)
  }

  ghost predicate Balanced(b: Buttons, c: Control)
    requires Three(b)
  {
    Balance(b.sent, c) == Multiplicity(b, c) && NeverNegative(b.sent, c)
  }

  lemma ChangeKeeps(b: Buttons, i: nat, now: bool, action: Action, c: Control)
    requires Three(b) && i < 3 && Balanced(b, c)
    ensures Balanced(Changed(b, i, now, action), c)
  {
    hide Sent, Presses, NeverNegative, Balance;
    if now != b.held[i] {
      var changing := if now then action else b.pressed[i];
      ActionBalance(changing, c);
      BalanceAdds(b.sent, Sent(changing, now), c);
      StaysNonNegative(b.sent, changing, now, c);
    }
  }

  lemma {:induction false} ChangesKeep(b: Buttons, n: nat, pen: seq<bool>, profile: Profile, c: Control)
    requires Three(b) && n <= 3 && |pen| == 3 && Balanced(b, c)
    ensures Balanced(ChangedUpTo(b, n, pen, profile), c)
  {
    hide Changed, Balanced;
    if n > 0 {
      ChangesKeep(b, n - 1, pen, profile, c);
      ChangeKeeps(ChangedUpTo(b, n - 1, pen, profile), n - 1, pen[n - 1], profile.buttons[n - 1], c);
    }
  }

  lemma {:induction false} ReleasesKeep(b: Buttons, n: nat, c: Control)
    requires Three(b) && n <= 3 && Balanced(b, c)
    ensures Balanced(ReleasedUpTo(b, n), c)
  {
    hide Sent, Presses, NeverNegative, Balance;
    if n > 0 {
      ReleasesKeep(b, n - 1, c);
      var r := ReleasedUpTo(b, n - 1);
      if r.held[n - 1] {
        ActionBalance(r.pressed[n - 1], c);
        BalanceAdds(r.sent, Sent(r.pressed[n - 1], false), c);
        StaysNonNegative(r.sent, r.pressed[n - 1], false, c);
      } else {
        assert r.sent + [] == r.sent;
      }
    }
  }

  /** Over any run of pen samples, changes of profile and releases: a control was
      sent down as many times more than up as the held buttons' own actions
      press it, and never up more often than down. */
  lemma {:induction false} KeysAreBalanced(calls: seq<Call>, c: Control)
    ensures Balance(Run(calls).sent, c) == Multiplicity(Run(calls), c)
    ensures NeverNegative(Run(calls).sent, c)
  {
    if calls != [] {
      hide Balance, NeverNegative, Multiplicity, ChangedUpTo, ReleasedUpTo;
      var b, call := Run(calls[..|calls| - 1]), calls[|calls| - 1];
      KeysAreBalanced(calls[..|calls| - 1], c);
      match call
      case PenSample(buttons, eraser, profile) =>
        EraserIsApart(b, eraser, c);
        ChangesKeep(b.(eraser := eraser), 3, [buttons.0, buttons.1, buttons.2], profile, c);
      case Release =>
        ReleasesKeep(b, 3, c);
        EraserIsApart(ReleasedUpTo(b, 3), false, c);
    }
  }

  lemma EraserIsApart(b: Buttons, eraser: bool, c: Control)
    requires Three(b)
    ensures Multiplicity(b.(eraser := eraser), c) == Multiplicity(b, c)
  {
  }

  lemma {:induction false} ReleasedHolds(b: Buttons, n: nat, i: nat)
    requires Three(b) && n <= 3 && i < n
    ensures !ReleasedUpTo(b, n).held[i]
  {
    if i < n - 1 {
      ReleasedHolds(b, n - 1, i);
    }
  }

  /** After `ReleaseProfileActions` nothing is down. */
  lemma {:induction false} NothingHeldAfterRelease(calls: seq<Call>, c: Control)
    requires calls != [] && calls[|calls| - 1].Release?
    ensures Balance(Run(calls).sent, c) == 0
  {
    hide ReleasedUpTo, Balance, NeverNegative, Presses;
    KeysAreBalanced(calls, c);
    var b := Run(calls[..|calls| - 1]);
    ReleasedHolds(b, 3, 0);
    ReleasedHolds(b, 3, 1);
    ReleasedHolds(b, 3, 2);
  }

  /** A click with modifiers: all keys of the action are down before the mouse
      button goes down, and none goes up before it does. */
  lemma ModifiersHeldAroundClick(action: Action, code: u16)
    requires action.kind == MouseAction
    ensures var down, up := Sent(action, true), Sent(action, false);
            && down != [] && down[|down| - 1] == InputEvent(Mouse(action.mouseButton), true)
            && Balance(down[..|down| - 1], Key(code)) == multiset(action.virtualKeys)[code]
            && up != [] && up[0] == InputEvent(Mouse(action.mouseButton), false)
            && Balance(up[1..], Key(code)) == -(multiset(action.virtualKeys)[code] as int)
  {
    hide KeyEvents, Backwards, Balance;
    var keys := action.virtualKeys;
    KeysBalance(keys, true, Key(code));
    KeysBalance(Backwards(keys), false, Key(code));
    BackwardsKeeps(keys);
    var down, up := Sent(action, true), Sent(action, false);
    assert down[..|down| - 1] == KeyEvents(keys, true) && up[1..] == KeyEvents(Backwards(keys), false);
  }

  /** The same events backwards, with up for down. */
  function Mirrored(events: seq<InputEvent>): seq<InputEvent> {
    seq(|events|, i requires 0 <= i < |events| => events[|events| - 1 - i].(down := !events[|events| - 1 - i].down))
  }

  /** A release mirrors the press of the same action. */
  lemma ReleaseMirrorsPress(action: Action)
    ensures Sent(action, false) == Mirrored(Sent(action, true))
  {
    var down, up := Sent(action, true), Sent(action, false);
    assert |up| == |down|;
    forall i | 0 <= i < |up| ensures up[i] == Mirrored(down)[i] {
    }
  }

  /** What was sent when button i was last pressed. */
  function PressEvents(calls: seq<Call>, i: nat): seq<InputEvent>
    requires i < 3
  {
    if calls == [] then []
    else
      var before, now := Run(calls[..|calls| - 1]), Run(calls);
      if now.held[i] && !before.held[i] && calls[|calls| - 1].PenSample?
      then Sent(calls[|calls| - 1].profile.buttons[i], true)
      else PressEvents(calls[..|calls| - 1], i)
  }

  lemma ButtonStep(b: Buttons, i: nat, now: bool, action: Action)
    requires Three(b) && i < 3
    ensures var r := Changed(b, i, now, action);
            && r.held[i] == now
            && r.pressed[i] == (if now == b.held[i] then b.pressed[i] else if now then action else NO_ACTION)
            && (r.eraser <==> b.eraser || (r.held[i] && r.pressed[i].kind == Eraser))
            && forall k | 0 <= k < 3 && k != i :: r.held[k] == b.held[k] && r.pressed[k] == b.pressed[k]
  {
    hide Sent;
  }

  /** Button i after the first n buttons were handled. */
  lemma {:induction false} ButtonAfter(b: Buttons, n: nat, pen: seq<bool>, profile: Profile, i: nat)
    requires Three(b) && i < 3 && n <= 3 && |pen| == 3
    ensures var r := ChangedUpTo(b, n, pen, profile);
            && r.held[i] == (if n <= i then b.held[i] else pen[i])
            && r.pressed[i] ==
                 if n <= i || pen[i] == b.held[i] then b.pressed[i]
                 else if pen[i] then profile.buttons[i] else NO_ACTION
  {
    hide Changed;
    if n > 0 {
      ButtonAfter(b, n - 1, pen, profile, i);
      ButtonStep(ChangedUpTo(b, n - 1, pen, profile), n - 1, pen[n - 1], profile.buttons[n - 1]);
    }
  }

  /** Whatever happened to the profiles since, the action a held button keeps is
      the one it was pressed with, so its release undoes its own press. */
  lemma {:induction false} ReleaseUndoesItsPress(calls: seq<Call>, i: nat)
    requires i < 3 && Run(calls).held[i]
    ensures PressEvents(calls, i) == Sent(Run(calls).pressed[i], true)
    ensures Sent(Run(calls).pressed[i], false) == Mirrored(PressEvents(calls, i))
  {
    hide Sent, Mirrored, ChangedUpTo, ReleasedUpTo;
    ReleaseMirrorsPress(Run(calls).pressed[i]);
    if calls != [] {
      var b, call := Run(calls[..|calls| - 1]), calls[|calls| - 1];
      match call
      case PenSample(buttons, eraser, profile) =>
        ButtonAfter(b.(eraser := eraser), 3, [buttons.0, buttons.1, buttons.2], profile, i);
        if b.held[i] {
          ReleaseUndoesItsPress(calls[..|calls| - 1], i);
        }
      case Release =>
        ReleasedHolds(b, 3, i);
        assert false;
    }
  }

  /** What handling button i adds to the events, when the button was as in b. */
  function Added(b: Buttons, i: nat, now: bool, action: Action): seq<InputEvent>
    requires Three(b) && i < 3
  {
    if now == b.held[i] then [] else if now then Sent(action, true) else Sent(b.pressed[i], false)
  }

  lemma ChangeAdds(b: Buttons, i: nat, now: bool, action: Action)
    requires Three(b) && i < 3
    ensures Changed(b, i, now, action).sent == b.sent + Added(b, i, now, action)
  {
    hide Sent;
  }

  lemma PenAdds(b: Buttons, pen: seq<bool>, profile: Profile)
    requires Three(b) && |pen| == 3
    ensures ChangedUpTo(b, 3, pen, profile).sent
         == b.sent + Added(b, 0, pen[0], profile.buttons[0]) + Added(b, 1, pen[1], profile.buttons[1])
                   + Added(b, 2, pen[2], profile.buttons[2])
  {
    var one, two := ChangedUpTo(b, 1, pen, profile), ChangedUpTo(b, 2, pen, profile);
    assert ChangedUpTo(b, 0, pen, profile) == b;
    assert one == Changed(b, 0, pen[0], profile.buttons[0]) && two == Changed(one, 1, pen[1], profile.buttons[1]);
    assert ChangedUpTo(b, 3, pen, profile) == Changed(two, 2, pen[2], profile.buttons[2]);
    hide Sent, Changed, ChangedUpTo;
    ChangeAdds(b, 0, pen[0], profile.buttons[0]);
    ChangeAdds(one, 1, pen[1], profile.buttons[1]);
    ChangeAdds(two, 2, pen[2], profile.buttons[2]);
    ButtonAfter(b, 1, pen, profile, 1);
    ButtonAfter(b, 2, pen, profile, 2);
  }

  lemma ReleaseAdds(b: Buttons)
    requires Three(b)
    ensures AllReleased(b).sent
         == b.sent + Added(b, 0, false, NO_ACTION) + Added(b, 1, false, NO_ACTION) + Added(b, 2, false, NO_ACTION)
  {
    hide Sent;
    var one, two := ReleasedUpTo(b, 1), ReleasedUpTo(b, 2);
    assert ReleasedUpTo(b, 0) == b;
    assert one.sent == b.sent + Added(b, 0, false, NO_ACTION);
    assert one.held[1] == b.held[1] && one.pressed[1] == b.pressed[1];
    assert two.sent == one.sent + Added(b, 1, false, NO_ACTION);
    assert two.held[2] == b.held[2] && two.pressed[2] == b.pressed[2];
  }

  /** What the last call does for button i: the events of a press, which from
      then on are the button's press events; or those of its press, mirrored. */
  function Segment(calls: seq<Call>, i: nat): seq<InputEvent>
    requires calls != [] && i < 3
  {
    var before, was, now := calls[..|calls| - 1], Run(calls[..|calls| - 1]).held[i], Run(calls).held[i];
    if was && !now then Mirrored(PressEvents(before, i))
    else if now && !was then PressEvents(calls, i)
    else []
  }

  /** The recorded events, call by call and button by button: every release on
      record is the mirror image of that button's own press on record. */
  lemma {:induction false} EventsOnRecord(calls: seq<Call>)
    requires calls != []
    ensures Run(calls).sent
         == Run(calls[..|calls| - 1]).sent + Segment(calls, 0) + Segment(calls, 1) + Segment(calls, 2)
  {
    hide Sent, Mirrored, ChangedUpTo, ReleasedUpTo, Added, Segment, PressEvents;
    var b, call := Run(calls[..|calls| - 1]), calls[|calls| - 1];
    match call
    case PenSample(buttons, eraser, profile) =>
      var pen := [buttons.0, buttons.1, buttons.2];
      PenAdds(b.(eraser := eraser), pen, profile);
      PenSegment(calls, 0);
      PenSegment(calls, 1);
      PenSegment(calls, 2);
    case Release =>
      ReleaseAdds(b);
      ReleaseSegment(calls, 0);
      ReleaseSegment(calls, 1);
      ReleaseSegment(calls, 2);
  }

  lemma {:induction false} PenSegment(calls: seq<Call>, i: nat)
    requires calls != [] && calls[|calls| - 1].PenSample? && i < 3
    ensures var PenSample(buttons, eraser, profile) := calls[|calls| - 1];
            var pen := [buttons.0, buttons.1, buttons.2];
            Segment(calls, i) == Added(Run(calls[..|calls| - 1]).(eraser := eraser), i, pen[i], profile.buttons[i])
  {
    hide Sent, Mirrored, ChangedUpTo, ReleasedUpTo;
    var PenSample(buttons, eraser, profile) := calls[|calls| - 1];
    var b := Run(calls[..|calls| - 1]);
    ButtonAfter(b.(eraser := eraser), 3, [buttons.0, buttons.1, buttons.2], profile, i);
    if b.held[i] {
      ReleaseUndoesItsPress(calls[..|calls| - 1], i);
    }
  }

  lemma {:induction false} ReleaseSegment(calls: seq<Call>, i: nat)
    requires calls != [] && calls[|calls| - 1].Release? && i < 3
    ensures Segment(calls, i) == Added(Run(calls[..|calls| - 1]), i, false, NO_ACTION)
  {
    hide Sent, Mirrored, ChangedUpTo, ReleasedUpTo;
    var b := Run(calls[..|calls| - 1]);
    ReleasedHolds(b, 3, i);
    if b.held[i] {
      ReleaseUndoesItsPress(calls[..|calls| - 1], i);
    }
  }

  lemma {:induction false} EraserAfter(b: Buttons, n: nat, pen: seq<bool>, profile: Profile)
    requires Three(b) && n <= 3 && |pen| == 3
    ensures var r := ChangedUpTo(b, n, pen, profile);
            r.eraser <==> b.eraser || exists i | 0 <= i < n :: r.held[i] && r.pressed[i].kind == Eraser
  {
    hide Changed;
    if n > 0 {
      EraserAfter(b, n - 1, pen, profile);
      ButtonStep(ChangedUpTo(b, n - 1, pen, profile), n - 1, pen[n - 1], profile.buttons[n - 1]);
    }
  }

  /** After a pen sample the stroke erases exactly when the pen's own eraser is
      down or a held button was pressed with the eraser action. */
  lemma {:induction false} ErasesExactlyWhenAsked(calls: seq<Call>)
    requires calls != [] && calls[|calls| - 1].PenSample?
    ensures var r := Run(calls);
            r.eraser <==> calls[|calls| - 1].eraser || exists i | 0 <= i < 3 :: r.held[i] && r.pressed[i].kind == Eraser
  {
    var PenSample(buttons, eraser, profile) := calls[|calls| - 1];
    EraserAfter(Run(calls[..|calls| - 1]).(eraser := eraser), 3, [buttons.0, buttons.1, buttons.2], profile);
  }

  // Whether a control is down: a key has two states, and its last event tells.

  predicate IsDown(events: seq<InputEvent>, c: Control) {
    if events == [] then false
    else
      var last := events[|events| - 1];
      if last.control == c then last.down else IsDown(events[..|events| - 1], c)
  }

  predicate Touches(events: seq<InputEvent>, c: Control) {
    exists i | 0 <= i < |events| :: events[i].control == c
  }

  /** After events in one direction a control they touch is in that state. */
  lemma {:induction false} DownAfter(events: seq<InputEvent>, more: seq<InputEvent>, down: bool, c: Control)
    requires forall e | e in more :: e.down == down
    ensures IsDown(events + more, c) == if Touches(more, c) then down else IsDown(events, c)
    decreases |more|
  {
    if more == [] {
      assert events + more == events;
    } else {
      var before, last := more[..|more| - 1], more[|more| - 1];
      assert (events + more)[..|events + more| - 1] == events + before;
      DownAfter(events, before, down, c);
      assert Touches(more, c) <==> Touches(before, c) || last.control == c by {
        assert forall i | 0 <= i < |before| :: more[i] == before[i];
      }
      assert last in more;
    }
  }

  lemma {:induction false} TouchingCounts(events: seq<InputEvent>, down: bool, c: Control)
    requires forall e | e in events :: e.down == down
    ensures if down then Balance(events, c) >= 0 else Balance(events, c) <= 0
    ensures Touches(events, c) <==> Balance(events, c) != 0
  {
    if events != [] {
      var before, last := events[..|events| - 1], events[|events| - 1];
      TouchingCounts(before, down, c);
      assert last in events;
      assert Touches(events, c) <==> Touches(before, c) || last.control == c by {
        assert forall i | 0 <= i < |before| :: events[i] == before[i];
      }
    }
  }

  lemma SentDown(events: seq<InputEvent>, action: Action, down: bool, c: Control)
    ensures IsDown(events + Sent(action, down), c) == if Presses(action, c) > 0 then down else IsDown(events, c)
  {
    hide Sent, Presses, IsDown, Touches, Balance;
    SentGoesOneWay(action, down);
    ActionBalance(action, c);
    TouchingCounts(Sent(action, down), down, c);
    DownAfter(events, Sent(action, down), down, c);
  }

  /** The control is down exactly when some held button's action presses it. */
  ghost predicate StateFits(b: Buttons, c: Control)
    requires Three(b)
  {
    IsDown(b.sent, c) <==> Multiplicity(b, c) > 0
  }

  /** Handling button i releases the control while another held button still presses it. */
  predicate ReleasesShared(b: Buttons, i: nat, now: bool, c: Control)
    requires Three(b) && i < 3
  {
    && b.held[i] && !now && Presses(b.pressed[i], c) > 0
    && exists j | 0 <= j < 3 && j != i :: b.held[j] && Presses(b.pressed[j], c) > 0
  }

  /** The exact condition, for one button: afterwards the state of the control
      fits if and only if the button pressed it, or released it and no other held
      button presses it, or left it alone and the state fitted before. */
  lemma ChangeFits(b: Buttons, i: nat, now: bool, action: Action, c: Control)
    requires Three(b) && i < 3
    ensures var r := Changed(b, i, now, action);
            StateFits(r, c) <==>
              if b.held[i] == now then StateFits(b, c)
              else if now then Presses(action, c) > 0 || StateFits(b, c)
              else if Presses(b.pressed[i], c) > 0 then !ReleasesShared(b, i, now, c)
              else StateFits(b, c)
  {
    hide Sent, Presses, IsDown;
    if b.held[i] != now {
      SentDown(b.sent, if now then action else b.pressed[i], now, c);
    }
  }

  /** No key and no mouse button is left down that no held button presses. */
  ghost predicate NothingStuck(b: Buttons, c: Control)
    requires Three(b)
  {
    IsDown(b.sent, c) ==> Multiplicity(b, c) > 0
  }

  lemma ChangeLeavesNothingStuck(b: Buttons, i: nat, now: bool, action: Action, c: Control)
    requires Three(b) && i < 3 && NothingStuck(b, c)
    ensures NothingStuck(Changed(b, i, now, action), c)
  {
    hide Sent, Presses, IsDown;
    if b.held[i] != now {
      SentDown(b.sent, if now then action else b.pressed[i], now, c);
    }
  }

  /** A release of button i is a change to not pressed, the eraser aside. */
  lemma ReleaseIsChange(b: Buttons, n: nat)
    requires Three(b) && 0 < n <= 3
    ensures var r, d := ReleasedUpTo(b, n), Changed(ReleasedUpTo(b, n - 1), n - 1, false, NO_ACTION);
            && Three(d) && r.held == d.held && r.sent == d.sent
            && forall i | 0 <= i < 3 && r.held[i] :: r.pressed[i] == d.pressed[i]
  {
    hide Sent;
    var q := ReleasedUpTo(b, n - 1);
    assert q.sent + [] == q.sent;
    assert !q.held[n - 1] ==> q.held[n - 1 := false] == q.held;
  }

  lemma SameHeld(a: Buttons, b: Buttons, c: Control)
    requires Three(a) && Three(b) && a.held == b.held && a.sent == b.sent
    requires forall i | 0 <= i < 3 && a.held[i] :: a.pressed[i] == b.pressed[i]
    ensures Multiplicity(a, c) == Multiplicity(b, c) && StateFits(a, c) == StateFits(b, c)
    ensures NothingStuck(a, c) == NothingStuck(b, c)
  {
  }

  lemma {:induction false} PenLeavesNothingStuck(b: Buttons, n: nat, pen: seq<bool>, profile: Profile, c: Control)
    requires Three(b) && n <= 3 && |pen| == 3 && NothingStuck(b, c)
    ensures NothingStuck(ChangedUpTo(b, n, pen, profile), c)
  {
    hide Changed, NothingStuck;
    if n > 0 {
      PenLeavesNothingStuck(b, n - 1, pen, profile, c);
      ChangeLeavesNothingStuck(ChangedUpTo(b, n - 1, pen, profile), n - 1, pen[n - 1], profile.buttons[n - 1], c);
    }
  }

  lemma {:induction false} ReleaseLeavesNothingStuck(b: Buttons, n: nat, c: Control)
    requires Three(b) && n <= 3 && NothingStuck(b, c)
    ensures NothingStuck(ReleasedUpTo(b, n), c)
  {
    hide Changed, NothingStuck;
    if n > 0 {
      ReleaseLeavesNothingStuck(b, n - 1, c);
      var q := ReleasedUpTo(b, n - 1);
      hide ReleasedUpTo;
      ReleaseIsChange(b, n);
      ChangeLeavesNothingStuck(q, n - 1, false, NO_ACTION, c);
      SameHeld(ReleasedUpTo(b, n), Changed(q, n - 1, false, NO_ACTION), c);
    }
  }

  /** Over any run, whatever the profiles: a control that is down is pressed by
      the action of a held button. */
  lemma {:induction false} NothingEverStuck(calls: seq<Call>, c: Control)
    ensures NothingStuck(Run(calls), c)
  {
    if calls != [] {
      hide NothingStuck, ChangedUpTo, ReleasedUpTo;
      var b, call := Run(calls[..|calls| - 1]), calls[|calls| - 1];
      NothingEverStuck(calls[..|calls| - 1], c);
      match call
      case PenSample(buttons, eraser, profile) =>
        SameHeld(b, b.(eraser := eraser), c);
        PenLeavesNothingStuck(b.(eraser := eraser), 3, [buttons.0, buttons.1, buttons.2], profile, c);
      case Release =>
        ReleaseLeavesNothingStuck(b, 3, c);
        SameHeld(ReleasedUpTo(b, 3), ReleasedUpTo(b, 3).(eraser := false), c);
    } else {
      StartsFit(c);
    }
  }

  lemma StartsFit(c: Control)
    ensures StateFits(RELEASED, c) && NothingStuck(RELEASED, c)
  {
  }

  // One profile.

  ghost predicate OnlyProfile(calls: seq<Call>, profile: Profile) {
    forall k | 0 <= k < |calls| && calls[k].PenSample? :: calls[k].profile == profile
  }

  /** No two buttons of the profile press the control. */
  predicate Exclusive(profile: Profile, c: Control) {
    forall i, j | 0 <= i < j < 3 :: Presses(profile.buttons[i], c) == 0 || Presses(profile.buttons[j], c) == 0
  }

  /** Held buttons keep actions of the profile. */
  ghost predicate FromProfile(b: Buttons, profile: Profile)
    requires Three(b)
  {
    forall i | 0 <= i < 3 && b.held[i] :: b.pressed[i] == profile.buttons[i]
  }

  lemma ChangeFitsExclusive(b: Buttons, i: nat, now: bool, profile: Profile, c: Control)
    requires Three(b) && i < 3 && Exclusive(profile, c) && FromProfile(b, profile) && StateFits(b, c)
    ensures var r := Changed(b, i, now, profile.buttons[i]); FromProfile(r, profile) && StateFits(r, c)
  {
    hide StateFits, Presses, Sent;
    ChangeFits(b, i, now, profile.buttons[i], c);
    forall j | 0 <= j < 3 && j != i
      ensures Presses(profile.buttons[i], c) == 0 || Presses(profile.buttons[j], c) == 0
    {
      var low, high := if i < j then i else j, if i < j then j else i;
      assert Presses(profile.buttons[low], c) == 0 || Presses(profile.buttons[high], c) == 0;
    }
  }

  lemma {:induction false} PenFitsExclusive(b: Buttons, n: nat, pen: seq<bool>, profile: Profile, c: Control)
    requires Three(b) && n <= 3 && |pen| == 3 && Exclusive(profile, c) && FromProfile(b, profile) && StateFits(b, c)
    ensures var r := ChangedUpTo(b, n, pen, profile); FromProfile(r, profile) && StateFits(r, c)
  {
    hide Changed, StateFits, FromProfile, Exclusive;
    if n > 0 {
      PenFitsExclusive(b, n - 1, pen, profile, c);
      ChangeFitsExclusive(ChangedUpTo(b, n - 1, pen, profile), n - 1, pen[n - 1], profile, c);
    }
  }

  lemma {:induction false} RunFitsExclusive(calls: seq<Call>, profile: Profile, c: Control)
    requires OnlyProfile(calls, profile) && Exclusive(profile, c)
    ensures FromProfile(Run(calls), profile) && StateFits(Run(calls), c)
  {
    if calls != [] {
      hide StateFits, ChangedUpTo, ReleasedUpTo, Exclusive;
      var b, call := Run(calls[..|calls| - 1]), calls[|calls| - 1];
      RunFitsExclusive(calls[..|calls| - 1], profile, c);
      match call
      case PenSample(buttons, eraser, _) =>
        SameHeld(b, b.(eraser := eraser), c);
        PenFitsExclusive(b.(eraser := eraser), 3, [buttons.0, buttons.1, buttons.2], profile, c);
      case Release =>
        ReleasedHolds(b, 3, 0);
        ReleasedHolds(b, 3, 1);
        ReleasedHolds(b, 3, 2);
        NothingEverStuck(calls, c);
    } else {
      StartsFit(c);
    }
  }

  function Bits(i: nat, j: nat): (bool, bool, bool) {
    (i == 0 || j == 0, i == 1 || j == 1, i == 2 || j == 2)
  }

  /** Press both buttons, release one: the control goes up although the other
      button still presses it. */
  lemma SharedKeyGoesUp(profile: Profile, i: nat, j: nat, c: Control)
    requires i < 3 && j < 3 && i != j && Presses(profile.buttons[i], c) > 0 && Presses(profile.buttons[j], c) > 0
    ensures var calls := [PenSample(Bits(i, j), false, profile), PenSample(Bits(j, j), false, profile)];
            !IsDown(Run(calls).sent, c) && Multiplicity(Run(calls), c) > 0
  {
    hide Presses, Sent, IsDown, Run, ChangedUpTo;
    var first, second := PenSample(Bits(i, j), false, profile), PenSample(Bits(j, j), false, profile);
    RunOn([], first);
    RunOn([first], second);
    assert [] + [first] == [first] && [first] + [second] == [first, second];
    var both, one := [Bits(i, j).0, Bits(i, j).1, Bits(i, j).2], [Bits(j, j).0, Bits(j, j).1, Bits(j, j).2];
    var b := ChangedUpTo(RELEASED.(eraser := false), 3, both, profile).(eraser := false);
    BothHeld(profile, i, j, both);
    OneReleased(b, profile, i, j, one, c);
  }

  lemma BothHeld(profile: Profile, i: nat, j: nat, pen: seq<bool>)
    requires i < 3 && j < 3 && i != j && |pen| == 3 && forall k | 0 <= k < 3 :: pen[k] <==> k == i || k == j
    ensures var r := ChangedUpTo(RELEASED.(eraser := false), 3, pen, profile);
            forall k | 0 <= k < 3 :: r.held[k] == pen[k] && (pen[k] ==> r.pressed[k] == profile.buttons[k])
  {
    hide ChangedUpTo;
    ButtonAfter(RELEASED.(eraser := false), 3, pen, profile, 0);
    ButtonAfter(RELEASED.(eraser := false), 3, pen, profile, 1);
    ButtonAfter(RELEASED.(eraser := false), 3, pen, profile, 2);
  }

  lemma OneReleased(b: Buttons, profile: Profile, i: nat, j: nat, pen: seq<bool>, c: Control)
    requires Three(b) && i < 3 && j < 3 && i != j && |pen| == 3 && forall k | 0 <= k < 3 :: pen[k] <==> k == j
    requires forall k | 0 <= k < 3 :: b.held[k] <==> k == i || k == j
    requires b.pressed[i] == profile.buttons[i] && b.pressed[j] == profile.buttons[j]
    requires Presses(profile.buttons[i], c) > 0 && Presses(profile.buttons[j], c) > 0
    ensures var r := ChangedUpTo(b, 3, pen, profile); !IsDown(r.sent, c) && Multiplicity(r, c) > 0
  {
    hide Presses, Sent, IsDown, ChangedUpTo;
    PenAdds(b, pen, profile);
    ButtonAfter(b, 3, pen, profile, j);
    SentDown(b.sent, profile.buttons[i], false, c);
    var up := Sent(profile.buttons[i], false);
    assert b.sent + [] == b.sent && (b.sent + up) + [] == b.sent + up;
    assert ChangedUpTo(b, 3, pen, profile).sent == b.sent + up;
  }

  /** For a profile and a control: in every run of that profile the control is
      down exactly while a held button presses it, if and only if no two buttons
      of the profile press it. */
  lemma StateFitsExactlyWhenExclusive(profile: Profile, c: Control)
    ensures (forall calls | OnlyProfile(calls, profile) :: StateFits(Run(calls), c)) <==> Exclusive(profile, c)
  {
    hide Presses, StateFits, Run;
    if Exclusive(profile, c) {
      forall calls | OnlyProfile(calls, profile) ensures StateFits(Run(calls), c) {
        RunFitsExclusive(calls, profile, c);
      }
    } else {
      var i, j :| 0 <= i < j < 3 && Presses(profile.buttons[i], c) > 0 && Presses(profile.buttons[j], c) > 0;
      SharedKeyGoesUp(profile, i, j, c);
      var calls := [PenSample(Bits(i, j), false, profile), PenSample(Bits(j, j), false, profile)];
      assert OnlyProfile(calls, profile);
      DoesNotFit(Run(calls), c);
    }
  }

  lemma DoesNotFit(b: Buttons, c: Control)
    requires Three(b) && !IsDown(b.sent, c) && Multiplicity(b, c) > 0
    ensures !StateFits(b, c)
  {
  }
}
