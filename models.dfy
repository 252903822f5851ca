/**
 * The event model of the WPF application: the recorded input actions, their fixed type
 * discriminators, and the `Recording` aggregate with its derived total duration.
 * Timestamps are `TimeSpan`s since the recording started, kept here as whole milliseconds.
 */
module Models {
  import opened Wrappers

  datatype ActionType = MouseMove | MouseClick | MouseWheel | KeyDown | KeyUp

  /** The abstract `InputAction`: the timestamp it declares, and which subclass carries what. */
  datatype InputAction = InputAction(timestamp: int, kind: ActionKind)

  /** The four concrete subclasses of `InputAction`, without the inherited timestamp. */
  datatype ActionKind =
    | MouseMoveAction(x: int, y: int)
    | MouseClickAction(x: int, y: int, isLeftButton: bool, isDown: bool)
    | MouseWheelAction(delta: int, x: int, y: int)
    | KeyAction(keyCode: int, isDown: bool, keyName: Option<string>)

  /**
   * The `ActionType` property as each subclass overrides it. A key action reports
   * `KeyDown` whatever its `IsDown` says.
   */
  function ActionTypeOf(a: InputAction): (t: ActionType)
    ensures t != KeyUp
    ensures a.kind.MouseMoveAction? <==> t == MouseMove
    ensures a.kind.MouseClickAction? <==> t == MouseClick
    ensures a.kind.MouseWheelAction? <==> t == MouseWheel
    ensures a.kind.KeyAction? <==> t == KeyDown
  {
    match a.kind
    case MouseMoveAction(_, _) => MouseMove
    case MouseClickAction(_, _, _, _) => MouseClick
    case MouseWheelAction(_, _, _) => MouseWheel
    case KeyAction(_, _, _) => KeyDown
  }

  /** The discriminator the enum evidently intends: a released key reports `KeyUp`. */
  function IntendedActionTypeOf(a: InputAction): (t: ActionType)
    ensures t == KeyDown <==> a.kind.KeyAction? && a.kind.isDown
    ensures t == KeyUp <==> a.kind.KeyAction? && !a.kind.isDown
    ensures !a.kind.KeyAction? ==> t == ActionTypeOf(a)
  {
    if a.kind.KeyAction? then (if a.kind.isDown then KeyDown else KeyUp) else ActionTypeOf(a)
  }

  /** A released key is reported as pressed: the discriminator loses the transition. */
  lemma KeyReleaseReportsKeyDown()
    ensures ActionTypeOf(InputAction(0, KeyAction(0x41, false, None))) == KeyDown
    ensures IntendedActionTypeOf(InputAction(0, KeyAction(0x41, false, None))) == KeyUp
  {
  }

  type Guid = nat

  datatype Recording = Recording(id: Guid, name: string, createdAt: int, actions: seq<InputAction>)

  const DefaultName: string := "新建录制"

  /** `new Recording()`: a fresh id and the current time, no actions, the default name. */
  function NewRecording(freshId: Guid, now: int): (r: Recording)
    ensures r.actions == [] && r.name == DefaultName
    ensures r.id == freshId && r.createdAt == now
    ensures TotalDuration(r) == 0
  {
    Recording(freshId, DefaultName, now, [])
  }

  predicate HasTimestamp(s: seq<InputAction>, t: int)
  {
    exists k :: 0 <= k < |s| && s[k].timestamp == t
  }

  /** `Actions.Max(a => a.Timestamp)`. */
  function MaxTimestamp(s: seq<InputAction>): (m: int)
    requires |s| > 0
    ensures HasTimestamp(s, m)
    ensures forall k :: 0 <= k < |s| ==> s[k].timestamp <= m
  {
    if |s| == 1 then s[0].timestamp
    else
      var rest := MaxTimestamp(s[1..]);
      if s[0].timestamp >= rest then s[0].timestamp
      else
        assert forall k :: 1 <= k < |s| ==> s[k] == s[1..][k - 1];
        rest
  }

  /** `Actions.Min(a => a.Timestamp)`. */
  function MinTimestamp(s: seq<InputAction>): (m: int)
    requires |s| > 0
    ensures HasTimestamp(s, m)
    ensures forall k :: 0 <= k < |s| ==> m <= s[k].timestamp
  {
    if |s| == 1 then s[0].timestamp
    else
      var rest := MinTimestamp(s[1..]);
      if s[0].timestamp <= rest then s[0].timestamp
      else
        assert forall k :: 1 <= k < |s| ==> s[k] == s[1..][k - 1];
        rest
  }

  /**
   * `TotalDuration`: the spread of the timestamps, zero when there are no actions. It is
   * the largest difference between two timestamps, attained by some pair.
   */
  function TotalDuration(r: Recording): (d: int)
    ensures d >= 0
    ensures r.actions == [] ==> d == 0
    ensures forall i, j :: 0 <= i < |r.actions| && 0 <= j < |r.actions| ==>
                            r.actions[i].timestamp - r.actions[j].timestamp <= d
    ensures r.actions != [] ==>
              exists i, j :: 0 <= i < |r.actions| && 0 <= j < |r.actions| &&
                             r.actions[i].timestamp - r.actions[j].timestamp == d
  {
    if |r.actions| > 0 then MaxTimestamp(r.actions) - MinTimestamp(r.actions) else 0
  }

  /** Two action lists with the same timestamps (as sets) have the same maximum and minimum. */
  lemma {:induction false} SameTimestampsSameExtremes(s: seq<InputAction>, t: seq<InputAction>)
    requires |s| > 0 && |t| > 0
    requires forall x :: HasTimestamp(s, x) <==> HasTimestamp(t, x)
    ensures MaxTimestamp(s) == MaxTimestamp(t) && MinTimestamp(s) == MinTimestamp(t)
  {
    var ms, mt := MaxTimestamp(s), MaxTimestamp(t);
    assert HasTimestamp(t, ms) && HasTimestamp(s, mt);
    var ns, nt := MinTimestamp(s), MinTimestamp(t);
    assert HasTimestamp(t, ns) && HasTimestamp(s, nt);
  }

  /** `TotalDuration` does not depend on the order of the actions. */
  lemma {:induction false} TotalDurationIgnoresOrder(r: Recording, r': Recording)
    requires multiset(r.actions) == multiset(r'.actions)
    ensures TotalDuration(r) == TotalDuration(r')
  {
    if |r.actions| > 0 {
      assert |r'.actions| == |multiset(r'.actions)| == |multiset(r.actions)| == |r.actions|;
      forall x ensures HasTimestamp(r.actions, x) <==> HasTimestamp(r'.actions, x) {
        if HasTimestamp(r.actions, x) {
          var k :| 0 <= k < |r.actions| && r.actions[k].timestamp == x;
          assert r.actions[k] in multiset(r'.actions);
        }
        if HasTimestamp(r'.actions, x) {
          var k :| 0 <= k < |r'.actions| && r'.actions[k].timestamp == x;
          assert r'.actions[k] in multiset(r.actions);
        }
      }
      SameTimestampsSameExtremes(r.actions, r'.actions);
    } else {
      assert |r'.actions| == |multiset(r'.actions)| == 0;
    }
  }

  /** A recording with a single action lasts zero. */
  lemma SingleActionLastsZero(r: Recording)
    requires |r.actions| == 1
    ensures TotalDuration(r) == 0
  {
  }

  /** Every timestamp moved by `c`, everything else kept. */
  function Shifted(s: seq<InputAction>, c: int): (s': seq<InputAction>)
    ensures |s'| == |s|
    ensures forall k :: 0 <= k < |s| ==> s'[k] == s[k].(timestamp := s[k].timestamp + c)
  {
    seq(|s|, k requires 0 <= k < |s| => s[k].(timestamp := s[k].timestamp + c))
  }

  /** Shifting every timestamp moves the latest one by the same amount. */
  lemma MaxTimestampShift(s: seq<InputAction>, c: int)
    requires |s| > 0
    ensures MaxTimestamp(Shifted(s, c)) == MaxTimestamp(s) + c
  {
    var s' := Shifted(s, c);
    var m, m' := MaxTimestamp(s), MaxTimestamp(s');
    var i :| 0 <= i < |s| && s[i].timestamp == m;
    var i' :| 0 <= i' < |s'| && s'[i'].timestamp == m';
    assert s'[i].timestamp == m + c;
    assert s[i'].timestamp == m' - c;
  }

  /** Shifting every timestamp moves the earliest one by the same amount. */
  lemma MinTimestampShift(s: seq<InputAction>, c: int)
    requires |s| > 0
    ensures MinTimestamp(Shifted(s, c)) == MinTimestamp(s) + c
  {
    var s' := Shifted(s, c);
    var m, m' := MinTimestamp(s), MinTimestamp(s');
    var i :| 0 <= i < |s| && s[i].timestamp == m;
    var i' :| 0 <= i' < |s'| && s'[i'].timestamp == m';
    assert s'[i].timestamp == m + c;
    assert s[i'].timestamp == m' - c;
  }

  /** Shifting every timestamp by the same amount leaves `TotalDuration` unchanged. */
  lemma TotalDurationShiftInvariant(r: Recording, c: int)
    ensures TotalDuration(r.(actions := Shifted(r.actions, c))) == TotalDuration(r)
  {
    if |r.actions| > 0 {
      MaxTimestampShift(r.actions, c);
      MinTimestampShift(r.actions, c);
    }
  }

  predicate NonDecreasing(s: seq<InputAction>)
  {
    forall i, j :: 0 <= i <= j < |s| ==> s[i].timestamp <= s[j].timestamp
  }

  /** For actions in capture order the duration is last minus first timestamp. */
  lemma SortedDuration(r: Recording)
    requires |r.actions| > 0 && NonDecreasing(r.actions)
    ensures TotalDuration(r) == r.actions[|r.actions| - 1].timestamp - r.actions[0].timestamp
  {
    var s := r.actions;
    var i :| 0 <= i < |s| && s[i].timestamp == MaxTimestamp(s);
    var j :| 0 <= j < |s| && s[j].timestamp == MinTimestamp(s);
    assert s[i].timestamp <= s[|s| - 1].timestamp && s[0].timestamp <= s[j].timestamp;
  }
}
