/**
 * The replay scheduler of the WPF application (`PlaybackService`). A pass normalises the
 * timestamps to the earliest one and waits, before each action, for the positive part of
 * the gap to the previous action; `PlayAsync` repeats passes with a fixed pause between
 * them. Cancellation is cooperative: the token is polled at exactly the points the code
 * polls it, and the moment another thread calls `Stop` is an input (`cancelAt`, the index
 * of the first poll that sees the request).
 */
module Playback {
  import opened Wrappers
  import opened Win32
  import opened Timeline
  import opened Models
  import InputHook

  /** Milliseconds between two passes of a finite repeat. */
  const RepeatPause: nat := 500

  function ClickFlags(isDown: bool, isLeftButton: bool): int
  {
    if isDown then (if isLeftButton then MOUSEEVENTF_LEFTDOWN else MOUSEEVENTF_RIGHTDOWN)
    else (if isLeftButton then MOUSEEVENTF_LEFTUP else MOUSEEVENTF_RIGHTUP)
  }

  /**
   * `PlayAction`: the injection call for one action, with the wheel delta passed through
   * in the raw units the hook captured it in (see `PlayActionAsWritten`).
   */
  function PlayAction(a: InputAction): (c: NativeCmd)
    ensures a.kind.MouseMoveAction? <==> c.SetCursorPos?
    ensures a.kind.KeyAction? <==> c.KeybdEvent?
    ensures c.SetCursorPos? ==> c == SetCursorPos(a.kind.x, a.kind.y)
    ensures a.kind.MouseClickAction? ==>
              var k := a.kind;
              c.MouseEvent? && c.dx == k.x && c.dy == k.y && c.data == 0 &&
              (c.flags == MOUSEEVENTF_LEFTDOWN <==> k.isDown && k.isLeftButton) &&
              (c.flags == MOUSEEVENTF_RIGHTDOWN <==> k.isDown && !k.isLeftButton) &&
              (c.flags == MOUSEEVENTF_LEFTUP <==> !k.isDown && k.isLeftButton) &&
              (c.flags == MOUSEEVENTF_RIGHTUP <==> !k.isDown && !k.isLeftButton)
    ensures a.kind.MouseWheelAction? ==> c == MouseEvent(MOUSEEVENTF_WHEEL, a.kind.x, a.kind.y, a.kind.delta)
    ensures a.kind.KeyAction? ==>
              c.scan == 0 && (c.vk - a.kind.keyCode) % 0x100 == 0 &&
              (c.flags == KEYEVENTF_KEYUP <==> !a.kind.isDown) && (c.flags == KEYEVENTF_KEYDOWN <==> a.kind.isDown)
  {
    match a.kind
    case MouseMoveAction(x, y) => SetCursorPos(x, y)
    case MouseClickAction(x, y, left, down) => MouseEvent(ClickFlags(down, left), x, y, 0)
    case MouseWheelAction(delta, x, y) => MouseEvent(MOUSEEVENTF_WHEEL, x, y, delta)
    case KeyAction(code, down, _) =>
      KeybdEvent(ToByte(code), 0, if down then KEYEVENTF_KEYDOWN else KEYEVENTF_KEYUP)
  }

  /** `PlayAction` as the source writes it: the wheel data is `Delta * 120`. */
  function PlayActionAsWritten(a: InputAction): (c: NativeCmd)
    ensures a.kind.MouseWheelAction? ==>
              c == MouseEvent(MOUSEEVENTF_WHEEL, a.kind.x, a.kind.y, a.kind.delta * 120)
    ensures !a.kind.MouseWheelAction? ==> c == PlayAction(a)
  {
    if a.kind.MouseWheelAction? then MouseEvent(MOUSEEVENTF_WHEEL, a.kind.x, a.kind.y, a.kind.delta * 120)
    else PlayAction(a)
  }

  /**
   * The hook stores the wheel delta in raw units (one notch is 120), so the source's extra
   * `* 120` turns a one-notch scroll into 120 notches: 14400 instead of 120.
   */
  lemma WheelScalingOvershoots()
    ensures var captured := InputHook.ClassifyMouse(WM_MOUSEWHEEL, InputHook.MouseHookData(0, 0, 120 * 0x1_0000), 0);
            && captured.Some? && captured.value.kind.delta == 120
            && PlayActionAsWritten(captured.value).data == 14400
            && PlayAction(captured.value).data == 120
  {
    InputHook.WheelDeltaOfPacked(120, 0);
  }

  /**
   * Replaying what the mouse hook captured reproduces the message: a button message comes
   * back as the matching mouse_event flag at the same point, and a wheel message comes
   * back with the delta packed in its high word.
   */
  lemma InjectionInvertsCapture(wParam: int, data: InputHook.MouseHookData, ts: int)
    requires InputHook.IsMouseMessage(wParam)
    ensures var c := PlayAction(InputHook.ClassifyMouse(wParam, data, ts).value);
            && (wParam == WM_MOUSEMOVE ==> c == SetCursorPos(data.ptX, data.ptY))
            && (wParam == WM_LBUTTONDOWN ==> c == MouseEvent(MOUSEEVENTF_LEFTDOWN, data.ptX, data.ptY, 0))
            && (wParam == WM_LBUTTONUP ==> c == MouseEvent(MOUSEEVENTF_LEFTUP, data.ptX, data.ptY, 0))
            && (wParam == WM_RBUTTONDOWN ==> c == MouseEvent(MOUSEEVENTF_RIGHTDOWN, data.ptX, data.ptY, 0))
            && (wParam == WM_RBUTTONUP ==> c == MouseEvent(MOUSEEVENTF_RIGHTUP, data.ptX, data.ptY, 0))
            && (wParam == WM_MOUSEWHEEL ==>
                  c.data * 0x1_0000 <= data.mouseData < c.data * 0x1_0000 + 0x1_0000)
  {
  }

  // ---- One pass (`PlayActionsAsync`) without cancellation ----

  /** The offset of action `i` from the earliest timestamp. */
  function Offset(actions: seq<InputAction>, i: nat): int
    requires i < |actions|
  {
    actions[i].timestamp - MinTimestamp(actions)
  }

  /**
   * The delay before action `i`: its timestamp minus the previous one (0 for the first).
   * The source computes it as a difference of offsets; `DelayIsOffsetGap` shows the two agree.
   */
  function DelayBefore(actions: seq<InputAction>, i: nat): int
    requires i < |actions|
  {
    if i == 0 then 0 else actions[i].timestamp - actions[i - 1].timestamp
  }

  /** The earliest timestamp cancels out of the difference of two offsets. */
  lemma DelayIsOffsetGap(actions: seq<InputAction>, i: nat)
    requires 0 < i < |actions|
    ensures DelayBefore(actions, i) == Offset(actions, i) - Offset(actions, i - 1)
  {
  }

  function Gap(actions: seq<InputAction>, i: nat): seq<Step<InputAction>>
    requires i < |actions|
  {
    if DelayBefore(actions, i) > 0 then [Wait(DelayBefore(actions, i))] else []
  }

  /** The steps of the first `n` actions of an uncancelled pass. */
  function PassPrefix(actions: seq<InputAction>, n: nat): seq<Step<InputAction>>
    requires n <= |actions|
  {
    if n == 0 then []
    else PassPrefix(actions, n - 1) + Gap(actions, n - 1) + [Inject(actions[n - 1])]
  }

  function Pass(actions: seq<InputAction>): seq<Step<InputAction>>
  {
    PassPrefix(actions, |actions|)
  }

  /**
   * Token polls of an uncancelled pass: one before each action and one before each wait, so
   * one per step.
   */
  function PassPolls(actions: seq<InputAction>): nat
  {
    |Pass(actions)|
  }

  /** The native commands issued for the given actions, one `PlayAction` call each. */
  function Played(actions: seq<InputAction>): (cmds: seq<NativeCmd>)
    ensures |cmds| == |actions|
    ensures forall k :: 0 <= k < |actions| ==> cmds[k] == PlayAction(actions[k])
  {
    seq(|actions|, k requires 0 <= k < |actions| => PlayAction(actions[k]))
  }

  /** A gap waits the positive part of the delay and injects nothing. */
  lemma GapWaitsOnly(actions: seq<InputAction>, i: nat)
    requires i < |actions|
    ensures Injected(Gap(actions, i)) == []
    ensures TotalWait(Gap(actions, i)) == (if DelayBefore(actions, i) > 0 then DelayBefore(actions, i) else 0)
  {
    if DelayBefore(actions, i) > 0 {
      SingleStep<InputAction>(Wait(DelayBefore(actions, i)));
    }
  }

  lemma PassPrefixInjectsOneMore(actions: seq<InputAction>, n: nat)
    requires 0 < n <= |actions|
    ensures Injected(PassPrefix(actions, n)) == Injected(PassPrefix(actions, n - 1)) + [actions[n - 1]]
  {
    GapWaitsOnly(actions, n - 1);
    InjectAfterWaits(PassPrefix(actions, n - 1), Gap(actions, n - 1), actions[n - 1]);
  }

  /** A pass plays the actions in their recorded order, one `PlayAction` call each. */
  lemma {:induction false} PassInjectsInOrder(actions: seq<InputAction>, n: nat)
    requires n <= |actions|
    ensures Injected(PassPrefix(actions, n)) == actions[..n]
  {
    if n > 0 {
      var p, q := Injected(PassPrefix(actions, n - 1)), Injected(PassPrefix(actions, n));
      assert p == actions[..n - 1] by { PassInjectsInOrder(actions, n - 1); }
      assert q == p + [actions[n - 1]] by { PassPrefixInjectsOneMore(actions, n); }
      SnocPrefix(actions, n);
    }
  }

  /** The native commands of a whole pass are those of the recorded actions, in order. */
  lemma PassIssuesRecordedCommands(actions: seq<InputAction>)
    ensures Played(Injected(Pass(actions))) == Played(actions)
  {
    PassInjectsInOrder(actions, |actions|);
    assert actions[..|actions|] == actions;
  }

  /** A longer prefix of a pass has at least one step per extra action. */
  lemma {:induction false} PassLengthGrows(actions: seq<InputAction>, i: nat, j: nat)
    requires i <= j <= |actions|
    ensures |PassPrefix(actions, i)| + (j - i) <= |PassPrefix(actions, j)|
    decreases j - i
  {
    if i < j {
      PassLengthGrows(actions, i, j - 1);
    }
  }

  /** A pass over no actions injects nothing and waits nothing. */
  lemma EmptyPass()
    ensures Pass([]) == [] && PassPolls([]) == 0
  {
  }

  /** The first action of a pass is injected with no wait before it. */
  lemma FirstActionImmediate(actions: seq<InputAction>)
    requires |actions| > 0
    ensures Pass(actions)[0] == Inject(actions[0])
  {
    var n := |actions|;
    PassPrefixGrows(actions, 1, n);
    assert PassPrefix(actions, 1) == [Inject(actions[0])];
  }

  /** A shorter prefix of a pass is a prefix of a longer one. */
  lemma {:induction false} PassPrefixGrows(actions: seq<InputAction>, i: nat, j: nat)
    requires i <= j <= |actions|
    ensures PassPrefix(actions, i) <= PassPrefix(actions, j)
    decreases j - i
  {
    if i < j {
      PassPrefixGrows(actions, i, j - 1);
      var p := PassPrefix(actions, j - 1);
      assert PassPrefix(actions, j) == p + (Gap(actions, j - 1) + [Inject(actions[j - 1])]);
      PrefixOfAppend(PassPrefix(actions, i), p, Gap(actions, j - 1) + [Inject(actions[j - 1])]);
    }
  }

  lemma PassPrefixStep(actions: seq<InputAction>, i: nat, t0: seq<Step<InputAction>>)
    requires i < |actions|
    ensures t0 + PassPrefix(actions, i) + Gap(actions, i) + [Inject(actions[i])]
            == t0 + PassPrefix(actions, i + 1)
  {
  }

  lemma PrefixOfAppend<T>(a: seq<T>, b: seq<T>, c: seq<T>)
    requires a <= b
    ensures a <= b + c
  {
    assert (b + c)[..|a|] == b[..|a|];
  }

  /**
   * For actions in capture order (non-decreasing timestamps) the waits of a pass add up to
   * the time from the first to the last action, that is to `TotalDuration`.
   */
  lemma {:induction false} SortedPassWaits(actions: seq<InputAction>, n: nat)
    requires 0 < n <= |actions| && NonDecreasing(actions)
    ensures TotalWait(PassPrefix(actions, n)) == actions[n - 1].timestamp - actions[0].timestamp
  {
    if n == 1 {
      assert PassPrefix(actions, 1) == [] + [] + [Inject(actions[0])];
      assert [Inject(actions[0])][..0] == [];
    } else {
      SortedPassWaits(actions, n - 1);
      var p := PassPrefix(actions, n - 1);
      var g := Gap(actions, n - 1);
      var last: seq<Step<InputAction>> := [Inject(actions[n - 1])];
      TotalWaitAppend(p + g, last);
      TotalWaitAppend(p, g);
      assert last[..0] == [];
      assert DelayBefore(actions, n - 1) == actions[n - 1].timestamp - actions[n - 2].timestamp;
      if g != [] { assert g[..0] == []; }
    }
  }

  lemma PassWaitIsTotalDuration(r: Recording)
    requires |r.actions| > 0 && NonDecreasing(r.actions)
    ensures TotalWait(Pass(r.actions)) == TotalDuration(r)
  {
    SortedPassWaits(r.actions, |r.actions|);
    SortedDuration(r);
  }

  /** Timestamps 0, 100 and 250 ms: inject, wait 100, inject, wait 150, inject. */
  lemma ThreeEventTiming(a: InputAction, b: InputAction, c: InputAction)
    requires a.timestamp == 0 && b.timestamp == 100 && c.timestamp == 250
    ensures Pass([a, b, c]) == [Inject(a), Wait(100), Inject(b),
                                Wait(150), Inject(c)]
  {
    var s := [a, b, c];
    assert MinTimestamp(s) == 0 by {
      assert s[1..] == [b, c] && [b, c][1..] == [c];
    }
    assert DelayBefore(s, 1) == 100 && DelayBefore(s, 2) == 150;
    assert PassPrefix(s, 1) == [Inject(a)];
    assert PassPrefix(s, 2) == [Inject(a), Wait(100), Inject(b)];
  }

  // ---- Repetition ----

  /** The pause inserted between passes: none when looping forever. */
  function PauseFor(infinite: bool): seq<Step<InputAction>>
  {
    if infinite then [] else [Wait(RepeatPause)]
  }

  /** The uncancelled trace of `n` passes. */
  function Schedule(actions: seq<InputAction>, infinite: bool, n: nat): seq<Step<InputAction>>
  {
    Repeated(Pass(actions), PauseFor(infinite), n)
  }

  /** The uncancelled trace when the loop head is reached for the `(n+1)`-th time. */
  function HeadSchedule(actions: seq<InputAction>, infinite: bool, repeatCount: int, n: nat): seq<Step<InputAction>>
  {
    Schedule(actions, infinite, n) + (if 0 < n < repeatCount && !infinite then [Wait(RepeatPause)] else [])
  }

  lemma {:induction false} HeadScheduleWithinSchedule(actions: seq<InputAction>, n: nat, repeatCount: nat)
    requires n <= repeatCount
    ensures HeadSchedule(actions, false, repeatCount, n) <= Schedule(actions, false, repeatCount)
    decreases repeatCount - n
  {
    var p, w: seq<Step<InputAction>> := Pass(actions), [Wait(RepeatPause)];
    if n < repeatCount {
      HeadScheduleWithinSchedule(actions, n + 1, repeatCount);
      var h := HeadSchedule(actions, false, repeatCount, n);
      var h' := HeadSchedule(actions, false, repeatCount, n + 1);
      assert Schedule(actions, false, n + 1) == h + p;
      PrefixOfAppend(h + p, h + p, if n + 1 < repeatCount then w else []);
      PrefixOfAppend(h, h, p);
    }
  }

  // ---- Where a cancellation cuts the run ----

  /**
   * The token polls and steps of action `i` of an uncancelled pass: the poll before the
   * action, then, for a positive delay, the poll `Task.Delay` makes and the wait, then the
   * injection.
   */
  function ActionTicks(actions: seq<InputAction>, i: nat): seq<Tick<InputAction>>
    requires i < |actions|
  {
    var d := DelayBefore(actions, i);
    [Check] + (if d > 0 then [Check, Do(Wait(d))] else []) + [Do(Inject(actions[i]))]
  }

  /** The polls and steps of the first `n` actions of an uncancelled pass. */
  function PassTicks(actions: seq<InputAction>, n: nat): seq<Tick<InputAction>>
    requires n <= |actions|
  {
    if n == 0 then [] else PassTicks(actions, n - 1) + ActionTicks(actions, n - 1)
  }

  /** The pause after repeat `c`, with the poll `Task.Delay` makes, when another finite pass follows. */
  function PauseTicks(infinite: bool, repeatCount: int, c: nat): seq<Tick<InputAction>>
  {
    if !infinite && c + 1 < repeatCount then [Check, Do(Wait(RepeatPause))] else []
  }

  /** Repeat `c` of `PlayAsync`: the poll at the loop head, a pass, and the pause. */
  function RoundTicks(actions: seq<InputAction>, infinite: bool, repeatCount: int, c: nat): seq<Tick<InputAction>>
  {
    [Check] + PassTicks(actions, |actions|) + PauseTicks(infinite, repeatCount, c)
  }

  /** The polls and steps of the first `n` repeats of an uncancelled `PlayAsync`. */
  function RunTicks(actions: seq<InputAction>, infinite: bool, repeatCount: int, n: nat): seq<Tick<InputAction>>
  {
    if n == 0 then [] else RunTicks(actions, infinite, repeatCount, n - 1) + RoundTicks(actions, infinite, repeatCount, n - 1)
  }

  /**
   * The repeats of the uncancelled run that matter: the repeat count, or, when looping
   * forever, more repeats than a request seen at poll `cancelAt` lets begin.
   */
  function RepeatsRun(repeatCount: int, infinite: bool, cancelAt: nat): nat
  {
    if infinite then cancelAt + 1 else if repeatCount < 0 then 0 else repeatCount
  }

  /**
   * What `PlayAsync` plays when poll `cancelAt` of its token is the first to see a request:
   * the steps of the uncancelled run that come before that poll, and none after it.
   */
  function CancelledRun(actions: seq<InputAction>, repeatCount: int, infinite: bool, cancelAt: nat): seq<Step<InputAction>>
  {
    StepsBefore(RunTicks(actions, infinite, repeatCount, RepeatsRun(repeatCount, infinite, cancelAt)), cancelAt)
  }

  lemma ActionTicksPlay(actions: seq<InputAction>, i: nat, j: nat)
    requires i < |actions|
    ensures Steps(ActionTicks(actions, i)) == Gap(actions, i) + [Inject(actions[i])]
    ensures Checks(ActionTicks(actions, i)) == |Gap(actions, i)| + 1
    ensures j <= |Gap(actions, i)| ==> StepsBefore(ActionTicks(actions, i), j) == []
  {
    var d := DelayBefore(actions, i);
    var last: seq<Tick<InputAction>> := [Do(Inject(actions[i]))];
    ConsTick(Do(Inject(actions[i])), [], 0);
    assert last + [] == last;
    if d > 0 {
      var w: seq<Tick<InputAction>> := [Do(Wait(d))] + last;
      var c: seq<Tick<InputAction>> := [Check] + w;
      ConsTick(Do(Wait(d)), last, 0);
      ConsTick(Check, w, 0);
      ConsTick(Check, c, j);
      assert ActionTicks(actions, i) == [Check] + c;
    } else {
      ConsTick(Check, last, j);
      assert ActionTicks(actions, i) == [Check] + last;
    }
  }

  /** Uncancelled, the polls and steps of a pass play the pass, with one poll per step. */
  lemma {:induction false} PassTicksPlay(actions: seq<InputAction>, n: nat)
    requires n <= |actions|
    ensures Steps(PassTicks(actions, n)) == PassPrefix(actions, n)
    ensures Checks(PassTicks(actions, n)) == |PassPrefix(actions, n)|
  {
    if n > 0 {
      var p, g := PassTicks(actions, n - 1), ActionTicks(actions, n - 1);
      var q, e := PassPrefix(actions, n - 1), Gap(actions, n - 1) + [Inject(actions[n - 1])];
      assert Steps(p) == q && Checks(p) == |q| by { PassTicksPlay(actions, n - 1); }
      assert Steps(g) == e && Checks(g) == |Gap(actions, n - 1)| + 1 by { ActionTicksPlay(actions, n - 1, 0); }
      assert Steps(p + g) == Steps(p) + Steps(g) && Checks(p + g) == Checks(p) + Checks(g) by { StepsAppend(p, g); }
      assert PassTicks(actions, n) == p + g;
      assert PassPrefix(actions, n) == q + e;
    }
  }

  /**
   * The polls of action `i` of a pass are those numbered from `|PassPrefix(actions, i)|`
   * up to `|PassPrefix(actions, i + 1)|`: a request first seen at one of them plays the
   * earlier actions and none of action `i`.
   */
  /** A request seen while the last action of a pass prefix is due plays the actions before it. */
  lemma PassTicksCutLast(actions: seq<InputAction>, i: nat, j: nat)
    requires i < |actions|
    requires |PassPrefix(actions, i)| <= j < |PassPrefix(actions, i + 1)|
    ensures StepsBefore(PassTicks(actions, i + 1), j) == PassPrefix(actions, i)
  {
    var p, g := PassTicks(actions, i), ActionTicks(actions, i);
    assert Steps(p) == PassPrefix(actions, i) && Checks(p) == |PassPrefix(actions, i)| by {
      PassTicksPlay(actions, i);
    }
    var k := j - Checks(p);
    assert k <= |Gap(actions, i)| by {
      assert PassPrefix(actions, i + 1) == PassPrefix(actions, i) + Gap(actions, i) + [Inject(actions[i])];
    }
    assert StepsBefore(g, k) == [] by { ActionTicksPlay(actions, i, k); }
    assert StepsBefore(p + g, j) == Steps(p) + StepsBefore(g, k) by { CutInSecond(p, g, j); }
    assert PassTicks(actions, i + 1) == p + g;
    assert PassPrefix(actions, i) + [] == PassPrefix(actions, i);
  }

  lemma {:induction false} PassTicksCut(actions: seq<InputAction>, n: nat, i: nat, j: nat)
    requires i < n <= |actions|
    requires |PassPrefix(actions, i)| <= j < |PassPrefix(actions, i + 1)|
    ensures StepsBefore(PassTicks(actions, n), j) == PassPrefix(actions, i)
  {
    if n - 1 == i {
      PassTicksCutLast(actions, i, j);
    } else {
      var p, g := PassTicks(actions, n - 1), ActionTicks(actions, n - 1);
      assert j < Checks(p) by {
        PassTicksPlay(actions, n - 1);
        PassLengthGrows(actions, i + 1, n - 1);
      }
      assert StepsBefore(p + g, j) == StepsBefore(p, j) by { CutInFirst(p, g, j); }
      assert StepsBefore(p, j) == PassPrefix(actions, i) by { PassTicksCut(actions, n - 1, i, j); }
      assert PassTicks(actions, n) == p + g;
    }
  }

  lemma RoundTicksPlay(actions: seq<InputAction>, infinite: bool, repeatCount: int, c: nat, j: nat)
    ensures Steps(RoundTicks(actions, infinite, repeatCount, c)) ==
              Pass(actions) + (if !infinite && c + 1 < repeatCount then [Wait(RepeatPause)] else [])
    ensures Checks(RoundTicks(actions, infinite, repeatCount, c)) ==
              1 + |Pass(actions)| + (if !infinite && c + 1 < repeatCount then 1 else 0)
    ensures j == 0 ==> StepsBefore(RoundTicks(actions, infinite, repeatCount, c), j) == []
    ensures 1 <= j <= |Pass(actions)| ==>
              StepsBefore(RoundTicks(actions, infinite, repeatCount, c), j) ==
              StepsBefore(PassTicks(actions, |actions|), j - 1)
    ensures j == 1 + |Pass(actions)| ==> StepsBefore(RoundTicks(actions, infinite, repeatCount, c), j) == Pass(actions)
  {
    var head: seq<Tick<InputAction>> := [Check];
    var pt, w := PassTicks(actions, |actions|), PauseTicks(infinite, repeatCount, c);
    var hp := head + pt;
    var pause := !infinite && c + 1 < repeatCount;
    assert Steps(head) == [] && Checks(head) == 1 && StepsBefore(head, 0) == [] by {
      ConsTick<InputAction>(Check, [], 0);
      assert head + [] == head;
    }
    assert Steps(pt) == Pass(actions) && Checks(pt) == |Pass(actions)| by { PassTicksPlay(actions, |actions|); }
    assert Steps(w) == (if pause then [Wait(RepeatPause)] else []) && Checks(w) == (if pause then 1 else 0)
           && StepsBefore(w, 0) == [] by {
      if pause {
        var last: seq<Tick<InputAction>> := [Do(Wait(RepeatPause))];
        ConsTick<InputAction>(Do(Wait(RepeatPause)), [], 0);
        ConsTick(Check, last, 0);
        assert last + [] == last && w == [Check] + last;
      }
    }
    assert Steps(hp) == Steps(pt) && Checks(hp) == 1 + Checks(pt) by { StepsAppend(head, pt); }
    assert Steps(hp + w) == Steps(hp) + Steps(w) && Checks(hp + w) == Checks(hp) + Checks(w) by { StepsAppend(hp, w); }
    assert RoundTicks(actions, infinite, repeatCount, c) == hp + w;
    if j == 0 {
      assert StepsBefore(hp + w, 0) == StepsBefore(hp, 0) by { CutInFirst(hp, w, 0); }
      assert StepsBefore(hp, 0) == StepsBefore(head, 0) by { CutInFirst(head, pt, 0); }
    } else if j <= |Pass(actions)| {
      assert StepsBefore(hp + w, j) == StepsBefore(hp, j) by { CutInFirst(hp, w, j); }
      assert StepsBefore(hp, j) == Steps(head) + StepsBefore(pt, j - 1) by { CutInSecond(head, pt, j); }
    } else if j == 1 + |Pass(actions)| {
      assert StepsBefore(hp + w, j) == Steps(hp) + StepsBefore(w, 0) by { CutInSecond(hp, w, j); }
      assert Steps(hp) + [] == Steps(hp);
    }
  }

  /** Uncancelled, the first `n` repeats play the schedule up to the next loop head. */
  lemma {:induction false} RunTicksPlay(actions: seq<InputAction>, infinite: bool, repeatCount: int, n: nat)
    requires infinite || n == 0 || n <= repeatCount
    ensures Steps(RunTicks(actions, infinite, repeatCount, n)) == HeadSchedule(actions, infinite, repeatCount, n)
    ensures Checks(RunTicks(actions, infinite, repeatCount, n)) == |HeadSchedule(actions, infinite, repeatCount, n)| + n
  {
    if n > 0 {
      var r, g := RunTicks(actions, infinite, repeatCount, n - 1), RoundTicks(actions, infinite, repeatCount, n - 1);
      var h := HeadSchedule(actions, infinite, repeatCount, n - 1);
      var w: seq<Step<InputAction>> := if !infinite && n < repeatCount then [Wait(RepeatPause)] else [];
      assert Steps(r) == h && Checks(r) == |h| + n - 1 by { RunTicksPlay(actions, infinite, repeatCount, n - 1); }
      assert Steps(g) == Pass(actions) + w && Checks(g) == 1 + |Pass(actions)| + |w| by {
        RoundTicksPlay(actions, infinite, repeatCount, n - 1, 0);
      }
      assert Steps(r + g) == Steps(r) + Steps(g) && Checks(r + g) == Checks(r) + Checks(g) by { StepsAppend(r, g); }
      assert h + Pass(actions) + w == HeadSchedule(actions, infinite, repeatCount, n) by {
        NextHead(actions, infinite, repeatCount, n - 1);
      }
      assert RunTicks(actions, infinite, repeatCount, n) == r + g;
    }
  }

  lemma {:induction false} RunTicksGrows(actions: seq<InputAction>, infinite: bool, repeatCount: int, i: nat, j: nat)
    requires i <= j
    ensures RunTicks(actions, infinite, repeatCount, i) <= RunTicks(actions, infinite, repeatCount, j)
    decreases j - i
  {
    if i < j {
      RunTicksGrows(actions, infinite, repeatCount, i, j - 1);
      PrefixOfAppend(RunTicks(actions, infinite, repeatCount, i), RunTicks(actions, infinite, repeatCount, j - 1),
                     RoundTicks(actions, infinite, repeatCount, j - 1));
    }
  }

  /**
   * A request first seen at poll `j` of repeat `c` plays the schedule up to that repeat's
   * loop head, then what the repeat plays before its poll `j`.
   */
  lemma CutInRepeat(actions: seq<InputAction>, infinite: bool, repeatCount: int, c: nat, j: nat)
    requires infinite || c < repeatCount
    ensures var base := |HeadSchedule(actions, infinite, repeatCount, c)| + c;
            && StepsBefore(RunTicks(actions, infinite, repeatCount, c + 1), base + j) ==
                 HeadSchedule(actions, infinite, repeatCount, c) + StepsBefore(RoundTicks(actions, infinite, repeatCount, c), j)
            && Checks(RunTicks(actions, infinite, repeatCount, c + 1)) ==
                 base + Checks(RoundTicks(actions, infinite, repeatCount, c))
  {
    var r, g := RunTicks(actions, infinite, repeatCount, c), RoundTicks(actions, infinite, repeatCount, c);
    assert Steps(r) == HeadSchedule(actions, infinite, repeatCount, c)
           && Checks(r) == |HeadSchedule(actions, infinite, repeatCount, c)| + c by {
      RunTicksPlay(actions, infinite, repeatCount, c);
    }
    assert StepsBefore(r + g, Checks(r) + j) == Steps(r) + StepsBefore(g, j) by { CutInSecond(r, g, Checks(r) + j); }
    assert Checks(r + g) == Checks(r) + Checks(g) by { StepsAppend(r, g); }
    assert RunTicks(actions, infinite, repeatCount, c + 1) == r + g;
  }

  /** A request first seen at the loop head of repeat `c` plays the `c` repeats before it. */
  lemma CutAtHead(actions: seq<InputAction>, infinite: bool, repeatCount: int, c: nat)
    requires infinite || c < repeatCount
    ensures var at := |HeadSchedule(actions, infinite, repeatCount, c)| + c;
            && StepsBefore(RunTicks(actions, infinite, repeatCount, c + 1), at) == HeadSchedule(actions, infinite, repeatCount, c)
            && at < Checks(RunTicks(actions, infinite, repeatCount, c + 1))
  {
    CutInRepeat(actions, infinite, repeatCount, c, 0);
    RoundTicksPlay(actions, infinite, repeatCount, c, 0);
  }

  /** A request first seen at a poll of action `done` of repeat `c` plays the actions before it. */
  lemma CutInPass(actions: seq<InputAction>, infinite: bool, repeatCount: int, c: nat, done: nat, cancelAt: nat)
    requires infinite || c < repeatCount
    requires done < |actions|
    requires var base := |HeadSchedule(actions, infinite, repeatCount, c)| + c + 1;
             base + |PassPrefix(actions, done)| <= cancelAt < base + |PassPrefix(actions, done + 1)|
    ensures StepsBefore(RunTicks(actions, infinite, repeatCount, c + 1), cancelAt) ==
              HeadSchedule(actions, infinite, repeatCount, c) + PassPrefix(actions, done)
    ensures cancelAt < Checks(RunTicks(actions, infinite, repeatCount, c + 1))
  {
    var j := cancelAt - (|HeadSchedule(actions, infinite, repeatCount, c)| + c);
    CutInRepeat(actions, infinite, repeatCount, c, j);
    PassLengthGrows(actions, done + 1, |actions|);
    RoundTicksPlay(actions, infinite, repeatCount, c, j);
    PassTicksCut(actions, |actions|, done, j - 1);
  }

  /** A request first seen at the poll of the pause after repeat `c` plays that whole repeat's pass. */
  lemma CutAtPause(actions: seq<InputAction>, repeatCount: int, c: nat)
    requires c + 1 < repeatCount
    ensures var at := |HeadSchedule(actions, false, repeatCount, c)| + c + 1 + |Pass(actions)|;
            && StepsBefore(RunTicks(actions, false, repeatCount, c + 1), at) ==
                 HeadSchedule(actions, false, repeatCount, c) + Pass(actions)
            && at < Checks(RunTicks(actions, false, repeatCount, c + 1))
  {
    CutInRepeat(actions, false, repeatCount, c, 1 + |Pass(actions)|);
    RoundTicksPlay(actions, false, repeatCount, c, 1 + |Pass(actions)|);
  }

  /**
   * The trace of a repeat that a request cut short, from the trace it had and the poll
   * that saw the request: at the loop head, during the pass, or at the pause.
   */
  lemma CutTrace(t: seq<Step<InputAction>>, t0: seq<Step<InputAction>>, actions: seq<InputAction>,
                 infinite: bool, repeatCount: int, c: nat, done: nat, cancelAt: nat)
    requires infinite || c < repeatCount
    requires done <= |actions| && t == t0 + HeadSchedule(actions, infinite, repeatCount, c) + PassPrefix(actions, done)
    requires var base := |HeadSchedule(actions, infinite, repeatCount, c)| + c;
             || (done == 0 && cancelAt == base)
             || (done < |actions| && base + 1 + |PassPrefix(actions, done)| <= cancelAt < base + 1 + |PassPrefix(actions, done + 1)|)
             || (done == |actions| && !infinite && c + 1 < repeatCount && cancelAt == base + 1 + |Pass(actions)|)
    ensures cancelAt < Checks(RunTicks(actions, infinite, repeatCount, c + 1))
    ensures t == t0 + StepsBefore(RunTicks(actions, infinite, repeatCount, c + 1), cancelAt)
  {
    var base := |HeadSchedule(actions, infinite, repeatCount, c)| + c;
    var h, run := HeadSchedule(actions, infinite, repeatCount, c), RunTicks(actions, infinite, repeatCount, c + 1);
    var p := PassPrefix(actions, done);
    assert cancelAt < Checks(run) && StepsBefore(run, cancelAt) == h + p by {
      if done == 0 && cancelAt == base {
        CutAtHead(actions, infinite, repeatCount, c);
        assert p == [] && h + [] == h;
      } else if done < |actions| {
        CutInPass(actions, infinite, repeatCount, c, done, cancelAt);
      } else {
        CutAtPause(actions, repeatCount, c);
      }
    }
    assert t0 + h + p == t0 + (h + p);
  }

  /** A request seen during repeat `c` cuts the whole run where it cuts the first `c + 1` repeats. */
  lemma CutLifts(actions: seq<InputAction>, repeatCount: int, infinite: bool, c: nat, cancelAt: nat)
    requires c < RepeatsRun(repeatCount, infinite, cancelAt)
    requires cancelAt < Checks(RunTicks(actions, infinite, repeatCount, c + 1))
    ensures CancelledRun(actions, repeatCount, infinite, cancelAt) ==
              StepsBefore(RunTicks(actions, infinite, repeatCount, c + 1), cancelAt)
  {
    RunTicksGrows(actions, infinite, repeatCount, c + 1, RepeatsRun(repeatCount, infinite, cancelAt));
    CutWithinPrefix(RunTicks(actions, infinite, repeatCount, c + 1),
                    RunTicks(actions, infinite, repeatCount, RepeatsRun(repeatCount, infinite, cancelAt)), cancelAt);
  }

  /** A finite run whose polls all come before the request plays every repeat. */
  lemma CutAfterEnd(actions: seq<InputAction>, repeatCount: int, cancelAt: nat)
    requires var n := RepeatsRun(repeatCount, false, cancelAt);
             |HeadSchedule(actions, false, repeatCount, n)| + n <= cancelAt
    ensures CancelledRun(actions, repeatCount, false, cancelAt) ==
              HeadSchedule(actions, false, repeatCount, RepeatsRun(repeatCount, false, cancelAt))
  {
    var n := RepeatsRun(repeatCount, false, cancelAt);
    RunTicksPlay(actions, false, repeatCount, n);
    StepsBeforeLateRequest(RunTicks(actions, false, repeatCount, n), cancelAt);
  }

  /** Whenever the request comes, the run is a prefix of the uncancelled schedule. */
  lemma CancelledRunIsPrefix(actions: seq<InputAction>, repeatCount: int, infinite: bool, cancelAt: nat)
    ensures CancelledRun(actions, repeatCount, infinite, cancelAt) <=
              Schedule(actions, infinite, RepeatsRun(repeatCount, infinite, cancelAt))
  {
    var n := RepeatsRun(repeatCount, infinite, cancelAt);
    RunTicksPlay(actions, infinite, repeatCount, n);
    StepsBeforeIsPrefix(RunTicks(actions, infinite, repeatCount, n), cancelAt);
  }

  /** A finite run whose request comes after its last poll plays the whole schedule. */
  lemma LateRequestPlaysSchedule(actions: seq<InputAction>, repeatCount: nat, cancelAt: nat)
    requires |Schedule(actions, false, repeatCount)| + repeatCount <= cancelAt
    ensures CancelledRun(actions, repeatCount, false, cancelAt) == Schedule(actions, false, repeatCount)
  {
    CutAfterEnd(actions, repeatCount, cancelAt);
  }

  /** The later the request, the more of a finite run is played. */
  lemma LaterRequestPlaysMore(actions: seq<InputAction>, repeatCount: int, cancelAt: nat)
    ensures CancelledRun(actions, repeatCount, false, cancelAt) <= CancelledRun(actions, repeatCount, false, cancelAt + 1)
  {
    StepsBeforeGrows(RunTicks(actions, false, repeatCount, RepeatsRun(repeatCount, false, cancelAt)), cancelAt);
  }

  /**
   * A request seen at the first loop head, or at the poll before the first action, plays
   * nothing at all.
   */
  lemma EarlyRequestPlaysNothing(actions: seq<InputAction>, repeatCount: int, infinite: bool, cancelAt: nat)
    requires cancelAt <= 1
    ensures CancelledRun(actions, repeatCount, infinite, cancelAt) == []
  {
    if RepeatsRun(repeatCount, infinite, cancelAt) == 0 {
      assert RunTicks(actions, infinite, repeatCount, 0) == [];
    } else {
      RoundTicksPlay(actions, infinite, repeatCount, 0, cancelAt);
      CutInRepeat(actions, infinite, repeatCount, 0, cancelAt);
      assert HeadSchedule(actions, infinite, repeatCount, 0) == [];
      if cancelAt == 1 && |actions| > 0 {
        PassTicksCut(actions, |actions|, 0, 0);
        PassLengthGrows(actions, 1, |actions|);
      } else if cancelAt == 1 {
        assert Pass(actions) == [];
      }
      if cancelAt < Checks(RunTicks(actions, infinite, repeatCount, 1)) {
        CutLifts(actions, repeatCount, infinite, 0, cancelAt);
      } else if RepeatsRun(repeatCount, infinite, cancelAt) == 1 {
        // one repeat of nothing, with no pause: the loop reads the token once
        RunTicksPlay(actions, infinite, repeatCount, 1);
        StepsBeforeLateRequest(RunTicks(actions, infinite, repeatCount, 1), cancelAt);
      } else {
        // looping forever over no actions: poll 1 is the head of the second repeat
        CutAtHead(actions, infinite, repeatCount, 1);
        CutLifts(actions, repeatCount, infinite, 1, cancelAt);
      }
    }
  }

  /** One action played twice, with the request first seen at the poll before that action: nothing is injected. */
  lemma RequestBeforeFirstAction(a: InputAction)
    ensures CancelledRun([a], 2, false, 1) == []
  {
    EarlyRequestPlaysNothing([a], 2, false, 1);
  }

  // ---- The stateful service ----

  class CancellationTokenSource {
    var cancelled: bool

    constructor ()
      ensures !cancelled
    {
      cancelled := false;
    }

    method Cancel()
      modifies this
      ensures cancelled
    {
      cancelled := true;
    }
  }

  datatype Notice = PlaybackStarted | PlaybackStopped

  class PlaybackService {
    var isPlaying: bool
    var cts: CancellationTokenSource?
    /** The waits and `PlayAction` calls made so far (`Inject(a)` is the call `PlayAction(a)`). */
    var trace: seq<Step<InputAction>>
    /** Events raised to subscribers, in order. */
    var notices: seq<Notice>

    constructor ()
      ensures !isPlaying && cts == null && trace == [] && notices == []
    {
      isPlaying, cts, trace, notices := false, null, [], [];
    }

    /** `Stop`: requests cancellation of the current token, if there is one. */
    method Stop()
      modifies if cts != null then {cts} else {}
      ensures cts != null ==> cts.cancelled
    {
      if cts != null {
        cts.Cancel();
      }
    }

    /**
     * Poll number `k` of the current token. A request made by `Stop` on another thread is
     * seen by every poll from number `cancelAt` on, and stays seen.
     */
    method Poll(cancelAt: nat, k: nat) returns (cancelled: bool)
      requires cts != null
      modifies cts
      ensures cts.cancelled == (old(cts.cancelled) || k >= cancelAt)
      ensures cancelled == cts.cancelled
    {
      if k >= cancelAt {
        cts.Cancel();
      }
      cancelled := cts.cancelled;
    }

    /**
     * `PlayActionsAsync`: one pass. The token is polled before each action and once per
     * positive delay; a request seen before an action ends the pass (a `break`), one seen at
     * a delay aborts it (the delay throws). `done` actions were injected, and `polls` is the
     * poll count afterwards.
     */
    method PlayActionsAsync(actions: seq<InputAction>, cancelAt: nat, polls0: nat)
      returns (done: nat, polls: nat, aborted: bool)
      requires cts != null && !cts.cancelled && polls0 <= cancelAt
      modifies this, cts
      ensures cts == old(cts) && isPlaying == old(isPlaying) && notices == old(notices)
      ensures done <= |actions| && trace == old(trace) + PassPrefix(actions, done)
      ensures cts.cancelled ==>
                && done < |actions| && polls == cancelAt + 1
                && polls0 + |PassPrefix(actions, done)| <= cancelAt < polls0 + |PassPrefix(actions, done + 1)|
      ensures polls0 + |trace| - |old(trace)| <= cancelAt
      ensures !cts.cancelled ==> done == |actions| && !aborted && polls == polls0 + |trace| - |old(trace)| <= cancelAt
    {
      if |actions| == 0 {
        assert trace == old(trace) + PassPrefix(actions, 0);
        return 0, polls0, false;
      }
      var baseTime := MinTimestamp(actions);
      done, polls, aborted := PlayEach(actions, baseTime, cancelAt, polls0);
    }

    /** The loop of `PlayActionsAsync` over a non-empty pass whose earliest timestamp is `baseTime`. */
    method PlayEach(actions: seq<InputAction>, baseTime: int, cancelAt: nat, polls0: nat)
      returns (done: nat, polls: nat, aborted: bool)
      requires cts != null && !cts.cancelled && polls0 <= cancelAt
      modifies this, cts
      ensures cts == old(cts) && isPlaying == old(isPlaying) && notices == old(notices)
      ensures done <= |actions| && trace == old(trace) + PassPrefix(actions, done)
      ensures cts.cancelled ==>
                && done < |actions| && polls == cancelAt + 1
                && polls0 + |PassPrefix(actions, done)| <= cancelAt < polls0 + |PassPrefix(actions, done + 1)|
      ensures polls0 + |trace| - |old(trace)| <= cancelAt
      ensures !cts.cancelled ==> done == |actions| && !aborted && polls == polls0 + |trace| - |old(trace)| <= cancelAt
    {
      ghost var t0 := trace;
      polls, aborted := polls0, false;
      var lastActionTime: Option<int> := None;
      var i := 0;
      while i < |actions|
        invariant 0 <= i <= |actions|
        invariant cts == old(cts) && isPlaying == old(isPlaying) && notices == old(notices)
        invariant trace == t0 + PassPrefix(actions, i)
        invariant !cts.cancelled && !aborted && polls == polls0 + |trace| - |t0| <= cancelAt
        invariant i == 0 <==> lastActionTime.None?
        invariant i > 0 ==> lastActionTime.value == actions[i - 1].timestamp - baseTime
      {
        var stop;
        polls, stop, aborted := PlayActionAt(actions, i, baseTime, lastActionTime, cancelAt, t0, polls0, polls);
        if stop {
          return i, polls, aborted;
        }
        lastActionTime := Some(actions[i].timestamp - baseTime);
        i := i + 1;
      }
      done := i;
    }

    /**
     * One iteration of the pass loop: the poll before action `i` (`stop` when it sees a
     * request), its delay (whose poll aborts the pass when it sees one) and its injection.
     * The pass began with trace `t0` and poll count `start`.
     */
    method PlayActionAt(actions: seq<InputAction>, i: nat, baseTime: int, lastActionTime: Option<int>,
                        cancelAt: nat, ghost t0: seq<Step<InputAction>>, ghost start: nat, polls0: nat)
      returns (polls: nat, stop: bool, aborted: bool)
      requires i < |actions| && cts != null && !cts.cancelled
      requires i == 0 <==> lastActionTime.None?
      requires i > 0 ==> lastActionTime.value == actions[i - 1].timestamp - baseTime
      requires trace == t0 + PassPrefix(actions, i) && polls0 == start + |trace| - |t0| <= cancelAt
      modifies this, cts
      ensures cts == old(cts) && isPlaying == old(isPlaying) && notices == old(notices)
      ensures stop <==> cts.cancelled
      ensures aborted ==> stop
      ensures stop ==>
                && trace == old(trace) && polls == cancelAt + 1
                && start + |PassPrefix(actions, i)| <= cancelAt < start + |PassPrefix(actions, i + 1)|
      ensures start + |trace| - |t0| <= cancelAt
      ensures !stop ==> trace == t0 + PassPrefix(actions, i + 1) && polls == start + |trace| - |t0| <= cancelAt
    {
      PassPrefixStep(actions, i, t0);
      var c := Poll(cancelAt, polls0);
      polls := polls0 + 1;
      if c {
        return polls, true, false;
      }
      var action := actions[i];
      var actionTime := action.timestamp - baseTime;
      aborted := false;
      if lastActionTime.Some? {
        var delay := actionTime - lastActionTime.value;
        if delay > 0 {
          c := Poll(cancelAt, polls);
          polls := polls + 1;
          if c {
            return polls, true, true;
          }
          trace := trace + [Wait(delay)];
        }
      }
      trace := trace + [Inject(action)];
      stop := false;
    }

    /**
     * `PlayAsync`: stops a playback in progress, then plays `repeatCount` passes (or passes
     * until cancelled when `infinite`), pausing `RepeatPause` ms between finite passes.
     * Started and stopped are raised once each, also after a cancellation. The steps added
     * to the trace are `passes` whole passes (with their pauses) and the first `partial`
     * actions of the next one; see `CutScheduleIsPrefix` and `UncancelledRunIsComplete`.
     */
    method PlayAsync(actions: seq<InputAction>, repeatCount: int, infinite: bool, cancelAt: nat)
      returns (polls: nat, ghost passes: nat, ghost partial: nat)
      modifies this, cts
      ensures !isPlaying && cts != null && fresh(cts)
      ensures old(isPlaying) && old(cts) != null ==> old(cts).cancelled
      ensures notices == old(notices) + [PlaybackStarted] + [PlaybackStopped]
      ensures partial <= |actions|
      ensures trace == old(trace) + HeadSchedule(actions, infinite, repeatCount, passes) + PassPrefix(actions, partial)
      ensures !infinite ==> passes + (if partial > 0 then 1 else 0) <= (if repeatCount < 0 then 0 else repeatCount)
      ensures cts.cancelled <==> polls > cancelAt
      ensures !cts.cancelled ==> !infinite && passes == (if repeatCount < 0 then 0 else repeatCount) && partial == 0
      ensures !infinite && cancelAt >= |Schedule(actions, false, if repeatCount < 0 then 0 else repeatCount)| + repeatCount
              ==> !cts.cancelled
      ensures |trace| - |old(trace)| <= cancelAt
      ensures trace == old(trace) + CancelledRun(actions, repeatCount, infinite, cancelAt)
    {
      if isPlaying {
        Stop();
      }
      isPlaying := true;
      cts := new CancellationTokenSource();
      notices := notices + [PlaybackStarted];
      polls, passes, partial := RepeatPasses(actions, repeatCount, infinite, cancelAt);
      isPlaying := false;
      notices := notices + [PlaybackStopped];
    }

    /**
     * The repeat loop of `PlayAsync` (its `try` block), run with a fresh token: `passes`
     * whole passes with their pauses, then the first `partial` actions of the pass that a
     * cancellation cut short.
     */
    method RepeatPasses(actions: seq<InputAction>, repeatCount: int, infinite: bool, cancelAt: nat)
      returns (polls: nat, ghost passes: nat, ghost partial: nat)
      requires cts != null && !cts.cancelled
      modifies this, cts
      ensures cts == old(cts) && isPlaying == old(isPlaying) && notices == old(notices)
      ensures partial <= |actions|
      ensures trace == old(trace) + HeadSchedule(actions, infinite, repeatCount, passes) + PassPrefix(actions, partial)
      ensures !infinite ==> passes + (if partial > 0 then 1 else 0) <= (if repeatCount < 0 then 0 else repeatCount)
      ensures cts.cancelled <==> polls > cancelAt
      ensures !cts.cancelled ==> !infinite && passes == (if repeatCount < 0 then 0 else repeatCount) && partial == 0
      ensures !infinite && cancelAt >= |Schedule(actions, false, if repeatCount < 0 then 0 else repeatCount)| + repeatCount
              ==> !cts.cancelled
      ensures |trace| - |old(trace)| <= cancelAt
      ensures trace == old(trace) + CancelledRun(actions, repeatCount, infinite, cancelAt)
    {
      ghost var t0 := trace;
      ghost var n := if repeatCount < 0 then 0 else repeatCount;
      var currentRepeat := 0;
      polls := 0;
      passes, partial := 0, 0;
      assert HeadSchedule(actions, infinite, repeatCount, 0) == [];
      while infinite || currentRepeat < repeatCount
        invariant !infinite ==> currentRepeat <= n
        invariant cts == old(cts) && isPlaying == old(isPlaying) && notices == old(notices)
        invariant !cts.cancelled && passes == currentRepeat && partial == 0
        invariant trace == t0 + HeadSchedule(actions, infinite, repeatCount, currentRepeat)
        invariant polls == |trace| - |t0| + currentRepeat <= cancelAt
        decreases if infinite then cancelAt - polls else n - currentRepeat
      {
        ScheduleRoomForPass(actions, infinite, repeatCount, currentRepeat);
        var stop;
        polls, stop, passes, partial := PlayRound(actions, repeatCount, infinite, cancelAt, t0, currentRepeat, polls);
        if stop {
          CutLifts(actions, repeatCount, infinite, currentRepeat, cancelAt);
          return;
        }
        currentRepeat := currentRepeat + 1;
      }
      AppendNothing(trace, t0, HeadSchedule(actions, infinite, repeatCount, passes), PassPrefix(actions, partial));
      CutAfterEnd(actions, repeatCount, cancelAt);
    }

    /**
     * One iteration of the repeat loop of `PlayAsync`, entered with the token not yet
     * cancelled: the poll at the loop head, a pass, and the pause when another finite pass
     * follows. A request seen at any of its polls ends the playback (`stop`); otherwise
     * the trace has grown by exactly one whole pass and its pause.
     */
    method PlayRound(actions: seq<InputAction>, repeatCount: int, infinite: bool, cancelAt: nat,
                     ghost t0: seq<Step<InputAction>>, currentRepeat: nat, polls0: nat)
      returns (polls: nat, stop: bool, ghost passes: nat, ghost partial: nat)
      requires cts != null && !cts.cancelled
      requires infinite || currentRepeat < repeatCount
      requires trace == t0 + HeadSchedule(actions, infinite, repeatCount, currentRepeat)
      requires polls0 == |trace| - |t0| + currentRepeat <= cancelAt
      modifies this, cts
      ensures cts == old(cts) && isPlaying == old(isPlaying) && notices == old(notices)
      ensures stop <==> cts.cancelled
      ensures stop ==> cancelAt < polls
      ensures |trace| - |t0| <= cancelAt
      ensures !stop ==> polls0 < polls <= cancelAt && polls == |trace| - |t0| + currentRepeat + 1
      ensures polls <= polls0 + 1 + |PassPrefix(actions, |actions|)| + (if !infinite && currentRepeat + 1 < repeatCount then 1 else 0)
      ensures partial <= |actions|
      ensures trace == t0 + HeadSchedule(actions, infinite, repeatCount, passes) + PassPrefix(actions, partial)
      ensures !stop ==> passes == currentRepeat + 1 && partial == 0
      ensures !infinite ==> passes + (if partial > 0 then 1 else 0) <= currentRepeat + 1
      ensures stop ==>
                && cancelAt < Checks(RunTicks(actions, infinite, repeatCount, currentRepeat + 1))
                && trace == t0 + StepsBefore(RunTicks(actions, infinite, repeatCount, currentRepeat + 1), cancelAt)
    {
      ghost var h := HeadSchedule(actions, infinite, repeatCount, currentRepeat);
      passes, partial := currentRepeat, 0;
      assert trace == t0 + h + PassPrefix(actions, 0) by {
        AppendNothing(trace, t0, h, PassPrefix(actions, 0));
      }
      var c := Poll(cancelAt, polls0);
      polls := polls0 + 1;
      if c {
        RunTicksPlay(actions, infinite, repeatCount, currentRepeat);
        CutTrace(trace, t0, actions, infinite, repeatCount, currentRepeat, 0, cancelAt);
        return polls, true, passes, partial;
      }
      ghost var before := trace;
      var done, polls', aborted := PlayActionsAsync(actions, cancelAt, polls);
      polls := polls';
      partial := done;
      assert trace == t0 + h + PassPrefix(actions, done) by {
        AppendPass(trace, t0, h, before, PassPrefix(actions, done));
      }
      if done < |actions| {
        assert |PassPrefix(actions, done + 1)| <= |PassPrefix(actions, |actions|)| by {
          PassLengthGrows(actions, done + 1, |actions|);
        }
      }
      if cts.cancelled {
        RunTicksPlay(actions, infinite, repeatCount, currentRepeat);
        CutTrace(trace, t0, actions, infinite, repeatCount, currentRepeat, done, cancelAt);
      }
      if aborted {
        return polls, true, passes, partial;
      }
      if !infinite && currentRepeat + 1 < repeatCount {
        c := Poll(cancelAt, polls);
        polls := polls + 1;
        if c {
          if done == |actions| {
            RunTicksPlay(actions, infinite, repeatCount, currentRepeat);
            CutTrace(trace, t0, actions, infinite, repeatCount, currentRepeat, done, cancelAt);
          }
          return polls, true, passes, partial;
        }
        before := trace;
        trace := trace + [Wait(RepeatPause)];
        AfterPause(t0, actions, repeatCount, currentRepeat, before, trace);
        passes, partial := currentRepeat + 1, 0;
      } else if !cts.cancelled {
        AfterWholePass(t0, actions, infinite, repeatCount, currentRepeat, trace);
        passes, partial := currentRepeat + 1, 0;
      }
      stop := cts.cancelled;
    }
  }

  lemma AppendNothing<T>(t: seq<T>, t0: seq<T>, h: seq<T>, e: seq<T>)
    requires t == t0 + h && e == []
    ensures t == t0 + h + e
  {
  }

  lemma AppendPass<T>(t: seq<T>, t0: seq<T>, h: seq<T>, before: seq<T>, p: seq<T>)
    requires before == t0 + h && t == before + p
    ensures t == t0 + h + p
  {
  }

  /** A whole pass with no pause after it completes the next loop head. */
  lemma AfterWholePass(t0: seq<Step<InputAction>>, actions: seq<InputAction>, infinite: bool, repeatCount: int,
                       n: nat, t: seq<Step<InputAction>>)
    requires infinite || n + 1 == repeatCount
    requires t == t0 + HeadSchedule(actions, infinite, repeatCount, n) + PassPrefix(actions, |actions|)
    ensures t == t0 + HeadSchedule(actions, infinite, repeatCount, n + 1) + PassPrefix(actions, 0)
  {
    NextHead(actions, infinite, repeatCount, n);
    Regroup(t, t0, HeadSchedule(actions, infinite, repeatCount, n), Pass(actions), [],
            HeadSchedule(actions, infinite, repeatCount, n + 1), PassPrefix(actions, 0));
  }

  /** A whole pass followed by the pause completes the next loop head. */
  lemma AfterPause(t0: seq<Step<InputAction>>, actions: seq<InputAction>, repeatCount: int, n: nat,
                   before: seq<Step<InputAction>>, after: seq<Step<InputAction>>)
    requires n + 1 < repeatCount
    requires before == t0 + HeadSchedule(actions, false, repeatCount, n) + PassPrefix(actions, |actions|)
    requires after == before + [Wait(RepeatPause)]
    ensures after == t0 + HeadSchedule(actions, false, repeatCount, n + 1) + PassPrefix(actions, 0)
  {
    NextHead(actions, false, repeatCount, n);
    Regroup(after, t0, HeadSchedule(actions, false, repeatCount, n), Pass(actions), [Wait(RepeatPause)],
            HeadSchedule(actions, false, repeatCount, n + 1), PassPrefix(actions, 0));
  }

  /** Re-associating a trace: `t0 + h + p + w` is `t0` followed by the longer head `h1 = h + p + w`. */
  lemma Regroup<T>(t: seq<T>, t0: seq<T>, h: seq<T>, p: seq<T>, w: seq<T>, h1: seq<T>, e: seq<T>)
    requires t == t0 + h + p + w && h1 == h + p + w && e == []
    ensures t == t0 + h1 + e
  {
    assert t0 + h1 + e == t0 + h1;
  }

  /** After `n` whole passes, the next loop head: one more pass, then the pause if one follows. */
  lemma NextHead(actions: seq<InputAction>, infinite: bool, repeatCount: int, n: nat)
    requires infinite || n < repeatCount
    ensures HeadSchedule(actions, infinite, repeatCount, n) + Pass(actions)
            + (if 0 < n + 1 < repeatCount && !infinite then [Wait(RepeatPause)] else [])
            == HeadSchedule(actions, infinite, repeatCount, n + 1)
  {
  }

  /**
   * The polls of pass `c + 1` of a finite repeat, and of the pause after it, stay below
   * the poll count of the whole schedule.
   */
  lemma ScheduleRoomForPass(actions: seq<InputAction>, infinite: bool, repeatCount: int, c: nat)
    requires infinite || c < repeatCount
    ensures !infinite ==>
              |HeadSchedule(actions, false, repeatCount, c)| + |Pass(actions)|
              + (if c + 1 < repeatCount then 1 else 0) <= |Schedule(actions, false, repeatCount)|
  {
    if !infinite {
      HeadScheduleWithinSchedule(actions, c + 1, repeatCount);
      NextHead(actions, false, repeatCount, c);
    }
  }

  /** Whatever was cut short, a finite run is a prefix of the uncancelled schedule. */
  lemma CutScheduleIsPrefix(actions: seq<InputAction>, repeatCount: nat, passes: nat, partial: nat)
    requires partial <= |actions| && passes + (if partial > 0 then 1 else 0) <= repeatCount
    ensures HeadSchedule(actions, false, repeatCount, passes) + PassPrefix(actions, partial)
            <= Schedule(actions, false, repeatCount)
  {
    var h := HeadSchedule(actions, false, repeatCount, passes);
    if partial == 0 {
      HeadScheduleWithinSchedule(actions, passes, repeatCount);
      assert h + PassPrefix(actions, 0) == h;
    } else {
      PassPrefixGrows(actions, partial, |actions|);
      PrefixOfAppend(PassPrefix(actions, partial), Pass(actions), []);
      assert h + PassPrefix(actions, partial) <= h + Pass(actions);
      NextHead(actions, false, repeatCount, passes);
      PrefixOfAppend(h + Pass(actions), h + Pass(actions),
                     if 0 < passes + 1 < repeatCount then [Wait(RepeatPause)] else []);
      HeadScheduleWithinSchedule(actions, passes + 1, repeatCount);
    }
  }

  /** A finite run that no poll cancelled is the whole schedule, and `0 ms` of it is missing. */
  lemma UncancelledRunIsComplete(actions: seq<InputAction>, repeatCount: nat)
    ensures HeadSchedule(actions, false, repeatCount, repeatCount) + PassPrefix(actions, 0)
            == Schedule(actions, false, repeatCount)
  {
  }
}
