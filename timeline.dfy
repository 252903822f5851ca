/**
 * The idealised clock shared by every replay loop. A replay is modelled as a trace of
 * steps: a `Wait(ms)` for each sleep or delay and an `Inject(cmd)` for each synthesized
 * input. Injecting takes no time, so the time at any point of a trace is the sum of the
 * waits before it.
 */
module Timeline {

  datatype Step<C> = Wait(ms: nat) | Inject(cmd: C)

  /** Idealised time spent in a trace: the sum of its waits. */
  function TotalWait<C>(t: seq<Step<C>>): nat
  {
    if t == [] then 0
    else TotalWait(t[..|t| - 1]) + (if t[|t| - 1].Wait? then t[|t| - 1].ms else 0)
  }

  /** The commands a trace injects, in order. */
  function Injected<C>(t: seq<Step<C>>): seq<C>
  {
    if t == [] then []
    else Injected(t[..|t| - 1]) + (if t[|t| - 1].Inject? then [t[|t| - 1].cmd] else [])
  }

  lemma {:induction false} TotalWaitAppend<C>(s: seq<Step<C>>, t: seq<Step<C>>)
    ensures TotalWait(s + t) == TotalWait(s) + TotalWait(t)
    decreases |t|
  {
    if t == [] {
      assert s + t == s;
    } else {
      var last := t[|t| - 1];
      assert (s + t)[..|s + t| - 1] == s + t[..|t| - 1];
      TotalWaitAppend(s, t[..|t| - 1]);
    }
  }

  lemma {:induction false} InjectedAppend<C>(s: seq<Step<C>>, t: seq<Step<C>>)
    ensures Injected(s + t) == Injected(s) + Injected(t)
    decreases |t|
  {
    if t == [] {
      assert s + t == s;
    } else {
      assert (s + t)[..|s + t| - 1] == s + t[..|t| - 1];
      InjectedAppend(s, t[..|t| - 1]);
    }
  }

  /** Sleeping until a target, then injecting one command, adds that sleep and that command. */
  lemma SleepThenInject<C>(p: seq<Step<C>>, target: int, elapsed: int, c: C)
    ensures Injected(p + SleepUntil(target, elapsed) + [Inject(c)]) == Injected(p) + [c]
    ensures TotalWait(p + SleepUntil(target, elapsed) + [Inject(c)]) ==
              TotalWait(p) + (if target - elapsed > 0 then target - elapsed else 0)
  {
    var g: seq<Step<C>> := SleepUntil(target, elapsed);
    var s: seq<Step<C>> := [Inject(c)];
    InjectedAppend(p + g, s);
    InjectedAppend(p, g);
    TotalWaitAppend(p + g, s);
    TotalWaitAppend(p, g);
    SingleStep(s[0]);
    if g != [] {
      SingleStep(g[0]);
    }
  }

  /** Steps that inject nothing, then one command: the command is all that is added. */
  lemma InjectAfterWaits<C>(p: seq<Step<C>>, g: seq<Step<C>>, c: C)
    requires Injected(g) == []
    ensures Injected(p + g + [Inject(c)]) == Injected(p) + [c]
  {
    InjectedAppend(p + g, [Inject(c)]);
    InjectedAppend(p, g);
    SingleStep(Inject(c));
  }

  /** A trace that was `t0 + h` and then grew by `p` is `t0` followed by `h + p`. */
  lemma Extend<T>(t: seq<T>, t0: seq<T>, h: seq<T>, before: seq<T>, p: seq<T>)
    requires before == t0 + h && t == before + p
    ensures t == t0 + (h + p)
  {
  }

  /** A trace that was `t0 + p` and then grew by `g` and `c` is `t0` followed by `p + g + c`. */
  lemma Associate<T>(t: seq<T>, t0: seq<T>, p: seq<T>, g: seq<T>, c: seq<T>)
    requires t == t0 + p + g + c
    ensures t == t0 + (p + g + c)
  {
  }

  /** A prefix one longer is the shorter prefix and one more element. */
  lemma SnocPrefix<T>(s: seq<T>, n: nat)
    requires 0 < n <= |s|
    ensures s[..n] == s[..n - 1] + [s[n - 1]]
  {
  }

  /** What a single step contributes. */
  lemma SingleStep<C>(s: Step<C>)
    ensures Injected([s]) == (if s.Inject? then [s.cmd] else [])
    ensures TotalWait([s]) == (if s.Wait? then s.ms else 0)
  {
    assert [s][..0] == [];
  }

  /** `n` passes, consecutive ones separated by `pause`, none after the last. */
  function Repeated<T>(pass: seq<T>, pause: seq<T>, n: nat): seq<T>
  {
    if n == 0 then []
    else if n == 1 then pass
    else Repeated(pass, pause, n - 1) + pause + pass
  }

  lemma {:induction false} RepeatedTotals<C>(pass: seq<Step<C>>, pause: seq<Step<C>>, n: nat)
    requires n >= 1
    ensures TotalWait(Repeated(pass, pause, n)) == n * TotalWait(pass) + (n - 1) * TotalWait(pause)
    ensures |Injected(Repeated(pass, pause, n))| == n * |Injected(pass)| + (n - 1) * |Injected(pause)|
  {
    if n > 1 {
      RepeatedTotals(pass, pause, n - 1);
      var r := Repeated(pass, pause, n - 1);
      TotalWaitAppend(r + pause, pass);
      TotalWaitAppend(r, pause);
      InjectedAppend(r + pause, pass);
      InjectedAppend(r, pause);
      var w, v, i, j := TotalWait(pass), TotalWait(pause), |Injected(pass)|, |Injected(pause)|;
      assert n * w == (n - 1) * w + w && (n - 1) * v == (n - 2) * v + v by {
        ShiftMul(n - 1, w);
        ShiftMul(n - 2, v);
      }
      assert n * i == (n - 1) * i + i && (n - 1) * j == (n - 2) * j + j by {
        ShiftMul(n - 1, i);
        ShiftMul(n - 2, j);
      }
    }
  }

  lemma ShiftMul(m: int, a: int)
    ensures (m + 1) * a == m * a + a
  {
  }

  // ---- Deadline scheduling: wait until an absolute target measured from the pass start ----

  function Max(a: int, b: int): int { if a < b then b else a }

  /** The largest of 0 and the first `n` targets. */
  function RunMax(times: seq<int>, n: nat): (m: int)
    requires n <= |times|
    ensures m >= 0
    ensures forall k :: 0 <= k < n ==> times[k] <= m
    ensures m == 0 || exists k :: 0 <= k < n && times[k] == m
  {
    if n == 0 then 0 else Max(RunMax(times, n - 1), times[n - 1])
  }

  /** The sleep before an item: `target - elapsed` when that is positive, nothing otherwise. */
  function SleepUntil<C>(target: int, elapsed: int): (t: seq<Step<C>>)
  {
    if target - elapsed > 0 then [Wait(target - elapsed)] else []
  }

  /**
   * The idealised clock of a deadline pass after its first `n` items: before each item the
   * loop measures the time elapsed since the pass began and sleeps for what is left until
   * the item's target, if anything.
   */
  function DeadlineClock(times: seq<int>, n: nat): int
    requires n <= |times|
  {
    if n == 0 then 0
    else
      var e := DeadlineClock(times, n - 1);
      e + (if times[n - 1] - e > 0 then times[n - 1] - e else 0)
  }

  /**
   * The trace of the first `n` items of a deadline pass: the sleep until item `i`'s target
   * `times[i]`, then the item itself, injected.
   */
  function DeadlinePass<T>(times: seq<int>, items: seq<T>, n: nat): seq<Step<T>>
    requires |times| == |items| && n <= |items|
  {
    if n == 0 then []
    else DeadlinePass(times, items, n - 1) + SleepUntil(times[n - 1], DeadlineClock(times, n - 1)) + [Inject(items[n - 1])]
  }

  /** Concatenation of the items' commands. */
  function Flatten<C>(cmds: seq<seq<C>>): seq<C>
  {
    if cmds == [] then [] else Flatten(cmds[..|cmds| - 1]) + cmds[|cmds| - 1]
  }

  /** The clock after `n` items is the latest of their targets, and never before the start. */
  lemma {:induction false} ClockIsRunningMax(times: seq<int>, n: nat)
    requires n <= |times|
    ensures DeadlineClock(times, n) == RunMax(times, n)
  {
    if n > 0 {
      ClockIsRunningMax(times, n - 1);
    }
  }

  /** One more item adds its sleep, if any, to the waits and itself to the injected items. */
  lemma DeadlinePassOneMore<T>(times: seq<int>, items: seq<T>, n: nat)
    requires |times| == |items| && 0 < n <= |items|
    ensures Injected(DeadlinePass(times, items, n)) == Injected(DeadlinePass(times, items, n - 1)) + [items[n - 1]]
    ensures TotalWait(DeadlinePass(times, items, n)) ==
              TotalWait(DeadlinePass(times, items, n - 1)) + (DeadlineClock(times, n) - DeadlineClock(times, n - 1))
  {
    SleepThenInject(DeadlinePass(times, items, n - 1), times[n - 1], DeadlineClock(times, n - 1), items[n - 1]);
  }

  /** The clock is the time slept so far: the waits of the trace add up to it. */
  lemma {:induction false} ClockIsTimeSlept<T>(times: seq<int>, items: seq<T>, n: nat)
    requires |times| == |items| && n <= |items|
    ensures TotalWait(DeadlinePass(times, items, n)) == DeadlineClock(times, n)
  {
    if n > 0 {
      var p, q := TotalWait(DeadlinePass(times, items, n - 1)), TotalWait(DeadlinePass(times, items, n));
      assert p == DeadlineClock(times, n - 1) by { ClockIsTimeSlept(times, items, n - 1); }
      assert q == p + (DeadlineClock(times, n) - DeadlineClock(times, n - 1)) by { DeadlinePassOneMore(times, items, n); }
    }
  }

  /** The first `n` items are injected once each, in order. */
  lemma {:induction false} DeadlinePassInOrder<T>(times: seq<int>, items: seq<T>, n: nat)
    requires |times| == |items| && n <= |items|
    ensures Injected(DeadlinePass(times, items, n)) == items[..n]
  {
    if n > 0 {
      var p, q := Injected(DeadlinePass(times, items, n - 1)), Injected(DeadlinePass(times, items, n));
      assert p == items[..n - 1] by { DeadlinePassInOrder(times, items, n - 1); }
      assert q == p + [items[n - 1]] by { DeadlinePassOneMore(times, items, n); }
      SnocPrefix(items, n);
    }
  }

  /**
   * With an idealised clock, item `n - 1` of a deadline pass is injected at the running
   * maximum of the targets so far (never before 0), and a whole pass injects every item
   * once, in order.
   */
  lemma DeadlineFiresAtRunningMax<T>(times: seq<int>, items: seq<T>, n: nat)
    requires |times| == |items| && n <= |items|
    ensures DeadlineClock(times, n) == TotalWait(DeadlinePass(times, items, n)) == RunMax(times, n)
    ensures Injected(DeadlinePass(times, items, |items|)) == items
  {
    ClockIsRunningMax(times, n);
    ClockIsTimeSlept(times, items, n);
    DeadlinePassInOrder(times, items, |items|);
    assert items[..|items|] == items;
  }

  /** For non-negative, non-decreasing targets the deadline schedule does not drift. */
  lemma {:induction false} SortedTargetsFireOnTime(times: seq<int>, k: nat)
    requires k < |times|
    requires forall i, j :: 0 <= i <= j < |times| ==> times[i] <= times[j]
    requires |times| > 0 ==> times[0] >= 0
    ensures RunMax(times, k + 1) == times[k]
  {
    if k > 0 {
      SortedTargetsFireOnTime(times, k - 1);
    }
  }

  // ---- Loops that read a stop flag set by another thread ----

  /**
   * What an uncancelled replay loop does, in order: a `Check` is one read of the stop flag
   * (or cancellation token), a `Do(s)` one step of its trace.
   */
  datatype Tick<C> = Check | Do(step: Step<C>)

  /** The steps of a run of the loop. */
  function Steps<C>(ts: seq<Tick<C>>): seq<Step<C>>
  {
    if ts == [] then []
    else (if ts[0].Do? then [ts[0].step] else []) + Steps(ts[1..])
  }

  /** How many times a run of the loop reads the flag. */
  function Checks<C>(ts: seq<Tick<C>>): nat
  {
    if ts == [] then 0
    else (if ts[0].Check? then 1 else 0) + Checks(ts[1..])
  }

  /**
   * What the loop plays when read number `k` (counting from 0) is the first to see a stop
   * request: the steps before that read, and nothing after it. A loop that reads the flag
   * fewer than `k + 1` times plays all of its steps.
   */
  function StepsBefore<C>(ts: seq<Tick<C>>, k: nat): seq<Step<C>>
  {
    if ts == [] then []
    else if ts[0].Check? then (if k == 0 then [] else StepsBefore(ts[1..], k - 1))
    else [ts[0].step] + StepsBefore(ts[1..], k)
  }

  /** What one tick in front of a run adds. */
  lemma ConsTick<C>(x: Tick<C>, r: seq<Tick<C>>, k: nat)
    ensures Steps([x] + r) == (if x.Do? then [x.step] else []) + Steps(r)
    ensures Checks([x] + r) == (if x.Check? then 1 else 0) + Checks(r)
    ensures StepsBefore([x] + r, k) ==
              if x.Do? then [x.step] + StepsBefore(r, k) else if k == 0 then [] else StepsBefore(r, k - 1)
  {
    assert ([x] + r)[0] == x && ([x] + r)[1..] == r;
  }

  lemma {:induction false} StepsAppend<C>(a: seq<Tick<C>>, b: seq<Tick<C>>)
    ensures Steps(a + b) == Steps(a) + Steps(b)
    ensures Checks(a + b) == Checks(a) + Checks(b)
    decreases |a|
  {
    if a == [] {
      assert a + b == b;
    } else {
      assert (a + b)[0] == a[0] && (a + b)[1..] == a[1..] + b;
      StepsAppend(a[1..], b);
    }
  }

  /**
   * Running two stretches of a loop one after the other: a request seen in the first cuts
   * it there; one seen later plays all of the first and the matching prefix of the second.
   */
  lemma {:induction false} TicksAppend<C>(a: seq<Tick<C>>, b: seq<Tick<C>>, k: nat)
    ensures Steps(a + b) == Steps(a) + Steps(b)
    ensures Checks(a + b) == Checks(a) + Checks(b)
    ensures StepsBefore(a + b, k) ==
              if k < Checks(a) then StepsBefore(a, k) else Steps(a) + StepsBefore(b, k - Checks(a))
    decreases |a|
  {
    StepsAppend(a, b);
    if a == [] {
      assert a + b == b;
    } else {
      var r := a[1..];
      assert (a + b)[0] == a[0] && (a + b)[1..] == r + b;
      if a[0].Check? {
        assert Checks(a) == 1 + Checks(r) && Steps(a) == Steps(r);
        if k > 0 {
          TicksAppend(r, b, k - 1);
          assert StepsBefore(a + b, k) == StepsBefore(r + b, k - 1);
        }
      } else {
        var s := a[0].step;
        assert Checks(a) == Checks(r) && Steps(a) == [s] + Steps(r);
        TicksAppend(r, b, k);
        assert StepsBefore(a + b, k) == [s] + StepsBefore(r + b, k);
        assert StepsBefore(a, k) == [s] + StepsBefore(r, k);
      }
    }
  }

  /** A request seen in the first of two stretches cuts the loop there. */
  lemma CutInFirst<C>(a: seq<Tick<C>>, b: seq<Tick<C>>, k: nat)
    requires k < Checks(a)
    ensures StepsBefore(a + b, k) == StepsBefore(a, k)
  {
    TicksAppend(a, b, k);
  }

  /** A request seen in the second of two stretches plays all of the first. */
  lemma CutInSecond<C>(a: seq<Tick<C>>, b: seq<Tick<C>>, k: nat)
    requires Checks(a) <= k
    ensures StepsBefore(a + b, k) == Steps(a) + StepsBefore(b, k - Checks(a))
  {
    TicksAppend(a, b, k);
  }

  /** A request first seen after the loop's last read plays every step. */
  lemma {:induction false} StepsBeforeLateRequest<C>(ts: seq<Tick<C>>, k: nat)
    requires Checks(ts) <= k
    ensures StepsBefore(ts, k) == Steps(ts)
    decreases |ts|
  {
    if ts != [] {
      if ts[0].Check? {
        StepsBeforeLateRequest(ts[1..], k - 1);
      } else {
        StepsBeforeLateRequest(ts[1..], k);
      }
    }
  }

  /** A cancelled run plays a prefix of the uncancelled one. */
  lemma {:induction false} StepsBeforeIsPrefix<C>(ts: seq<Tick<C>>, k: nat)
    ensures StepsBefore(ts, k) <= Steps(ts)
    decreases |ts|
  {
    if ts != [] {
      var head: seq<Step<C>> := if ts[0].Do? then [ts[0].step] else [];
      if ts[0].Check? && k > 0 {
        StepsBeforeIsPrefix(ts[1..], k - 1);
      } else if ts[0].Do? {
        StepsBeforeIsPrefix(ts[1..], k);
      }
      PrefixExtends(head, StepsBefore(ts, k), Steps(ts[1..]));
    }
  }

  /** A later request never plays less. */
  lemma {:induction false} StepsBeforeGrows<C>(ts: seq<Tick<C>>, k: nat)
    ensures StepsBefore(ts, k) <= StepsBefore(ts, k + 1)
    decreases |ts|
  {
    if ts != [] {
      if ts[0].Check? && k > 0 {
        StepsBeforeGrows(ts[1..], k - 1);
      } else if ts[0].Do? {
        StepsBeforeGrows(ts[1..], k);
        PrefixExtends([ts[0].step], StepsBefore(ts, k), StepsBefore(ts[1..], k + 1));
      }
    }
  }

  lemma PrefixExtends<T>(head: seq<T>, s: seq<T>, rest: seq<T>)
    requires s == [] || (|s| >= |head| && s[..|head|] == head && s[|head|..] <= rest)
    ensures s <= head + rest
  {
    if s != [] {
      assert s == head + s[|head|..];
    }
  }

  /** A request seen within a prefix of the loop cuts the whole loop at the same place. */
  lemma CutWithinPrefix<C>(a: seq<Tick<C>>, b: seq<Tick<C>>, k: nat)
    requires a <= b && k < Checks(a)
    ensures StepsBefore(b, k) == StepsBefore(a, k)
  {
    assert b == a + b[|a|..];
    TicksAppend(a, b[|a|..], k);
  }

  /** One item of a loop that reads the flag, then sleeps `w` ms if that is positive, then injects `x`. */
  function ItemTicks<T>(w: int, x: T): seq<Tick<T>>
  {
    [Check] + (if w > 0 then [Do(Wait(w))] else []) + [Do(Inject(x))]
  }

  lemma ItemTicksPlay<T>(w: int, x: T)
    ensures Steps(ItemTicks(w, x)) == SleepUntil(w, 0) + [Inject(x)]
    ensures Checks(ItemTicks(w, x)) == 1 && StepsBefore(ItemTicks(w, x), 0) == []
  {
    var last: seq<Tick<T>> := [Do(Inject(x))];
    ConsTick(Do(Inject(x)), [], 0);
    assert last + [] == last;
    var mid: seq<Tick<T>> := if w > 0 then [Do(Wait(w))] + last else last;
    if w > 0 {
      ConsTick(Do(Wait(w)), last, 0);
    }
    assert ItemTicks(w, x) == [Check] + mid;
    ConsTick(Check, mid, 0);
  }

  /**
   * The reads and steps of the first `n` items of a deadline pass that reads the flag
   * before each item.
   */
  function DeadlineTicks<T>(times: seq<int>, items: seq<T>, n: nat): seq<Tick<T>>
    requires |times| == |items| && n <= |items|
  {
    if n == 0 then []
    else DeadlineTicks(times, items, n - 1) + ItemTicks(times[n - 1] - DeadlineClock(times, n - 1), items[n - 1])
  }

  /**
   * A deadline pass that reads the flag once per item plays the deadline pass when
   * uncancelled, and exactly its first `j` items when read `j` is the first to see a stop.
   */
  lemma {:induction false} DeadlineTicksCut<T>(times: seq<int>, items: seq<T>, n: nat, j: nat)
    requires |times| == |items| && n <= |items|
    ensures Steps(DeadlineTicks(times, items, n)) == DeadlinePass(times, items, n)
    ensures Checks(DeadlineTicks(times, items, n)) == n
    ensures j <= n ==> StepsBefore(DeadlineTicks(times, items, n), j) == DeadlinePass(times, items, j)
  {
    if n == 0 {
      assert DeadlinePass(times, items, 0) == [];
    } else {
      var e := DeadlineClock(times, n - 1);
      var g := ItemTicks(times[n - 1] - e, items[n - 1]);
      var p := DeadlineTicks(times, items, n - 1);
      var d0, d := DeadlinePass(times, items, n - 1), DeadlinePass(times, items, n);
      assert Steps(p) == d0 && Checks(p) == n - 1 by { DeadlineTicksCut(times, items, n - 1, 0); }
      assert Steps(g) == SleepUntil(times[n - 1], e) + [Inject(items[n - 1])] && Checks(g) == 1
             && StepsBefore(g, 0) == [] by {
        ItemTicksPlay(times[n - 1] - e, items[n - 1]);
        assert SleepUntil<T>(times[n - 1] - e, 0) == SleepUntil(times[n - 1], e);
      }
      assert Steps(p + g) == Steps(p) + Steps(g) && Checks(p + g) == Checks(p) + Checks(g) by { StepsAppend(p, g); }
      assert DeadlineTicks(times, items, n) == p + g;
      assert d == d0 + SleepUntil(times[n - 1], e) + [Inject(items[n - 1])];
      if j < n - 1 {
        assert StepsBefore(p + g, j) == StepsBefore(p, j) by { CutInFirst(p, g, j); }
        assert StepsBefore(p, j) == DeadlinePass(times, items, j) by { DeadlineTicksCut(times, items, n - 1, j); }
      } else if j == n - 1 {
        assert StepsBefore(p + g, j) == Steps(p) + StepsBefore(g, 0) by { CutInSecond(p, g, j); }
        assert d0 + [] == d0;
      } else if j == n {
        assert StepsBefore(p + g, j) == Steps(p + g) by { StepsBeforeLateRequest(p + g, j); }
      }
    }
  }
}
