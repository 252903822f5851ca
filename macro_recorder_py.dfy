/**
 * The stand-alone tkinter recorder (`macro_recorder.py`): the `MacroRecorder` object's
 * record toggle, the listener callbacks that append one record each while recording, the
 * replay of the records on a deadline schedule, and its own `parse_key`. The window and
 * its widgets are left out; the replay thread is run to completion in line.
 */
module MacroRecorderPy {
  import opened Wrappers
  import opened Timeline
  import opened Pynput

  /** `int(r)`: Python truncates toward zero. */
  function Trunc(r: real): (n: int)
    ensures 0.0 <= r ==> n as real <= r < n as real + 1.0
    ensures r < 0.0 ==> n as real - 1.0 < r <= n as real
  {
    if r >= 0.0 then r.Floor else -((-r).Floor)
  }

  /** Whole numbers pass through `int` unchanged, and the sign is kept. */
  lemma TruncKeepsWholeNumbers(n: int, r: real)
    ensures Trunc(n as real) == n
    ensures (Trunc(r) < 0 ==> r < 0.0) && (Trunc(r) > 0 ==> r > 0.0)
  {
  }

  /** The fields of one appended dictionary besides `type` and `time`. */
  datatype Entry =
    | MoveEntry(x: int, y: int)
    | ClickEntry(x: int, y: int, button: string, pressed: bool)
    | ScrollEntry(x: int, y: int, dx: int, dy: int)
    | KeyEntry(down: bool, key: Option<string>)

  /** One element of `actions`; `time` is milliseconds since recording began. */
  datatype Record = Record(time: int, entry: Entry)

  /** The `type` field: this script's own, shorter tags. */
  function Tag(r: Record): string
  {
    match r.entry
    case MoveEntry(_, _) => "move"
    case ClickEntry(_, _, _, _) => "click"
    case ScrollEntry(_, _, _, _) => "scroll"
    case KeyEntry(down, _) => if down then "key_press" else "key_release"
  }

  /**
   * The record a callback appends for `ev` heard `time` milliseconds after recording
   * began: coordinates and scroll amounts go through `int`, and key records carry no
   * `pressed` field.
   */
  function Capture(ev: ListenerEvent, time: int): (r: Record)
    ensures r.time == time
  {
    match ev
    case Moved(x, y) => Record(time, MoveEntry(Trunc(x), Trunc(y)))
    case Clicked(x, y, button, pressed) => Record(time, ClickEntry(Trunc(x), Trunc(y), ButtonText(button), pressed))
    case Scrolled(x, y, dx, dy) => Record(time, ScrollEntry(Trunc(x), Trunc(y), Trunc(dx), Trunc(dy)))
    case KeyPressed(k) => Record(time, KeyEntry(true, KeyText(k)))
    case KeyReleased(k) => Record(time, KeyEntry(false, KeyText(k)))
  }

  /** Each callback writes its own tag, so the tag tells which callback made the record. */
  lemma CaptureTags(ev: ListenerEvent, time: int)
    ensures Tag(Capture(ev, time)) == "move" <==> ev.Moved?
    ensures Tag(Capture(ev, time)) == "click" <==> ev.Clicked?
    ensures Tag(Capture(ev, time)) == "scroll" <==> ev.Scrolled?
    ensures Tag(Capture(ev, time)) == "key_press" <==> ev.KeyPressed?
    ensures Tag(Capture(ev, time)) == "key_release" <==> ev.KeyReleased?
  {
  }

  /** `MacroRecorder.parse_key`: a `Key.` name, a single character, or nothing. */
  function ParseKey(k: Option<string>): Option<ParsedKey>
  {
    if k.None? || k.value == [] then None
    else if StartsWith(k.value, "Key.") then
      var name := Lower(k.value[4..]);
      if IsKeyMember(name) then Some(Special(name)) else None
    else if |k.value| == 1 then Some(Text(k.value))
    else None
  }

  /**
   * What `parse_key` gives: nothing for a missing or empty key, an unknown `Key.` name or
   * any longer text; a `Key` member found case-insensitively; one character unchanged.
   * Whatever it gives is truthy.
   */
  lemma ParseKeyCases(k: Option<string>)
    ensures ParseKey(k).Some? <==>
              k.Some? && ((StartsWith(k.value, "Key.") && IsKeyMember(Lower(k.value[4..]))) || |k.value| == 1)
    ensures k.Some? && StartsWith(k.value, "Key.") && IsKeyMember(Lower(k.value[4..])) ==>
              ParseKey(k) == Some(Special(Lower(k.value[4..])))
    ensures k.Some? && |k.value| == 1 ==> ParseKey(k) == Some(Text(k.value))
    ensures Truthy(ParseKey(k)) <==> ParseKey(k).Some?
  {
  }

  /** The controller calls `_play_actions` makes for one record; a key that does not parse is skipped. */
  function Dispatch(r: Record): (e: seq<Effect>)
    ensures |e| <= 1
  {
    match r.entry
    case MoveEntry(x, y) => [MoveTo(x, y)]
    case ClickEntry(_, _, button, pressed) =>
      var b := if Contains(button, "left") then Left else Right;
      if pressed then [Press(b)] else [Release(b)]
    case ScrollEntry(_, _, dx, dy) => [Scroll(dx, dy)]
    case KeyEntry(down, key) =>
      var k := ParseKey(key);
      if !Truthy(k) then [] else if down then [PressKey(k.value)] else [ReleaseKey(k.value)]
  }

  /**
   * Replaying a record gives back the input it recorded: the cursor moves to the
   * truncated position, a click presses or releases the left button for a left click and
   * the right button for any other, a scroll turns by the truncated amounts, and a key is
   * pressed or released when its text parses back: a `Key` member by its name, a
   * character by itself. A key without a character is not replayed.
   */
  lemma ReplaysCapture(ev: ListenerEvent, time: int)
    ensures ev.Moved? ==> Dispatch(Capture(ev, time)) == [MoveTo(Trunc(ev.x), Trunc(ev.y))]
    ensures ev.Clicked? ==>
              var b := if ev.button == Left then Left else Right;
              Dispatch(Capture(ev, time)) == [if ev.pressed then Press(b) else Release(b)]
    ensures ev.Scrolled? ==> Dispatch(Capture(ev, time)) == [Scroll(Trunc(ev.dx), Trunc(ev.dy))]
    ensures (ev.KeyPressed? || ev.KeyReleased?) && ev.key.SpecialKey? &&
            IsKeyMember(ev.key.name) && IsLowerName(ev.key.name) ==>
              var k := Special(ev.key.name);
              Dispatch(Capture(ev, time)) == [if ev.KeyPressed? then PressKey(k) else ReleaseKey(k)]
    ensures (ev.KeyPressed? || ev.KeyReleased?) && ev.key.KeyCode? &&
            ev.key.character.Some? && |ev.key.character.value| == 1 ==>
              var k := Text(ev.key.character.value);
              Dispatch(Capture(ev, time)) == [if ev.KeyPressed? then PressKey(k) else ReleaseKey(k)]
    ensures (ev.KeyPressed? || ev.KeyReleased?) && ev.key == KeyCode(None) ==> Dispatch(Capture(ev, time)) == []
  {
    match ev
    case Clicked(_, _, button, _) =>
      ButtonMentionsLeft(button);
    case KeyPressed(k) =>
      if k.SpecialKey? {
        var s := "Key." + k.name;
        assert s[4..] == k.name;
        LowerFixesLowerNames(k.name);
      }
    case KeyReleased(k) =>
      if k.SpecialKey? {
        var s := "Key." + k.name;
        assert s[4..] == k.name;
        LowerFixesLowerNames(k.name);
      }
    case _ =>
  }

  /** The deadlines of a replay: each record's `time`. */
  function Times(rs: seq<Record>): (t: seq<int>)
    ensures |t| == |rs| && forall k :: 0 <= k < |rs| ==> t[k] == rs[k].time
  {
    seq(|rs|, k requires 0 <= k < |rs| => rs[k].time)
  }

  /** The controller calls of each record. */
  function Effects(rs: seq<Record>): (e: seq<seq<Effect>>)
    ensures |e| == |rs| && forall k :: 0 <= k < |rs| ==> e[k] == Dispatch(rs[k])
  {
    seq(|rs|, k requires 0 <= k < |rs| => Dispatch(rs[k]))
  }

  /** A whole replay: sleep until each record's deadline, then replay it. */
  function PassTrace(rs: seq<Record>): seq<Step<Record>>
  {
    DeadlinePass(Times(rs), rs, |rs|)
  }

  /** The controller calls made by the records a trace replays, in order. */
  function Replayed(t: seq<Step<Record>>): seq<Effect>
  {
    Flatten(Effects(Injected(t)))
  }

  /**
   * Record `n - 1` of a replay is replayed at the running maximum of the `time`s so far,
   * and a whole replay makes every record's controller calls once, in order.
   */
  lemma ReplayTiming(rs: seq<Record>, n: nat)
    requires n <= |rs|
    ensures TotalWait(DeadlinePass(Times(rs), rs, n)) == RunMax(Times(rs), n)
    ensures Injected(PassTrace(rs)) == rs
    ensures Replayed(PassTrace(rs)) == Flatten(Effects(rs))
  {
    DeadlineFiresAtRunningMax(Times(rs), rs, n);
  }

  class MacroRecorder {
    var recording: bool
    var playing: bool
    var actions: seq<Record>
    var startTime: Option<int>
    /** Whether `mouse_listener` / `keyboard_listener` refers to a listener. */
    var mouseListener: bool
    var keyboardListener: bool
    /** The sleeps made and the records replayed so far, in order. */
    var trace: seq<Step<Record>>

    /** Recording has a start time. */
    predicate Valid()
      reads this
    {
      recording ==> startTime.Some?
    }

    constructor ()
      ensures Valid() && !recording && !playing && actions == [] && startTime == None
      ensures !mouseListener && !keyboardListener && trace == []
    {
      recording, playing, actions, startTime := false, false, [], None;
      mouseListener, keyboardListener := false, false;
      trace := [];
    }

    /** The record button: starts recording when idle, stops it otherwise. */
    method ToggleRecord(now: int)
      requires Valid()
      modifies this
      ensures Valid()
      ensures recording == !old(recording)
      ensures !old(recording) ==> actions == [] && startTime == Some(now)
      ensures old(recording) ==> actions == old(actions)
      ensures mouseListener == recording && keyboardListener == recording
      ensures playing == old(playing) && trace == old(trace)
    {
      if !recording {
        StartRecord(now);
      } else {
        StopRecord();
      }
    }

    /** `start_record` at clock reading `now`; it has no guard of its own. */
    method StartRecord(now: int)
      modifies this
      ensures Valid()
      ensures recording && actions == [] && startTime == Some(now) && mouseListener && keyboardListener
      ensures playing == old(playing) && trace == old(trace)
    {
      recording := true;
      actions := [];
      startTime := Some(now);
      mouseListener := true;
      keyboardListener := true;
    }

    /** `stop_record`: clears the flag and drops both listeners; the records are kept. */
    method StopRecord()
      modifies this
      ensures Valid()
      ensures !recording && !mouseListener && !keyboardListener
      ensures actions == old(actions) && startTime == old(startTime)
      ensures playing == old(playing) && trace == old(trace)
    {
      recording := false;
      if mouseListener {
        mouseListener := false;
      }
      if keyboardListener {
        keyboardListener := false;
      }
    }

    /** The record `ev` makes `now`: `get_timestamp` is the time since recording began. */
    method Append(ev: ListenerEvent, now: int)
      requires Valid() && recording
      modifies this`actions
      ensures actions == old(actions) + [Capture(ev, now - startTime.value)]
    {
      actions := actions + [Capture(ev, now - startTime.value)];
    }

    method OnMove(x: real, y: real, now: int)
      requires Valid()
      modifies this`actions
      ensures recording ==> actions == old(actions) + [Capture(Moved(x, y), now - startTime.value)]
      ensures !recording ==> actions == old(actions)
    {
      if !recording {
        return;
      }
      Append(Moved(x, y), now);
    }

    method OnClick(x: real, y: real, button: Button, pressed: bool, now: int)
      requires Valid()
      modifies this`actions
      ensures recording ==> actions == old(actions) + [Capture(Clicked(x, y, button, pressed), now - startTime.value)]
      ensures !recording ==> actions == old(actions)
    {
      if !recording {
        return;
      }
      Append(Clicked(x, y, button, pressed), now);
    }

    method OnScroll(x: real, y: real, dx: real, dy: real, now: int)
      requires Valid()
      modifies this`actions
      ensures recording ==> actions == old(actions) + [Capture(Scrolled(x, y, dx, dy), now - startTime.value)]
      ensures !recording ==> actions == old(actions)
    {
      if !recording {
        return;
      }
      Append(Scrolled(x, y, dx, dy), now);
    }

    method OnPress(key: KeyEvent, now: int)
      requires Valid()
      modifies this`actions
      ensures recording ==> actions == old(actions) + [Capture(KeyPressed(key), now - startTime.value)]
      ensures !recording ==> actions == old(actions)
    {
      if !recording {
        return;
      }
      Append(KeyPressed(key), now);
    }

    method OnRelease(key: KeyEvent, now: int)
      requires Valid()
      modifies this`actions
      ensures recording ==> actions == old(actions) + [Capture(KeyReleased(key), now - startTime.value)]
      ensures !recording ==> actions == old(actions)
    {
      if !recording {
        return;
      }
      Append(KeyReleased(key), now);
    }

    /**
     * `play`: nothing without records. Otherwise it sets the flag and runs the replay:
     * before each record it sleeps until the record's `time` measured from the start of
     * the replay, replays it, and at the end clears the flag.
     */
    method Play()
      modifies this
      ensures actions == [] ==> unchanged(this)
      ensures actions != [] ==> !playing && trace == old(trace) + PassTrace(actions)
      ensures recording == old(recording) && actions == old(actions) && startTime == old(startTime)
      ensures mouseListener == old(mouseListener) && keyboardListener == old(keyboardListener)
    {
      if |actions| == 0 {
        return;
      }
      playing := true;
      PlayActions();
    }

    /**
     * `_play_actions`: the loop stops early once `playing` is false, which nothing sets
     * while it runs; then the flag is cleared.
     */
    method PlayActions()
      modifies this`trace, this`playing
      ensures !playing
      ensures old(playing) ==> trace == old(trace) + PassTrace(actions)
      ensures !old(playing) ==> trace == old(trace)
    {
      ghost var t0 := trace;
      var elapsed := 0;
      var i := 0;
      while i < |actions|
        invariant 0 <= i <= |actions| && playing == old(playing)
        invariant !playing ==> i == 0
        invariant trace == t0 + DeadlinePass(Times(actions), actions, i)
        invariant elapsed == DeadlineClock(Times(actions), i)
      {
        if !playing {
          break;
        }
        var now := PlayRecord(actions, i, elapsed, t0);
        elapsed := now;
        i := i + 1;
      }
      playing := false;
    }

    /**
     * One iteration of the replay loop, on record `i`: sleeps for what is left until the
     * record's deadline, `elapsed` milliseconds into the replay, then replays it.
     */
    method PlayRecord(rs: seq<Record>, i: nat, elapsed: int, ghost t0: seq<Step<Record>>) returns (now: int)
      requires i < |rs|
      requires trace == t0 + DeadlinePass(Times(rs), rs, i) && elapsed == DeadlineClock(Times(rs), i)
      modifies this`trace
      ensures trace == t0 + DeadlinePass(Times(rs), rs, i + 1)
      ensures now == DeadlineClock(Times(rs), i + 1)
    {
      var r := rs[i];
      now := elapsed;
      var waitTime := r.time - elapsed;
      if waitTime > 0 {
        trace := trace + [Wait(waitTime)];
        now := now + waitTime;
      }
      trace := trace + [Inject(r)];
      Associate(trace, t0, DeadlinePass(Times(rs), rs, i), SleepUntil(r.time, elapsed), [Inject(r)]);
    }
  }
}
