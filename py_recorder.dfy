/**
 * The recorder script (`recorder.py`): the `Recorder` object whose listener callbacks
 * append one record each while recording, `start` and `stop` with their guards, and the
 * standard-input loop of `main`. The listener threads are modelled by interleaving their
 * callbacks with the lines `main` reads: the input is one sequence of both, each stamped
 * with the clock reading at which it is handled.
 */
module PyRecorder {
  import opened Wrappers
  import opened Pynput
  import PythonBridge

  /** The fields of one appended dictionary besides `type` and `time`. */
  datatype Entry =
    | MoveEntry(x: real, y: real)
    | ClickEntry(x: real, y: real, button: string, pressed: bool)
    | ScrollEntry(x: real, y: real, dx: real, dy: real)
    | KeyEntry(down: bool, key: Option<string>)

  /** One element of `actions`; `time` is milliseconds since `start`. */
  datatype Record = Record(time: int, entry: Entry)

  /** The `type` field. */
  function Tag(r: Record): string
  {
    match r.entry
    case MoveEntry(_, _) => "mouse_move"
    case ClickEntry(_, _, _, _) => "mouse_click"
    case ScrollEntry(_, _, _, _) => "mouse_scroll"
    case KeyEntry(down, _) => if down then "key_press" else "key_release"
  }

  /** The `pressed` field, None where the record has none. */
  function Pressed(r: Record): Option<bool>
  {
    match r.entry
    case ClickEntry(_, _, _, pressed) => Some(pressed)
    case KeyEntry(down, _) => Some(down)
    case _ => None
  }

  /** The record a callback appends for `ev` heard `time` milliseconds after `start`. */
  function Capture(ev: ListenerEvent, time: int): (r: Record)
    ensures r.time == time
  {
    match ev
    case Moved(x, y) => Record(time, MoveEntry(x, y))
    case Clicked(x, y, button, pressed) => Record(time, ClickEntry(x, y, ButtonText(button), pressed))
    case Scrolled(x, y, dx, dy) => Record(time, ScrollEntry(x, y, dx, dy))
    case KeyPressed(k) => Record(time, KeyEntry(true, KeyText(k)))
    case KeyReleased(k) => Record(time, KeyEntry(false, KeyText(k)))
  }

  /**
   * Each callback writes its own tag, so the tag tells which callback made the record;
   * `pressed` is True for a key press, False for a release and the button state for a
   * click; coordinates, amounts, the button text and the key text are the ones heard.
   */
  lemma CaptureFields(ev: ListenerEvent, time: int)
    ensures Tag(Capture(ev, time)) == "mouse_move" <==> ev.Moved?
    ensures Tag(Capture(ev, time)) == "mouse_click" <==> ev.Clicked?
    ensures Tag(Capture(ev, time)) == "mouse_scroll" <==> ev.Scrolled?
    ensures Tag(Capture(ev, time)) == "key_press" <==> ev.KeyPressed?
    ensures Tag(Capture(ev, time)) == "key_release" <==> ev.KeyReleased?
    ensures Pressed(Capture(ev, time)) ==
              (if ev.KeyPressed? then Some(true) else if ev.KeyReleased? then Some(false)
               else if ev.Clicked? then Some(ev.pressed) else None)
    ensures ev.Moved? ==> Capture(ev, time).entry == MoveEntry(ev.x, ev.y)
    ensures ev.Clicked? ==> Capture(ev, time).entry == ClickEntry(ev.x, ev.y, ButtonText(ev.button), ev.pressed)
    ensures ev.Scrolled? ==> Capture(ev, time).entry == ScrollEntry(ev.x, ev.y, ev.dx, ev.dy)
    ensures ev.KeyPressed? || ev.KeyReleased? ==> Capture(ev, time).entry.key == KeyText(ev.key)
  {
  }

  /** The dictionary `stop` returns and prints: `start_time` holds the clock reading at the stop. */
  datatype StopReport = StopReport(startTime: int, actions: seq<Record>)

  /** A line the script prints: a status line, or the JSON of a stop report. */
  datatype Printed = Line(text: string) | Json(report: StopReport)

  /** Everything `Recorder` holds; a listener field is true while it refers to a listener. */
  datatype State = State(
    recording: bool, actions: seq<Record>, startTime: Option<int>,
    mouseListener: bool, keyboardListener: bool, output: seq<Printed>)

  /** Both listeners run exactly while recording, and recording has a start time. */
  predicate Valid(s: State)
  {
    s.mouseListener == s.recording && s.keyboardListener == s.recording && (s.recording ==> s.startTime.Some?)
  }

  /** A `Recorder` just constructed, before anything was printed. */
  function Initial(): (s: State)
    ensures Valid(s) && !s.recording && s.actions == [] && s.output == []
  {
    State(false, [], None, false, false, [])
  }

  /** How `main` reads a line once stripped, and the callbacks heard between lines. */
  datatype Occurrence = StartCommand(at: int) | StopCommand(at: int) | QuitCommand | OtherLine | Heard(event: ListenerEvent, at: int)

  /** What happens to the recorder on one occurrence, as `start`, `stop` and the callbacks do it. */
  function Next(s: State, o: Occurrence): (r: State)
    requires Valid(s)
    ensures Valid(r)
  {
    match o
    case StartCommand(at) =>
      if s.recording then s
      else State(true, [], Some(at), true, true, s.output + [Line(PythonBridge.RecordingStartedLine)])
    case StopCommand(at) =>
      if !s.recording then s
      else State(false, s.actions, s.startTime, false, false,
                 s.output + [Line(PythonBridge.RecordingStoppedLine), Json(StopReport(at, s.actions))])
    case Heard(ev, at) =>
      if !s.recording then s
      else s.(actions := s.actions + [Capture(ev, at - s.startTime.value)])
    case _ => s
  }

  /** The state after the occurrences, in order. */
  function Run(s: State, os: seq<Occurrence>): (r: State)
    requires Valid(s)
    ensures Valid(r)
  {
    if os == [] then s else Next(Run(s, os[..|os| - 1]), os[|os| - 1])
  }

  /** `stop` twice in a row is `stop` once, and `start` while recording changes nothing. */
  lemma GuardsMakeRepeatsHarmless(s: State, at: int, later: int)
    requires Valid(s)
    ensures Next(Next(s, StopCommand(at)), StopCommand(later)) == Next(s, StopCommand(at))
    ensures s.recording ==> Next(s, StartCommand(at)) == s
    ensures !Next(s, StopCommand(at)).recording
  {
  }

  lemma {:induction false} RunAppend(s: State, a: seq<Occurrence>, b: seq<Occurrence>)
    requires Valid(s)
    ensures Run(s, a + b) == Run(Run(s, a), b)
    decreases |b|
  {
    if b == [] {
      assert a + b == a;
    } else {
      var b' := b[..|b| - 1];
      assert (a + b)[..|a + b| - 1] == a + b';
      assert (a + b)[|a + b| - 1] == b[|b| - 1];
      RunAppend(s, a, b');
    }
  }

  /** The records the callbacks append for the events heard, with `start` at `t0`. */
  function Captures(heard: seq<Occurrence>, t0: int): (rs: seq<Record>)
    requires forall k :: 0 <= k < |heard| ==> heard[k].Heard?
    ensures |rs| == |heard|
    ensures forall k :: 0 <= k < |heard| ==> rs[k] == Capture(heard[k].event, heard[k].at - t0)
  {
    seq(|heard|, k requires 0 <= k < |heard| => Capture(heard[k].event, heard[k].at - t0))
  }

  /** While recording, each callback appends its record at the end, in the order heard. */
  lemma {:induction false} RecordingAppendsInOrder(s: State, heard: seq<Occurrence>)
    requires Valid(s) && s.recording
    requires forall k :: 0 <= k < |heard| ==> heard[k].Heard?
    ensures Run(s, heard) == s.(actions := s.actions + Captures(heard, s.startTime.value))
    decreases |heard|
  {
    if heard != [] {
      var t0, front, last := s.startTime.value, heard[..|heard| - 1], heard[|heard| - 1];
      RecordingAppendsInOrder(s, front);
      var c := Capture(last.event, last.at - t0);
      assert Run(s, heard) == s.(actions := (s.actions + Captures(front, t0)) + [c]);
      CapturesSnoc(heard, t0);
      assert (s.actions + Captures(front, t0)) + [c] == s.actions + (Captures(front, t0) + [c]);
    }
  }

  lemma CapturesSnoc(heard: seq<Occurrence>, t0: int)
    requires heard != [] && forall k :: 0 <= k < |heard| ==> heard[k].Heard?
    ensures Captures(heard, t0) ==
              Captures(heard[..|heard| - 1], t0) + [Capture(heard[|heard| - 1].event, heard[|heard| - 1].at - t0)]
  {
  }

  /** While not recording, callbacks append nothing and change nothing. */
  lemma {:induction false} IdleIgnoresCallbacks(s: State, heard: seq<Occurrence>)
    requires Valid(s) && !s.recording
    requires forall k :: 0 <= k < |heard| ==> heard[k].Heard?
    ensures Run(s, heard) == s
    decreases |heard|
  {
    if heard != [] {
      IdleIgnoresCallbacks(s, heard[..|heard| - 1]);
    }
  }

  /**
   * A whole recording: `START` at `t0`, callbacks, then `STOP` at `t1` print the started
   * line, the stopped line and then the report, whose actions are exactly the records of
   * the callbacks heard in between, in order, timed from `t0`; afterwards nothing records.
   */
  lemma RecordingSession(s: State, t0: int, heard: seq<Occurrence>, t1: int)
    requires Valid(s) && !s.recording
    requires forall k :: 0 <= k < |heard| ==> heard[k].Heard?
    ensures var r := Run(s, [StartCommand(t0)] + heard + [StopCommand(t1)]);
            && !r.recording && !r.mouseListener && !r.keyboardListener
            && r.actions == Captures(heard, t0)
            && r.output == s.output + [Line(PythonBridge.RecordingStartedLine), Line(PythonBridge.RecordingStoppedLine),
                                       Json(StopReport(t1, Captures(heard, t0)))]
  {
    var started := Next(s, StartCommand(t0));
    var before := Run(s, [StartCommand(t0)] + heard);
    assert before == started.(actions := Captures(heard, t0)) by {
      RunOne(s, StartCommand(t0));
      RunAppend(s, [StartCommand(t0)], heard);
      RecordingAppendsInOrder(started, heard);
    }
    assert Run(s, [StartCommand(t0)] + heard + [StopCommand(t1)]) == Next(before, StopCommand(t1)) by {
      RunAppend(s, [StartCommand(t0)] + heard, [StopCommand(t1)]);
      RunOne(before, StopCommand(t1));
    }
  }

  lemma RunOne(s: State, o: Occurrence)
    requires Valid(s)
    ensures Run(s, [o]) == Next(s, o)
  {
    assert [o][..0] == [];
  }

  class Recorder {
    var recording: bool
    var actions: seq<Record>
    var startTime: Option<int>
    var mouseListener: bool
    var keyboardListener: bool
    /** The lines printed so far. */
    var output: seq<Printed>

    function Snapshot(): State
      reads this
    {
      State(recording, actions, startTime, mouseListener, keyboardListener, output)
    }

    constructor ()
      ensures Snapshot() == Initial()
    {
      recording, actions, startTime := false, [], None;
      mouseListener, keyboardListener := false, false;
      output := [];
    }

    /** `start` at clock reading `now`: a no-op while recording. */
    method Start(now: int)
      requires Valid(Snapshot())
      modifies this
      ensures Valid(Snapshot())
      ensures old(recording) ==> unchanged(this)
      ensures !old(recording) ==>
                && recording && actions == [] && startTime == Some(now) && mouseListener && keyboardListener
                && output == old(output) + [Line(PythonBridge.RecordingStartedLine)]
    {
      if recording {
        return;
      }
      recording := true;
      actions := [];
      startTime := Some(now);
      mouseListener := true;
      keyboardListener := true;
      output := output + [Line(PythonBridge.RecordingStartedLine)];
    }

    /**
     * `stop` at clock reading `now`. Not recording, it returns the empty list (None here)
     * and prints nothing; otherwise it drops both listeners, prints the stopped line and
     * then the report, and returns the report, whose actions are the records in order.
     */
    method Stop(now: int) returns (result: Option<StopReport>)
      requires Valid(Snapshot())
      modifies this
      ensures Valid(Snapshot())
      ensures !old(recording) ==> result == None && unchanged(this)
      ensures old(recording) ==>
                && result == Some(StopReport(now, old(actions)))
                && !recording && !mouseListener && !keyboardListener
                && actions == old(actions) && startTime == old(startTime)
                && output == old(output) + [Line(PythonBridge.RecordingStoppedLine), Json(result.value)]
    {
      if !recording {
        return None;
      }
      recording := false;
      if mouseListener {
        mouseListener := false;
      }
      if keyboardListener {
        keyboardListener := false;
      }
      var report := StopReport(now, actions);
      output := output + [Line(PythonBridge.RecordingStoppedLine), Json(report)];
      result := Some(report);
    }

    /** The record `ev` makes `now`: `get_timestamp` is the time since `start`. */
    method Append(ev: ListenerEvent, now: int)
      requires Valid(Snapshot()) && recording
      modifies this`actions
      ensures actions == old(actions) + [Capture(ev, now - startTime.value)]
    {
      actions := actions + [Capture(ev, now - startTime.value)];
    }

    method OnMove(x: real, y: real, now: int)
      requires Valid(Snapshot())
      modifies this`actions
      ensures recording ==> actions == old(actions) + [Capture(Moved(x, y), now - startTime.value)]
      ensures !recording ==> actions == old(actions)
    {
      if !recording {
        return;
      }
      Append(Moved(x, y), now);
    }

    method OnClick(x: real, y: real, button: Button, pressed: bool, now: int)
      requires Valid(Snapshot())
      modifies this`actions
      ensures recording ==> actions == old(actions) + [Capture(Clicked(x, y, button, pressed), now - startTime.value)]
      ensures !recording ==> actions == old(actions)
    {
      if !recording {
        return;
      }
      Append(Clicked(x, y, button, pressed), now);
    }

    method OnScroll(x: real, y: real, dx: real, dy: real, now: int)
      requires Valid(Snapshot())
      modifies this`actions
      ensures recording ==> actions == old(actions) + [Capture(Scrolled(x, y, dx, dy), now - startTime.value)]
      ensures !recording ==> actions == old(actions)
    {
      if !recording {
        return;
      }
      Append(Scrolled(x, y, dx, dy), now);
    }

    /** `key.char`, or `str(key)` for a key without one, is the recorded key name. */
    method OnPress(key: KeyEvent, now: int)
      requires Valid(Snapshot())
      modifies this`actions
      ensures recording ==> actions == old(actions) + [Capture(KeyPressed(key), now - startTime.value)]
      ensures !recording ==> actions == old(actions)
    {
      if !recording {
        return;
      }
      Append(KeyPressed(key), now);
    }

    method OnRelease(key: KeyEvent, now: int)
      requires Valid(Snapshot())
      modifies this`actions
      ensures recording ==> actions == old(actions) + [Capture(KeyReleased(key), now - startTime.value)]
      ensures !recording ==> actions == old(actions)
    {
      if !recording {
        return;
      }
      Append(KeyReleased(key), now);
    }

    /** Hands one occurrence other than `QUIT` to `start`, `stop` or the callback it names. */
    method Handle(o: Occurrence)
      requires Valid(Snapshot()) && !o.QuitCommand?
      modifies this
      ensures Snapshot() == Next(old(Snapshot()), o)
    {
      match o
      case StartCommand(at) => Start(at);
      case StopCommand(at) => var _ := Stop(at);
      case OtherLine =>
      case Heard(ev, at) =>
        match ev
        case Moved(x, y) => OnMove(x, y, at);
        case Clicked(x, y, button, pressed) => OnClick(x, y, button, pressed, at);
        case Scrolled(x, y, dx, dy) => OnScroll(x, y, dx, dy, at);
        case KeyPressed(key) => OnPress(key, at);
        case KeyReleased(key) => OnRelease(key, at);
    }
  }

  // ---- The command loop of `main` ----

  /** A line `main` reads, or a callback a listener thread makes, at clock reading `at`. */
  datatype Input = LineRead(text: string, at: int) | Callback(event: ListenerEvent, at: int)

  /** The branch of `main` a stripped line takes; callbacks pass through. */
  function Classify(i: Input): Occurrence
  {
    match i
    case LineRead(text, at) =>
      var l := Strip(text);
      if l == "START" then StartCommand(at)
      else if l == "STOP" then StopCommand(at)
      else if l == "QUIT" then QuitCommand
      else OtherLine
    case Callback(ev, at) => Heard(ev, at)
  }

  function ClassifyAll(inputs: seq<Input>): (os: seq<Occurrence>)
    ensures |os| == |inputs| && forall k :: 0 <= k < |inputs| ==> os[k] == Classify(inputs[k])
  {
    seq(|inputs|, k requires 0 <= k < |inputs| => Classify(inputs[k]))
  }

  /** The index of the first `QUIT`, or the number of occurrences. */
  function QuitIndex(os: seq<Occurrence>): (n: nat)
    ensures n <= |os|
    ensures forall k :: 0 <= k < n ==> !os[k].QuitCommand?
    ensures n < |os| ==> os[n].QuitCommand?
  {
    if os == [] || os[0].QuitCommand? then 0
    else
      var n := QuitIndex(os[1..]);
      assert forall k :: 1 <= k < n + 1 ==> os[k] == os[1..][k - 1];
      n + 1
  }

  /** The loop of `main`: handles every occurrence before the first `QUIT`. */
  method ServeOccurrences(recorder: Recorder, os: seq<Occurrence>) returns (consumed: nat)
    requires Valid(recorder.Snapshot())
    modifies recorder
    ensures consumed == QuitIndex(os)
    ensures recorder.Snapshot() == Run(old(recorder.Snapshot()), os[..consumed])
  {
    var i := 0;
    while i < |os|
      invariant 0 <= i <= |os| && i <= QuitIndex(os)
      invariant Valid(recorder.Snapshot())
      invariant recorder.Snapshot() == Run(old(recorder.Snapshot()), os[..i])
    {
      if os[i].QuitCommand? {
        break;
      }
      ServeOccurrence(recorder, os, i, old(recorder.Snapshot()));
      i := i + 1;
    }
    consumed := i;
  }

  /** One iteration of `main`'s loop, on occurrence `i`, which is not `QUIT`. */
  method ServeOccurrence(recorder: Recorder, os: seq<Occurrence>, i: nat, ghost s0: State)
    requires i < |os| && i <= QuitIndex(os) && !os[i].QuitCommand?
    requires Valid(s0) && recorder.Snapshot() == Run(s0, os[..i])
    modifies recorder
    ensures i + 1 <= QuitIndex(os)
    ensures Valid(recorder.Snapshot())
    ensures recorder.Snapshot() == Run(s0, os[..i + 1])
  {
    recorder.Handle(os[i]);
    assert os[..i + 1][..i] == os[..i];
  }

  /**
   * `main`: a fresh recorder, then each stripped line and each callback in the order they
   * happen, up to the first `QUIT`.
   */
  method Serve(inputs: seq<Input>) returns (recorder: Recorder, consumed: nat)
    ensures consumed == QuitIndex(ClassifyAll(inputs))
    ensures recorder.Snapshot() == Run(Initial(), ClassifyAll(inputs)[..consumed])
  {
    recorder := new Recorder();
    consumed := ServeOccurrences(recorder, ClassifyAll(inputs));
  }
}
