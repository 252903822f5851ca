/**
 * The bridge from the WPF application to the Python scripts (`PythonRecorderService`):
 * the flat record each action is encoded as before it is sent to the player script, and
 * the flag guards around the two child processes. Starting, stopping and killing the
 * processes is left out; what is written to a process's standard input is logged as
 * `Command`s, and the lines it prints arrive through the two output handlers.
 */
module PythonBridge {
  import opened Wrappers
  import opened Models

  /**
   * One element of the `actions` array sent after `PLAY:`. `tag` is the JSON field `type`;
   * `time` is the action's timestamp in milliseconds.
   */
  datatype WireRecord = WireRecord(
    tag: string, time: int, x: int, y: int, button: string, pressed: Option<bool>,
    dx: int, dy: int, key: string, checked: Option<bool>)

  /** The type tag written for each action type. */
  function TypeTag(t: ActionType): string
  {
    match t
    case MouseMove => "mouse_move"
    case MouseClick => "mouse_click"
    case MouseWheel => "mouse_scroll"
    case KeyDown => "key_press"
    case KeyUp => "key_release"
  }

  /** Different action types get different tags, so the player can tell them apart. */
  lemma TypeTagInjective(t: ActionType, u: ActionType)
    ensures TypeTag(t) == TypeTag(u) <==> t == u
  {
  }

  /** The record for `a`, tagged as if its type were `t`. */
  function EncodeTagged(a: InputAction, t: ActionType): (r: WireRecord)
    ensures r.tag == TypeTag(t) && r.time == a.timestamp && r.dy == 0
    ensures r.x == (if a.kind.KeyAction? then 0 else a.kind.x)
    ensures r.y == (if a.kind.KeyAction? then 0 else a.kind.y)
    ensures r.button == "Button.left" <==> a.kind.MouseClickAction? && a.kind.isLeftButton
    ensures r.button == "Button.left" || r.button == "Button.right"
    ensures r.pressed == (if a.kind.MouseClickAction? then Some(a.kind.isDown) else None)
    ensures r.dx == (if a.kind.MouseWheelAction? then a.kind.delta else 0)
    ensures r.key == (if a.kind.KeyAction? && a.kind.keyName.Some? then a.kind.keyName.value else "")
    ensures r.checked == (if a.kind.KeyAction? then Some(a.kind.isDown) else None)
  {
    var x := if a.kind.KeyAction? then 0 else a.kind.x;
    var y := if a.kind.KeyAction? then 0 else a.kind.y;
    var button := if a.kind.MouseClickAction? && a.kind.isLeftButton then "Button.left" else "Button.right";
    var pressed := if a.kind.MouseClickAction? then Some(a.kind.isDown) else None;
    var dx := if a.kind.MouseWheelAction? then a.kind.delta else 0;
    var key := if a.kind.KeyAction? && a.kind.keyName.Some? then a.kind.keyName.value else "";
    var checked := if a.kind.KeyAction? then Some(a.kind.isDown) else None;
    WireRecord(TypeTag(t), a.timestamp, x, y, button, pressed, dx, 0, key, checked)
  }

  /** The projection in `PlayActions` as written: the tag comes from `ActionType`. */
  function EncodeAsWritten(a: InputAction): WireRecord
  {
    EncodeTagged(a, ActionTypeOf(a))
  }

  /** As written, no record is ever tagged `key_release`: a released key is sent as a press. */
  lemma KeyReleaseSentAsPress(a: InputAction)
    ensures EncodeAsWritten(a).tag != "key_release"
    ensures a.kind.KeyAction? ==> EncodeAsWritten(a).tag == "key_press"
  {
  }

  /** The projection with the tag the type enum intends: released keys are `key_release`. */
  function Encode(a: InputAction): (r: WireRecord)
    ensures r.tag == "key_release" <==> a.kind.KeyAction? && !a.kind.isDown
    ensures r.tag == "key_press" <==> a.kind.KeyAction? && a.kind.isDown
    ensures !a.kind.KeyAction? ==> r == EncodeAsWritten(a)
  {
    EncodeTagged(a, IntendedActionTypeOf(a))
  }

  /** The two encodings differ exactly on released keys. */
  lemma EncodingsDifferOnReleasedKeys(a: InputAction)
    ensures Encode(a) == EncodeAsWritten(a) <==> !(a.kind.KeyAction? && !a.kind.isDown)
  {
    if a.kind.KeyAction? && !a.kind.isDown {
      assert Encode(a).tag != EncodeAsWritten(a).tag;
    }
  }

  /** The raw wheel units of one notch (`WHEEL_DELTA`). */
  const WheelDeltaUnit: int := 120

  /** Whole notches in a raw wheel delta, with C#'s division that truncates toward zero. */
  function Notches(delta: int): (n: int)
    ensures delta >= 0 ==> 0 <= n * WheelDeltaUnit <= delta
    ensures delta < 0 ==> delta <= n * WheelDeltaUnit <= 0
    ensures -WheelDeltaUnit < delta - n * WheelDeltaUnit < WheelDeltaUnit
  {
    if delta >= 0 then delta / WheelDeltaUnit else -((-delta) / WheelDeltaUnit)
  }

  /** A delta of whole notches gives back the number of notches. */
  lemma NotchesOfWholeTurns(n: int)
    ensures Notches(n * WheelDeltaUnit) == n
  {
    if n < 0 {
      assert -(n * WheelDeltaUnit) == (-n) * WheelDeltaUnit;
    }
  }

  /**
   * The intended record: key tags as `Encode` gives them, and a vertical wheel turn sent as
   * `dy` in notches, which is what pynput's `scroll(dx, dy)` expects, with no `dx`.
   */
  function EncodeIntended(a: InputAction): (r: WireRecord)
    ensures a.kind.MouseWheelAction? ==> r.dx == 0 && r.dy == Notches(a.kind.delta)
    ensures !a.kind.MouseWheelAction? ==> r == Encode(a)
    ensures r.tag == Encode(a).tag && r.time == a.timestamp
  {
    var e := Encode(a);
    if a.kind.MouseWheelAction? then e.(dx := 0, dy := Notches(a.kind.delta)) else e
  }

  /** The two record forms agree except on wheel turns and on released keys. */
  lemma IntendedDiffersOnWheelAndRelease(a: InputAction)
    ensures EncodeIntended(a) == EncodeAsWritten(a) <==>
              !(a.kind.KeyAction? && !a.kind.isDown) && !(a.kind.MouseWheelAction? && a.kind.delta != 0)
  {
    EncodingsDifferOnReleasedKeys(a);
    if a.kind.MouseWheelAction? && a.kind.delta != 0 {
      assert EncodeAsWritten(a).dx != 0;
    }
    if a.kind.KeyAction? && !a.kind.isDown {
      assert EncodeIntended(a).tag != EncodeAsWritten(a).tag;
    }
  }

  /**
   * `actions.Select(...)` as written: one record per action, in the same order, and so no
   * record of the batch is tagged `key_release`.
   */
  function EncodeAll(actions: seq<InputAction>): (rs: seq<WireRecord>)
    ensures |rs| == |actions|
    ensures forall k :: 0 <= k < |actions| ==> rs[k] == EncodeAsWritten(actions[k])
    ensures forall k :: 0 <= k < |actions| ==> rs[k].tag != "key_release"
  {
    seq(|actions|, k requires 0 <= k < |actions| => EncodeAsWritten(actions[k]))
  }

  /** Encoding a concatenation encodes each part: the projection keeps order. */
  lemma EncodeAllAppend(s: seq<InputAction>, t: seq<InputAction>)
    ensures EncodeAll(s + t) == EncodeAll(s) + EncodeAll(t)
  {
  }

  // ---- The standard-output protocol of the two scripts ----

  const RecordingStartedLine: string := "RECORDING_STARTED"
  const RecordingStoppedLine: string := "RECORDING_STOPPED"
  const PlaybackStartedLine: string := "PLAYBACK_STARTED"
  const PlaybackStoppedLine: string := "PLAYBACK_STOPPED"

  /** A line written to a script's standard input; `Play(rs)` is `PLAY:` and the JSON of `rs`. */
  datatype Command = Start | Stop | Quit | Play(actions: seq<WireRecord>)

  datatype Notice = RecordingStarted | RecordingStopped | PlaybackStarted | PlaybackStopped

  class PythonRecorderService {
    /** Whether `_recorderProcess` / `_playerProcess` is set. */
    var recorderRunning: bool
    var playerRunning: bool
    var isRecording: bool
    var isPlaying: bool
    var recordedActions: seq<InputAction>
    /** What has been written to the current recorder and player processes. */
    var recorderInput: seq<Command>
    var playerInput: seq<Command>
    /** Events raised to subscribers, in order. */
    var notices: seq<Notice>

    /** Nothing ever appends to `_recordedActions`: the buffer stays empty. */
    predicate Valid()
      reads this
    {
      recordedActions == []
    }

    constructor ()
      ensures Valid() && !isRecording && !isPlaying && !recorderRunning && !playerRunning
      ensures recorderInput == [] && playerInput == [] && notices == []
    {
      recorderRunning, playerRunning := false, false;
      isRecording, isPlaying := false, false;
      recordedActions := [];
      recorderInput, playerInput := [], [];
      notices := [];
    }

    /** Starts a recorder process and sends it `START`; a no-op while recording. */
    method StartRecording()
      requires Valid()
      modifies this
      ensures Valid()
      ensures old(isRecording) ==> unchanged(this)
      ensures !old(isRecording) ==>
                && isRecording && recorderRunning && recorderInput == [Start]
                && isPlaying == old(isPlaying) && playerRunning == old(playerRunning)
                && playerInput == old(playerInput) && notices == old(notices)
    {
      if isRecording {
        return;
      }
      recordedActions := [];
      isRecording := true;
      recorderRunning := true;
      recorderInput := [Start];
    }

    /**
     * Sends `STOP` and `QUIT` to the recorder process, drops it and returns a copy of the
     * buffer, which is always empty. Without a recording in progress or a process it
     * returns an empty list and changes nothing.
     */
    method StopRecording() returns (r: seq<InputAction>)
      requires Valid()
      modifies this
      ensures Valid() && r == []
      ensures !old(isRecording) || !old(recorderRunning) ==> unchanged(this)
      ensures old(isRecording) && old(recorderRunning) ==>
                && !isRecording && !recorderRunning
                && recorderInput == old(recorderInput) + [Stop, Quit]
                && notices == old(notices) + [RecordingStopped]
                && isPlaying == old(isPlaying) && playerRunning == old(playerRunning)
                && playerInput == old(playerInput)
    {
      if !isRecording || !recorderRunning {
        return [];
      }
      isRecording := false;
      recorderInput := recorderInput + [Stop, Quit];
      recorderRunning := false;
      notices := notices + [RecordingStopped];
      r := recordedActions;
    }

    /**
     * Starts a player process and sends it the encoded actions in one `PLAY:` line; a
     * no-op while playing or for an empty list.
     */
    method PlayActions(actions: seq<InputAction>)
      requires Valid()
      modifies this
      ensures Valid()
      ensures old(isPlaying) || actions == [] ==> unchanged(this)
      ensures !old(isPlaying) && actions != [] ==>
                && isPlaying && playerRunning && playerInput == [Play(EncodeAll(actions))]
                && isRecording == old(isRecording) && recorderRunning == old(recorderRunning)
                && recorderInput == old(recorderInput) && notices == old(notices)
    {
      if isPlaying || |actions| == 0 {
        return;
      }
      isPlaying := true;
      playerRunning := true;
      playerInput := [Play(EncodeAll(actions))];
    }

    /**
     * Sends `STOP` and `QUIT` to the player process and drops it; `PlaybackStopped` fires
     * once. Without a player process it does nothing.
     */
    method StopPlayback()
      requires Valid()
      modifies this
      ensures Valid()
      ensures !old(playerRunning) ==> unchanged(this)
      ensures old(playerRunning) ==>
                && !isPlaying && !playerRunning
                && playerInput == old(playerInput) + [Stop, Quit]
                && notices == old(notices) + [PlaybackStopped]
                && isRecording == old(isRecording) && recorderRunning == old(recorderRunning)
                && recorderInput == old(recorderInput)
    {
      if !playerRunning {
        return;
      }
      playerInput := playerInput + [Stop, Quit];
      playerRunning := false;
      isPlaying := false;
      notices := notices + [PlaybackStopped];
    }

    /** The recorder's output handler: it reacts to the two status lines and to nothing else. */
    method OnRecorderOutput(line: string)
      requires Valid()
      modifies this
      ensures Valid()
      ensures line == RecordingStartedLine ==>
                notices == old(notices) + [RecordingStarted] && isRecording == old(isRecording)
      ensures line == RecordingStoppedLine ==>
                notices == old(notices) + [RecordingStopped] && !isRecording
      ensures line != RecordingStartedLine && line != RecordingStoppedLine ==> unchanged(this)
      ensures recorderRunning == old(recorderRunning) && recorderInput == old(recorderInput)
      ensures isPlaying == old(isPlaying) && playerRunning == old(playerRunning)
      ensures playerInput == old(playerInput)
    {
      if line == RecordingStartedLine {
        notices := notices + [RecordingStarted];
      } else if line == RecordingStoppedLine {
        isRecording := false;
        notices := notices + [RecordingStopped];
      }
    }

    /** The player's output handler. */
    method OnPlayerOutput(line: string)
      requires Valid()
      modifies this
      ensures Valid()
      ensures line == PlaybackStartedLine ==>
                notices == old(notices) + [PlaybackStarted] && isPlaying == old(isPlaying)
      ensures line == PlaybackStoppedLine ==>
                notices == old(notices) + [PlaybackStopped] && !isPlaying
      ensures line != PlaybackStartedLine && line != PlaybackStoppedLine ==> unchanged(this)
      ensures playerRunning == old(playerRunning) && playerInput == old(playerInput)
      ensures isRecording == old(isRecording) && recorderRunning == old(recorderRunning)
      ensures recorderInput == old(recorderInput)
    {
      if line == PlaybackStartedLine {
        notices := notices + [PlaybackStarted];
      } else if line == PlaybackStoppedLine {
        isPlaying := false;
        notices := notices + [PlaybackStopped];
      }
    }

    /** Stops recording, then playback; afterwards neither process is left running. */
    method Dispose()
      requires Valid()
      modifies this
      ensures Valid() && !playerRunning
      ensures var stopsRecorder := old(isRecording) && old(recorderRunning);
              && isRecording == (old(isRecording) && !stopsRecorder)
              && recorderRunning == (old(recorderRunning) && !stopsRecorder)
              && recorderInput == old(recorderInput) + (if stopsRecorder then [Stop, Quit] else [])
              && isPlaying == (old(isPlaying) && !old(playerRunning))
              && playerInput == old(playerInput) + (if old(playerRunning) then [Stop, Quit] else [])
              && notices == old(notices) + (if stopsRecorder then [RecordingStopped] else [])
                                         + (if old(playerRunning) then [PlaybackStopped] else [])
    {
      var _ := StopRecording();
      StopPlayback();
    }
  }

  /**
   * A whole recording session through the Python recorder: start, the script reports that
   * it started, stop, and the script's answer to `STOP` is its `RECORDING_STOPPED` line.
   * Whatever the recorder captured, the list returned is empty, because its output is never
   * parsed into actions; and subscribers hear `RecordingStopped` twice, once from
   * `StopRecording` and once from the output handler. The line may also be delivered while
   * `StopRecording` waits for the process to exit: the two notices are alike, so the
   * sequence is the same.
   */
  method RecordThroughScript() returns (r: seq<InputAction>, notices: seq<Notice>)
    ensures r == []
    ensures notices == [RecordingStarted, RecordingStopped, RecordingStopped]
  {
    var s := new PythonRecorderService();
    s.StartRecording();
    s.OnRecorderOutput(RecordingStartedLine);
    r := s.StopRecording();
    s.OnRecorderOutput(RecordingStoppedLine);
    notices := s.notices;
  }
}
