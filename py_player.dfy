/**
 * The player script (`player.py`): key-string parsing, the dispatch of one record to the
 * pynput controllers, the deadline replay loop of `Player.play`, and the standard-input
 * command loop of `main`. JSON decoding is a parameter of the command loop.
 */
module PyPlayer {
  import opened Wrappers
  import opened Timeline
  import opened Pynput
  import opened Models
  import PythonBridge

  type WireRecord = PythonBridge.WireRecord

  /** `Player.parse_key`. */
  function ParseKey(s: string): Option<ParsedKey>
  {
    if s == [] then None
    else if StartsWith(s, "Key.") then
      var name := Lower(s[4..]);
      if IsKeyMember(name) then Some(Special(name)) else None
    else if StartsWith(s, "'") && EndsWith(s, "'") then
      Some(Text(if |s| >= 2 then s[1..|s| - 1] else ""))
    else Some(Text(s))
  }

  /**
   * What `parse_key` gives, case by case: nothing for the empty string or an unknown
   * `Key.` name, a `Key` member found case-insensitively, the text between two quotes,
   * and any other string unchanged.
   */
  lemma ParseKeyCases(s: string)
    ensures ParseKey(s).None? <==> s == [] || (StartsWith(s, "Key.") && !IsKeyMember(Lower(s[4..])))
    ensures ParseKey(s).Some? && ParseKey(s).value.Special? <==>
              StartsWith(s, "Key.") && IsKeyMember(Lower(s[4..]))
    ensures StartsWith(s, "Key.") && IsKeyMember(Lower(s[4..])) ==>
              ParseKey(s) == Some(Special(Lower(s[4..])))
    ensures s != [] && !StartsWith(s, "Key.") && !(StartsWith(s, "'") && EndsWith(s, "'")) ==>
              ParseKey(s) == Some(Text(s))
  {
  }

  /** The key text a listener reports for a `Key` member parses back to that member. */
  lemma ParseKeyOfMember(name: string)
    requires IsKeyMember(name) && IsLowerName(name)
    ensures ParseKey("Key." + name) == Some(Special(name))
  {
    var s := "Key." + name;
    assert s[..4] == "Key." && s[4..] == name;
    LowerFixesLowerNames(name);
  }

  /** A quoted key text, such as `str(KeyCode)`, parses to the text between the quotes. */
  lemma ParseKeyUnquotes(t: string)
    ensures ParseKey("'" + t + "'") == Some(Text(t))
  {
    var s := "'" + t + "'";
    assert s[..1] == "'" && s[|s| - 1..] == "'";
    assert |s| >= 4 ==> s[..4][0] == '\'';
    assert s[1..|s| - 1] == t;
  }

  /** A lone apostrophe both starts and ends with a quote: it parses to "", which is skipped. */
  lemma LoneQuoteIsSkipped()
    ensures ParseKey("'") == Some(Text(""))
    ensures !Truthy(ParseKey("'"))
  {
    assert !StartsWith("'", "Key.");
    assert StartsWith("'", "'") && EndsWith("'", "'");
  }

  /** The controller calls `play` makes for one record; unknown types do nothing. */
  function Dispatch(r: WireRecord): (e: seq<Effect>)
    ensures |e| <= 1
  {
    if r.tag == "mouse_move" then [MoveTo(r.x, r.y)]
    else if r.tag == "mouse_click" then
      var button := if r.button == "Button.left" then Left else Right;
      if r.pressed == Some(true) then [Press(button)] else [Release(button)]
    else if r.tag == "mouse_scroll" then [Scroll(r.dx, r.dy)]
    else if r.tag == "key_press" then
      var key := ParseKey(r.key);
      if Truthy(key) then [PressKey(key.value)] else []
    else if r.tag == "key_release" then
      var key := ParseKey(r.key);
      if Truthy(key) then [ReleaseKey(key.value)] else []
    else []
  }

  /** A click record presses or releases the left button exactly when its button is "Button.left". */
  lemma ClickButtonIsExact(r: WireRecord)
    requires r.tag == "mouse_click"
    ensures Dispatch(r) == [Press(Left)] || Dispatch(r) == [Release(Left)] <==> r.button == "Button.left"
    ensures Dispatch(r)[0].Press? <==> r.pressed == Some(true)
  {
  }

  /** The key text a `KeyAction` is sent with. */
  function SentKey(a: InputAction): string
    requires a.kind.KeyAction?
  {
    if a.kind.keyName.Some? then a.kind.keyName.value else ""
  }

  /**
   * The player replays what the encoded action describes: the move, the click with its
   * button and direction, the wheel with no vertical part, and the key pressed or released
   * as the action says, when its name parses.
   */
  lemma ReplaysEncodedAction(a: InputAction)
    ensures a.kind.MouseMoveAction? ==>
              Dispatch(PythonBridge.Encode(a)) == [MoveTo(a.kind.x, a.kind.y)]
    ensures a.kind.MouseClickAction? ==>
              var b := if a.kind.isLeftButton then Left else Right;
              Dispatch(PythonBridge.Encode(a)) == [if a.kind.isDown then Press(b) else Release(b)]
    ensures a.kind.MouseWheelAction? ==>
              Dispatch(PythonBridge.Encode(a)) == [Scroll(a.kind.delta, 0)]
    ensures a.kind.KeyAction? ==>
              var k := ParseKey(SentKey(a));
              Dispatch(PythonBridge.Encode(a)) ==
                (if !Truthy(k) then [] else if a.kind.isDown then [PressKey(k.value)] else [ReleaseKey(k.value)])
  {
  }

  /** As written, a released key whose name parses is replayed as a second press. */
  lemma KeyReleaseReplayedAsPress(a: InputAction)
    requires a.kind.KeyAction? && !a.kind.isDown && Truthy(ParseKey(SentKey(a)))
    ensures Dispatch(PythonBridge.EncodeAsWritten(a)) == [PressKey(ParseKey(SentKey(a)).value)]
  {
  }

  /**
   * As written, a vertical wheel turn of one notch (raw delta 120) is sent as `dx = 120`,
   * `dy = 0`, so the player scrolls 120 steps sideways and not at all vertically.
   */
  lemma VerticalWheelScrollsSideways(a: InputAction)
    requires a.kind.MouseWheelAction? && a.kind.delta == PythonBridge.WheelDeltaUnit
    ensures Dispatch(PythonBridge.EncodeAsWritten(a)) == [Scroll(120, 0)]
  {
  }

  /**
   * With the intended record, the player scrolls vertically by the captured notches and
   * releases released keys; moves and clicks replay as before.
   */
  lemma ReplaysIntendedAction(a: InputAction)
    ensures a.kind.MouseWheelAction? ==>
              Dispatch(PythonBridge.EncodeIntended(a)) == [Scroll(0, PythonBridge.Notches(a.kind.delta))]
    ensures a.kind.MouseWheelAction? ==> forall n :: a.kind.delta == n * PythonBridge.WheelDeltaUnit ==>
              Dispatch(PythonBridge.EncodeIntended(a)) == [Scroll(0, n)]
    ensures !a.kind.MouseWheelAction? ==>
              Dispatch(PythonBridge.EncodeIntended(a)) == Dispatch(PythonBridge.Encode(a))
  {
    if a.kind.MouseWheelAction? {
      forall n | a.kind.delta == n * PythonBridge.WheelDeltaUnit
        ensures PythonBridge.Notches(a.kind.delta) == n
      {
        PythonBridge.NotchesOfWholeTurns(n);
      }
    }
  }

  /** The deadlines of a pass: each record's `time`. */
  function Times(rs: seq<WireRecord>): (t: seq<int>)
    ensures |t| == |rs| && forall k :: 0 <= k < |rs| ==> t[k] == rs[k].time
  {
    seq(|rs|, k requires 0 <= k < |rs| => rs[k].time)
  }

  /** The controller calls of each record of a pass. */
  function Effects(rs: seq<WireRecord>): (e: seq<seq<Effect>>)
    ensures |e| == |rs| && forall k :: 0 <= k < |rs| ==> e[k] == Dispatch(rs[k])
  {
    seq(|rs|, k requires 0 <= k < |rs| => Dispatch(rs[k]))
  }

  /**
   * One pass of `play`: before each record the loop measures the time elapsed since the
   * start of the pass and sleeps until the record's `time`, then replays the record
   * (`Inject`); `Replayed` gives the controller calls that makes.
   */
  function PassTrace(rs: seq<WireRecord>): seq<Step<WireRecord>>
  {
    DeadlinePass(Times(rs), rs, |rs|)
  }

  /** The controller calls made by the records a trace replays, in order. */
  function Replayed(t: seq<Step<WireRecord>>): seq<Effect>
  {
    Flatten(Effects(Injected(t)))
  }

  /**
   * Record `n - 1` of a pass is replayed at the running maximum of the `time`s so far
   * (never before the start of the pass), and a whole pass replays every record once, in
   * order, making the records' controller calls in order.
   */
  lemma PassTiming(rs: seq<WireRecord>, n: nat)
    requires n <= |rs|
    ensures TotalWait(DeadlinePass(Times(rs), rs, n)) == RunMax(Times(rs), n)
    ensures Injected(PassTrace(rs)) == rs
    ensures Replayed(PassTrace(rs)) == Flatten(Effects(rs))
  {
    DeadlineFiresAtRunningMax(Times(rs), rs, n);
  }

  const InvalidJsonLine: string := "ERROR: Invalid JSON"

  class Player {
    var playing: bool
    var actions: seq<WireRecord>
    /** The sleeps made and the records replayed so far, in order. */
    var trace: seq<Step<WireRecord>>
    /** The lines printed so far. */
    var output: seq<string>

    constructor ()
      ensures !playing && actions == [] && trace == [] && output == []
    {
      playing := false;
      actions := [];
      trace := [];
      output := [];
    }

    /**
     * `play`: a no-op while playing or for an empty list. Otherwise it prints the
     * started line, waits before each record until its deadline measured from the start
     * of the pass, replays it, then clears the flag and prints the stopped line.
     */
    method Play(actions: seq<WireRecord>)
      modifies this
      ensures old(playing) || actions == [] ==> unchanged(this)
      ensures !old(playing) && actions != [] ==>
                && !playing && this.actions == actions
                && trace == old(trace) + PassTrace(actions)
                && output == old(output) + [PythonBridge.PlaybackStartedLine, PythonBridge.PlaybackStoppedLine]
    {
      if playing || |actions| == 0 {
        return;
      }
      playing := true;
      this.actions := actions;
      output := output + [PythonBridge.PlaybackStartedLine];
      RunPass(actions);
      playing := false;
      output := output + [PythonBridge.PlaybackStoppedLine];
    }

    /**
     * The loop of `play`: for each record, in order, waits until its deadline measured
     * from the start of the pass, then replays it.
     */
    method RunPass(actions: seq<WireRecord>)
      requires playing
      modifies this`trace
      ensures trace == old(trace) + PassTrace(actions)
    {
      ghost var t0 := trace;
      var elapsed := 0;
      var i := 0;
      while i < |actions|
        invariant 0 <= i <= |actions|
        invariant trace == t0 + DeadlinePass(Times(actions), actions, i)
        invariant elapsed == DeadlineClock(Times(actions), i)
      {
        if !playing {
          break;
        }
        var now := PlayRecord(actions, i, elapsed, t0);
        elapsed := now;
        i := i + 1;
      }
    }

    /**
     * One iteration of `play`'s loop, on record `i` of the pass: sleeps for what is left
     * until the record's deadline, `elapsed` milliseconds into the pass, then replays it.
     */
    method PlayRecord(rs: seq<WireRecord>, i: nat, elapsed: int, ghost t0: seq<Step<WireRecord>>) returns (now: int)
      requires i < |rs|
      requires trace == t0 + DeadlinePass(Times(rs), rs, i) && elapsed == DeadlineClock(Times(rs), i)
      modifies this`trace
      ensures trace == t0 + DeadlinePass(Times(rs), rs, i + 1)
      ensures now == DeadlineClock(Times(rs), i + 1)
    {
      var r := rs[i];
      now := elapsed;
      var waitTime := r.time - elapsed;
      if waitTime > 0 {
        trace := trace + [Wait(waitTime)];
        now := now + waitTime;
      }
      trace := trace + [Inject(r)];
      Associate(trace, t0, DeadlinePass(Times(rs), rs, i), SleepUntil(r.time, elapsed), [Inject(r)]);
    }

    /** `stop`: clears the flag, nothing else. */
    method Stop()
      modifies this
      ensures !playing && actions == old(actions) && trace == old(trace) && output == old(output)
    {
      playing := false;
    }
  }

  // ---- The command loop of `main` ----

  /** How `main` reads a line once stripped. */
  datatype CommandLine = PlayLine(payload: string) | StopLine | QuitLine | OtherLine

  /** The branch of `main` a line takes: the tests are made in this order. */
  function ParseLine(line: string): CommandLine
  {
    var l := Strip(line);
    if StartsWith(l, "PLAY:") then PlayLine(l[5..])
    else if l == "STOP" then StopLine
    else if l == "QUIT" then QuitLine
    else OtherLine
  }

  /** Every line read, classified. */
  function ParseAll(lines: seq<string>): (cs: seq<CommandLine>)
    ensures |cs| == |lines| && forall k :: 0 <= k < |lines| ==> cs[k] == ParseLine(lines[k])
  {
    seq(|lines|, k requires 0 <= k < |lines| => ParseLine(lines[k]))
  }

  /** The index of the first `QUIT`, or the number of commands. */
  function QuitIndex(cs: seq<CommandLine>): (n: nat)
    ensures n <= |cs|
    ensures forall k :: 0 <= k < n ==> !cs[k].QuitLine?
    ensures n < |cs| ==> cs[n].QuitLine?
  {
    if cs == [] || cs[0].QuitLine? then 0
    else
      var n := QuitIndex(cs[1..]);
      assert forall k :: 1 <= k < n + 1 ==> cs[k] == cs[1..][k - 1];
      n + 1
  }

  /** What the player replays for one command read while idle. */
  function LineTrace(c: CommandLine, decode: string -> Option<seq<WireRecord>>): seq<Step<WireRecord>>
  {
    match c
    case PlayLine(payload) =>
      (match decode(payload)
       case None => []
       case Some(rs) => PassTrace(rs))
    case _ => []
  }

  /** What the player prints for one command read while idle. */
  function LineOutput(c: CommandLine, decode: string -> Option<seq<WireRecord>>): seq<string>
  {
    match c
    case PlayLine(payload) =>
      (match decode(payload)
       case None => [InvalidJsonLine]
       case Some(rs) => if rs == [] then [] else [PythonBridge.PlaybackStartedLine, PythonBridge.PlaybackStoppedLine])
    case _ => []
  }

  function SessionTrace(cs: seq<CommandLine>, decode: string -> Option<seq<WireRecord>>): seq<Step<WireRecord>>
  {
    if cs == [] then []
    else SessionTrace(cs[..|cs| - 1], decode) + LineTrace(cs[|cs| - 1], decode)
  }

  function SessionOutput(cs: seq<CommandLine>, decode: string -> Option<seq<WireRecord>>): seq<string>
  {
    if cs == [] then []
    else SessionOutput(cs[..|cs| - 1], decode) + LineOutput(cs[|cs| - 1], decode)
  }

  /**
   * An undecodable payload does not end the session: a session of such commands prints
   * one error line per command and replays nothing.
   */
  lemma {:induction false} BadPayloadsOnlyReport(cs: seq<CommandLine>, decode: string -> Option<seq<WireRecord>>)
    requires forall k :: 0 <= k < |cs| ==> cs[k].PlayLine? && decode(cs[k].payload).None?
    ensures SessionTrace(cs, decode) == []
    ensures |SessionOutput(cs, decode)| == |cs|
    ensures forall k :: 0 <= k < |cs| ==> SessionOutput(cs, decode)[k] == InvalidJsonLine
    decreases |cs|
  {
    if cs != [] {
      var front := cs[..|cs| - 1];
      assert forall k :: 0 <= k < |front| ==> front[k] == cs[k];
      BadPayloadsOnlyReport(front, decode);
    }
  }

  /** One more command read extends the session by that command's trace and output. */
  lemma SessionStep(cs: seq<CommandLine>, i: nat, decode: string -> Option<seq<WireRecord>>)
    requires i < |cs|
    ensures SessionTrace(cs[..i + 1], decode) == SessionTrace(cs[..i], decode) + LineTrace(cs[i], decode)
    ensures SessionOutput(cs[..i + 1], decode) == SessionOutput(cs[..i], decode) + LineOutput(cs[i], decode)
  {
    assert cs[..i + 1][..i] == cs[..i];
  }

  /**
   * One pass of `main`'s loop on a command that is not `QUIT`: `PLAY:` with a decodable
   * payload replays it, an undecodable one prints an error line, `STOP` clears the flag,
   * and every other line is ignored.
   */
  method HandleLine(player: Player, command: CommandLine, decode: string -> Option<seq<WireRecord>>)
    requires !player.playing && !command.QuitLine?
    modifies player
    ensures !player.playing
    ensures player.trace == old(player.trace) + LineTrace(command, decode)
    ensures player.output == old(player.output) + LineOutput(command, decode)
  {
    if command.PlayLine? {
      var data := decode(command.payload);
      if data.None? {
        player.output := player.output + [InvalidJsonLine];
      } else {
        player.Play(data.value);
        assert data.value == [] ==> PassTrace(data.value) == [];
      }
    } else if command.StopLine? {
      player.Stop();
    }
  }

  /**
   * The loop of `main` over the classified lines: handles each command before the first
   * `QUIT`.
   */
  method ServeCommands(player: Player, commands: seq<CommandLine>, decode: string -> Option<seq<WireRecord>>)
    returns (consumed: nat)
    requires !player.playing
    modifies player
    ensures consumed == QuitIndex(commands)
    ensures !player.playing
    ensures player.trace == old(player.trace) + SessionTrace(commands[..consumed], decode)
    ensures player.output == old(player.output) + SessionOutput(commands[..consumed], decode)
  {
    var i := 0;
    while i < |commands|
      invariant 0 <= i <= |commands| && i <= QuitIndex(commands)
      invariant !player.playing
      invariant player.trace == old(player.trace) + SessionTrace(commands[..i], decode)
      invariant player.output == old(player.output) + SessionOutput(commands[..i], decode)
    {
      if commands[i].QuitLine? {
        break;
      }
      ServeCommand(player, commands, i, decode, old(player.trace), old(player.output));
      i := i + 1;
    }
    consumed := i;
  }

  /** One iteration of `main`'s loop, on command `i`, which is not `QUIT`. */
  method ServeCommand(player: Player, commands: seq<CommandLine>, i: nat, decode: string -> Option<seq<WireRecord>>,
                      ghost t0: seq<Step<WireRecord>>, ghost o0: seq<string>)
    requires i < |commands| && i <= QuitIndex(commands) && !commands[i].QuitLine?
    requires !player.playing
    requires player.trace == t0 + SessionTrace(commands[..i], decode)
    requires player.output == o0 + SessionOutput(commands[..i], decode)
    modifies player
    ensures i + 1 <= QuitIndex(commands)
    ensures !player.playing
    ensures player.trace == t0 + SessionTrace(commands[..i + 1], decode)
    ensures player.output == o0 + SessionOutput(commands[..i + 1], decode)
  {
    ghost var trace, output := player.trace, player.output;
    HandleLine(player, commands[i], decode);
    SessionStep(commands, i, decode);
    Extend(player.trace, t0, SessionTrace(commands[..i], decode), trace, LineTrace(commands[i], decode));
    Extend(player.output, o0, SessionOutput(commands[..i], decode), output, LineOutput(commands[i], decode));
  }

  /**
   * `main`: strips and classifies each line read, and handles the commands up to the
   * first `QUIT`. `decode` is `json.loads` followed by `data.get("actions", [])`, None
   * when the text is not JSON.
   */
  method Serve(player: Player, lines: seq<string>, decode: string -> Option<seq<WireRecord>>)
    returns (consumed: nat)
    requires !player.playing
    modifies player
    ensures consumed == QuitIndex(ParseAll(lines))
    ensures !player.playing
    ensures player.trace == old(player.trace) + SessionTrace(ParseAll(lines)[..consumed], decode)
    ensures player.output == old(player.output) + SessionOutput(ParseAll(lines)[..consumed], decode)
  {
    consumed := ServeCommands(player, ParseAll(lines), decode);
  }
}
