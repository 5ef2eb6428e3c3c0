/**
 * The listen1 firmware proper: the command interpreter (`process_command`),
 * the LED level setter (`set_leds`), the `ok` / `error: ...` reply, and one
 * pass of the main loop's body that ties them to the command buffer.
 *
 * The three PWM outputs are modelled as three level fields; writing a level
 * stands for the call that loads it into the PWM compare register.
 */
module Listen1 {
  import opened LibC
  import opened CommandBuffer

  // ---------------------------------------------------------------------------
  // process_command

  datatype Channel = Red | Green | Blue

  /** The word that selects a channel at the start of a command. */
  function Keyword(ch: Channel): string
  {
    match ch
    case Red => "red"
    case Green => "green"
    case Blue => "blue"
  }

  /**
   * The result of process_command: success together with the three values
   * it passes to set_leds, or failure together with the error text.
   */
  datatype Outcome = Ok(red: int, green: int, blue: int) | Err(message: string)

  /** The set_leds argument that leaves a channel as it is. */
  const Unchanged: int := -1

  predicate InByteRange(v: int)
  {
    0 <= v <= 255
  }

  /** The values process_command may hand to set_leds: a brightness or the sentinel. */
  predicate LedArgument(v: int)
  {
    v == Unchanged || InByteRange(v)
  }

  /** set_leds with `v` for channel `ch` and the sentinel for the other two. */
  function Request(ch: Channel, v: int): Outcome
  {
    match ch
    case Red => Ok(v, Unchanged, Unchanged)
    case Green => Ok(Unchanged, v, Unchanged)
    case Blue => Ok(Unchanged, Unchanged, v)
  }

  function RangeMessage(v: int): string
  {
    "Value must be between 0 and 255. Received [" + IntToString(v) + "]"
  }

  function InvalidMessage(line: string): string
  {
    "Invalid command [" + line + "]"
  }

  /** `sscanf(line, "<keyword> %d", &value) == 1` for the channel's keyword, and the value read. */
  function Match(line: string, ch: Channel): Option<int>
  {
    ScanKeywordInt(line, Keyword(ch))
  }

  /** A channel command whose number was read: accepted only in 0..255. */
  function ChannelCommand(ch: Channel, v: int): (r: Outcome)
    ensures r.Ok? <==> InByteRange(v)
  {
    if InByteRange(v) then Request(ch, v) else Err(RangeMessage(v))
  }

  /**
   * process_command on the C string `line`: the patterns `red %d`,
   * `green %d`, `blue %d`, `off` and `on` are tried in that order.
   */
  function ProcessCommand(line: string): (r: Outcome)
    ensures r.Ok? ==> LedArgument(r.red) && LedArgument(r.green) && LedArgument(r.blue)
  {
    if Match(line, Red).Some? then ChannelCommand(Red, Match(line, Red).value)
    else if Match(line, Green).Some? then ChannelCommand(Green, Match(line, Green).value)
    else if Match(line, Blue).Some? then ChannelCommand(Blue, Match(line, Blue).value)
    else if line == "off" then Ok(0, 0, 0)
    else if line == "on" then Ok(255, 255, 255)
    else Err(InvalidMessage(line))
  }

  predicate NoChannelMatch(line: string)
  {
    Match(line, Red).None? && Match(line, Green).None? && Match(line, Blue).None?
  }

  /** No line matches two of the five patterns, so the order in which they are tried does not matter. */
  lemma PatternsExclusive(line: string, ch: Channel, other: Channel)
    ensures Match(line, ch).Some? && Match(line, other).Some? ==> ch == other
    ensures Match(line, ch).Some? ==> line != "off" && line != "on"
  {
    if Match(line, ch).Some? {
      assert line[0] == Keyword(ch)[0];
      if Match(line, other).Some? {
        assert line[0] == Keyword(other)[0];
      }
    }
  }

  /**
   * What process_command answers, pattern by pattern and independently of
   * the order they are tried in: a matching channel command is accepted
   * exactly when its number is in 0..255, `off` and `on` are accepted only
   * as the whole line, and every other line is reported as invalid.
   */
  lemma ProcessCommandMeaning(line: string)
    ensures forall ch :: Match(line, ch).Some? ==>
      ProcessCommand(line) == ChannelCommand(ch, Match(line, ch).value)
    ensures line == "off" ==> ProcessCommand(line) == Ok(0, 0, 0)
    ensures line == "on" ==> ProcessCommand(line) == Ok(255, 255, 255)
    ensures NoChannelMatch(line) && line != "off" && line != "on" ==>
      ProcessCommand(line) == Err(InvalidMessage(line))
  {
    forall ch | Match(line, ch).Some?
      ensures ProcessCommand(line) == ChannelCommand(ch, Match(line, ch).value)
    {
      PatternsExclusive(line, ch, Red);
      PatternsExclusive(line, ch, Green);
    }
    if line == "off" || line == "on" {
      PatternsExclusive(line, Red, Red);
      PatternsExclusive(line, Green, Green);
      PatternsExclusive(line, Blue, Blue);
    }
  }

  /**
   * A channel keyword at the very start of the line, any run of whitespace
   * (none included), a number as `%d` writes it, and anything that does not
   * continue the digits: the number alone decides the answer, and whatever
   * follows it is ignored.
   */
  lemma ChannelCommandLine(ch: Channel, ws: string, n: int, rest: string)
    requires AllSpace(ws) && StartsWithNonDigit(rest)
    ensures ProcessCommand(Keyword(ch) + ws + IntToString(n) + rest) == ChannelCommand(ch, n)
  {
    var line := Keyword(ch) + ws + IntToString(n) + rest;
    ScanKeywordIntOf(Keyword(ch), ws, n, rest);
    assert Match(line, ch) == Some(n);
    ProcessCommandMeaning(line);
  }

  /**
   * A line whose keyword is not followed by a number is invalid: the keyword
   * alone, a keyword followed by a word, or by a sign without a digit after it.
   */
  lemma KeywordWithoutNumber(ch: Channel, ws: string, t: string)
    requires AllSpace(ws)
    requires t == [] || (!IsSpace(t[0]) && !IsDigit(t[0])
      && ((t[0] != '-' && t[0] != '+') || StartsWithNonDigit(t[1..])))
    ensures var line := Keyword(ch) + ws + t;
      ProcessCommand(line) == Err(InvalidMessage(line))
  {
    var kw := Keyword(ch);
    var line := kw + ws + t;
    ConcatAssociative(kw, ws, t);
    ConcatPrefix(kw, ws + t);
    ScanIntWithoutNumber(ws, t);
    assert Match(line, ch).None?;
    assert line[0] == kw[0];
    assert NoChannelMatch(line);
    assert line != "off" && line != "on";
    ProcessCommandMeaning(line);
  }

  /** The keywords must start the line: a line that starts with none of r, g, b and is not `off` or `on` is invalid. */
  lemma UnknownLine(line: string)
    requires line == [] || (line[0] != 'r' && line[0] != 'g' && line[0] != 'b')
    requires line != "off" && line != "on"
    ensures ProcessCommand(line) == Err(InvalidMessage(line))
  {
    assert NoChannelMatch(line);
    ProcessCommandMeaning(line);
  }

  /** An unknown word is reported with the line as typed. */
  lemma UnknownWordExample()
    ensures ProcessCommand("purple") == Err("Invalid command [purple]")
  {
    UnknownLine("purple");
  }

  /** `off` and `on` are accepted as the whole line ... */
  lemma OffOnExamples()
    ensures ProcessCommand("off") == Ok(0, 0, 0)
    ensures ProcessCommand("on") == Ok(255, 255, 255)
  {
    ProcessCommandMeaning("off");
    ProcessCommandMeaning("on");
  }

  /** ... and not with a trailing space. */
  lemma OffWithSpaceExample()
    ensures ProcessCommand("off ") == Err("Invalid command [off ]")
  {
    UnknownLine("off ");
  }

  /** The keyword alone is not a command. */
  lemma KeywordAloneExample()
    ensures ProcessCommand("red") == Err("Invalid command [red]")
  {
    KeywordWithoutNumber(Red, "", "");
    KeywordAloneLine();
  }

  /** The line of the example, built from its parts, and its error text. */
  lemma KeywordAloneLine()
    ensures Keyword(Red) + "" + "" == "red"
    ensures InvalidMessage("red") == "Invalid command [red]"
  {
  }

  /** The keyword must be followed by whitespace or the number: `redish 5` is not a command. */
  lemma LongerWordExample()
    ensures ProcessCommand("redish 5") == Err("Invalid command [redish 5]")
  {
    KeywordWithoutNumber(Red, "", "ish 5");
    LongerWordLine();
  }

  /** The line of the example, built from its parts, and its error text. */
  lemma LongerWordLine()
    ensures Keyword(Red) + "" + "ish 5" == "redish 5"
    ensures InvalidMessage("redish 5") == "Invalid command [redish 5]"
  {
  }

  /** A sign without a digit right after it is no number: `red - 5` is not a command. */
  lemma SignWithoutDigitExample()
    ensures ProcessCommand("red - 5") == Err("Invalid command [red - 5]")
  {
    KeywordWithoutNumber(Red, " ", "- 5");
    SignWithoutDigitLine();
  }

  /** The line of the example, built from its parts, and its error text. */
  lemma SignWithoutDigitLine()
    ensures Keyword(Red) + " " + "- 5" == "red - 5"
    ensures InvalidMessage("red - 5") == "Invalid command [red - 5]"
  {
  }

  /** Text after the number is ignored. */
  lemma TrailingTextExample()
    ensures ProcessCommand("red 10x") == Ok(10, Unchanged, Unchanged)
  {
    ChannelCommandLine(Red, " ", 10, "x");
    TrailingTextLine();
  }

  /** The line of the example, built from its parts. */
  lemma TrailingTextLine()
    ensures Keyword(Red) + " " + IntToString(10) + "x" == "red 10x"
  {
    assert IntToString(10) == "10";
  }

  /** A number out of range is reported as read. */
  lemma BelowRangeExample()
    ensures ProcessCommand("green -1") == Err("Value must be between 0 and 255. Received [-1]")
  {
    ChannelCommandLine(Green, " ", -1, "");
    BelowRangeLine();
  }

  /** The line of the example, built from its parts, and its error text. */
  lemma BelowRangeLine()
    ensures Keyword(Green) + " " + IntToString(-1) + "" == "green -1"
    ensures RangeMessage(-1) == "Value must be between 0 and 255. Received [-1]"
  {
    assert IntToString(-1) == "-1";
  }

  // ---------------------------------------------------------------------------
  // set_leds

  /** The largest PWM level set_leds writes, 255 squared; it fits the 16-bit level register. */
  const MaxLevel: int := 65025

  /** The PWM level for a brightness request: clamped to 255, then squared. */
  function Level(v: int): (level: int)
    requires v >= 0
    ensures 0 <= level <= MaxLevel
    ensures v >= 255 ==> level == MaxLevel
  {
    var clamped := if v > 255 then 255 else v;
    SquareAtMost255(clamped);
    clamped * clamped
  }

  /** The square of a brightness fits the 16-bit PWM level. */
  lemma SquareAtMost255(c: int)
    requires 0 <= c <= 255
    ensures 0 <= c * c <= MaxLevel
  {
    MulLeft(c, 255, c);
    MulLeft(c, 255, 255);
  }

  /** Multiplying by a non-negative number keeps an order; a proof step for `SquareAtMost255`. */
  lemma MulLeft(a: int, b: int, c: int)
    requires a <= b && c >= 0
    ensures c * a <= c * b
  {
  }

  datatype Levels = Levels(red: int, green: int, blue: int)

  predicate LevelsInRange(l: Levels)
  {
    0 <= l.red <= MaxLevel && 0 <= l.green <= MaxLevel && 0 <= l.blue <= MaxLevel
  }

  /** One channel after a set_leds argument: negative keeps it. */
  function Updated(level: int, request: int): int
  {
    if request >= 0 then Level(request) else level
  }

  /** The three levels after set_leds(red, green, blue); each channel depends only on its own argument. */
  function SetLevels(l: Levels, red: int, green: int, blue: int): Levels
  {
    Levels(Updated(l.red, red), Updated(l.green, green), Updated(l.blue, blue))
  }

  /**
   * set_leds on one channel: a negative argument keeps the level, one in
   * 0..255 sets its square, and anything larger sets the square of 255.
   */
  lemma UpdatedMeaning(level: int, request: int)
    ensures request < 0 ==> Updated(level, request) == level
    ensures 0 <= request <= 255 ==> Updated(level, request) == request * request
    ensures request > 255 ==> Updated(level, request) == MaxLevel
  {
  }

  /** set_leds keeps every level within 0..65025, whatever it is passed. */
  lemma SetLevelsInRange(l: Levels, red: int, green: int, blue: int)
    requires LevelsInRange(l)
    ensures LevelsInRange(SetLevels(l, red, green, blue))
  {
  }

  /** Calling set_leds twice with the same arguments is the same as calling it once. */
  lemma SetLevelsIdempotent(l: Levels, red: int, green: int, blue: int)
    ensures var once := SetLevels(l, red, green, blue);
      SetLevels(once, red, green, blue) == once
  {
  }

  /** The levels after the main loop handles a command's outcome: only success calls set_leds. */
  function Apply(l: Levels, o: Outcome): Levels
  {
    if o.Ok? then SetLevels(l, o.red, o.green, o.blue) else l
  }

  /**
   * Sending the same command twice gives the same answer and the same
   * levels as sending it once; a rejected command changes nothing.
   */
  lemma RepeatedCommand(l: Levels, line: string)
    ensures var once := Apply(l, ProcessCommand(line));
      Apply(once, ProcessCommand(line)) == once
    ensures ProcessCommand(line).Err? ==> Apply(l, ProcessCommand(line)) == l
  {
    var o := ProcessCommand(line);
    if o.Ok? {
      SetLevelsIdempotent(l, o.red, o.green, o.blue);
    }
  }

  /** A single-channel command sets that channel to its brightness squared and leaves the others. */
  lemma RequestSetsOneChannel(l: Levels, ch: Channel, v: int)
    requires InByteRange(v)
    ensures var after := Apply(l, Request(ch, v));
      && after.red == (if ch == Red then v * v else l.red)
      && after.green == (if ch == Green then v * v else l.green)
      && after.blue == (if ch == Blue then v * v else l.blue)
  {
  }

  /** The three PWM outputs, each holding its current level. */
  class Leds {
    var red: int
    var green: int
    var blue: int

    ghost predicate Valid()
      reads this
    {
      LevelsInRange(Current())
    }

    function Current(): Levels
      reads this
    {
      Levels(red, green, blue)
    }

    /** All three outputs start at level 0. */
    constructor Init()
      ensures Valid() && Current() == Levels(0, 0, 0)
    {
      red, green, blue := 0, 0, 0;
    }

    /** set_leds: for each non-negative argument, clamp to 255 and load its square. */
    method SetLeds(r: int, g: int, b: int)
      requires Valid()
      modifies this
      ensures Valid()
      ensures Current() == SetLevels(old(Current()), r, g, b)
    {
      var v: int;
      if r >= 0 {
        v := if r > 255 then 255 else r;
        red := v * v;
      }
      if g >= 0 {
        v := if g > 255 then 255 else g;
        green := v * v;
      }
      if b >= 0 {
        v := if b > 255 then 255 else b;
        blue := v * v;
      }
      SetLevelsInRange(old(Current()), r, g, b);
    }
  }

  // ---------------------------------------------------------------------------
  // The reply and one pass of the main loop

  /** The line main prints for a processed command. */
  function FormatReply(o: Outcome): string
  {
    if o.Ok? then "ok\n" else "error: " + o.message + "\n"
  }

  /** `%d` prints no newline. */
  lemma NoNewlineInIntToString(n: int)
    ensures '\n' !in IntToString(n)
  {
    var digits := NatToString(if n < 0 then -n else n);
    assert forall i :: 0 <= i < |digits| ==> IsDigit(digits[i]);
  }

  lemma RangeMessageIsOneLine(v: int)
    ensures '\n' !in RangeMessage(v)
  {
    NoNewlineInIntToString(v);
    var prefix := "Value must be between 0 and 255. Received [";
    assert '\n' !in prefix;
    assert RangeMessage(v) == prefix + IntToString(v) + "]";
  }

  lemma InvalidMessageIsOneLine(line: string)
    requires '\n' !in line
    ensures '\n' !in InvalidMessage(line)
  {
  }

  /** The error texts hold no newline when the line holds none. */
  lemma MessageIsOneLine(line: string)
    requires '\n' !in line
    ensures ProcessCommand(line).Err? ==> '\n' !in ProcessCommand(line).message
  {
    ProcessCommandMeaning(line);
    if ch :| Match(line, ch).Some? {
      RangeMessageIsOneLine(Match(line, ch).value);
    } else {
      InvalidMessageIsOneLine(line);
    }
  }

  /**
   * For a line without a newline (a line the command buffer completes never
   * holds one), the reply is exactly one line, and it is `ok` exactly when
   * the command was accepted.
   */
  lemma ReplyIsOneLine(line: string)
    requires '\n' !in line
    ensures var reply := FormatReply(ProcessCommand(line));
      && |reply| > 0 && reply[|reply| - 1] == '\n'
      && '\n' !in reply[..|reply| - 1]
      && (reply == "ok\n" <==> ProcessCommand(line).Ok?)
  {
    var o := ProcessCommand(line);
    var reply := FormatReply(o);
    if o.Err? {
      MessageIsOneLine(line);
      assert reply[..|reply| - 1] == "error: " + o.message;
      assert reply[0] == 'e';
    }
  }

  /** A line the command buffer completes holds no newline, since no cell ever does. */
  lemma CompletedLineIsOneLine(cells: seq<char>, pos: nat, echo: bool, input: seq<char>)
    requires pos < |cells| && NoTerminator(cells)
    ensures '\n' !in CString(Read(cells, pos, echo, input).cells)
  {
    var r := Read(cells, pos, echo, input);
    var line := CString(r.cells);
    assert forall i :: 0 <= i < |line| ==> line[i] == r.cells[i];
  }

  /**
   * Whatever the buffer held and whatever bytes arrive, a completed line
   * gets a reply of exactly one line, ending in a newline.
   */
  lemma LoopReplyIsOneLine(cells: seq<char>, pos: nat, echo: bool, input: seq<char>)
    requires pos < |cells| && NoTerminator(cells)
    ensures var reply := FormatReply(ProcessCommand(CString(Read(cells, pos, echo, input).cells)));
      && |reply| > 0 && reply[|reply| - 1] == '\n' && '\n' !in reply[..|reply| - 1]
  {
    CompletedLineIsOneLine(cells, pos, echo, input);
    ReplyIsOneLine(CString(Read(cells, pos, echo, input).cells));
  }

  /** Whether echo is on in the firmware as built. */
  const EchoEnabled: bool := false

  /** The firmware's state: the command buffer and the three LED outputs. */
  class Firmware {
    const commands: LineBuffer
    const leds: Leds

    ghost predicate Valid()
      reads this, commands, commands.buffer, leds
    {
      commands.Valid() && leds.Valid()
    }

    /** What main sets up before its loop: an empty command buffer with echo as built, all LEDs off. */
    constructor Init()
      ensures Valid() && fresh(commands) && fresh(commands.buffer) && fresh(leds)
      ensures commands.pos == 0 && commands.echo == EchoEnabled
      ensures commands.buffer[..] == seq(CommandBufferSize, _ => '\0')
      ensures leds.Current() == Levels(0, 0, 0)
    {
      var buffer := new LineBuffer.Init(EchoEnabled);
      assert buffer.buffer[..] == seq(CommandBufferSize, _ => '\0');
      commands := buffer;
      leds := new Leds.Init();
    }

    /**
     * One pass of main's loop body, without its pause: read what the source
     * has ready; if that completed a line, interpret the C string in the
     * buffer, apply it to the LEDs and print the reply.
     */
    method Poll(input: seq<char>) returns (consumed: nat, output: seq<char>)
      requires Valid()
      modifies commands, commands.buffer, leds
      ensures Valid()
      ensures var r := Read(old(commands.buffer[..]), old(commands.pos), commands.echo, input);
        var outcome := ProcessCommand(CString(r.cells));
        && commands.buffer[..] == r.cells && commands.pos == r.pos && consumed == r.consumed
        && output == r.echoed + (if r.ready then FormatReply(outcome) else [])
        && leds.Current() == (if r.ready then Apply(old(leds.Current()), outcome) else old(leds.Current()))
    {
      var ready, echoed;
      ready, consumed, echoed := commands.ReadInput(input);
      output := echoed;
      if ready {
        var outcome := ProcessCommand(CString(commands.buffer[..]));
        if outcome.Ok? {
          leds.SetLeds(outcome.red, outcome.green, outcome.blue);
        }
        output := output + FormatReply(outcome);
      }
    }
  }

  /**
   * A command line that fits the buffer, typed with a terminator, is
   * interpreted as typed: the C string process_command sees is the line.
   */
  lemma TypedCommand(cells: seq<char>, echo: bool, line: string, t: char, rest: seq<char>)
    requires |cells| >= 1 && |line| <= |cells| - 1
    requires Ordinary(line) && '\0' !in line && IsTerminator(t)
    ensures var r := Read(cells, 0, echo, line + [t] + rest);
      r.ready && ProcessCommand(CString(r.cells)) == ProcessCommand(line)
  {
    ReadLine(cells, echo, line, t, rest);
    CStringOfPlain(line);
  }

  /**
   * From any buffer contents at position 0, the bytes `red 200` and a
   * newline get the reply `ok` and set red to level 40000, leaving green and
   * blue as they were.
   */
  lemma AcceptedLineExample(cells: seq<char>, echo: bool, l: Levels)
    requires |cells| == CommandBufferSize
    ensures var r := Read(cells, 0, echo, "red 200\n");
      var outcome := ProcessCommand(CString(r.cells));
      && r.ready && FormatReply(outcome) == "ok\n"
      && Apply(l, outcome) == Levels(40000, l.green, l.blue)
  {
    Red200Line();
    TypedCommand(cells, echo, "red 200", '\n', []);
    ChannelCommandLine(Red, " ", 200, "");
  }

  /** The line of the accepted example: its bytes, and the line built from its parts. */
  lemma Red200Line()
    ensures Ordinary("red 200") && '\0' !in "red 200"
    ensures "red 200" + ['\n'] + [] == "red 200\n"
    ensures Keyword(Red) + " " + IntToString(200) + "" == "red 200"
  {
    assert NatToString(20) == "20";
    assert IntToString(200) == "200";
  }

  /**
   * The bytes `blue 999` and a newline get the out-of-range reply and leave
   * every level as it was.
   */
  lemma RejectedLineExample(cells: seq<char>, echo: bool, l: Levels)
    requires |cells| == CommandBufferSize
    ensures var r := Read(cells, 0, echo, "blue 999\n");
      var outcome := ProcessCommand(CString(r.cells));
      && r.ready
      && FormatReply(outcome) == "error: " + "Value must be between 0 and 255. Received [999]" + "\n"
      && Apply(l, outcome) == l
  {
    Blue999Line();
    TypedCommand(cells, echo, "blue 999", '\n', []);
    ChannelCommandLine(Blue, " ", 999, "");
  }

  /** The line of the rejected example: its bytes, the line built from its parts, and its error text. */
  lemma Blue999Line()
    ensures Ordinary("blue 999") && '\0' !in "blue 999"
    ensures "blue 999" + ['\n'] + [] == "blue 999\n"
    ensures Keyword(Blue) + " " + IntToString(999) + "" == "blue 999"
    ensures RangeMessage(999) == "Value must be between 0 and 255. Received [999]"
  {
    assert NatToString(99) == "99";
    assert IntToString(999) == "999";
  }

  /** `red 10` and a newline complete the line `red 10`. */
  lemma LineExample(cells: seq<char>, echo: bool)
    requires |cells| == CommandBufferSize
    ensures var r := Read(cells, 0, echo, "red 10\n");
      r.ready && CString(r.cells) == "red 10"
  {
    Red10();
    ReadLine(cells, echo, "red 10", '\n', []);
  }

  /** The bytes of the line examples: `red 10` is ordinary and NUL-free. */
  lemma Red10()
    ensures Ordinary("red 10")
    ensures "red 10" + ['\n'] + [] == "red 10\n"
    ensures CString("red 10") == "red 10"
  {
    CStringOfPlain("red 10");
  }

  /** A backspace before the newline erases the 0: the line is `red 1`. */
  lemma BackspaceExample(cells: seq<char>, echo: bool)
    requires |cells| == CommandBufferSize
    ensures var r := Read(cells, 0, echo, "red 10\U{7F}\n");
      r.ready && CString(r.cells) == "red 1"
  {
    Red10();
    Red10Erased();
    ReadLineWithBackspace(cells, echo, "red 10", '\U{7F}', '\n', []);
  }

  /** `red 10` with the 0 erased, and its C string. */
  lemma Red10Erased()
    ensures "red 10" + ['\U{7F}'] + ['\n'] + [] == "red 10\U{7F}\n"
    ensures CString("red 10"[..5]) == "red 1"
  {
    assert "red 10"[..5] == "red 1";
    CStringOfPlain("red 1");
  }
}
