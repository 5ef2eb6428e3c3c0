# listen1 firmware: command buffer and command interpreter

The listen1 firmware runs on a Raspberry Pi Pico. It reads text commands from
the serial console and sets three PWM-driven LEDs. This project models the
part that processes those commands, and proves properties of the model:

- **The command buffer** (`command_buffer_t`, `command_buffer_init`,
  `command_buffer_read_input`) collects bytes from a non-blocking source into
  a fixed array of 64 chars.
  - Backspace (0x7F or 0x08) steps back one position when the line is not
    empty.
  - Bytes are dropped silently once 63 are stored.
  - Echo is optional.
  - `\n` or `\r` ends the line: a NUL is written at the write position and the
    position is reset.
- **`process_command`** interprets the completed line. It tries, in this
  order, `red %d`, `green %d`, `blue %d` (each accepted only for 0..255),
  exact `off` and exact `on`. Any other line is an error.
- **`set_leds`** treats a negative argument as "leave this channel alone". It
  clamps the others to 255 and sets the PWM level to the square.
- **One pass of `main`'s loop** reads the input, interprets a completed line,
  updates the LEDs and prints `ok` or `error: <message>`.

The model is in three modules:

- `LibC` (`libc.dfy`) covers the C library behaviour the firmware relies on:
  - the C string a `char *` denotes;
  - the `isspace` and `isdigit` classes;
  - the prefix match `sscanf(s, "<keyword> %d", &v)` performs;
  - the text `%d` prints.
- `CommandBuffer` (`command_buffer.dfy`) holds:
  - the pure function `Read`, which specifies one call of
    `command_buffer_read_input` on the array's contents;
  - lemmas that state the call's effect on the typed text;
  - the class `LineBuffer`, whose `ReadInput` method loops over the available
    bytes and updates the array in place. It is proved equal to `Read`.
- `Listen1` (`listen1.dfy`) holds:
  - `ProcessCommand` as a function from the line to `Ok(red, green, blue)` or
    `Err(message)`;
  - the `Leds` class with its `SetLeds` method;
  - the reply format;
  - the `Firmware` class, whose `Poll` method is one pass of the main loop.

Modelling choices:

- A `char` stands for a byte.
- An "ordinary" byte (`CommandBuffer.Ordinary`) is any byte that is neither a
  terminator nor a backspace. NUL and the other control bytes count, because
  the buffer stores them like any other byte.
- The byte source is the sequence of bytes it has ready when
  `command_buffer_read_input` is called. Reaching the end of that sequence is
  `PICO_ERROR_TIMEOUT`. `ReadInput` also returns how many bytes it took.
- What `putchar` and `printf` write is returned as a sequence of chars.
- `process_command` receives the buffer as a C string, `CString(cells)`: the
  cells up to the first NUL.
- `size` and `echo` are `const` fields, because only `command_buffer_init`
  writes them.

## Model

| member | source | states |
|---|---|---|
| LibC.CString | listen1/main.c:121 | The C string the buffer denotes is a prefix of the cells, holds no NUL, and stops exactly at the first NUL |
| LibC.CStringAtNul | listen1/command_buffer.c:25 | A NUL written at index k cuts the C string at k |
| LibC.CStringOfPlain | listen1/main.c:121 | A NUL-free sequence is its own C string |
| LibC.SpaceCount | listen1/main.c:67 | The whitespace that the format's space skips is a run of `isspace` characters, and the first character after it is not whitespace |
| LibC.DigitCount | listen1/main.c:67 | The digits `%d` reads are a run of decimal digits, followed by a non-digit or the end |
| LibC.ScanKeywordIntOf | listen1/main.c:67-87 | The keyword, any whitespace, a number as `%d` prints it and a tail that does not continue the digits: `sscanf` returns 1 and stores that number |
| LibC.ScanKeywordIntMismatch | listen1/main.c:67-87 | A line that differs from the keyword at some position of the keyword, or ends before it does, does not match |
| LibC.ScanIntSkipsSpace | listen1/main.c:67 | Any run of whitespace before the number, none included, is skipped |
| LibC.ScanDigitsOf | listen1/main.c:67 | Digits are read up to the first non-digit, and their decimal value is stored |
| LibC.ScanNumberOfDigits | listen1/main.c:67 | An unsigned run of digits gives its value |
| LibC.ScanNumberOfNegative | listen1/main.c:67 | A minus sign followed by digits gives the negated value |
| LibC.ScanNumberOfPositive | listen1/main.c:67 | A plus sign followed by digits gives their value |
| LibC.DigitsValueOfNatToString | listen1/main.c:72 | The digits `%d` prints for n denote n |
| LibC.NatToStringNoLeadingZero | listen1/main.c:72 | `%d` prints no leading zero: only 0 is printed starting with the digit 0 |
| LibC.ScanIntOfIntToString | listen1/main.c:67-72 | Round trip: `%d` scanning what `%d` prints gives the number back, whatever whitespace comes before and whatever non-digit follows |
| LibC.ScanIntWithoutNumber | listen1/main.c:67 | `%d` fails when, after the whitespace, no digit follows, either at once or after one sign |
| CommandBuffer.EditAll | listen1/command_buffer.c:40 | The typed text never exceeds size - 1 bytes |
| CommandBuffer.Step | listen1/command_buffer.c:29-47 | A non-terminator byte keeps the array length and leaves the position short of size |
| CommandBuffer.StepEdits | listen1/command_buffer.c:29-47 | One byte's effect on the array, read up to the position, is its edit of the typed text: backspace drops the last byte, a stored byte is appended, a dropped byte changes nothing |
| CommandBuffer.Read | listen1/command_buffer.c:14-49 | One call keeps the array length and the position in bounds, takes at most the bytes offered, writes the NUL in bounds and resets the position when a line is ready, and stores no terminator |
| CommandBuffer.BeforeTerminator | listen1/command_buffer.c:23 | The bytes before the first terminator are a terminator-free prefix of the input |
| CommandBuffer.ReadConsumes | listen1/command_buffer.c:18-28 | A line is ready exactly when the input holds a terminator; the call takes the bytes up to and including the first one, or all of them when there is none |
| CommandBuffer.ReadEdits | listen1/command_buffer.c:23-47 | The line, or the pending text when not ready, is the edits of the bytes before the terminator applied to the text held before; the echo is the echo of those edits, and nothing when echo is off |
| CommandBuffer.ReadResumes | listen1/command_buffer.c:18-22 | A call on which the source runs dry returns not ready, and the next call continues as if both batches had arrived in one |
| CommandBuffer.ResumesAtTerminator | listen1/command_buffer.c:23-28 | At a terminator the result is the array with a NUL at the write position, position 0, ready, with the terminator consumed |
| CommandBuffer.ResumesAfterStep | listen1/command_buffer.c:29-47 | A non-terminator byte followed by the rest of the input behaves like the whole input |
| CommandBuffer.EditAllOrdinary | listen1/command_buffer.c:40-42 | Ordinary bytes are stored in order until size - 1 are held, and the rest are dropped |
| CommandBuffer.EditAllAppend | listen1/command_buffer.c:29-47 | The edits of a run of bytes followed by one more are the edits of the run, then that byte's edit; this holds for any mix of bytes and backspaces |
| CommandBuffer.EditAllBackspace | listen1/command_buffer.c:29-33 | A backspace removes the last stored byte and does nothing on an empty line |
| CommandBuffer.EchoAllBackspace | listen1/command_buffer.c:29-38 | With echo on, a backspace echoes `\b \b` when the line is not empty, and nothing when it is |
| CommandBuffer.EchoAllOrdinary | listen1/command_buffer.c:43-46 | A stored byte echoes itself and a dropped one echoes nothing |
| CommandBuffer.ReadTypedLine | listen1/command_buffer.c:23-47 | From position 0, the bytes up to a terminator give a ready line equal to their edits; it is NUL-terminated in the array and is the array's C string |
| CommandBuffer.ReadLine | listen1/command_buffer.c:23-47 | An ordinary line that fits, followed by a terminator, is read verbatim, and echoed verbatim when echo is on |
| CommandBuffer.LineFits | listen1/command_buffer.c:40-46 | Ordinary bytes that fit are stored and echoed as typed |
| CommandBuffer.ReadLineWithBackspace | listen1/command_buffer.c:29-39 | A backspace before the terminator erases the last byte of the line; with echo on, the echo is the typed text followed by `\b \b` |
| CommandBuffer.ReadOverlongLine | listen1/command_buffer.c:40-47 | An ordinary line longer than size - 1 is cut to its first size - 1 bytes, and the rest is not echoed |
| CommandBuffer.ReadOverlongPending | listen1/command_buffer.c:18-47 | More than size - 1 ordinary bytes without a terminator leave the read not ready, with all bytes taken, the position at size - 1, the first size - 1 bytes in the array, and only those echoed |
| CommandBuffer.LineOverflows | listen1/command_buffer.c:40-46 | Bytes beyond size - 1 are neither stored nor echoed |
| CommandBuffer.BeforeTerminatorOf | listen1/command_buffer.c:23 | The bytes before a terminator are exactly the terminator-free text preceding it |
| CommandBuffer.LineBuffer.Init | listen1/command_buffer.c:6-12 | Size is the default capacity 64, the position is 0, echo is the argument, and every cell is NUL |
| CommandBuffer.LineBuffer.Take | listen1/command_buffer.c:29-47 | One backspace or stored byte updates the array and the position as `Step` does, and echoes `EchoOf` when echo is on; the position stays within 0..size-1 |
| CommandBuffer.LineBuffer.ReadInput | listen1/command_buffer.c:14-49 | The loop leaves the array, the position, the return value, the bytes taken and the echo exactly as `Read` specifies, and keeps the buffer invariant |
| Listen1.ChannelCommand | listen1/main.c:68-73 | A scanned channel command succeeds exactly when the value is in 0..255 |
| Listen1.ProcessCommand | listen1/main.c:65-100 | Every accepted command passes set_leds only the sentinel -1 or values in 0..255 |
| Listen1.PatternsExclusive | listen1/main.c:67-93 | No line matches two channel patterns, or a channel pattern together with `off` or `on` |
| Listen1.ProcessCommandMeaning | listen1/main.c:65-100 | For every line: a channel match gives its range-checked request; `off` gives set_leds(0,0,0); `on` gives set_leds(255,255,255); any other line gives `Invalid command [<line>]` |
| Listen1.ChannelCommandLine | listen1/main.c:67-87 | A keyword, any whitespace, a number as `%d` prints it and any non-digit tail give exactly that number's range-checked command |
| Listen1.KeywordWithoutNumber | listen1/main.c:67-98 | A keyword not followed by a number is an invalid command. This covers the keyword alone, a keyword followed by a word, and a keyword followed by a sign without a digit after it |
| Listen1.UnknownLine | listen1/main.c:95-98 | A line that does not start with r, g or b and is not `off` or `on` is an invalid command |
| Listen1.UnknownWordExample | listen1/main.c:95-98 | `purple` gives the error `Invalid command [purple]` |
| Listen1.OffOnExamples | listen1/main.c:88-93 | `off` requests set_leds(0,0,0) and `on` requests set_leds(255,255,255) |
| Listen1.OffWithSpaceExample | listen1/main.c:88-98 | `off ` with a trailing space is rejected with `Invalid command [off ]` |
| Listen1.KeywordAloneExample | listen1/main.c:67-98 | `red` alone is rejected with `Invalid command [red]` |
| Listen1.LongerWordExample | listen1/main.c:67-98 | `redish 5` is rejected with `Invalid command [redish 5]` |
| Listen1.SignWithoutDigitExample | listen1/main.c:67-98 | `red - 5` is rejected with `Invalid command [red - 5]`, because `%d` finds no digit right after the sign |
| Listen1.TrailingTextExample | listen1/main.c:67-70 | `red 10x` requests red 10 and leaves green and blue unchanged |
| Listen1.BelowRangeExample | listen1/main.c:74-79 | `green -1` is rejected, and the message reports -1 |
| Listen1.Level | listen1/main.c:44-46 | A requested brightness maps to a level in 0..65025, and anything from 255 up maps to 65025 |
| Listen1.UpdatedMeaning | listen1/main.c:44-55 | A negative argument keeps the level, 0..255 sets its square, and a larger value sets 255 squared |
| Listen1.SetLevelsInRange | listen1/main.c:43-56 | set_leds keeps every level within 0..65025 |
| Listen1.SetLevelsIdempotent | listen1/main.c:43-56 | Calling set_leds twice with the same arguments has the effect of calling it once |
| Listen1.RepeatedCommand | listen1/main.c:119-125 | Sending a line twice leaves the levels as sending it once does, and a rejected line changes no level |
| Listen1.RequestSetsOneChannel | listen1/main.c:67-87 | An accepted channel command sets that channel to the value squared and leaves the other two |
| Listen1.Leds.Init | listen1/main.c:27-33 | All three outputs start at level 0 |
| Listen1.Leds.SetLeds | listen1/main.c:43-56 | The new levels are `SetLevels` of the old ones, and stay in range |
| Listen1.RangeMessageIsOneLine | listen1/main.c:72 | The out-of-range message holds no newline |
| Listen1.InvalidMessageIsOneLine | listen1/main.c:97 | The invalid-command message holds no newline when the line holds none |
| Listen1.MessageIsOneLine | listen1/main.c:68-98 | No error message of a newline-free line holds a newline |
| Listen1.ReplyIsOneLine | listen1/main.c:121-125 | The reply is exactly one newline-terminated line, and it is `ok` exactly when the command was accepted |
| Listen1.CompletedLineIsOneLine | listen1/command_buffer.c:23-47 | A line the buffer completes holds no newline, because terminators are never stored |
| Listen1.LoopReplyIsOneLine | listen1/main.c:117-126 | Whatever the buffer held and whatever bytes arrive, a completed line gets exactly one reply line |
| Listen1.Firmware.Init | listen1/main.c:108-114 | Before the loop: an empty, fresh buffer with echo off and all LEDs at level 0 |
| Listen1.Firmware.Poll | listen1/main.c:117-126 | One pass reads as `Read` specifies. When a line is complete it interprets the buffer's C string, applies only an accepted command to the LEDs, and appends `FormatReply` of the outcome to the echo |
| Listen1.TypedCommand | listen1/main.c:118-121 | A command line that fits, typed with a terminator, is interpreted as typed |
| Listen1.AcceptedLineExample | listen1/main.c:117-126 | The bytes `red 200` and a newline get `ok`, set red to 40000 and leave green and blue |
| Listen1.RejectedLineExample | listen1/main.c:117-126 | The bytes `blue 999` and a newline get `error: Value must be between 0 and 255. Received [999]` and change no level |
| Listen1.LineExample | listen1/command_buffer.c:23-47 | `red 10` and a newline give the line `red 10` |
| Listen1.BackspaceExample | listen1/command_buffer.c:29-39 | `red 10`, a backspace and a newline give the line `red 1` |

The table lists the members whose contracts model the source. Proof helpers
have no row. They include sequence facts, `DigitChar`, `DigitCountOfDigits`
and `SpaceCountOfSpaces`. The definitions below state no property of their
own, apart from `NatToString`, which ensures only that its result is a
non-empty run of digits. The lemmas above state what these definitions mean,
and each follows the source lines given:

- `LibC.ScanKeywordInt` (listen1/main.c:67, 74, 81): the return value of
  `sscanf(buffer, "<keyword> %d", &value)`, with the value stored. The
  keyword must match from the first character, and then `%d` is applied to
  the rest.
- `LibC.ScanInt`, `LibC.ScanNumber`, `LibC.ScanDigits` (listen1/main.c:67):
  the `%d` conversion. It skips whitespace, takes one optional `-` or `+`,
  then needs at least one digit and stops at the first non-digit.
- `LibC.NatToString`, `LibC.IntToString` (listen1/main.c:72): the decimal
  text `%d` prints, with a minus sign for negative numbers.
- `CommandBuffer.Edit`, `CommandBuffer.EchoOf` (listen1/command_buffer.c:29-46):
  one non-terminator byte's effect on the typed text and its echo:
  - a backspace drops the last byte and echoes `\b \b`, or does nothing on
    an empty line;
  - another byte is appended and echoed while fewer than size - 1 are held,
    and is dropped otherwise.
- `CommandBuffer.EchoAll` (listen1/command_buffer.c:29-46): the echoes of a
  run of bytes, in order.
- `Listen1.Match` (listen1/main.c:67, 74, 81): the `sscanf` test for one
  channel's keyword.
- `Listen1.Request` (listen1/main.c:69, 76, 83): the `set_leds` arguments for
  one channel: the value for that channel and -1 for the other two.
- `Listen1.RangeMessage` (listen1/main.c:72): `Value must be between 0 and
  255. Received [<value>]`.
- `Listen1.InvalidMessage` (listen1/main.c:97): `Invalid command [<line>]`.
- `Listen1.Updated`, `Listen1.SetLevels` (listen1/main.c:43-56): the levels
  after `set_leds`, one channel at a time.
- `Listen1.Apply` (listen1/main.c:119-121): the levels after the main loop
  handles an outcome. Only a success calls `set_leds`.
- `Listen1.FormatReply` (listen1/main.c:122-124): `ok` or `error: <message>`,
  followed by a newline.

## Left out

- GPIO and PWM set-up (`init_leds`, `gpio_set_function`, `pwm_set_enabled`) is hardware configuration. The model keeps only its effect, all levels 0 (`Leds.Init`). Loading a level into the PWM compare register is an assignment to a level field.
- `stdio_init_all`, `sleep_ms` and the endless `while (true)` are left out. `Firmware.Poll` is one pass of the loop body.
- `getchar_timeout_us`, `putchar` and `printf` are I/O. Input is the sequence of bytes available; output is a returned sequence.
- `LibC.ScanInt`: `%d` reads a mathematical integer. A number that overflows `int` is undefined behaviour in C and is not modelled.
- `Listen1.RangeMessage`: the `snprintf` truncation to the 256-byte error buffer is not modelled. Every message the C program can produce fits: a line is at most 63 bytes and an `int` prints in at most 11.
- The compile-time override of `COMMAND_BUFFER_SIZE` is not a parameter of the class. `LineBuffer.Init` fixes 64. The general lemmas about `Read` in `CommandBuffer` hold for any size of at least 1. The examples in `Listen1` (`AcceptedLineExample`, `RejectedLineExample`, `LineExample`, `BackspaceExample`) fix the size at 64.
- The `volatile` qualifier on the buffer has no effect in a sequential model.
- A `char` stands for a byte, so the conversion of `getchar`'s `int` to `char` is not modelled.
- `CommandBuffer.LineBuffer.ReadInput` also returns the number of bytes taken and the echo, so callers can see what was consumed and printed. The C function returns only the line-ready flag.
- python/gui.py and python/console.py are serial clients and a UI. They are not part of this model.
