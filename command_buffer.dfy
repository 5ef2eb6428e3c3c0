/**
 * The command buffer of listen1: a fixed array of chars that collects bytes
 * from a non-blocking byte source until a line terminator arrives, with
 * backspace editing, silent dropping of bytes once full, and optional echo.
 *
 * The byte source is modelled as the sequence of bytes available at the time
 * of the call; running off its end is the timeout that makes the read return
 * "not yet". What the buffer echoes is returned as a sequence of chars.
 */
module CommandBuffer {
  import opened LibC

  /** Default capacity of the buffer. */
  const CommandBufferSize: nat := 64

  predicate IsTerminator(c: char)
  {
    c == '\n' || c == '\r'
  }

  predicate IsBackspace(c: char)
  {
    c == '\U{7F}' || c == '\U{08}'
  }

  /** What the console shows to erase the character left of the cursor. */
  const EraseSequence: seq<char> := "\U{08} \U{08}"

  predicate NoTerminator(s: seq<char>)
  {
    forall i :: 0 <= i < |s| ==> !IsTerminator(s[i])
  }

  /**
   * Ordinary bytes: neither a terminator nor a backspace. The buffer stores
   * each one while there is room; NUL and the other control bytes count.
   */
  predicate Ordinary(s: seq<char>)
  {
    forall i :: 0 <= i < |s| ==> !IsTerminator(s[i]) && !IsBackspace(s[i])
  }

  // ---------------------------------------------------------------------------
  // The line being typed, as a value

  /** The effect of one non-terminator byte on the text typed so far, in a buffer of `size` cells. */
  function Edit(line: seq<char>, c: char, size: nat): seq<char>
  {
    if IsBackspace(c) then (if |line| > 0 then line[..|line| - 1] else line)
    else if |line| < size - 1 then line + [c]
    else line
  }

  /** What that byte echoes when echo is on. */
  function EchoOf(line: seq<char>, c: char, size: nat): seq<char>
  {
    if IsBackspace(c) then (if |line| > 0 then EraseSequence else [])
    else if |line| < size - 1 then [c]
    else []
  }

  /** The edits of `cs`, applied in order. */
  function EditAll(line: seq<char>, cs: seq<char>, size: nat): (r: seq<char>)
    requires size >= 1 && |line| <= size - 1
    ensures |r| <= size - 1
    decreases |cs|
  {
    if cs == [] then line else EditAll(Edit(line, cs[0], size), cs[1..], size)
  }

  /** The echo of `cs`, byte by byte, when echo is on. */
  function EchoAll(line: seq<char>, cs: seq<char>, size: nat): seq<char>
    requires size >= 1 && |line| <= size - 1
    decreases |cs|
  {
    if cs == [] then []
    else EchoOf(line, cs[0], size) + EchoAll(Edit(line, cs[0], size), cs[1..], size)
  }

  // ---------------------------------------------------------------------------
  // One call of command_buffer_read_input, on the array's contents

  datatype ReadResult = ReadResult(
    cells: seq<char>,   // the array afterwards
    pos: nat,           // the write position afterwards
    ready: bool,        // the return value: a line is complete
    consumed: nat,      // bytes taken from the source, terminator included
    echoed: seq<char>,  // what was echoed
    lineEnd: nat        // where the NUL was written, when ready
  )

  /** The state after one non-terminator byte. */
  function Step(cells: seq<char>, pos: nat, c: char): (r: (seq<char>, nat))
    requires pos < |cells|
    ensures |r.0| == |cells| && r.1 < |cells|
  {
    if IsBackspace(c) then (cells, if pos > 0 then pos - 1 else pos)
    else if pos < |cells| - 1 then (cells[pos := c], pos + 1)
    else (cells, pos)
  }

  /**
   * command_buffer_read_input: take bytes until the source runs dry (result
   * not ready, everything kept) or a terminator arrives (NUL written at the
   * write position, position reset, result ready).
   */
  function Read(cells: seq<char>, pos: nat, echo: bool, input: seq<char>): (r: ReadResult)
    requires pos < |cells|
    ensures |r.cells| == |cells| && r.pos < |cells|
    ensures r.consumed <= |input|
    ensures r.ready ==> r.pos == 0 && r.lineEnd < |cells| && r.cells[r.lineEnd] == '\0'
    ensures NoTerminator(cells) ==> NoTerminator(r.cells)
    decreases |input|
  {
    if input == [] then ReadResult(cells, pos, false, 0, [], 0)
    else if IsTerminator(input[0]) then ReadResult(cells[pos := '\0'], 0, true, 1, [], pos)
    else
      var next := Step(cells, pos, input[0]);
      var out := if echo then EchoOf(cells[..pos], input[0], |cells|) else [];
      var r := Read(next.0, next.1, echo, input[1..]);
      r.(consumed := r.consumed + 1, echoed := out + r.echoed)
  }

  /**
   * `goal` is what a read gives whose first bytes have already taken the
   * buffer to (cells, pos) and echoed `before`, with `remaining` still to come.
   */
  ghost predicate Resumes(cells: seq<char>, pos: nat, echo: bool, remaining: seq<char>, before: seq<char>, taken: nat, goal: ReadResult)
    requires pos < |cells|
  {
    var r := Read(cells, pos, echo, remaining);
    && r.cells == goal.cells && r.pos == goal.pos && r.ready == goal.ready
    && taken + r.consumed == goal.consumed && before + r.echoed == goal.echoed
  }

  /** A terminator ends the read on course: the NUL goes at the write position. */
  lemma ResumesAtTerminator(cells: seq<char>, pos: nat, echo: bool, remaining: seq<char>, before: seq<char>, taken: nat, goal: ReadResult)
    requires pos < |cells| && remaining != [] && IsTerminator(remaining[0])
    requires Resumes(cells, pos, echo, remaining, before, taken, goal)
    ensures goal.cells == cells[pos := '\0'] && goal.pos == 0 && goal.ready
    ensures goal.consumed == taken + 1 && goal.echoed == before
  {
  }

  /** Taking one more non-terminator byte keeps a read on course. */
  lemma ResumesAfterStep(cells: seq<char>, pos: nat, echo: bool, remaining: seq<char>, before: seq<char>, taken: nat, goal: ReadResult)
    requires pos < |cells| && remaining != [] && !IsTerminator(remaining[0])
    requires Resumes(cells, pos, echo, remaining, before, taken, goal)
    ensures var next := Step(cells, pos, remaining[0]);
      var out := if echo then EchoOf(cells[..pos], remaining[0], |cells|) else [];
      Resumes(next.0, next.1, echo, remaining[1..], before + out, taken + 1, goal)
  {
    var next := Step(cells, pos, remaining[0]);
    var out := if echo then EchoOf(cells[..pos], remaining[0], |cells|) else [];
    ConcatAssociative(before, out, Read(next.0, next.1, echo, remaining[1..]).echoed);
  }

  /** The bytes of `input` before its first terminator (all of it when there is none). */
  function BeforeTerminator(input: seq<char>): (typed: seq<char>)
    ensures typed <= input && NoTerminator(typed)
    ensures |typed| < |input| ==> IsTerminator(input[|typed|])
  {
    if input == [] || IsTerminator(input[0]) then []
    else [input[0]] + BeforeTerminator(input[1..])
  }

  // ---------------------------------------------------------------------------
  // What Read does, stated on the typed text

  lemma StepEdits(cells: seq<char>, pos: nat, c: char)
    requires pos < |cells|
    ensures var next := Step(cells, pos, c);
      next.0[..next.1] == Edit(cells[..pos], c, |cells|)
  {
    if !IsBackspace(c) && pos < |cells| - 1 {
      assert cells[pos := c][..pos + 1] == cells[..pos] + [c];
    }
  }

  /**
   * The read stops exactly after the first terminator, and only then reports
   * a line; bytes after it stay in the source.
   */
  lemma {:induction false} ReadConsumes(cells: seq<char>, pos: nat, echo: bool, input: seq<char>)
    requires pos < |cells|
    ensures var r := Read(cells, pos, echo, input);
      var typed := BeforeTerminator(input);
      && (r.ready <==> |typed| < |input|)
      && r.consumed == (if r.ready then |typed| + 1 else |input|)
    decreases |input|
  {
    if input != [] && !IsTerminator(input[0]) {
      var next := Step(cells, pos, input[0]);
      ReadConsumes(next.0, next.1, echo, input[1..]);
    }
  }

  /**
   * The text a read leaves behind is the edits of the bytes it consumed
   * before the terminator, applied to the text held before the call: the
   * pending text when the source ran dry, the NUL-terminated line otherwise.
   * With echo on, the echo is that of the same edits; with echo off, nothing.
   */
  lemma {:induction false} ReadEdits(cells: seq<char>, pos: nat, echo: bool, input: seq<char>)
    requires pos < |cells|
    ensures var r := Read(cells, pos, echo, input);
      var typed := BeforeTerminator(input);
      var text := EditAll(cells[..pos], typed, |cells|);
      && (r.ready ==> r.lineEnd == |text| && r.cells[..r.lineEnd] == text)
      && (!r.ready ==> r.cells[..r.pos] == text)
      && r.echoed == (if echo then EchoAll(cells[..pos], typed, |cells|) else [])
    decreases |input|
  {
    if input == [] {
    } else if IsTerminator(input[0]) {
      assert cells[pos := '\0'][..pos] == cells[..pos];
    } else {
      var next := Step(cells, pos, input[0]);
      StepEdits(cells, pos, input[0]);
      ReadEdits(next.0, next.1, echo, input[1..]);
      assert BeforeTerminator(input) == [input[0]] + BeforeTerminator(input[1..]);
    }
  }

  /**
   * A read on which the source ran dry leaves a state from which the next
   * read continues as if both batches of bytes had arrived in one.
   */
  lemma {:induction false} ReadResumes(cells: seq<char>, pos: nat, echo: bool, a: seq<char>, b: seq<char>)
    requires pos < |cells| && NoTerminator(a)
    ensures var first := Read(cells, pos, echo, a);
      var second := Read(first.cells, first.pos, echo, b);
      var whole := Read(cells, pos, echo, a + b);
      && !first.ready
      && whole.cells == second.cells && whole.pos == second.pos
      && whole.ready == second.ready && whole.lineEnd == second.lineEnd
      && whole.consumed == |a| + second.consumed
      && whole.echoed == first.echoed + second.echoed
    decreases |a|
  {
    if a == [] {
      assert a + b == b;
    } else {
      var next := Step(cells, pos, a[0]);
      var out := if echo then EchoOf(cells[..pos], a[0], |cells|) else [];
      ReadResumes(next.0, next.1, echo, a[1..], b);
      var first' := Read(next.0, next.1, echo, a[1..]);
      var second := Read(first'.cells, first'.pos, echo, b);
      ConcatTail(a, b);
      ConcatAssociative(out, first'.echoed, second.echoed);
    }
  }

  /**
   * Ordinary bytes are kept in order until the buffer holds size - 1 of
   * them; the rest are dropped. So a line that fits is stored verbatim and a
   * longer one is cut to its first size - 1 bytes.
   */
  lemma {:induction false} EditAllOrdinary(line: seq<char>, cs: seq<char>, size: nat)
    requires size >= 1 && |line| <= size - 1 && Ordinary(cs)
    ensures var n := if |line| + |cs| <= size - 1 then |line| + |cs| else size - 1;
      EditAll(line, cs, size) == (line + cs)[..n]
    decreases |cs|
  {
    if cs != [] {
      var next := Edit(line, cs[0], size);
      assert Ordinary(cs[1..]);
      EditAllOrdinary(next, cs[1..], size);
      if |line| < size - 1 {
        assert next + cs[1..] == line + cs;
      } else {
        assert next == line;
        assert (line + cs[1..])[..size - 1] == line == (line + cs)[..size - 1];
      }
    }
  }

  /** The edits of a run of bytes followed by one more are the edits of the run, then that byte's. */
  lemma {:induction false} EditAllAppend(line: seq<char>, cs: seq<char>, c: char, size: nat)
    requires size >= 1 && |line| <= size - 1
    ensures EditAll(line, cs + [c], size) == Edit(EditAll(line, cs, size), c, size)
    decreases |cs|
  {
    if cs == [] {
      assert [c][1..] == [];
    } else {
      assert (cs + [c])[1..] == cs[1..] + [c];
      EditAllAppend(Edit(line, cs[0], size), cs[1..], c, size);
    }
  }

  /** A backspace removes the last byte typed, and does nothing on an empty line. */
  lemma EditAllBackspace(line: seq<char>, cs: seq<char>, b: char, size: nat)
    requires size >= 1 && |line| <= size - 1 && IsBackspace(b)
    ensures var before := EditAll(line, cs, size);
      EditAll(line, cs + [b], size) == (if before == [] then [] else before[..|before| - 1])
  {
    EditAllAppend(line, cs, b, size);
  }

  /** With echo on, a backspace erases one character on the console, and echoes nothing on an empty line. */
  lemma {:induction false} EchoAllBackspace(line: seq<char>, cs: seq<char>, b: char, size: nat)
    requires size >= 1 && |line| <= size - 1 && IsBackspace(b)
    ensures EchoAll(line, cs + [b], size)
      == EchoAll(line, cs, size) + (if EditAll(line, cs, size) != [] then EraseSequence else [])
    decreases |cs|
  {
    if cs == [] {
      assert [b][1..] == [];
    } else {
      var next := Edit(line, cs[0], size);
      assert (cs + [b])[1..] == cs[1..] + [b];
      EchoAllBackspace(next, cs[1..], b, size);
      ConcatAssociative(EchoOf(line, cs[0], size), EchoAll(next, cs[1..], size),
        if EditAll(next, cs[1..], size) != [] then EraseSequence else []);
    }
  }

  /** With echo on, an ordinary byte that is stored echoes itself, and a dropped one nothing. */
  lemma {:induction false} EchoAllOrdinary(line: seq<char>, cs: seq<char>, size: nat)
    requires size >= 1 && |line| <= size - 1 && Ordinary(cs)
    ensures var room := size - 1 - |line|;
      EchoAll(line, cs, size) == (if |cs| <= room then cs else cs[..room])
    decreases |cs|
  {
    if cs != [] {
      var next := Edit(line, cs[0], size);
      assert Ordinary(cs[1..]);
      EchoAllOrdinary(next, cs[1..], size);
      assert EchoAll(line, cs, size) == EchoOf(line, cs[0], size) + EchoAll(next, cs[1..], size);
      var room := size - 1 - |line|;
      if |line| < size - 1 {
        assert next == line + [cs[0]] && EchoOf(line, cs[0], size) == [cs[0]];
        if |cs| <= room {
          assert [cs[0]] + cs[1..] == cs;
        } else {
          assert [cs[0]] + cs[1..][..room - 1] == cs[..room];
        }
      } else {
        assert next == line && EchoOf(line, cs[0], size) == [];
        assert room == 0 && cs[..0] == [] && cs[1..][..0] == [];
      }
    }
  }

  /**
   * Typed from an empty buffer and ended by a terminator, any bytes give the
   * line their edits give: it is NUL-terminated in the buffer and it is the
   * C string the buffer holds, up to any NUL typed into it.
   */
  lemma ReadTypedLine(cells: seq<char>, echo: bool, typed: seq<char>, t: char, rest: seq<char>)
    requires |cells| >= 1 && NoTerminator(typed) && IsTerminator(t)
    ensures var r := Read(cells, 0, echo, typed + [t] + rest);
      var line := EditAll([], typed, |cells|);
      && r.ready && r.consumed == |typed| + 1 && r.pos == 0
      && r.lineEnd == |line| && r.cells[..|line|] == line
      && CString(r.cells) == CString(line)
      && r.echoed == (if echo then EchoAll([], typed, |cells|) else [])
  {
    var input := typed + [t] + rest;
    var r := Read(cells, 0, echo, input);
    BeforeTerminatorOf(typed, t, rest);
    ReadConsumes(cells, 0, echo, input);
    ReadEdits(cells, 0, echo, input);
    assert cells[..0] == [];
    CStringAtNul(r.cells, r.lineEnd);
  }

  lemma OrdinaryHasNoTerminator(s: seq<char>)
    requires Ordinary(s)
    ensures NoTerminator(s)
  {
  }

  /**
   * A line of ordinary bytes that fits, followed by a terminator, is read
   * as exactly that line, and echoed as typed when echo is on.
   */
  lemma ReadLine(cells: seq<char>, echo: bool, text: seq<char>, t: char, rest: seq<char>)
    requires |cells| >= 1 && |text| <= |cells| - 1
    requires Ordinary(text) && IsTerminator(t)
    ensures var r := Read(cells, 0, echo, text + [t] + rest);
      && r.ready && r.consumed == |text| + 1 && r.pos == 0
      && r.cells[..|text|] == text && r.cells[|text|] == '\0'
      && CString(r.cells) == CString(text)
      && r.echoed == (if echo then text else [])
  {
    OrdinaryHasNoTerminator(text);
    LineFits(text, |cells|);
    ReadTypedLine(cells, echo, text, t, rest);
  }

  /** Ordinary bytes that fit are stored and echoed as typed. */
  lemma LineFits(text: seq<char>, size: nat)
    requires size >= 1 && |text| <= size - 1 && Ordinary(text)
    ensures EditAll([], text, size) == text && EchoAll([], text, size) == text
  {
    EditAllOrdinary([], text, size);
    EchoAllOrdinary([], text, size);
    assert ([] + text)[..|text|] == text;
  }

  /**
   * A backspace typed at the end of a line that fits erases the last byte:
   * the line read is the text without it.
   */
  lemma ReadLineWithBackspace(cells: seq<char>, echo: bool, text: seq<char>, b: char, t: char, rest: seq<char>)
    requires |cells| >= 1 && 1 <= |text| <= |cells| - 1
    requires Ordinary(text) && IsBackspace(b) && IsTerminator(t)
    ensures var r := Read(cells, 0, echo, text + [b] + [t] + rest);
      var kept := text[..|text| - 1];
      && r.ready && r.consumed == |text| + 2 && r.pos == 0
      && r.cells[..|kept|] == kept && r.cells[|kept|] == '\0'
      && CString(r.cells) == CString(kept)
      && r.echoed == (if echo then text + EraseSequence else [])
  {
    OrdinaryHasNoTerminator(text);
    NoTerminatorAppend(text, b);
    LineFits(text, |cells|);
    EditAllBackspace([], text, b, |cells|);
    EchoAllBackspace([], text, b, |cells|);
    ReadTypedLine(cells, echo, text + [b], t, rest);
  }

  lemma NoTerminatorAppend(s: seq<char>, c: char)
    requires NoTerminator(s) && !IsTerminator(c)
    ensures NoTerminator(s + [c])
  {
    assert forall i :: 0 <= i < |s| ==> (s + [c])[i] == s[i];
  }

  /**
   * Bytes typed once the buffer holds size - 1 of them are dropped and not
   * echoed: a longer line is read as its first size - 1 bytes.
   */
  lemma ReadOverlongLine(cells: seq<char>, echo: bool, text: seq<char>, t: char, rest: seq<char>)
    requires |cells| >= 1 && |text| > |cells| - 1
    requires Ordinary(text) && IsTerminator(t)
    ensures var r := Read(cells, 0, echo, text + [t] + rest);
      var kept := text[..|cells| - 1];
      && r.ready && r.consumed == |text| + 1 && r.pos == 0
      && r.cells[..|kept|] == kept && r.lineEnd == |kept|
      && r.echoed == (if echo then kept else [])
  {
    OrdinaryHasNoTerminator(text);
    LineOverflows(text, |cells|);
    ReadTypedLine(cells, echo, text, t, rest);
  }

  /** Ordinary bytes beyond size - 1 are neither stored nor echoed. */
  lemma LineOverflows(text: seq<char>, size: nat)
    requires size >= 1 && |text| > size - 1 && Ordinary(text)
    ensures EditAll([], text, size) == text[..size - 1]
    ensures EchoAll([], text, size) == text[..size - 1]
  {
    EditAllOrdinary([], text, size);
    EchoAllOrdinary([], text, size);
    assert [] + text == text;
  }

  /**
   * More than size - 1 ordinary bytes and no terminator: the read is not
   * ready, the position rests at size - 1, and the array holds the first
   * size - 1 bytes, waiting for the terminator.
   */
  lemma ReadOverlongPending(cells: seq<char>, echo: bool, text: seq<char>)
    requires |cells| >= 1 && |text| > |cells| - 1 && Ordinary(text)
    ensures var r := Read(cells, 0, echo, text);
      && !r.ready && r.consumed == |text| && r.pos == |cells| - 1
      && r.cells[..r.pos] == text[..|cells| - 1]
      && r.echoed == (if echo then text[..|cells| - 1] else [])
  {
    OrdinaryHasNoTerminator(text);
    BeforeTerminatorOfPlain(text);
    ReadConsumes(cells, 0, echo, text);
    ReadEdits(cells, 0, echo, text);
    LineOverflows(text, |cells|);
    assert cells[..0] == [];
  }

  /** Without a terminator every byte comes before it. */
  lemma {:induction false} BeforeTerminatorOfPlain(text: seq<char>)
    requires NoTerminator(text)
    ensures BeforeTerminator(text) == text
  {
    if text != [] {
      assert NoTerminator(text[1..]);
      BeforeTerminatorOfPlain(text[1..]);
    }
  }

  lemma {:induction false} BeforeTerminatorOf(text: seq<char>, t: char, rest: seq<char>)
    requires NoTerminator(text) && IsTerminator(t)
    ensures BeforeTerminator(text + [t] + rest) == text
  {
    if text != [] {
      assert (text + [t] + rest)[1..] == text[1..] + [t] + rest;
      BeforeTerminatorOf(text[1..], t, rest);
    }
  }

  // ---------------------------------------------------------------------------
  // The buffer object

  /** command_buffer_t: the storage array, its size, the write position, the echo flag. */
  class LineBuffer {
    const buffer: array<char>
    const size: nat
    var pos: nat
    const echo: bool

    /**
     * The position always indexes a cell short of the end, so the NUL that
     * ends a line is written in bounds; and no cell ever holds a terminator.
     */
    ghost predicate Valid()
      reads this, buffer
    {
      size == buffer.Length && size >= 1 && pos <= size - 1 && NoTerminator(buffer[..])
    }

    /** command_buffer_init: default capacity, position 0, every cell NUL. */
    constructor Init(echo: bool)
      ensures Valid() && fresh(buffer)
      ensures size == CommandBufferSize && buffer.Length == CommandBufferSize
      ensures pos == 0 && this.echo == echo
      ensures forall i :: 0 <= i < buffer.Length ==> buffer[i] == '\0'
    {
      buffer := new char[CommandBufferSize](_ => '\0');
      size := CommandBufferSize;
      pos := 0;
      this.echo := echo;
    }

    /**
     * The body of read_input's loop for a byte that is not a terminator: a
     * backspace steps back if it can, any other byte is stored if there is
     * room; the result is what is echoed.
     */
    method Take(ch: char) returns (out: seq<char>)
      requires Valid() && !IsTerminator(ch)
      modifies this, buffer
      ensures Valid()
      ensures buffer[..] == Step(old(buffer[..]), old(pos), ch).0
      ensures pos == Step(old(buffer[..]), old(pos), ch).1
      ensures out == if echo then EchoOf(old(buffer[..pos]), ch, size) else []
    {
      out := [];
      if ch == '\U{7F}' || ch == '\U{08}' {
        if pos > 0 {
          pos := pos - 1;
          if echo {
            out := EraseSequence;
          }
        }
      } else if pos < size - 1 {
        buffer[pos] := ch;
        pos := pos + 1;
        if echo {
          out := [ch];
        }
      }
    }

    /**
     * command_buffer_read_input over the bytes `input` that the source has
     * ready. Returns whether a line is complete, how many bytes were taken
     * and what was echoed.
     */
    method ReadInput(input: seq<char>) returns (ready: bool, consumed: nat, echoed: seq<char>)
      requires Valid()
      modifies this, buffer
      ensures Valid()
      ensures var r := Read(old(buffer[..]), old(pos), echo, input);
        && buffer[..] == r.cells && pos == r.pos
        && ready == r.ready && consumed == r.consumed && echoed == r.echoed
    {
      ghost var goal := Read(buffer[..], pos, echo, input);
      var i := 0;
      echoed := [];
      while true
        invariant Valid()
        invariant i <= |input|
        invariant Resumes(buffer[..], pos, echo, input[i..], echoed, i, goal)
        decreases |input| - i
      {
        if i == |input| {
          return false, i, echoed;
        }
        var ch := input[i];
        DropOne(input, i);
        ghost var cells := buffer[..];
        if ch == '\n' || ch == '\r' {
          ResumesAtTerminator(cells, pos, echo, input[i..], echoed, i, goal);
          buffer[pos] := '\0';
          assert buffer[..] == cells[pos := '\0'];
          pos := 0;
          return true, i + 1, echoed;
        }
        ResumesAfterStep(cells, pos, echo, input[i..], echoed, i, goal);
        var out := Take(ch);
        echoed := echoed + out;
        i := i + 1;
      }
    }
  }
}
