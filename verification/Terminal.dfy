/**
 Line buffering of the terminal service (services/terminal/srv_terminal_main.cpp): bytes come in, lines of at most 95
 bytes go out to the debug log.
 */
module Terminal {
  import opened Words
  import opened Status

  const LINE_CAPACITY: nat := 95
  const WRITE_MAX_BYTES: nat := 240
  const LF: u8 := 10
  const CR: u8 := 13

  // ----- The reference: clean, split, cut -----

  /** The bytes that count: all but NUL and CR. */
  function Clean(input: seq<u8>): seq<u8> {
    if input == [] then []
    else
      var last := input[|input| - 1];
      Clean(input[..|input| - 1]) + if last == 0 || last == CR then [] else [last]
  }

  /** What follows the last LF. */
  function LastSegment(text: seq<u8>): (r: seq<u8>)
    ensures LF !in r
  {
    if text == [] then []
    else
      var last := text[|text| - 1];
      if last == LF then [] else LastSegment(text[..|text| - 1]) + [last]
  }

  /** A segment in pieces of 95 bytes, the last one shorter and not empty. */
  function Cut(segment: seq<u8>): (r: seq<seq<u8>>)
    ensures |r| == 0 <==> segment == []
  {
    if segment == [] then []
    else if |segment| <= LINE_CAPACITY then [segment]
    else [segment[..LINE_CAPACITY]] + Cut(segment[LINE_CAPACITY..])
  }

  /** The pieces of every segment that an LF ended, in order. */
  function FinishedLines(text: seq<u8>): seq<seq<u8>> {
    if text == [] then []
    else
      var before := text[..|text| - 1];
      FinishedLines(before) + if text[|text| - 1] == LF then Cut(LastSegment(before)) else []
  }

  function AllButLast(pieces: seq<seq<u8>>): seq<seq<u8>> {
    if pieces == [] then [] else pieces[..|pieces| - 1]
  }

  function LastPiece(pieces: seq<seq<u8>>): seq<u8> {
    if pieces == [] then [] else pieces[|pieces| - 1]
  }

  /** The lines a text puts out: of finished segments all pieces, of the open one all but the last. */
  function LoggedLines(text: seq<u8>): seq<seq<u8>> {
    FinishedLines(text) + AllButLast(Cut(LastSegment(text)))
  }

  /** What stays in the buffer. */
  function PendingLine(text: seq<u8>): seq<u8> {
    LastPiece(Cut(LastSegment(text)))
  }

  // ----- Facts about the reference -----

  function Concat(lines: seq<seq<u8>>): seq<u8> {
    if lines == [] then [] else Concat(lines[..|lines| - 1]) + lines[|lines| - 1]
  }

  lemma {:induction false} ConcatJoins(left: seq<seq<u8>>, right: seq<seq<u8>>)
    ensures Concat(left + right) == Concat(left) + Concat(right)
    decreases |right|
  {
    if right == [] {
      assert left + right == left;
    } else {
      var n := |right| - 1;
      ConcatJoins(left, right[..n]);
      assert (left + right)[..|left| + n] == left + right[..n];
    }
  }

  lemma {:induction false} CutPieces(segment: seq<u8>)
    ensures Concat(Cut(segment)) == segment
    ensures forall k :: 0 <= k < |Cut(segment)| ==> 0 < |Cut(segment)[k]| <= LINE_CAPACITY
    ensures forall k :: 0 <= k < |Cut(segment)| - 1 ==> |Cut(segment)[k]| == LINE_CAPACITY
    decreases |segment|
  {
    if |segment| > LINE_CAPACITY {
      CutPieces(segment[LINE_CAPACITY..]);
      ConcatJoins([segment[..LINE_CAPACITY]], Cut(segment[LINE_CAPACITY..]));
      assert Concat([segment[..LINE_CAPACITY]]) == segment[..LINE_CAPACITY] by {
        assert [segment[..LINE_CAPACITY]][..0] == [];
      }
    } else if segment != [] {
      assert [segment][..0] == [];
    }
  }

  /** One more byte of an open segment goes to the last piece, or starts a new one when that is full. */
  lemma {:induction false} CutGrows(segment: seq<u8>, c: u8)
    ensures var last := LastPiece(Cut(segment));
            Cut(segment + [c]) == if |last| == LINE_CAPACITY then Cut(segment) + [[c]]
                                  else AllButLast(Cut(segment)) + [last + [c]]
    decreases |segment|
  {
    if |segment| > LINE_CAPACITY {
      var rest := segment[LINE_CAPACITY..];
      CutGrows(rest, c);
      assert (segment + [c])[LINE_CAPACITY..] == rest + [c] && (segment + [c])[..LINE_CAPACITY] == segment[..LINE_CAPACITY];
      assert LastPiece(Cut(segment)) == LastPiece(Cut(rest));
      assert AllButLast(Cut(segment)) == [segment[..LINE_CAPACITY]] + AllButLast(Cut(rest));
    } else if |segment| == LINE_CAPACITY {
      assert (segment + [c])[LINE_CAPACITY..] == [c] && (segment + [c])[..LINE_CAPACITY] == segment;
    }
  }

  /** Nothing is lost, reordered or made up: the lines put out and the pending one are the text without its LFs. */
  lemma NothingLost(text: seq<u8>)
    ensures Concat(LoggedLines(text)) + PendingLine(text) == WithoutLf(text)
  {
    var pieces := Cut(LastSegment(text));
    CutPieces(LastSegment(text));
    FinishedText(text);
    hide Cut, LastSegment, FinishedLines, WithoutLf;
    ConcatJoins(FinishedLines(text), AllButLast(pieces));
    SplitLast(pieces);
    hide Concat, AllButLast, LastPiece;
    assert Concat(FinishedLines(text)) + (Concat(AllButLast(pieces)) + LastPiece(pieces))
        == Concat(FinishedLines(text)) + Concat(AllButLast(pieces)) + LastPiece(pieces);
  }

  lemma SplitLast(pieces: seq<seq<u8>>)
    ensures Concat(pieces) == Concat(AllButLast(pieces)) + LastPiece(pieces)
  {
  }

  function WithoutLf(text: seq<u8>): seq<u8> {
    if text == [] then []
    else
      var last := text[|text| - 1];
      WithoutLf(text[..|text| - 1]) + if last == LF then [] else [last]
  }

  lemma {:induction false} FinishedText(text: seq<u8>)
    ensures Concat(FinishedLines(text)) + LastSegment(text) == WithoutLf(text)
  {
    if text != [] {
      var before, last := text[..|text| - 1], text[|text| - 1];
      FinishedText(before);
      var lines, segment := FinishedLines(before), LastSegment(before);
      assert last == LF ==> FinishedLines(text) == lines + Cut(segment) && LastSegment(text) == []
                            && WithoutLf(text) == WithoutLf(before) + [];
      assert last != LF ==> FinishedLines(text) == lines + [] && LastSegment(text) == segment + [last]
                            && WithoutLf(text) == WithoutLf(before) + [last];
      hide FinishedLines, LastSegment, WithoutLf;
      ConcatJoins(lines, Cut(segment));
      CutPieces(segment);
      hide Concat, Cut;
      Joins(Concat(lines), segment, last);
      assert lines + [] == lines;
    }
  }

  lemma Joins(left: seq<u8>, right: seq<u8>, c: u8)
    ensures left + (right + [c]) == left + right + [c]
    ensures left + right + [] == left + right
  {
  }

  // ----- The reference, byte by byte -----

  function Unless(line: seq<u8>): seq<seq<u8>> {
    if line == [] then [] else [line]
  }

  /** One more clean byte: an LF puts the pending line out, a byte that finds the line full starts the next one, and any
      other byte joins the pending line. */
  lemma TextStep(text: seq<u8>, c: u8)
    ensures c == LF ==>
              && LoggedLines(text + [c]) == LoggedLines(text) + Unless(PendingLine(text))
              && PendingLine(text + [c]) == []
    ensures c != LF && |PendingLine(text)| == LINE_CAPACITY ==>
              && LoggedLines(text + [c]) == LoggedLines(text) + [PendingLine(text)]
              && PendingLine(text + [c]) == [c]
    ensures c != LF && |PendingLine(text)| != LINE_CAPACITY ==>
              && LoggedLines(text + [c]) == LoggedLines(text)
              && PendingLine(text + [c]) == PendingLine(text) + [c]
    ensures |PendingLine(text)| <= LINE_CAPACITY
  {
    var next := text + [c];
    assert next[..|text|] == text && next[|text|] == c;
    var pieces := Cut(LastSegment(text));
    CutPieces(LastSegment(text));
    if c == LF {
      assert FinishedLines(next) == FinishedLines(text) + pieces && LastSegment(next) == [];
      hide Cut, LastSegment, FinishedLines;
      assert Cut([]) == [];
      assert pieces == AllButLast(pieces) + Unless(LastPiece(pieces));
    } else {
      assert FinishedLines(next) == FinishedLines(text) && LastSegment(next) == LastSegment(text) + [c];
      CutGrows(LastSegment(text), c);
      hide Cut, LastSegment, FinishedLines;
      if |LastPiece(pieces)| == LINE_CAPACITY {
        assert AllButLast(pieces + [[c]]) == pieces == AllButLast(pieces) + [LastPiece(pieces)];
      } else {
        assert AllButLast(AllButLast(pieces) + [LastPiece(pieces) + [c]]) == AllButLast(pieces);
      }
    }
  }

  lemma CleanStep(input: seq<u8>, c: u8)
    ensures Clean(input + [c]) == if c == 0 || c == CR then Clean(input) else Clean(input) + [c]
  {
    assert (input + [c])[..|input|] == input;
    assert Clean(input) + [] == Clean(input);
  }

  lemma Prefixes(input: seq<u8>, bytes: seq<u8>)
    ensures input + bytes[..0] == input
    ensures forall i {:trigger bytes[i]} :: 0 <= i < |bytes| ==> input + bytes[..i + 1] == input + bytes[..i] + [bytes[i]]
  {
    forall i | 0 <= i < |bytes| ensures input + bytes[..i + 1] == input + bytes[..i] + [bytes[i]] {
      assert bytes[..i + 1] == bytes[..i] + [bytes[i]];
    }
  }

  // ----- What is put out can be logged -----

  predicate NulFree(bytes: seq<u8>) {
    forall k :: 0 <= k < |bytes| ==> bytes[k] != 0
  }

  ghost predicate Loggable(lines: seq<seq<u8>>) {
    forall k :: 0 <= k < |lines| ==> 0 < |lines[k]| <= LINE_CAPACITY && NulFree(lines[k])
  }

  lemma {:induction false} CleanIsNulFree(input: seq<u8>)
    ensures NulFree(Clean(input))
  {
    if input != [] {
      CleanIsNulFree(input[..|input| - 1]);
    }
  }

  lemma {:induction false} CutIsLoggable(segment: seq<u8>)
    requires NulFree(segment)
    ensures Loggable(Cut(segment))
    decreases |segment|
  {
    if |segment| > LINE_CAPACITY {
      CutIsLoggable(segment[LINE_CAPACITY..]);
    }
  }

  lemma {:induction false} FinishedIsLoggable(text: seq<u8>)
    requires NulFree(text)
    ensures NulFree(LastSegment(text)) && Loggable(FinishedLines(text))
  {
    if text != [] {
      var before := text[..|text| - 1];
      FinishedIsLoggable(before);
      CutIsLoggable(LastSegment(before));
    }
  }

  /** Every line put out is non-empty, free of NULs and at most 95 bytes long. */
  lemma LinesAreLoggable(input: seq<u8>)
    ensures Loggable(LoggedLines(Clean(input)))
  {
    var text := Clean(input);
    CleanIsNulFree(input);
    FinishedIsLoggable(text);
    CutIsLoggable(LastSegment(text));
    hide Clean, Cut, LastSegment, FinishedLines, NulFree;
  }

  // ----- The service -----

  /** The debug log answers as any function of the lines it has been given. */
  type Log = seq<seq<u8>> -> i32

  class TerminalService {
    const line: array<u8>
    const log: Log
    var length: nat
    var logged: seq<seq<u8>>

    ghost predicate Valid()
      reads this
    {
      line.Length == LINE_CAPACITY + 1 && length <= LINE_CAPACITY
    }

    ghost function Pending(): seq<u8>
      requires Valid()
      reads this, line
    {
      line[..length]
    }

    /** The service has put out exactly what the bytes so far ask for. */
    ghost predicate Has(input: seq<u8>)
      requires Valid()
      reads this, line
    {
      logged == LoggedLines(Clean(input)) && Pending() == PendingLine(Clean(input))
    }

    /** The service has put out what the bytes so far ask for, and holds nothing back. */
    ghost predicate HasPutOut(input: seq<u8>)
      requires Valid()
      reads this, line
    {
      logged == LoggedLines(Clean(input)) && Pending() == []
    }

    constructor (log: Log)
      ensures Valid() && this.log == log && Has([]) && fresh(line)
    {
      line := new u8[LINE_CAPACITY + 1];
      length, logged, this.log := 0, [], log;
    }

    /** terminal_flush_line: a pending line, if any, goes to the log, and the buffer is empty whatever the log says. */
    method FlushLine() returns (status: i32)
      requires Valid()
      modifies this, line
      ensures Valid() && Pending() == []
      ensures logged == if old(Pending()) == [] then old(logged) else old(logged) + [old(Pending())]
      ensures status == if old(Pending()) == [] then STATUS_OK else log(logged)
    {
      if length == 0 {
        return STATUS_OK;
      }
      line[length] := 0;
      logged := logged + [line[..length]];
      status := log(logged);
      length := 0;
    }

    /** terminal_write_character: as long as it reports OK, the service keeps up with the reference. When the log
        refuses the line that c would start behind, that line has still been put out and c alone is lost. */
    method WriteCharacter(c: u8, ghost input: seq<u8>) returns (status: i32)
      requires Valid() && Has(input)
      modifies this, line
      ensures Valid() && (status == STATUS_OK || c == LF ==> Has(input + [c]))
      ensures status != STATUS_OK ==> HasPutOut(input + [c])
      ensures status != STATUS_OK ==> status == log(logged)
    {
      CleanStep(input, c);
      TextStep(Clean(input), c);
      hide Clean, LoggedLines, PendingLine;
      if c == 0 || c == CR {
        return STATUS_OK;
      }
      if c == LF {
        status := FlushLine();
        return;
      }
      if length == LINE_CAPACITY {
        status := FlushLine();
        if status != STATUS_OK {
          return;
        }
      }
      ghost var before := line[..length];
      line[length] := c;
      length := length + 1;
      assert Pending() == before + [c];
      return STATUS_OK;
    }

    /** terminal_write_buffer. A refusal by the log ends it with the byte that met the refusal: of the bytes consumed up to
        it every line has been put out, nothing is pending, and the rest of the buffer is not looked at. */
    method WriteBuffer(bytes: seq<u8>, size: u64, ghost input: seq<u8>) returns (status: i32, ghost consumed: nat)
      requires Valid() && Has(input) && |bytes| == WRITE_MAX_BYTES
      modifies this, line
      ensures Valid()
      ensures size == 0 || size > WRITE_MAX_BYTES ==> status == STATUS_INVALID_ARGUMENT && Has(input)
      ensures 0 < size <= WRITE_MAX_BYTES && status == STATUS_OK ==> Has(input + bytes[..size])
      ensures 0 < size <= WRITE_MAX_BYTES && status != STATUS_OK ==>
                0 < consumed <= size && status == log(logged) && HasPutOut(input + bytes[..consumed])
    {
      consumed := 0;
      if size == 0 || size > WRITE_MAX_BYTES {
        return STATUS_INVALID_ARGUMENT, 0;
      }
      hide Clean, LoggedLines, PendingLine, Has, HasPutOut, Pending;
      var count: nat := size;
      Prefixes(input, bytes);
      for i := 0 to count
        invariant Valid() && Has(input + bytes[..i])
      {
        status := WriteCharacter(bytes[i], input + bytes[..i]);
        if status != STATUS_OK {
          return status, i + 1;
        }
      }
      return STATUS_OK, count;
    }
  }
}
