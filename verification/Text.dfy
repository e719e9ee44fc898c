/** Files as lines: `split_inclusive('\n')`, line starts and line counts. */
module Text {
  import opened Prelude

  const NEWLINE: byte := 10

  predicate Ended(line: seq<byte>) {
    line != [] && line[|line| - 1] == NEWLINE
  }

  /** One more byte at the end of a file. */
  function AddByte(lines: seq<seq<byte>>, c: byte): (more: seq<seq<byte>>)
    ensures more != []
  {
    if lines == [] || Ended(lines[|lines| - 1]) then lines + [[c]]
    else lines[..|lines| - 1] + [lines[|lines| - 1] + [c]]
  }

  /** The lines of a file, each with its newline; the last one may lack it. */
  function Lines(b: seq<byte>): (lines: seq<seq<byte>>)
    ensures b != [] <==> lines != []
  {
    if b == [] then [] else AddByte(Lines(b[..|b| - 1]), b[|b| - 1])
  }

  function Flat(lines: seq<seq<byte>>): seq<byte> {
    if lines == [] then [] else Flat(lines[..|lines| - 1]) + lines[|lines| - 1]
  }

  lemma FlatSnoc(lines: seq<seq<byte>>, line: seq<byte>)
    ensures Flat(lines + [line]) == Flat(lines) + line
  {
    assert (lines + [line])[..|lines|] == lines;
  }

  lemma FlatAdd(lines: seq<seq<byte>>, c: byte)
    ensures Flat(AddByte(lines, c)) == Flat(lines) + [c]
  {
    if lines == [] || Ended(lines[|lines| - 1]) {
      FlatSnoc(lines, [c]);
    } else {
      FlatSnoc(lines[..|lines| - 1], lines[|lines| - 1] + [c]);
      assert Flat(lines) == Flat(lines[..|lines| - 1]) + lines[|lines| - 1];
    }
  }

  /** The lines are the file. */
  lemma {:induction false} LinesAreAll(b: seq<byte>)
    ensures Flat(Lines(b)) == b
  {
    if b != [] {
      assert b == b[..|b| - 1] + [b[|b| - 1]];
      LinesAreAll(b[..|b| - 1]);
      FlatAdd(Lines(b[..|b| - 1]), b[|b| - 1]);
    }
  }

  /** A newline ends a line and every line but the last ends with one. */
  predicate SplitAtNewlines(lines: seq<seq<byte>>) {
    forall k :: 0 <= k < |lines| ==>
      lines[k] != [] && NEWLINE !in lines[k][..|lines[k]| - 1] && (k < |lines| - 1 ==> Ended(lines[k]))
  }

  lemma AddKeepsSplit(lines: seq<seq<byte>>, c: byte)
    requires SplitAtNewlines(lines)
    ensures SplitAtNewlines(AddByte(lines, c))
  {
    if lines != [] && !Ended(lines[|lines| - 1]) {
      var last := lines[|lines| - 1];
      assert last == last[..|last| - 1] + [last[|last| - 1]];
      assert (last + [c])[..|last|] == last;
    }
  }

  lemma {:induction false} LinesAreLines(b: seq<byte>)
    ensures SplitAtNewlines(Lines(b)) && (b != [] ==> (Ended(Lines(b)[|Lines(b)| - 1]) <==> Ended(b)))
  {
    if b != [] {
      LinesAreLines(b[..|b| - 1]);
      AddKeepsSplit(Lines(b[..|b| - 1]), b[|b| - 1]);
    }
  }

  function Newlines(b: seq<byte>): nat {
    if b == [] then 0 else Newlines(b[..|b| - 1]) + (if b[|b| - 1] == NEWLINE then 1 else 0)
  }

  /** The count from newlines alone. */
  lemma {:induction false} CountLines(b: seq<byte>)
    ensures b != [] ==> |Lines(b)| == 1 + Newlines(b) - (if Ended(b) then 1 else 0)
  {
    if b != [] {
      CountLines(b[..|b| - 1]);
      LinesAreLines(b[..|b| - 1]);
    }
  }

  /** Where line `k`, from 0, starts. */
  function Offset(lines: seq<seq<byte>>, k: nat): nat
    requires k <= |lines|
  {
    |Flat(lines[..k])|
  }

  lemma FlatNext(lines: seq<seq<byte>>, k: nat)
    requires k < |lines|
    ensures Flat(lines[..k + 1]) == Flat(lines[..k]) + lines[k]
  {
    assert lines[..k + 1] == lines[..k] + [lines[k]];
    FlatSnoc(lines[..k], lines[k]);
  }
}
