/** Reading a journal backwards, a chunk at a time. */
module JournalReader {
  import opened Domain

  type Byte = bv8

  const NEWLINE: Byte := 10

  /** bytes.split: the pieces between newlines, at least one. */
  function Split(s: seq<Byte>): (lines: seq<seq<Byte>>)
    ensures lines != []
  {
    if s == [] then [[]]
    else
      var rest := Split(s[1..]);
      if s[0] == NEWLINE then [[]] + rest else [[s[0]] + rest[0]] + rest[1..]
  }

  function Reverse<T>(s: seq<T>): (r: seq<T>)
    ensures |r| == |s| && forall i :: 0 <= i < |s| ==> r[i] == s[|s| - 1 - i]
  {
    if s == [] then [] else Reverse(s[1..]) + [s[0]]
  }

  lemma {:induction false} ReverseConcat<T>(a: seq<T>, b: seq<T>)
    ensures Reverse(a + b) == Reverse(b) + Reverse(a)
  {
    assert forall i :: 0 <= i < |a + b| ==> Reverse(a + b)[i] == (Reverse(b) + Reverse(a))[i];
  }

  lemma {:induction false} FirstLineIsOneLine(s: seq<Byte>)
    ensures Split(Split(s)[0]) == [Split(s)[0]]
  {
    if s != [] && s[0] != NEWLINE {
      FirstLineIsOneLine(s[1..]);
      var line := Split(s)[0];
      assert line[1..] == Split(s[1..])[0];
    }
  }

  /** Splitting a text whose tail was split before: only the first line of the tail is split again. */
  lemma {:induction false} SplitExtends(block: seq<Byte>, tail: seq<Byte>)
    ensures Split(block + tail) == Split(block + Split(tail)[0]) + Split(tail)[1..]
    decreases |block|
  {
    var head := Split(tail)[0];
    if block == [] {
      assert block + tail == tail && block + head == head;
      FirstLineIsOneLine(tail);
    } else {
      SplitExtends(block[1..], tail);
      ghost var a, b, later := Split(block[1..] + tail), Split(block[1..] + head), Split(tail)[1..];
      assert a[0] == b[0] && a[1..] == b[1..] + later;
      PrependCommutes(block[0], a, b, later);
      assert block + tail == [block[0]] + (block[1..] + tail);
      assert block + head == [block[0]] + (block[1..] + head);
      SplitCons(block[0], block[1..] + tail);
      SplitCons(block[0], block[1..] + head);
    }
  }

  /** A byte in front of split lines. */
  function Prepend(b: Byte, lines: seq<seq<Byte>>): seq<seq<Byte>>
    requires lines != []
  {
    if b == NEWLINE then [[]] + lines else [[b] + lines[0]] + lines[1..]
  }

  lemma PrependCommutes(c: Byte, a: seq<seq<Byte>>, b: seq<seq<Byte>>, later: seq<seq<Byte>>)
    requires a != [] && b != [] && a == b + later && a[0] == b[0] && a[1..] == b[1..] + later
    ensures Prepend(c, a) == Prepend(c, b) + later
  {
  }

  lemma SplitCons(b: Byte, s: seq<Byte>)
    ensures Split([b] + s) == Prepend(b, Split(s))
  {
    assert ([b] + s)[1..] == s;
  }

  /** The records in the lines, in their order. */
  function Parsed<R>(lines: seq<seq<Byte>>, parse: seq<Byte> -> Option<R>): seq<R> {
    if lines == [] then []
    else
      var last := parse(lines[|lines| - 1]);
      Parsed(lines[..|lines| - 1], parse) + if last.Some? then [last.value] else []
  }

  lemma {:induction false} ParsedConcat<R>(a: seq<seq<Byte>>, b: seq<seq<Byte>>, parse: seq<Byte> -> Option<R>)
    ensures Parsed(a + b, parse) == Parsed(a, parse) + Parsed(b, parse)
    decreases |b|
  {
    if b == [] {
      assert a + b == a;
    } else {
      ParsedConcat(a, b[..|b| - 1], parse);
      assert (a + b)[..|a + b| - 1] == a + b[..|b| - 1];
    }
  }

  /** _iter_jsonl_records_from_tail: for every chunk size, the records of the whole file split at newlines,
      last line first. `parse` decodes one line; a blank line is no record. */
  method ReadFromTail<R(!new)>(content: seq<Byte>, chunkBytes: nat,
      parse: seq<Byte> -> Option<R>) returns (records: seq<R>)
    requires chunkBytes >= 1
    requires parse([]) == None
    ensures records == Parsed(Reverse(Split(content)), parse)
  {
    records := [];
    EmptyFile(parse);
    if |content| == 0 {
      return;
    }
    var offset := |content|;
    var trailing: seq<Byte> := [];
    while offset > 0
      invariant 0 <= offset <= |content|
      invariant TailRead(records, trailing, content[offset..], offset == 0, parse)
    {
      var size := if chunkBytes < offset then chunkBytes else offset;
      ghost var tail := content[offset..];
      offset := offset - size;
      var block := content[offset..offset + size];
      records, trailing := ReadBlock(records, trailing, block, offset == 0, parse, tail);
      assert content[offset..] == block + tail;
    }
    assert content[0..] == content;
  }

  lemma EmptyFile<R(!new)>(parse: seq<Byte> -> Option<R>)
    requires parse([]) == None
    ensures TailRead([], [], [], false, parse)
    ensures Parsed(Reverse(Split([])), parse) == []
  {
    var blank: seq<seq<Byte>> := [[]];
    assert Reverse(Split([])) == blank && blank[..0] == [];
  }

  /** One turn of the loop: the complete lines of a block, joined with what was held back. */
  method ReadBlock<R(!new)>(before: seq<R>, held: seq<Byte>, block: seq<Byte>, first: bool,
      parse: seq<Byte> -> Option<R>, ghost tail: seq<Byte>)
    returns (records: seq<R>, trailing: seq<Byte>)
    requires TailRead(before, held, tail, false, parse)
    ensures TailRead(records, trailing, block + tail, first, parse)
  {
    var lines := Split(block + held);
    BlockRead(before, held, tail, block, first, parse);
    if first {
      trailing := [];
    } else {
      trailing := lines[0];
      lines := lines[1..];
    }
    records := YieldReversed(before, lines, parse);
  }

  /** All complete lines of the tail have been yielded, last first; its first line is complete only
      when the tail is the whole file, and is held back otherwise. */
  ghost predicate TailRead<R(!new)>(records: seq<R>, trailing: seq<Byte>, tail: seq<Byte>, whole: bool,
      parse: seq<Byte> -> Option<R>) {
    if whole then records == Parsed(Reverse(Split(tail)), parse)
    else trailing == Split(tail)[0] && records == Parsed(Reverse(Split(tail)[1..]), parse)
  }

  lemma BlockRead<R(!new)>(records: seq<R>, trailing: seq<Byte>, tail: seq<Byte>, block: seq<Byte>, whole: bool,
      parse: seq<Byte> -> Option<R>)
    requires TailRead(records, trailing, tail, false, parse)
    ensures var lines := Split(block + trailing);
            && (whole ==> TailRead(records + Parsed(Reverse(lines), parse), [], block + tail, true, parse))
            && (!whole ==> TailRead(records + Parsed(Reverse(lines[1..]), parse), lines[0], block + tail, false, parse))
  {
    var lines, later := Split(block + trailing), Split(tail)[1..];
    SplitExtends(block, tail);
    assert (lines + later)[1..] == lines[1..] + later;
    ReverseConcat(lines, later);
    ReverseConcat(lines[1..], later);
    ParsedConcat(Reverse(later), Reverse(lines), parse);
    ParsedConcat(Reverse(later), Reverse(lines[1..]), parse);
  }

  /** The inner loop: the lines of one block, last first. */
  method YieldReversed<R>(before: seq<R>, lines: seq<seq<Byte>>,
      parse: seq<Byte> -> Option<R>) returns (records: seq<R>)
    ensures records == before + Parsed(Reverse(lines), parse)
  {
    records := before;
    var i := |lines|;
    assert Reverse(lines)[..0] == [];
    while i > 0
      invariant 0 <= i <= |lines|
      invariant records == before + Parsed(Reverse(lines)[..|lines| - i], parse)
    {
      i := i - 1;
      var record := parse(lines[i]);
      if record.Some? {
        records := records + [record.value];
      }
      ghost var done := Reverse(lines)[..|lines| - i];
      assert done[..|done| - 1] == Reverse(lines)[..|lines| - i - 1] && done[|done| - 1] == lines[i];
    }
    assert Reverse(lines)[..|lines|] == Reverse(lines);
  }

  // ---------------------------------------------------------------------------------------------
  // Round trip with the writer
  // ---------------------------------------------------------------------------------------------

  /** An append-only journal: every line is followed by a newline. */
  function Written(lines: seq<seq<Byte>>): seq<Byte> {
    if lines == [] then [] else lines[0] + [NEWLINE] + Written(lines[1..])
  }

  lemma {:induction false} SplitLine(line: seq<Byte>, rest: seq<Byte>)
    requires NEWLINE !in line
    ensures Split(line + [NEWLINE] + rest) == [line] + Split(rest)
    decreases |line|
  {
    var s := line + [NEWLINE] + rest;
    if line == [] {
      assert s[1..] == rest;
    } else {
      SplitLine(line[1..], rest);
      assert s[1..] == line[1..] + [NEWLINE] + rest;
      assert s[0] == line[0] && [line[0]] + line[1..] == line;
    }
  }

  lemma {:induction false} SplitInvertsWritten(lines: seq<seq<Byte>>)
    requires forall line :: line in lines ==> NEWLINE !in line
    ensures Split(Written(lines)) == lines + [[]]
    decreases |lines|
  {
    if lines != [] {
      SplitInvertsWritten(lines[1..]);
      SplitLine(lines[0], Written(lines[1..]));
      assert [lines[0]] + (lines[1..] + [[]]) == lines + [[]];
    }
  }

  /** What is read from a written journal is what was appended, newest first. */
  lemma TailOfWrittenJournal<R>(lines: seq<seq<Byte>>, parse: seq<Byte> -> Option<R>)
    requires forall line :: line in lines ==> NEWLINE !in line
    requires parse([]) == None
    ensures Parsed(Reverse(Split(Written(lines))), parse) == Parsed(Reverse(lines), parse)
  {
    SplitInvertsWritten(lines);
    ReverseConcat(lines, [[]]);
    assert Reverse<seq<Byte>>([[]]) == [[]];
    var blank: seq<seq<Byte>> := [[]];
    ParsedConcat(blank, Reverse(lines), parse);
    assert blank[..0] == [];
  }
}
