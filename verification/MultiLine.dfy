/** Grouping physical lines into multi-line records. */
module MultiLine {
  import opened Bytes
  import opened LineIo
  import opened Windows

  datatype LineMatchField = LineMatchField(startByte: int, lengthBytes: int, value: seq<byte>)

  datatype Layout = Layout(
    breakFields: seq<LineMatchField>,
    includeFields: seq<LineMatchField>,
    ignoreFields: seq<LineMatchField>,
    lineSeparator: seq<byte>,
    maxBytesPerRecord: int)

  const DEFAULT_LINE_SEPARATOR: seq<byte> := [0x1C]

  predicate FieldMatches(line: seq<byte>, f: LineMatchField) {
    && f.startByte >= 0 && f.lengthBytes >= 1 && |f.value| == f.lengthBytes
    && f.startByte + f.lengthBytes <= |line|
    && line[f.startByte..f.startByte + f.lengthBytes] == f.value
  }

  /** Every fixed-position field matches; a short line is not a match. */
  predicate Matches(line: seq<byte>, fields: seq<LineMatchField>) {
    fields != [] && forall k :: 0 <= k < |fields| ==> FieldMatches(line, fields[k])
  }

  /** Positions are counted from the left, so more bytes on the right cannot undo
      a match. */
  lemma MatchesExtended(line: seq<byte>, longer: seq<byte>, fields: seq<LineMatchField>)
    requires line <= longer && Matches(line, fields)
    ensures Matches(longer, fields)
  {
    forall k | 0 <= k < |fields| ensures FieldMatches(longer, fields[k]) {
      var f := fields[k];
      assert FieldMatches(line, f);
      assert longer[f.startByte..f.startByte + f.lengthBytes] == line[f.startByte..f.startByte + f.lengthBytes];
    }
  }

  lemma EmptyNeverMatches(fields: seq<LineMatchField>)
    ensures !Matches([], fields)
  {
    if fields != [] { assert !FieldMatches([], fields[0]); }
  }

  function Separator(layout: Layout): seq<byte> {
    if layout.lineSeparator == [] then DEFAULT_LINE_SEPARATOR else layout.lineSeparator
  }

  function JoinLines(lines: seq<seq<byte>>, separator: seq<byte>): seq<byte> {
    if lines == [] then []
    else if |lines| == 1 then lines[0]
    else lines[0] + separator + JoinLines(lines[1..], separator)
  }

  // The open record, when there is one: where it starts and its joined lines.
  function Emit(recStart: nat, recLines: seq<seq<byte>>, separator: seq<byte>): seq<Line> {
    if recLines == [] then [] else [Line(recStart, JoinLines(recLines, separator))]
  }

  /** The records that a run of lines makes, given the record still open. A break
      line opens one, include lines join it, everything else is ignored. */
  function Group(lines: seq<Line>, recStart: nat, recLines: seq<seq<byte>>, layout: Layout): seq<Line> {
    if lines == [] then Emit(recStart, recLines, Separator(layout))
    else
      var l, rest := lines[0], lines[1..];
      if Matches(l.raw, layout.breakFields) then
        Emit(recStart, recLines, Separator(layout)) + Group(rest, l.offset, [l.raw], layout)
      else if recLines != [] && Matches(l.raw, layout.includeFields) then
        Group(rest, recStart, recLines + [l.raw], layout)
      else Group(rest, recStart, recLines, layout)
  }

  /** One pass over data: its records, or an error of the line reader. */
  function RecordsOf(data: seq<byte>, layout: Layout): Result<seq<Line>, ReadError> {
    if layout.maxBytesPerRecord < 1 then Err(BadLimit) else
    var o := Read(data, 0, layout.maxBytesPerRecord, false);
    if o.error.Some? then Err(o.error.value) else Ok(Group(o.emitted, 0, [], layout))
  }

  datatype Stats = Stats(headerLinesIgnored: nat, trailerLinesIgnored: nat)

  // Lines that end up in records.
  function Kept(lines: seq<Line>, inRecord: bool, layout: Layout): nat {
    if lines == [] then 0
    else if Matches(lines[0].raw, layout.breakFields) then 1 + Kept(lines[1..], true, layout)
    else if inRecord && Matches(lines[0].raw, layout.includeFields) then 1 + Kept(lines[1..], true, layout)
    else Kept(lines[1..], inRecord, layout)
  }

  // Lines in front of the first break.
  function HeaderLines(lines: seq<Line>, layout: Layout): nat {
    if lines == [] || Matches(lines[0].raw, layout.breakFields) then 0 else 1 + HeaderLines(lines[1..], layout)
  }

  /** The grouping loop, line by line as they are read. Every line is kept or
      counted as ignored: as a header in front of the first break, as a trailer
      after it. */
  method GroupLines(lines: seq<Line>, layout: Layout) returns (records: seq<Line>, stats: Stats)
    ensures records == Group(lines, 0, [], layout)
    ensures stats.headerLinesIgnored == HeaderLines(lines, layout)
    ensures Kept(lines, false, layout) + stats.headerLinesIgnored + stats.trailerLinesIgnored == |lines|
  {
    var separator := Separator(layout);
    records, stats := [], Stats(0, 0);
    var recStart: nat, recLines: seq<seq<byte>> := 0, [];
    ghost var kept := 0;
    ghost var all := Group(lines, 0, [], layout);
    for k := 0 to |lines|
      invariant all == records + Group(lines[k..], recStart, recLines, layout)
      invariant Kept(lines, false, layout) == kept + Kept(lines[k..], recLines != [], layout)
      invariant HeaderLines(lines, layout)
             == stats.headerLinesIgnored + if recLines == [] then HeaderLines(lines[k..], layout) else 0
      invariant kept + stats.headerLinesIgnored + stats.trailerLinesIgnored == k
    {
      var l := lines[k];
      assert lines[k..][1..] == lines[k + 1..];
      if Matches(l.raw, layout.breakFields) {
        EmitFirst(records, recStart, recLines, separator, Group(lines[k + 1..], l.offset, [l.raw], layout));
        records := records + Emit(recStart, recLines, separator);
        recStart, recLines, kept := l.offset, [l.raw], kept + 1;
      } else if recLines != [] && Matches(l.raw, layout.includeFields) {
        recLines, kept := recLines + [l.raw], kept + 1;
      } else if recLines != [] {
        stats := stats.(trailerLinesIgnored := stats.trailerLinesIgnored + 1);
      } else {
        stats := stats.(headerLinesIgnored := stats.headerLinesIgnored + 1);
      }
    }
    assert lines[|lines|..] == [];
    records := records + Emit(recStart, recLines, separator);
  }

  lemma EmitFirst(records: seq<Line>, recStart: nat, recLines: seq<seq<byte>>, separator: seq<byte>, rest: seq<Line>)
    ensures records + (Emit(recStart, recLines, separator) + rest)
        == records + Emit(recStart, recLines, separator) + rest
  {
  }

  method ReadMultiLineLayout(data: seq<byte>, layout: Layout) returns (r: Result<seq<Line>, ReadError>)
    ensures r == RecordsOf(data, layout)
  {
    var lines, error := ReadLines(data, layout.maxBytesPerRecord, false);
    if error.Some? { return Err(error.value); }
    var records, stats := GroupLines(lines, layout);
    return Ok(records);
  }

  // ---- Laws of grouping -------------------------------------------------------

  /** Without an open record, where it would have started is irrelevant. */
  lemma {:induction false} GroupFromNone(lines: seq<Line>, s: nat, t: nat, layout: Layout)
    ensures Group(lines, s, [], layout) == Group(lines, t, [], layout)
  {
    if lines != [] { GroupFromNone(lines[1..], s, t, layout); }
  }

  /** A break line separates: what follows it is grouped on its own. */
  lemma {:induction false} GroupAtBreak(a: seq<Line>, b: seq<Line>, s: nat, recLines: seq<seq<byte>>, layout: Layout)
    requires b != [] ==> Matches(b[0].raw, layout.breakFields)
    ensures Group(a + b, s, recLines, layout) == Group(a, s, recLines, layout) + Group(b, 0, [], layout)
  {
    if a == [] {
      assert a + b == b;
    } else {
      assert (a + b)[1..] == a[1..] + b;
      var l := a[0];
      if Matches(l.raw, layout.breakFields) {
        GroupAtBreak(a[1..], b, l.offset, [l.raw], layout);
      } else if recLines != [] && Matches(l.raw, layout.includeFields) {
        GroupAtBreak(a[1..], b, s, recLines + [l.raw], layout);
      } else {
        GroupAtBreak(a[1..], b, s, recLines, layout);
      }
    }
  }

  /** Lines in front of the first break line leave no record. */
  lemma {:induction false} GroupHeaders(a: seq<Line>, b: seq<Line>, s: nat, layout: Layout)
    requires forall k :: 0 <= k < |a| ==> !Matches(a[k].raw, layout.breakFields)
    ensures Group(a + b, s, [], layout) == Group(b, s, [], layout)
  {
    if a == [] {
      assert a + b == b;
    } else {
      assert (a + b)[1..] == a[1..] + b;
      GroupHeaders(a[1..], b, s, layout);
    }
  }

  /** Every record starts where one of the break lines does. */
  lemma {:induction false} GroupOffsets(lines: seq<Line>, s: nat, recLines: seq<seq<byte>>, layout: Layout, lo: nat,
                                        hi: int)
    requires recLines != [] ==> lo <= s <= hi
    requires forall k :: 0 <= k < |lines| && Matches(lines[k].raw, layout.breakFields) ==> lo <= lines[k].offset <= hi
    ensures forall k :: 0 <= k < |Group(lines, s, recLines, layout)| ==>
        lo <= Group(lines, s, recLines, layout)[k].offset <= hi
  {
    if lines != [] {
      var l, rest := lines[0], lines[1..];
      assert forall k :: 0 <= k < |rest| ==> rest[k] == lines[k + 1];
      if Matches(l.raw, layout.breakFields) {
        GroupOffsets(rest, l.offset, [l.raw], layout, lo, hi);
      } else if recLines != [] && Matches(l.raw, layout.includeFields) {
        GroupOffsets(rest, s, recLines + [l.raw], layout, lo, hi);
      } else {
        GroupOffsets(rest, s, recLines, layout, lo, hi);
      }
    }
  }

  lemma EmitShifted(s: nat, recLines: seq<seq<byte>>, separator: seq<byte>, base: nat, rest: seq<Line>)
    ensures Shift(Emit(s, recLines, separator) + rest, base) == Emit(base + s, recLines, separator) + Shift(rest, base)
  {
    var head := Emit(s, recLines, separator);
    assert head == [] || head[1..] == [];
    ShiftConcat(head, rest, base);
  }

  /** Moving the lines moves the records. */
  lemma {:induction false} GroupShifted(lines: seq<Line>, s: nat, recLines: seq<seq<byte>>, layout: Layout, base: nat)
    ensures Group(Shift(lines, base), base + s, recLines, layout) == Shift(Group(lines, s, recLines, layout), base)
  {
    if lines == [] {
      EmitShifted(s, recLines, Separator(layout), base, []);
      assert Emit(s, recLines, Separator(layout)) + [] == Emit(s, recLines, Separator(layout));
    } else {
      var l, rest := lines[0], lines[1..];
      assert Shift(lines, base)[1..] == Shift(rest, base);
      if Matches(l.raw, layout.breakFields) {
        GroupShifted(rest, l.offset, [l.raw], layout, base);
        EmitShifted(s, recLines, Separator(layout), base, Group(rest, l.offset, [l.raw], layout));
      } else if recLines != [] && Matches(l.raw, layout.includeFields) {
        GroupShifted(rest, s, recLines + [l.raw], layout, base);
      } else {
        GroupShifted(rest, s, recLines, layout, base);
      }
    }
  }
}
