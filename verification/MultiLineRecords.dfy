/** What a multi-line record is, by positions: which lines begin one, which join it,
    and in what order. */
module MultiLineRecords {
  import opened Bytes
  import opened LineIo
  import opened Windows
  import opened MultiLine

  predicate IsBreakLine(lines: seq<Line>, i: nat, layout: Layout)
    requires i < |lines|
  {
    Matches(lines[i].raw, layout.breakFields)
  }

  /** The first break line at k or later, or the end of the lines. */
  function NextBreak(lines: seq<Line>, k: nat, layout: Layout): (n: nat)
    requires k <= |lines|
    ensures k <= n <= |lines| && (n < |lines| ==> IsBreakLine(lines, n, layout))
    ensures forall i :: k <= i < n ==> !IsBreakLine(lines, i, layout)
    decreases |lines| - k
  {
    if k == |lines| || IsBreakLine(lines, k, layout) then k else NextBreak(lines, k + 1, layout)
  }

  /** One slot per line: its content, if it is an include line. */
  function IncludeSlots(lines: seq<Line>, layout: Layout): (slots: seq<Option<seq<byte>>>)
    ensures |slots| == |lines|
    ensures forall i :: 0 <= i < |lines| ==>
      slots[i] == if Matches(lines[i].raw, layout.includeFields) then Some(lines[i].raw) else None
  {
    seq(|lines|, i requires 0 <= i < |lines| =>
      if Matches(lines[i].raw, layout.includeFields) then Some(lines[i].raw) else None)
  }

  /** The include lines from k to the next break, in order. */
  function Included(lines: seq<Line>, k: nat, layout: Layout): seq<seq<byte>>
    requires k <= |lines|
  {
    Present(IncludeSlots(lines, layout)[k..NextBreak(lines, k, layout)])
  }

  /** The record that break line i begins: its own content, then that of the include
      lines up to the next break. */
  function RecordAt(lines: seq<Line>, i: nat, layout: Layout): Line
    requires i < |lines|
  {
    Line(lines[i].offset, JoinLines([lines[i].raw] + Included(lines, i + 1, layout), Separator(layout)))
  }

  /** One slot per line: the record it begins, if it is a break line. */
  function RecordSlots(lines: seq<Line>, layout: Layout): (slots: seq<Option<Line>>)
    ensures |slots| == |lines|
    ensures forall i :: 0 <= i < |lines| ==>
        slots[i] == if IsBreakLine(lines, i, layout) then Some(RecordAt(lines, i, layout)) else None
  {
    seq(|lines|, i requires 0 <= i < |lines| =>
      if IsBreakLine(lines, i, layout) then Some(RecordAt(lines, i, layout)) else None)
  }

  lemma SlotsAhead(lines: seq<Line>, k: nat, layout: Layout)
    requires k < |lines|
    ensures Present(RecordSlots(lines, layout)[k..])
         == (if IsBreakLine(lines, k, layout) then [RecordAt(lines, k, layout)] else [])
            + Present(RecordSlots(lines, layout)[k + 1..])
  {
    assert RecordSlots(lines, layout)[k..][1..] == RecordSlots(lines, layout)[k + 1..];
  }

  lemma IncludedAhead(lines: seq<Line>, k: nat, layout: Layout)
    requires k < |lines|
    ensures Included(lines, k, layout)
         == if IsBreakLine(lines, k, layout) then []
            else (if Matches(lines[k].raw, layout.includeFields) then [lines[k].raw] else [])
                 + Included(lines, k + 1, layout)
  {
    var n, slots := NextBreak(lines, k, layout), IncludeSlots(lines, layout);
    if n > k { assert slots[k..n][1..] == slots[k + 1..n]; }
  }

  // A record left open in front of line k, if any, and all that it still gets.
  function Open(lines: seq<Line>, k: nat, s: nat, recLines: seq<seq<byte>>, layout: Layout): seq<Line>
    requires k <= |lines|
  {
    if recLines == [] then [] else [Line(s, JoinLines(recLines + Included(lines, k, layout), Separator(layout)))]
  }

  lemma OpenAhead(lines: seq<Line>, k: nat, s: nat, recLines: seq<seq<byte>>, layout: Layout)
    requires k < |lines|
    ensures var raw := lines[k].raw;
      Open(lines, k, s, recLines, layout)
         == if IsBreakLine(lines, k, layout) then Emit(s, recLines, Separator(layout))
            else if recLines != [] && Matches(raw, layout.includeFields)
              then Open(lines, k + 1, s, recLines + [raw], layout)
            else Open(lines, k + 1, s, recLines, layout)
  {
    IncludedAhead(lines, k, layout);
    if IsBreakLine(lines, k, layout) {
      assert recLines + [] == recLines;
    } else {
      JoinMore(recLines, lines[k].raw, Included(lines, k + 1, layout));
    }
  }

  lemma JoinMore<T>(a: seq<T>, x: T, b: seq<T>)
    ensures a + ([x] + b) == a + [x] + b && [] + b == b
  {
  }

  // The rest of the lines, from k on, with a record open or none.
  lemma {:induction false} GroupFrom(lines: seq<Line>, k: nat, s: nat, recLines: seq<seq<byte>>, layout: Layout)
    requires k <= |lines|
    ensures Group(lines[k..], s, recLines, layout)
         == Open(lines, k, s, recLines, layout) + Present(RecordSlots(lines, layout)[k..])
    decreases |lines| - k
  {
    if k == |lines| {
      assert recLines + [] == recLines;
    } else {
      assert lines[k..][1..] == lines[k + 1..];
      var raw, ahead := lines[k].raw, Present(RecordSlots(lines, layout)[k + 1..]);
      SlotsAhead(lines, k, layout);
      OpenAhead(lines, k, s, recLines, layout);
      if IsBreakLine(lines, k, layout) {
        GroupFrom(lines, k + 1, lines[k].offset, [raw], layout);
        assert Open(lines, k + 1, lines[k].offset, [raw], layout) == [RecordAt(lines, k, layout)];
      } else if recLines != [] && Matches(raw, layout.includeFields) {
        GroupFrom(lines, k + 1, s, recLines + [raw], layout);
        assert [] + ahead == ahead;
      } else {
        GroupFrom(lines, k + 1, s, recLines, layout);
        assert [] + ahead == ahead;
      }
    }
  }

  /** The records are, in order, one for each break line: it starts where that line
      does and holds the line and the include lines up to the next break. */
  lemma RecordsAreAtBreaks(lines: seq<Line>, s: nat, layout: Layout)
    ensures Group(lines, s, [], layout) == Present(RecordSlots(lines, layout))
  {
    GroupFrom(lines, 0, s, [], layout);
    assert lines[0..] == lines && RecordSlots(lines, layout)[0..] == RecordSlots(lines, layout);
  }

  /** So it is for the whole of an input that is read without error. */
  lemma RecordsOfInput(data: seq<byte>, layout: Layout)
    requires RecordsOf(data, layout).Ok?
    ensures RecordsOf(data, layout).value == Present(RecordSlots(LinesIn(data, 0, |data|), layout))
  {
    ReadSucceedsIff(data, 0, layout.maxBytesPerRecord, false);
    SplitIsLinesIn(data, 0);
    RecordsAreAtBreaks(LinesIn(data, 0, |data|), 0, layout);
  }

  // ---- Joining -----------------------------------------------------------------------

  lemma JoinOne(line: seq<byte>, separator: seq<byte>)
    ensures JoinLines([line], separator) == line
  {
  }

  /** One separator between any two parts, none in front or behind. */
  lemma {:induction false} JoinConcat(a: seq<seq<byte>>, b: seq<seq<byte>>, separator: seq<byte>)
    requires a != [] && b != []
    ensures JoinLines(a + b, separator) == JoinLines(a, separator) + separator + JoinLines(b, separator)
  {
    assert (a + b)[1..] == a[1..] + b;
    if |a| > 1 {
      JoinConcat(a[1..], b, separator);
      FiveParts(a[0], separator, JoinLines(a[1..], separator), separator, JoinLines(b, separator));
    } else {
      assert a[1..] + b == b;
    }
  }

  lemma FiveParts<T>(a: seq<T>, b: seq<T>, c: seq<T>, d: seq<T>, e: seq<T>)
    ensures a + b + (c + d + e) == a + b + c + d + e
  {
  }

  // ---- Matching ----------------------------------------------------------------------

  /** A line matches when there is a field and each field's value stands, byte for byte,
      at the field's position. */
  lemma MatchesIff(line: seq<byte>, fields: seq<LineMatchField>)
    ensures Matches(line, fields) <==>
      && |fields| > 0
      && forall k :: 0 <= k < |fields| ==>
           var at, value := fields[k].startByte, fields[k].value;
           && at >= 0 && fields[k].lengthBytes == |value| >= 1 && at + |value| <= |line|
           && forall b :: 0 <= b < |value| ==> line[at + b] == value[b]
  {
    forall k | 0 <= k < |fields| ensures FieldMatches(line, fields[k]) <==> StandsAt(line, fields[k]) {
      FieldStands(line, fields[k]);
    }
  }

  predicate StandsAt(line: seq<byte>, f: LineMatchField) {
    && f.startByte >= 0 && f.lengthBytes == |f.value| >= 1 && f.startByte + |f.value| <= |line|
    && forall b :: 0 <= b < |f.value| ==> line[f.startByte + b] == f.value[b]
  }

  lemma FieldStands(line: seq<byte>, f: LineMatchField)
    ensures FieldMatches(line, f) <==> StandsAt(line, f)
  {
    if f.startByte >= 0 && f.lengthBytes == |f.value| && f.startByte + f.lengthBytes <= |line| {
      var part := line[f.startByte..f.startByte + f.lengthBytes];
      assert forall b :: 0 <= b < |part| ==> part[b] == line[f.startByte + b];
    }
  }

  // ---- An example --------------------------------------------------------------------

  const HEADER: LineMatchField := LineMatchField(0, 1, [72])
  const DETAIL: LineMatchField := LineMatchField(0, 1, [68])
  // Headers begin with "H" and have a "1" behind; details begin with "D".
  const ORDERS: Layout := Layout([HEADER, LineMatchField(2, 1, [49])], [DETAIL], [], [], 8)

  lemma OneByteField(line: seq<byte>, at: nat, b: byte)
    ensures FieldMatches(line, LineMatchField(at, 1, [b])) <==> at < |line| && line[at] == b
  {
    if at < |line| { assert line[at..at + 1] == [line[at]]; }
  }

  lemma OrderLine(line: seq<byte>)
    ensures Matches(line, ORDERS.breakFields) <==> |line| > 2 && line[0] == 72 && line[2] == 49
    ensures Matches(line, ORDERS.includeFields) <==> |line| > 0 && line[0] == 68
  {
    OneByteField(line, 0, 72);
    OneByteField(line, 2, 49);
    OneByteField(line, 0, 68);
    var fields := ORDERS.breakFields;
    assert Matches(line, fields) <==> FieldMatches(line, fields[0]) && FieldMatches(line, fields[1]);
    assert Matches(line, ORDERS.includeFields) <==> FieldMatches(line, ORDERS.includeFields[0]);
  }

  /** "Ha1", "Dx", "Ha2", "Dy": the third line is no header, so all that follows the
      first joins its record except that line, in order. */
  lemma HeaderThenDetails(lines: seq<Line>)
    requires |lines| == 4
    requires lines[0] == Line(0, [72, 97, 49]) && lines[1] == Line(4, [68, 120])
    requires lines[2] == Line(7, [72, 97, 50]) && lines[3] == Line(11, [68, 121])
    ensures Group(lines, 0, [], ORDERS) == [Line(0, [72, 97, 49, 0x1C, 68, 120, 0x1C, 68, 121])]
  {
    var r0, r1, r3 := lines[0].raw, lines[1].raw, lines[3].raw;
    OrdersGrouped(lines, r0, r1, r3);
    JoinThree(r0, r1, r3, DEFAULT_LINE_SEPARATOR);
    assert r0 + DEFAULT_LINE_SEPARATOR + r1 + DEFAULT_LINE_SEPARATOR + r3
        == [72, 97, 49, 0x1C, 68, 120, 0x1C, 68, 121];
  }

  lemma OrdersGrouped(lines: seq<Line>, r0: seq<byte>, r1: seq<byte>, r3: seq<byte>)
    requires |lines| == 4 && lines[0] == Line(0, r0) && lines[1].raw == r1 && lines[3].raw == r3
    requires |r0| == 3 && r0[0] == 72 && r0[2] == 49 && |r1| > 0 && r1[0] == 68 && |r3| > 0 && r3[0] == 68
    requires |lines[2].raw| == 3 && lines[2].raw[0] == 72 && lines[2].raw[2] == 50
    ensures Group(lines, 0, [], ORDERS) == [Line(0, JoinLines([r0, r1, r3], DEFAULT_LINE_SEPARATOR))]
  {
    OrderLine(r0);
    OrderLine(r1);
    OrderLine(lines[2].raw);
    OrderLine(r3);
    assert lines[1..][1..] == lines[2..] && lines[2..][1..] == lines[3..] && lines[3..][1..] == [];
    assert [r0] + [r1] == [r0, r1] && [r0, r1] + [r3] == [r0, r1, r3];
    assert Group(lines[3..], 0, [r0, r1], ORDERS) == Emit(0, [r0, r1, r3], Separator(ORDERS));
    assert Group(lines[2..], 0, [r0, r1], ORDERS) == Group(lines[3..], 0, [r0, r1], ORDERS);
    var rest := Group(lines[1..], 0, [r0], ORDERS);
    assert rest == Group(lines[2..], 0, [r0] + [r1], ORDERS) == Group(lines[3..], 0, [r0, r1], ORDERS);
    assert Group(lines, 0, [], ORDERS) == [] + rest == rest;
  }

  lemma JoinThree(a: seq<byte>, b: seq<byte>, c: seq<byte>, separator: seq<byte>)
    ensures JoinLines([a, b, c], separator) == a + separator + b + separator + c
  {
    assert [a, b, c] == [a, b] + [c];
    JoinConcat([a, b], [c], separator);
    assert [a, b] == [a] + [b];
    JoinConcat([a], [b], separator);
  }
}
