/** Source record ids: what they are digests of, and that no two records of an
    object share one. */
module Identities {
  import opened Bytes
  import opened Sequences
  import opened LineIo
  import opened Windows
  import opened Jobs
  import opened TextPlan
  import opened MultiLine
  import opened MultiLineChunks
  import TextChunks

  // ---- The id's pre-image ----------------------------------------------------------

  function Digit(d: nat): char
    requires d < 10
  {
    '0' + d as char
  }

  function Decimal(n: nat): string {
    if n < 10 then [Digit(n)] else Decimal(n / 10) + [Digit(n % 10)]
  }

  /** What is digested for the record of a file that starts at an offset. */
  function SourceRecordKey(fileId: string, offset: nat): string { fileId + "/" + Decimal(offset) }

  lemma {:induction false} DecimalInjective(m: nat, n: nat)
    requires Decimal(m) == Decimal(n)
    ensures m == n
  {
    var a, b := Decimal(m), Decimal(n);
    assert |a| >= 1 && a[|a| - 1] == Digit(m % 10) && b[|b| - 1] == Digit(n % 10);
    if m >= 10 && n >= 10 {
      assert Decimal(m / 10) == a[..|a| - 1] == b[..|b| - 1] == Decimal(n / 10);
      DecimalInjective(m / 10, n / 10);
    } else {
      DecimalNonEmpty(m / 10);
      DecimalNonEmpty(n / 10);
    }
  }

  lemma DecimalNonEmpty(n: nat)
    ensures Decimal(n) != []
  {
  }

  /** Within a file, the key is as good as the offset. */
  lemma SameKeyIffSameOffset(fileId: string, m: nat, n: nat)
    ensures SourceRecordKey(fileId, m) == SourceRecordKey(fileId, n) <==> m == n
  {
    var head := fileId + "/";
    assert SourceRecordKey(fileId, m)[|head|..] == Decimal(m) && SourceRecordKey(fileId, n)[|head|..] == Decimal(n);
    if Decimal(m) == Decimal(n) { DecimalInjective(m, n); }
  }

  // ---- Offsets increase ----------------------------------------------------------------

  predicate Increasing(records: seq<Line>) {
    forall i, j :: 0 <= i < j < |records| ==> records[i].offset < records[j].offset
  }

  predicate AllFrom(records: seq<Line>, lo: nat) { forall k :: 0 <= k < |records| ==> lo <= records[k].offset }

  lemma {:induction false} LinesIncrease(f: seq<byte>, lo: nat, hi: nat)
    requires lo <= hi <= |f|
    ensures Increasing(LinesIn(f, lo, hi)) && AllFrom(LinesIn(f, lo, hi), lo)
    decreases hi - lo
  {
    var next := lo + 1;
    if lo < hi {
      LinesInConcat(f, lo, next, hi);
      LineStarting(f, lo);
      LinesIncrease(f, next, hi);
      IncreasingCons(LinesIn(f, lo, next), LinesIn(f, next, hi), lo);
    }
  }

  lemma IncreasingCons(first: seq<Line>, rest: seq<Line>, lo: nat)
    requires |first| <= 1 && (forall l :: l in first ==> l.offset == lo) && Increasing(rest) && AllFrom(rest, lo + 1)
    ensures Increasing(first + rest) && AllFrom(first + rest, lo)
  {
  }

  // Records start at the break lines they begin with.
  lemma {:induction false} GroupIncreases(lines: seq<Line>, recStart: nat, recLines: seq<seq<byte>>, layout: Layout,
                                          lo: nat)
    requires Increasing(lines) && AllFrom(lines, lo) && (recLines != [] ==> recStart < lo)
    ensures Increasing(Group(lines, recStart, recLines, layout))
    ensures AllFrom(Group(lines, recStart, recLines, layout), if recLines != [] then recStart else lo)
    decreases lines
  {
    if lines != [] {
      var l, rest := lines[0], lines[1..];
      var next := l.offset + 1;
      assert AllFrom(rest, next) && Increasing(rest);
      if Matches(l.raw, layout.breakFields) {
        GroupIncreases(rest, l.offset, [l.raw], layout, next);
      } else if recLines != [] && Matches(l.raw, layout.includeFields) {
        GroupIncreases(rest, recStart, recLines + [l.raw], layout, next);
      } else {
        GroupIncreases(rest, recStart, recLines, layout, next);
      }
    }
  }

  // ---- Over all chunks of a job --------------------------------------------------------------

  /** No two records have the same key. */
  ghost predicate DistinctKeys(fileId: string, records: seq<Line>) {
    forall i, j :: 0 <= i < j < |records| ==>
      SourceRecordKey(fileId, records[i].offset) != SourceRecordKey(fileId, records[j].offset)
  }

  lemma IncreasingAreDistinct(fileId: string, records: seq<Line>)
    requires Increasing(records)
    ensures DistinctKeys(fileId, records)
  {
    forall i, j | 0 <= i < j < |records|
      ensures SourceRecordKey(fileId, records[i].offset) != SourceRecordKey(fileId, records[j].offset)
    {
      SameKeyIffSameOffset(fileId, records[i].offset, records[j].offset);
    }
  }

  /** The lines that a text job's chunks publish have strictly increasing offsets,
      across chunks too, and so distinct keys. */
  lemma TextRecordsDistinct(fileId: string, f: seq<byte>, jobs: seq<ChunkJob>, runs: seq<seq<Line>>,
                            maxRecordLengthBytes: int, maxChunkBytes: int)
    requires |f| <= MAX_INT64 && 1 <= maxRecordLengthBytes <= MAX_INT64
    requires IsTextPlan(|f|, maxRecordLengthBytes, jobs) && |runs| == |jobs|
    requires forall c {:trigger TextChunks.Publishes(f, jobs[c], maxChunkBytes, runs[c])} :: 0 <= c < |jobs| ==>
      TextChunks.Publishes(f, jobs[c], maxChunkBytes, runs[c])
    ensures Increasing(Flatten(runs)) && DistinctKeys(fileId, Flatten(runs))
  {
    TextChunks.TextChunksEqualWholeFile(f, jobs, runs, maxRecordLengthBytes, maxChunkBytes);
    SplitIsLinesIn(f, 0);
    LinesIncrease(f, 0, |f|);
    IncreasingAreDistinct(fileId, Flatten(runs));
  }

  /** And so have the records that a multi-line job's chunks publish. */
  lemma MultiLineRecordsDistinct(fileId: string, f: seq<byte>, layout: Layout, nominal: int, jobs: seq<ChunkJob>,
                                 maxChunkBytes: int, runs: seq<seq<Line>>)
    requires AllPublish(f, layout, nominal, jobs, maxChunkBytes, runs)
    ensures Increasing(Flatten(runs)) && DistinctKeys(fileId, Flatten(runs))
  {
    MultiLineChunksEqualWholeFile(f, layout, nominal, jobs, maxChunkBytes, runs);
    RecordsIncrease(f, layout, Flatten(runs));
    IncreasingAreDistinct(fileId, Flatten(runs));
  }

  lemma RecordsIncrease(f: seq<byte>, layout: Layout, records: seq<Line>)
    requires RecordsOf(f, layout) == Ok(records)
    ensures Increasing(records)
  {
    ReadSucceedsIff(f, 0, layout.maxBytesPerRecord, false);
    SplitIsLinesIn(f, 0);
    LinesIncrease(f, 0, |f|);
    GroupIncreases(LinesIn(f, 0, |f|), 0, [], layout, 0);
  }
}
