/** JSON texts with elements above the limit: what a run makes of them. */
module JsonLimits {
  import opened Bytes
  import opened Jobs
  import opened Sequences
  import opened TextPlan
  import opened JsonPlan
  import opened JsonScan
  import opened JsonWindows
  import opened JsonChunks

  /** The objects that start in [lo, hi) and end before b. */
  ghost function Seen(js: Decoder, f: seq<byte>, b: nat, lo: nat, hi: nat): seq<Element>
    requires lo <= hi <= b <= |f|
  {
    Elements(Matches(js, f, b), f, lo, hi, LexAt(f, lo))
  }

  lemma {:induction false} EmitFails(w: seq<byte>, dropped: nat, readStart: int, j: ChunkJob, elements: seq<Element>,
                                     o: nat, kept: seq<Element>, lo: nat, hi: nat)
    requires lo == j.startByte && hi == j.endByteInclusive + 1 && o == readStart + dropped
    requires kept == Kept(Shifted(o, elements), lo, hi) && !Short(kept, j.maxBytesPerElement)
    ensures Emit(w, dropped, readStart, j, elements) == Err(ReadFailed)
  {
    if elements != [] {
      var e, rest := elements[0], Kept(Shifted(o, elements[1..]), lo, hi);
      KeptFirst(o, elements, lo, hi, Element(o + e.start, o + e.end), kept, rest);
      if !Short(rest, j.maxBytesPerElement) {
        EmitFails(w, dropped, readStart, j, elements[1..], o, rest, lo, hi);
      }
    }
  }

  // What the realigned window shows of the chunk's own range.
  lemma WindowSeen(js: Decoder, f: seq<byte>, a: nat, b: nat, data: seq<byte>, dropped: nat, o: nat, w: seq<byte>,
                   elements: seq<Element>, lo: nat, hi: nat)
    requires WellQuoted(f) && PlainName(js) && a <= lo < hi <= b <= |f| && data == f[a..b]
    requires dropped == Aligned(Matches(js, data, |data|), 0, |data|) && o == a + dropped && w == f[o..b] && o <= b
    requires elements == Elements(Matches(js, w, |w|), w, 0, |w|, Out)
    ensures Kept(Shifted(o, elements), lo, hi) == Seen(js, f, b, lo, hi)
  {
    var seen, at := Matches(js, data, |data|), Matches(js, f, b);
    forall i | 0 <= i < |data| ensures ShiftedAt(seen, at, a, i) {
      MatchesShift(js, f, a, b, data, i, a + i, seen, at);
    }
    AlignedMeans(seen, at, a, |data|, dropped, o);
    AlignedScan(js, f, o, b, at);
    WindowElements(js, f, o, b, w);
    KeptFromAligned(at, f, o, lo, hi, b);
  }

  lemma ReadWindowIs(js: Decoder, f: seq<byte>, j: ChunkJob, a: nat, b: nat, data: seq<byte>, lo: nat, hi: nat)
    returns (aligned: nat)
    requires WellQuoted(f) && PlainName(js) && a <= lo < hi <= b <= |f| && data == f[a..b]
    requires lo == j.startByte && hi == j.endByteInclusive + 1
    ensures var seen := Seen(js, f, b, lo, hi);
      ReadWindow(js, data, a, j)
        == if Short(seen, j.maxBytesPerElement) then Ok(Records(f, aligned, a, seen)) else Err(ReadFailed)
  {
    var dropped := Aligned(Matches(js, data, |data|), 0, |data|);
    var w, seen := data[dropped..], Seen(js, f, b, lo, hi);
    aligned := a + dropped;
    DroppedSlice(f, a, b, data, dropped, aligned);
    var elements := Elements(Matches(js, w, |w|), w, 0, |w|, Out);
    WindowSeen(js, f, a, b, data, dropped, aligned, w, elements, lo, hi);
    if Short(seen, j.maxBytesPerElement) {
      AlignedPublishes(js, f, j, a, dropped, aligned, b, w, elements, seen, lo, hi);
    } else {
      EmitFails(w, dropped, a, j, elements, aligned, seen, lo, hi);
    }
  }

  /** Whatever the lengths of the elements: a chunk's run publishes the objects that
      start in its range and end in its window, or fails exactly when one of these is
      above the limit. */
  lemma JsonRunIff(js: Decoder, f: seq<byte>, j: ChunkJob, maxChunkBytes: int, b: nat, lo: nat, hi: nat)
    requires j.dataType.Json? && Valid(j, maxChunkBytes) && InFile(j) && j.fileSize == |f|
    requires j.endByteInclusive + j.maxBytesPerElement <= MAX_INT64 && WellQuoted(f) && PlainName(js)
    requires lo == j.startByte && hi == j.endByteInclusive + 1
    requires b == Min(j.endByteInclusive + j.maxBytesPerElement, |f| - 1) + 1
    ensures var r, seen := JsonRun(js, f, j, maxChunkBytes), Seen(js, f, b, lo, hi);
      if Short(seen, j.maxBytesPerElement) then r.Ok? && Raws(r.value) == Texts(f, seen) else r == Err(ReadFailed)
  {
    var a := Max0(j.startByte - j.maxBytesPerElement);
    WindowOpens(f, j, maxChunkBytes, a, b);
    var aligned := ReadWindowIs(js, f, j, a, b, f[a..b], lo, hi);
    var seen := Seen(js, f, b, lo, hi);
    if Short(seen, j.maxBytesPerElement) { RecordsRaws(f, aligned, a, seen, Records(f, aligned, a, seen)); }
  }

  /** When a JSON chunk is refused before anything is read. */
  lemma JsonRefusedIff(js: Decoder, f: seq<byte>, j: ChunkJob, maxChunkBytes: int)
    requires j.dataType.Json?
    ensures JsonRun(js, f, j, maxChunkBytes) == Err(InvalidJob) <==>
      || j.endByteInclusive < j.startByte || j.maxBytesPerElement < 1
      || j.endByteInclusive - j.startByte + 1 > WorkerMaximum(maxChunkBytes)
      || (j.maxRecordLengthBytes > 0 &&
           (j.trailingPaddingBytes < 0 || j.trailingPaddingBytes > j.maxRecordLengthBytes
            || j.endByteInclusive - j.startByte + 1 < j.trailingPaddingBytes))
  {
    if Valid(j, maxChunkBytes) { NotRefused(js, f, j, maxChunkBytes); }
  }

  lemma NotRefused(js: Decoder, f: seq<byte>, j: ChunkJob, maxChunkBytes: int)
    requires Valid(j, maxChunkBytes)
    ensures JsonRun(js, f, j, maxChunkBytes) != Err(InvalidJob)
  {
    var window := OpenWindow(f, j, maxChunkBytes);
    if window.Ok? {
      var data := window.value.1;
      var dropped := Aligned(Matches(js, data, |data|), 0, |data|);
      var w := data[dropped..];
      EmitErrors(w, dropped, window.value.0, j, Elements(Matches(js, w, |w|), w, 0, |w|, Out));
    }
  }

  lemma {:induction false} EmitErrors(w: seq<byte>, dropped: int, readStart: int, j: ChunkJob, elements: seq<Element>)
    ensures Emit(w, dropped, readStart, j, elements) != Err(InvalidJob)
  {
    if elements != [] { EmitErrors(w, dropped, readStart, j, elements[1..]); }
  }

  /** A run sees, of what it owns, exactly what ends in its window. */
  lemma {:induction false} SeenIff(js: Decoder, f: seq<byte>, b: nat, lo: nat, hi: nat, e: Element)
    requires lo <= hi <= b <= |f|
    ensures e in Seen(js, f, b, lo, hi) <==> e in OwnedBy(js, f, lo, hi) && e.end <= b
    decreases hi - lo
  {
    if lo < hi {
      MatchWider(js, f, lo, b, |f|);
      SeenIff(js, f, b, lo + 1, hi, e);
      FirstAndRest(Matches(js, f, b), f, lo, hi, e);
      FirstAndRest(Matches(js, f, |f|), f, lo, hi, e);
    }
  }

  lemma FirstAndRest(at: nat -> Option<nat>, f: seq<byte>, lo: nat, hi: nat, e: Element)
    requires lo < hi <= |f|
    ensures e in Elements(at, f, lo, hi, LexAt(f, lo)) <==>
      || (LexAt(f, lo).Out? && e.start == lo && at(lo) == Some(e.end))
      || e in Elements(at, f, lo + 1, hi, LexAt(f, lo + 1))
  {
    var first, rest := ElementAt(at, lo, LexAt(f, lo)), Elements(at, f, lo + 1, hi, LexAt(f, lo + 1));
    assert e in first + rest <==> e in first || e in rest;
  }

  /** So an element that reaches beyond its chunk's window is left out without an
      error; only one that ends in the window is reported as too long. */
  lemma OverlongElement(js: Decoder, f: seq<byte>, j: ChunkJob, maxChunkBytes: int, b: nat, lo: nat, hi: nat,
                        e: Element)
    requires j.dataType.Json? && Valid(j, maxChunkBytes) && InFile(j) && j.fileSize == |f|
    requires j.endByteInclusive + j.maxBytesPerElement <= MAX_INT64 && WellQuoted(f) && PlainName(js)
    requires lo == j.startByte && hi == j.endByteInclusive + 1
    requires b == Min(j.endByteInclusive + j.maxBytesPerElement, |f| - 1) + 1
    requires OwnedBy(js, f, lo, hi) == [e] && e.end - e.start > j.maxBytesPerElement
    ensures var r := JsonRun(js, f, j, maxChunkBytes);
      if e.end <= b then r == Err(ReadFailed) else r == Ok([])
  {
    var seen := Seen(js, f, b, lo, hi);
    JsonRunIff(js, f, j, maxChunkBytes, b, lo, hi);
    if e.end <= b {
      SeenIff(js, f, b, lo, hi, e);
    } else {
      NothingSeen(js, f, b, lo, hi, e);
      assert seen == [];
      RawsLength(JsonRun(js, f, j, maxChunkBytes).value);
    }
  }

  lemma NothingSeen(js: Decoder, f: seq<byte>, b: nat, lo: nat, hi: nat, e: Element)
    requires lo <= hi <= b <= |f| && OwnedBy(js, f, lo, hi) == [e] && e.end > b
    ensures Seen(js, f, b, lo, hi) == []
  {
    var seen := Seen(js, f, b, lo, hi);
    if seen != [] {
      var x := seen[0];
      assert x in seen;
      SeenIff(js, f, b, lo, hi, x);
      assert false;
    }
  }

  // ---- All runs -------------------------------------------------------------------------

  lemma SeenCount(js: Decoder, f: seq<byte>, b: nat, lo: nat, hi: nat)
    requires lo <= hi <= b <= |f|
    ensures |Seen(js, f, b, lo, hi)| <= |OwnedBy(js, f, lo, hi)|
    ensures |Seen(js, f, b, lo, hi)| == |OwnedBy(js, f, lo, hi)| ==>
        Seen(js, f, b, lo, hi) == OwnedBy(js, f, lo, hi)
  {
    var at, at' := Matches(js, f, b), Matches(js, f, |f|);
    forall k | lo <= k < hi ensures at(k).Some? ==> at'(k) == at(k) { MatchWider(js, f, k, b, |f|); }
    FewerElements(at, at', f, lo, hi, LexAt(f, lo));
  }

  // Where less matches, less is listed.
  lemma {:induction false} FewerElements(at: nat -> Option<nat>, at': nat -> Option<nat>, f: seq<byte>, i: nat,
                                         stop: nat, l: Lex)
    requires i <= stop <= |f| && forall k :: i <= k < stop && at(k).Some? ==> at'(k) == at(k)
    ensures |Elements(at, f, i, stop, l)| <= |Elements(at', f, i, stop, l)|
    ensures |Elements(at, f, i, stop, l)| == |Elements(at', f, i, stop, l)| ==>
        Elements(at, f, i, stop, l) == Elements(at', f, i, stop, l)
    decreases stop - i
  {
    if i < stop { FewerElements(at, at', f, i + 1, stop, Step(l, f[i])); }
  }

  lemma {:induction false} RawsLength(emitted: seq<Emitted>)
    ensures |Raws(emitted)| == |emitted|
  {
    if emitted != [] { RawsLength(emitted[1..]); }
  }

  lemma {:induction false} TextsLength(f: seq<byte>, elements: seq<Element>)
    ensures |Texts(f, elements)| == |elements|
  {
    if elements != [] { TextsLength(f, elements[1..]); }
  }

  /** A plan over a text whose strings are as in JSON and that the worker admits. */
  ghost predicate Admitted(js: Decoder, f: seq<byte>, nominal: int, limit: int, jobs: seq<ChunkJob>,
                           maxChunkBytes: int) {
    && IsJsonPlan(|f|, nominal, limit, jobs) && nominal <= WorkerMaximum(maxChunkBytes)
    && |f| + limit <= MAX_INT64 && WellQuoted(f) && PlainName(js)
  }

  ghost predicate AllRun(js: Decoder, f: seq<byte>, jobs: seq<ChunkJob>, maxChunkBytes: int,
                         runs: seq<seq<Emitted>>) {
    |runs| == |jobs|
    && forall c {:trigger runs[c]} :: 0 <= c < |jobs| ==> Publishes(js, f, jobs[c], maxChunkBytes, runs[c])
  }

  // A run publishes no more than its chunk owns; if no less, then all of it is within
  // the limit.
  lemma RunCount(js: Decoder, f: seq<byte>, nominal: int, limit: int, jobs: seq<ChunkJob>, maxChunkBytes: int,
                 c: nat, run: seq<Emitted>, lo: nat, hi: nat, owned: seq<Element>)
    requires Admitted(js, f, nominal, limit, jobs, maxChunkBytes) && c < |jobs|
    requires lo == jobs[c].startByte && hi == jobs[c].endByteInclusive + 1
    requires owned == OwnedBy(js, f, lo, hi) && Publishes(js, f, jobs[c], maxChunkBytes, run)
    ensures |run| <= |owned| && (|run| == |owned| ==> Short(owned, limit))
  {
    var j := jobs[c];
    assert IsJsonJob(j, c, |f|, nominal, limit);
    var b := Min(j.endByteInclusive + j.maxBytesPerElement, |f| - 1) + 1;
    JsonRunIff(js, f, j, maxChunkBytes, b, lo, hi);
    SeenCount(js, f, b, lo, hi);
    RawsLength(run);
    TextsLength(f, Seen(js, f, b, lo, hi));
  }

  lemma {:induction false} RunsCount(js: Decoder, f: seq<byte>, nominal: int, limit: int, jobs: seq<ChunkJob>,
                                     maxChunkBytes: int, runs: seq<seq<Emitted>>, k: nat, end: nat)
    requires Admitted(js, f, nominal, limit, jobs, maxChunkBytes) && AllRun(js, f, jobs, maxChunkBytes, runs)
    requires k <= |jobs| && end == if k == 0 then 0 else jobs[k - 1].endByteInclusive + 1
    ensures end <= |f| && |Flatten(runs[..k])| <= |OwnedBy(js, f, 0, end)|
    ensures |Flatten(runs[..k])| == |OwnedBy(js, f, 0, end)| ==> Short(OwnedBy(js, f, 0, end), limit)
  {
    if k > 0 {
      var run := runs[k - 1];
      var start: nat := jobs[k - 1].startByte;
      RunsCount(js, f, nominal, limit, jobs, maxChunkBytes, runs, k - 1, start);
      var before, owned := OwnedBy(js, f, 0, start), OwnedBy(js, f, start, end);
      RunCount(js, f, nominal, limit, jobs, maxChunkBytes, k - 1, run, start, end, owned);
      ElementsSplit(Matches(js, f, |f|), f, 0, start, end);
      FlattenNext(runs, k - 1, run);
      assert OwnedBy(js, f, 0, end) == before + owned;
    }
  }

  lemma FlattenNext(runs: seq<seq<Emitted>>, k: nat, run: seq<Emitted>)
    requires k < |runs| && run == runs[k]
    ensures |Flatten(runs[..k + 1])| == |Flatten(runs[..k])| + |run|
  {
    assert runs[..k + 1] == runs[..k] + [run];
    FlattenAppend(runs[..k], run);
  }

  ghost function RunOf(js: Decoder, f: seq<byte>, j: ChunkJob, maxChunkBytes: int): (run: seq<Emitted>)
    requires JsonRun(js, f, j, maxChunkBytes).Ok?
    ensures Publishes(js, f, j, maxChunkBytes, run)
  {
    JsonRun(js, f, j, maxChunkBytes).value
  }

  lemma AllRuns(js: Decoder, f: seq<byte>, nominal: int, limit: int, jobs: seq<ChunkJob>, maxChunkBytes: int)
    returns (runs: seq<seq<Emitted>>)
    requires Ready(js, f, nominal, limit, jobs, maxChunkBytes)
    ensures AllRun(js, f, jobs, maxChunkBytes, runs)
  {
    forall c | 0 <= c < |jobs| ensures JsonRun(js, f, jobs[c], maxChunkBytes).Ok? {
      EveryChunkSucceeds(js, f, nominal, limit, jobs, maxChunkBytes, c);
    }
    runs := seq(|jobs|, c requires 0 <= c < |jobs| && JsonRun(js, f, jobs[c], maxChunkBytes).Ok? =>
      RunOf(js, f, jobs[c], maxChunkBytes));
  }

  /** The chunks of a plan all succeed and publish what one scan of the file finds
      exactly when no object of the file is above the limit. */
  lemma AllPublishedIff(js: Decoder, f: seq<byte>, nominal: int, limit: int, jobs: seq<ChunkJob>, maxChunkBytes: int)
    requires Admitted(js, f, nominal, limit, jobs, maxChunkBytes)
    ensures (exists runs :: AllRun(js, f, jobs, maxChunkBytes, runs) && Raws(Flatten(runs)) == Texts(f, Whole(js, f)))
       <==> Short(Whole(js, f), limit)
  {
    if Short(Whole(js, f), limit) {
      var runs := AllRuns(js, f, nominal, limit, jobs, maxChunkBytes);
      JsonChunksEqualWholeFile(js, f, nominal, limit, jobs, maxChunkBytes, runs);
    }
    forall runs | AllRun(js, f, jobs, maxChunkBytes, runs) && Raws(Flatten(runs)) == Texts(f, Whole(js, f))
      ensures Short(Whole(js, f), limit)
    {
      RunsCount(js, f, nominal, limit, jobs, maxChunkBytes, runs, |jobs|, |f|);
      assert runs[..|jobs|] == runs;
      RawsLength(Flatten(runs));
      TextsLength(f, Whole(js, f));
    }
  }
}
