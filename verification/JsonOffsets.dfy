/** When the elements of a JSON job are published with distinct byte offsets. */
module JsonOffsets {
  import opened Bytes
  import opened Sequences
  import opened Jobs
  import opened TextPlan
  import opened JsonPlan
  import opened JsonScan
  import opened JsonWindows
  import opened JsonChunks
  import Identities

  // The first position of [a, n) with a match, or n.
  function FirstFrom(at: nat -> Option<nat>, a: nat, n: nat): (r: nat)
    ensures a <= n ==> a <= r <= n
    decreases n - a
  {
    if a >= n then n else if at(a).Some? then a else FirstFrom(at, a + 1, n)
  }

  /** The first object of the file that starts at a or later. */
  function First(js: Decoder, f: seq<byte>, a: nat): nat { FirstFrom(Matches(js, f, |f|), a, |f|) }

  /** The offset with which a chunk whose window begins at byte a publishes the
      element e. */
  function PublishedFrom(js: Decoder, f: seq<byte>, a: nat, e: Element): int { e.start - (First(js, f, a) - a) }

  function WindowStart(limit: int, j: ChunkJob): nat { Max0(j.startByte - limit) }

  /** So what chunk j publishes comes of the file and the plan alone. */
  function PublishedAt(js: Decoder, f: seq<byte>, limit: int, j: ChunkJob, e: Element): int {
    PublishedFrom(js, f, WindowStart(limit, j), e)
  }

  lemma {:induction false} FirstFromIs(at: nat -> Option<nat>, a: nat, n: nat, k: nat)
    requires a <= k < n && at(k).Some?
    ensures FirstFrom(at, a, n) <= k
    ensures (forall i :: a <= i < k ==> at(i).None?) ==> FirstFrom(at, a, n) == k
    decreases k - a
  {
    if a < k && at(a).None? { FirstFromIs(at, a + 1, n, k); }
  }

  lemma FirstIs(js: Decoder, f: seq<byte>, a: nat, k: nat)
    requires a <= k < |f| && Match(js, f, k, |f|).Some?
    ensures a <= First(js, f, a) <= k
    ensures IsFirstObject(js, f, a, k) ==> First(js, f, a) == k
  {
    var at := Matches(js, f, |f|);
    assert at(k) == Match(js, f, k, |f|);
    if IsFirstObject(js, f, a, k) {
      forall i | a <= i < k ensures at(i).None? { assert at(i) == Match(js, f, i, |f|); }
    }
    FirstFromIs(at, a, |f|, k);
  }

  // ---- One chunk -------------------------------------------------------------------------

  /** The elements a job owns. */
  ghost function OwnedOf(js: Decoder, f: seq<byte>, j: ChunkJob): seq<Element>
    requires 0 <= j.startByte <= j.endByteInclusive < |f|
  {
    OwnedBy(js, f, j.startByte, j.endByteInclusive + 1)
  }

  predicate InOrder(elements: seq<Element>) {
    forall m, n :: 0 <= m < n < |elements| ==> elements[m].start < elements[n].start
  }

  lemma {:induction false} ElementsIncrease(at: nat -> Option<nat>, f: seq<byte>, i: nat, stop: nat, l: Lex)
    requires i <= stop <= |f|
    ensures InOrder(Elements(at, f, i, stop, l))
    decreases stop - i
  {
    if i < stop {
      var rest := Elements(at, f, i + 1, stop, Step(l, f[i]));
      ElementsIncrease(at, f, i + 1, stop, Step(l, f[i]));
      ElementsBounded(at, f, i + 1, stop, Step(l, f[i]));
      AfterFirst(ElementAt(at, i, l), rest, i);
    }
  }

  lemma AfterFirst(first: seq<Element>, rest: seq<Element>, i: nat)
    requires |first| <= 1 && (forall e :: e in first ==> e.start == i) && (forall e :: e in rest ==> i < e.start)
    requires InOrder(rest)
    ensures InOrder(first + rest)
  {
  }

  /** A published offset lies between the window's first byte and the element. */
  lemma PublishedBetween(js: Decoder, f: seq<byte>, limit: int, j: ChunkJob, e: Element)
    requires 0 <= j.startByte <= j.endByteInclusive < |f| && e in OwnedOf(js, f, j) && limit >= 0
    ensures WindowStart(limit, j) <= PublishedAt(js, f, limit, j, e) <= e.start
    ensures j.startByte <= e.start <= j.endByteInclusive
  {
    var at, lo, hi: nat := Matches(js, f, |f|), j.startByte, j.endByteInclusive + 1;
    ElementsBounded(at, f, lo, hi, LexAt(f, lo));
    assert at(e.start) == Match(js, f, e.start, |f|);
    FirstIs(js, f, WindowStart(limit, j), e.start);
  }

  ghost predicate OffsetsFrom(js: Decoder, f: seq<byte>, a: nat, owned: seq<Element>, run: seq<Emitted>) {
    && |run| == |owned|
    && forall i :: 0 <= i < |run| ==> run[i].publishedOffset == PublishedFrom(js, f, a, owned[i])
  }

  /** What a run publishes: its elements in order, at those offsets. */
  lemma RunOffsets(js: Decoder, f: seq<byte>, j: ChunkJob, maxChunkBytes: int, a: nat, lo: nat, hi: nat,
                   owned: seq<Element>,
                   run: seq<Emitted>)
    requires IsRunnable(js, f, j, maxChunkBytes) && Publishes(js, f, j, maxChunkBytes, run)
    requires a == Max0(j.startByte - j.maxBytesPerElement)
    requires lo == j.startByte && hi == j.endByteInclusive + 1 && owned == OwnedBy(js, f, lo, hi)
    ensures OffsetsFrom(js, f, a, owned, run)
  {
    var first, records := OffsetsAreShifted(js, f, j, maxChunkBytes, a, lo, hi, owned);
    SameRun(js, f, a, first, owned, records);
  }

  lemma SameRun(js: Decoder, f: seq<byte>, a: nat, first: nat, owned: seq<Element>, run: seq<Emitted>)
    requires |run| == |owned| && (owned != [] ==> IsFirstObject(js, f, a, first))
    requires forall i :: 0 <= i < |run| ==> run[i].publishedOffset == owned[i].start - (first - a)
    ensures OffsetsFrom(js, f, a, owned, run)
  {
    if owned != [] { FirstIs(js, f, a, first); }
  }

  // ---- All chunks ------------------------------------------------------------------------------

  /** No two elements of the job are published with one offset. */
  ghost predicate DistinctOffsets(runs: seq<seq<Emitted>>) {
    forall c, i, d, k :: 0 <= c < |runs| && 0 <= i < |runs[c]| && 0 <= d < |runs| && 0 <= k < |runs[d]| ==>
      runs[c][i].publishedOffset == runs[d][k].publishedOffset ==> c == d && i == k
  }

  /** No element of one job gets the offset of one of the other. */
  ghost predicate Apart(js: Decoder, f: seq<byte>, limit: int, j1: ChunkJob, j2: ChunkJob)
    requires 0 <= j1.startByte <= j1.endByteInclusive < |f| && 0 <= j2.startByte <= j2.endByteInclusive < |f|
  {
    forall e1, e2 :: e1 in OwnedOf(js, f, j1) && e2 in OwnedOf(js, f, j2) ==>
      PublishedAt(js, f, limit, j1, e1) != PublishedAt(js, f, limit, j2, e2)
  }

  ghost predicate NeighboursApart(js: Decoder, f: seq<byte>, limit: int, jobs: seq<ChunkJob>)
    requires Tiles(jobs, |f|)
  {
    forall c :: 0 < c < |jobs| ==> Apart(js, f, limit, jobs[c - 1], jobs[c])
  }

  ghost predicate AllPublish(js: Decoder, f: seq<byte>, jobs: seq<ChunkJob>, maxChunkBytes: int,
                             runs: seq<seq<Emitted>>) {
    && |runs| == |jobs|
    && forall c {:trigger runs[c]} :: 0 <= c < |jobs| ==> Publishes(js, f, jobs[c], maxChunkBytes, runs[c])
  }

  lemma PlannedJob(js: Decoder, f: seq<byte>, nominal: int, limit: int, jobs: seq<ChunkJob>, maxChunkBytes: int,
                   c: nat, j: ChunkJob)
    requires Ready(js, f, nominal, limit, jobs, maxChunkBytes) && c < |jobs| && j == jobs[c]
    ensures IsRunnable(js, f, j, maxChunkBytes) && j.maxBytesPerElement == limit
  {
    PlannedIsRunnable(js, f, nominal, limit, jobs, maxChunkBytes, j, c);
    assert IsJsonJob(j, c, |f|, nominal, limit);
  }

  // The offsets that one chunk publishes.
  lemma ChunkOffsets(js: Decoder, f: seq<byte>, limit: int, maxChunkBytes: int, run: seq<Emitted>, j: ChunkJob,
                     a: nat, lo: nat, hi: nat, owned: seq<Element>)
    requires IsRunnable(js, f, j, maxChunkBytes) && j.maxBytesPerElement == limit && a == WindowStart(limit, j)
    requires lo == j.startByte && hi == j.endByteInclusive + 1
    requires Publishes(js, f, j, maxChunkBytes, run) && owned == OwnedOf(js, f, j)
    ensures OffsetsFrom(js, f, a, owned, run)
  {
    assert owned == OwnedBy(js, f, lo, hi);
    RunOffsets(js, f, j, maxChunkBytes, a, lo, hi, owned, run);
  }

  lemma OneOffset(js: Decoder, f: seq<byte>, nominal: int, limit: int, jobs: seq<ChunkJob>, maxChunkBytes: int,
                  runs: seq<seq<Emitted>>, c: nat, j: ChunkJob)
    requires Ready(js, f, nominal, limit, jobs, maxChunkBytes) && AllPublish(js, f, jobs, maxChunkBytes, runs)
    requires c < |jobs| && j == jobs[c]
    ensures |runs[c]| == |OwnedOf(js, f, j)|
    ensures forall i :: 0 <= i < |runs[c]| ==>
      runs[c][i].publishedOffset == PublishedAt(js, f, limit, j, OwnedOf(js, f, j)[i])
  {
    PlannedJob(js, f, nominal, limit, jobs, maxChunkBytes, c, j);
    var a, lo, hi: nat := WindowStart(limit, j), j.startByte, j.endByteInclusive + 1;
    ChunkOffsets(js, f, limit, maxChunkBytes, runs[c], j, a, lo, hi, OwnedOf(js, f, j));
  }

  lemma {:induction false} StartsGrow(jobs: seq<ChunkJob>, size: nat, nominal: int, limit: int, c: nat, d: nat)
    requires IsJsonPlan(size, nominal, limit, jobs) && c < d < |jobs|
    ensures jobs[d].startByte >= jobs[c].startByte + nominal
    decreases d
  {
    assert IsJsonJob(jobs[d - 1], d - 1, size, nominal, limit);
    if c < d - 1 { StartsGrow(jobs, size, nominal, limit, c, d - 1); }
  }

  /** Chunks that are not neighbours never collide: a window reaches back by no
      more than one element, and a chunk is no shorter than that. */
  lemma FarApart(js: Decoder, f: seq<byte>, nominal: int, limit: int, jobs: seq<ChunkJob>, c: nat, d: nat,
                 j1: ChunkJob, j2: ChunkJob, e1: Element, e2: Element)
    requires IsJsonPlan(|f|, nominal, limit, jobs) && c + 1 < d < |jobs| && j1 == jobs[c] && j2 == jobs[d]
    requires e1 in OwnedOf(js, f, j1) && e2 in OwnedOf(js, f, j2)
    ensures PublishedAt(js, f, limit, j1, e1) < PublishedAt(js, f, limit, j2, e2)
  {
    var between := c + 1;
    StartsGrow(jobs, |f|, nominal, limit, between, d);
    assert jobs[between].startByte == jobs[between - 1].endByteInclusive + 1;
    PublishedBetween(js, f, limit, j1, e1);
    PublishedBetween(js, f, limit, j2, e2);
  }

  lemma SameChunkApart(js: Decoder, f: seq<byte>, limit: int, j: ChunkJob, i: nat, k: nat)
    requires 0 <= j.startByte <= j.endByteInclusive < |f| && i < k < |OwnedOf(js, f, j)|
    ensures PublishedAt(js, f, limit, j, OwnedOf(js, f, j)[i]) < PublishedAt(js, f, limit, j, OwnedOf(js, f, j)[k])
  {
    var lo, hi: nat := j.startByte, j.endByteInclusive + 1;
    ElementsIncrease(Matches(js, f, |f|), f, lo, hi, LexAt(f, lo));
  }

  // Two elements, the first in front of the second, have two offsets.
  lemma PairApart(js: Decoder, f: seq<byte>, nominal: int, limit: int, jobs: seq<ChunkJob>, c: nat, i: nat, d: nat,
                  k: nat)
    requires IsJsonPlan(|f|, nominal, limit, jobs) && NeighboursApart(js, f, limit, jobs)
    requires c <= d < |jobs| && (c == d ==> i < k) && i < |OwnedOf(js, f, jobs[c])| && k < |OwnedOf(js, f, jobs[d])|
    ensures PublishedAt(js, f, limit, jobs[c], OwnedOf(js, f, jobs[c])[i])
         != PublishedAt(js, f, limit, jobs[d], OwnedOf(js, f, jobs[d])[k])
  {
    var j1, j2 := jobs[c], jobs[d];
    var e1, e2 := OwnedOf(js, f, j1)[i], OwnedOf(js, f, j2)[k];
    assert e1 in OwnedOf(js, f, j1) && e2 in OwnedOf(js, f, j2);
    if c == d {
      SameChunkApart(js, f, limit, j1, i, k);
    } else if d == c + 1 {
      assert Apart(js, f, limit, jobs[d - 1], jobs[d]);
    } else {
      FarApart(js, f, nominal, limit, jobs, c, d, j1, j2, e1, e2);
    }
  }

  /** The elements of a job are published with distinct offsets exactly when no two
      neighbouring chunks give one offset twice: a condition on the file and the
      plan alone. */
  lemma DistinctOffsetsIff(js: Decoder, f: seq<byte>, nominal: int, limit: int, jobs: seq<ChunkJob>, maxChunkBytes: int,
                           runs: seq<seq<Emitted>>)
    requires Ready(js, f, nominal, limit, jobs, maxChunkBytes) && AllPublish(js, f, jobs, maxChunkBytes, runs)
    ensures DistinctOffsets(runs) <==> NeighboursApart(js, f, limit, jobs)
  {
    if NeighboursApart(js, f, limit, jobs) { ApartAreDistinct(js, f, nominal, limit, jobs, maxChunkBytes, runs); }
    if DistinctOffsets(runs) {
      forall c | 0 < c < |jobs| ensures Apart(js, f, limit, jobs[c - 1], jobs[c]) {
        DistinctAreApart(js, f, nominal, limit, jobs, maxChunkBytes, runs, c);
      }
    }
  }

  lemma ApartAreDistinct(js: Decoder, f: seq<byte>, nominal: int, limit: int, jobs: seq<ChunkJob>, maxChunkBytes: int,
                         runs: seq<seq<Emitted>>)
    requires Ready(js, f, nominal, limit, jobs, maxChunkBytes) && AllPublish(js, f, jobs, maxChunkBytes, runs)
    requires NeighboursApart(js, f, limit, jobs)
    ensures DistinctOffsets(runs)
  {
    forall c, i, d, k | 0 <= c < |runs| && 0 <= i < |runs[c]| && 0 <= d < |runs| && 0 <= k < |runs[d]|
      ensures runs[c][i].publishedOffset == runs[d][k].publishedOffset ==> c == d && i == k
    {
      OneOffset(js, f, nominal, limit, jobs, maxChunkBytes, runs, c, jobs[c]);
      OneOffset(js, f, nominal, limit, jobs, maxChunkBytes, runs, d, jobs[d]);
      if c < d || (c == d && i < k) { PairApart(js, f, nominal, limit, jobs, c, i, d, k); }
      if d < c || (c == d && k < i) { PairApart(js, f, nominal, limit, jobs, d, k, c, i); }
    }
  }

  lemma DistinctAreApart(js: Decoder, f: seq<byte>, nominal: int, limit: int, jobs: seq<ChunkJob>, maxChunkBytes: int,
                         runs: seq<seq<Emitted>>, c: nat)
    requires Ready(js, f, nominal, limit, jobs, maxChunkBytes) && AllPublish(js, f, jobs, maxChunkBytes, runs)
    requires DistinctOffsets(runs) && 0 < c < |jobs|
    ensures Apart(js, f, limit, jobs[c - 1], jobs[c])
  {
    var b, j1, j2 := c - 1, jobs[c - 1], jobs[c];
    OneOffset(js, f, nominal, limit, jobs, maxChunkBytes, runs, b, j1);
    OneOffset(js, f, nominal, limit, jobs, maxChunkBytes, runs, c, j2);
    forall e1, e2 | e1 in OwnedOf(js, f, j1) && e2 in OwnedOf(js, f, j2)
      ensures PublishedAt(js, f, limit, j1, e1) != PublishedAt(js, f, limit, j2, e2)
    {
      var i :| 0 <= i < |OwnedOf(js, f, j1)| && OwnedOf(js, f, j1)[i] == e1;
      var k :| 0 <= k < |OwnedOf(js, f, j2)| && OwnedOf(js, f, j2)[k] == e2;
      assert runs[b][i].publishedOffset != runs[c][k].publishedOffset;
    }
  }

  // ---- Ids -----------------------------------------------------------------------------------------

  ghost predicate OffsetsNatural(runs: seq<seq<Emitted>>) {
    forall c, i :: 0 <= c < |runs| && 0 <= i < |runs[c]| ==> runs[c][i].publishedOffset >= 0
  }

  /** What the source record id of an element digests. */
  function KeyOf(fileId: string, r: Emitted): string
    requires r.publishedOffset >= 0
  {
    Identities.SourceRecordKey(fileId, r.publishedOffset)
  }

  /** No two elements of the job share it. */
  ghost predicate DistinctKeys(fileId: string, runs: seq<seq<Emitted>>)
    requires OffsetsNatural(runs)
  {
    forall c, i, d, k :: 0 <= c < |runs| && 0 <= i < |runs[c]| && 0 <= d < |runs| && 0 <= k < |runs[d]| ==>
      KeyOf(fileId, runs[c][i]) == KeyOf(fileId, runs[d][k]) ==> c == d && i == k
  }

  lemma RunsNatural(js: Decoder, f: seq<byte>, nominal: int, limit: int, jobs: seq<ChunkJob>, maxChunkBytes: int,
                    runs: seq<seq<Emitted>>)
    requires Ready(js, f, nominal, limit, jobs, maxChunkBytes) && AllPublish(js, f, jobs, maxChunkBytes, runs)
    ensures OffsetsNatural(runs)
  {
    forall c, i | 0 <= c < |runs| && 0 <= i < |runs[c]| ensures runs[c][i].publishedOffset >= 0 {
      var j := jobs[c];
      OneOffset(js, f, nominal, limit, jobs, maxChunkBytes, runs, c, j);
      assert OwnedOf(js, f, j)[i] in OwnedOf(js, f, j);
      PublishedBetween(js, f, limit, j, OwnedOf(js, f, j)[i]);
    }
  }

  /** So it is for their ids. */
  lemma DistinctIdsIff(js: Decoder, f: seq<byte>, nominal: int, limit: int, jobs: seq<ChunkJob>, maxChunkBytes: int,
                       runs: seq<seq<Emitted>>, fileId: string)
    requires Ready(js, f, nominal, limit, jobs, maxChunkBytes) && AllPublish(js, f, jobs, maxChunkBytes, runs)
    ensures OffsetsNatural(runs)
    ensures DistinctKeys(fileId, runs) <==> NeighboursApart(js, f, limit, jobs)
  {
    RunsNatural(js, f, nominal, limit, jobs, maxChunkBytes, runs);
    DistinctOffsetsIff(js, f, nominal, limit, jobs, maxChunkBytes, runs);
    KeysAreOffsets(fileId, runs);
  }

  lemma KeysAreOffsets(fileId: string, runs: seq<seq<Emitted>>)
    requires OffsetsNatural(runs)
    ensures DistinctKeys(fileId, runs) <==> DistinctOffsets(runs)
  {
    forall c, i, d, k | 0 <= c < |runs| && 0 <= i < |runs[c]| && 0 <= d < |runs| && 0 <= k < |runs[d]|
      ensures KeyOf(fileId, runs[c][i]) == KeyOf(fileId, runs[d][k])
              <==> runs[c][i].publishedOffset == runs[d][k].publishedOffset
    {
      Identities.SameKeyIffSameOffset(fileId, runs[c][i].publishedOffset, runs[d][k].publishedOffset);
    }
  }
}
