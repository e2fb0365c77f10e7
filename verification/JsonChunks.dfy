/** Reading a JSON array chunk by chunk equals scanning it whole. */
module JsonChunks {
  import opened Bytes
  import opened Sequences
  import opened Jobs
  import opened TextPlan
  import opened JsonPlan
  import opened JsonScan
  import opened JsonWindows

  /** One published element: where it starts in the file, the byte offset it is
      published with, and its text. */
  datatype Emitted = Emitted(fileOffset: int, publishedOffset: int, raw: seq<byte>)

  // An element's bytes.
  function TextAt(f: seq<byte>, e: Element): seq<byte> { if e.start <= e.end <= |f| then f[e.start..e.end] else [] }

  // ---- One run ----------------------------------------------------------------------

  // The first position of [i, n) with a match, or 0.
  function Aligned(at: nat -> Option<nat>, i: nat, n: nat): (r: nat)
    requires i <= n
    ensures r <= n
    ensures at(r).Some? && i <= r < n ==> forall k :: i <= k < r ==> at(k).None?
    ensures !(i <= r < n && at(r).Some?) ==> r == 0 && forall k :: i <= k < n ==> at(k).None?
    decreases n - i
  {
    if i == n then 0 else if at(i).Some? then i else Aligned(at, i + 1, n)
  }

  /** How many bytes to drop so that the scan starts outside strings. */
  method AlignJSONRead(js: Decoder, data: seq<byte>) returns (dropped: nat)
    ensures dropped == Aligned(Matches(js, data, |data|), 0, |data|)
  {
    var offset := 0;
    ghost var at := Matches(js, data, |data|);
    while offset < |data|
      invariant offset <= |data| && Aligned(at, 0, |data|) == Aligned(at, offset, |data|)
    {
      var aligned := false;
      if data[offset] == OPEN { aligned := IsAligned(js, data, offset); }
      assert at(offset) == Match(js, data, offset, |data|);
      if aligned { return offset; }
      offset := offset + 1;
    }
    return 0;
  }

  // Whether the scan from here finds its first object right here.
  method IsAligned(js: Decoder, data: seq<byte>, offset: nat) returns (aligned: bool)
    requires offset < |data|
    ensures aligned <==> Match(js, data, offset, |data|).Some?
  {
    var rest := data[offset..];
    var starts := FindJSONObjectStarts(js, rest);
    FirstFound(js, data, offset, rest, starts);
    aligned := starts != [] && starts[0].start == 0;
  }

  lemma FirstFound(js: Decoder, data: seq<byte>, offset: nat, w: seq<byte>, starts: seq<Element>)
    requires offset < |data| && w == data[offset..|data|] && starts == Elements(Matches(js, w, |w|), w, 0, |w|, Out)
    ensures starts != [] && starts[0].start == 0 <==> Match(js, data, offset, |data|).Some?
  {
    MatchShift(js, data, offset, |data|, w, 0, offset);
    var at := Matches(js, w, |w|);
    assert at(0) == Match(js, w, 0, |w|);
    FirstStart(at, w);
  }

  lemma FirstStart(at: nat -> Option<nat>, w: seq<byte>)
    requires w != []
    ensures var starts := Elements(at, w, 0, |w|, Out); starts != [] && starts[0].start == 0 <==> at(0).Some?
  {
    var rest := Elements(at, w, 1, |w|, Step(Out, w[0]));
    ElementsBounded(at, w, 1, |w|, Step(Out, w[0]));
    assert Elements(at, w, 0, |w|, Out) == ElementAt(at, 0, Out) + rest;
    if rest != [] { assert rest[0] in rest; }
  }

  /** Elements of w, what is left of a window once its first bytes are dropped,
      that start in the owned range; one above the limit is an error. */
  function Emit(w: seq<byte>, dropped: int, readStart: int, j: ChunkJob,
                elements: seq<Element>): Result<seq<Emitted>, RunError> {
    if elements == [] then Ok([]) else
    var e, rest := elements[0], Emit(w, dropped, readStart, j, elements[1..]);
    var fileOffset := readStart + dropped + e.start;
    if !(j.startByte <= fileOffset <= j.endByteInclusive) then rest
    else if e.end - e.start > j.maxBytesPerElement then Err(ReadFailed)
    else if rest.Err? then rest
    else Ok([EmitOne(w, dropped, readStart, e)] + rest.value)
  }

  // The callback is given the offset in w, which publication adds to readStart.
  function EmitOne(w: seq<byte>, dropped: int, readStart: int, e: Element): Emitted {
    Emitted(readStart + dropped + e.start, readStart + e.start, TextAt(w, e))
  }

  ghost function ReadAligned(js: Decoder, w: seq<byte>, dropped: int, readStart: int,
                             j: ChunkJob): Result<seq<Emitted>, RunError> {
    Emit(w, dropped, readStart, j, Elements(Matches(js, w, |w|), w, 0, |w|, Out))
  }

  ghost function ReadWindow(js: Decoder, data: seq<byte>, readStart: int, j: ChunkJob): Result<seq<Emitted>, RunError> {
    var dropped := Aligned(Matches(js, data, |data|), 0, |data|);
    ReadAligned(js, data[dropped..], dropped, readStart, j)
  }

  method ReadJSONArray(js: Decoder, data: seq<byte>, readStart: int, j: ChunkJob)
    returns (r: Result<seq<Emitted>, RunError>)
    ensures r == ReadWindow(js, data, readStart, j)
  {
    var dropped := AlignJSONRead(js, data);
    var w, aligned := data[dropped..], readStart + dropped;
    var elements := FindJSONObjectStarts(js, w);
    var emitted: seq<Emitted> := [];
    ghost var rest, all := elements, Emit(w, dropped, readStart, j, elements);
    assert all.Ok? ==> [] + all.value == all.value;
    for n := 0 to |elements|
      invariant rest == elements[n..]
      invariant all == Prepend(emitted, Emit(w, dropped, readStart, j, rest))
    {
      var e := elements[n];
      assert rest[0] == e;
      EmitNext(w, dropped, readStart, j, emitted, rest);
      rest := rest[1..];
      var fileOffset := aligned + e.start;
      if j.startByte <= fileOffset <= j.endByteInclusive {
        if e.end - e.start > j.maxBytesPerElement { return Err(ReadFailed); }
        emitted := emitted + [EmitOne(w, dropped, readStart, e)];
      }
    }
    assert emitted + [] == emitted;
    return Ok(emitted);
  }

  function Prepend(done: seq<Emitted>, r: Result<seq<Emitted>, RunError>): Result<seq<Emitted>, RunError> {
    if r.Err? then r else Ok(done + r.value)
  }

  lemma PrependOne(done: seq<Emitted>, x: Emitted, r: Result<seq<Emitted>, RunError>)
    ensures Prepend(done, Prepend([x], r)) == Prepend(done + [x], r)
  {
    if r.Ok? { assert done + ([x] + r.value) == done + [x] + r.value; }
  }

  lemma EmitNext(w: seq<byte>, dropped: int, readStart: int, j: ChunkJob, done: seq<Emitted>, elements: seq<Element>)
    requires elements != []
    ensures var e, owned := elements[0], j.startByte <= readStart + dropped + elements[0].start <= j.endByteInclusive;
      Prepend(done, Emit(w, dropped, readStart, j, elements))
         == if owned && e.end - e.start > j.maxBytesPerElement then Err(ReadFailed)
            else Prepend(if owned then done + [EmitOne(w, dropped, readStart, e)] else done,
                         Emit(w, dropped, readStart, j, elements[1..]))
  {
    PrependOne(done, EmitOne(w, dropped, readStart, elements[0]), Emit(w, dropped, readStart, j, elements[1..]));
  }

  /** The first byte of the window, and its bytes. */
  function OpenWindow(f: seq<byte>, j: ChunkJob, maxChunkBytes: int): Result<(int, seq<byte>), RunError> {
    if !Valid(j, maxChunkBytes) then Err(InvalidJob) else
    var range := ChunkReadRange(j);
    if range.Err? then Err(range.error) else
    var window := OpenChunkRange(f, range.value.0, range.value.1);
    if window.Err? then Err(window.error) else Ok((range.value.0, window.value))
  }

  ghost function JsonRun(js: Decoder, f: seq<byte>, j: ChunkJob, maxChunkBytes: int): Result<seq<Emitted>, RunError> {
    var window := OpenWindow(f, j, maxChunkBytes);
    if window.Err? then Err(window.error) else ReadWindow(js, window.value.1, window.value.0, j)
  }

  method ProcessJson(js: Decoder, f: seq<byte>, j: ChunkJob, maxChunkBytes: int)
    returns (r: Result<seq<Emitted>, RunError>)
    ensures r == JsonRun(js, f, j, maxChunkBytes)
  {
    var window := OpenWindow(f, j, maxChunkBytes);
    if window.Err? { return Err(window.error); }
    r := ReadJSONArray(js, window.value.1, window.value.0, j);
  }

  // ---- The elements a run owns -----------------------------------------------------------

  function Kept(elements: seq<Element>, lo: int, hi: int): seq<Element> {
    if elements == [] then []
    else (if lo <= elements[0].start < hi then [elements[0]] else []) + Kept(elements[1..], lo, hi)
  }

  lemma {:induction false} KeptConcat(x: seq<Element>, y: seq<Element>, lo: int, hi: int)
    ensures Kept(x + y, lo, hi) == Kept(x, lo, hi) + Kept(y, lo, hi)
  {
    if x == [] {
      assert x + y == y;
    } else {
      KeptConcat(x[1..], y, lo, hi);
      assert (x + y)[1..] == x[1..] + y && (x + y)[0] == x[0];
      ThreeParts(if lo <= x[0].start < hi then [x[0]] else [], Kept(x[1..], lo, hi), Kept(y, lo, hi));
    }
  }

  lemma ThreeParts(x: seq<Element>, y: seq<Element>, z: seq<Element>)
    ensures x + (y + z) == x + y + z
  {
  }

  lemma {:induction false} KeptAll(x: seq<Element>, lo: int, hi: int)
    ensures (forall e :: e in x ==> lo <= e.start < hi) ==> Kept(x, lo, hi) == x
    ensures (forall e :: e in x ==> !(lo <= e.start < hi)) ==> Kept(x, lo, hi) == []
  {
    if x != [] {
      KeptAll(x[1..], lo, hi);
      assert x == [x[0]] + x[1..];
    }
  }

  // A scan over [i, n) keeps what starts in [lo, hi).
  lemma KeptRange(at: nat -> Option<nat>, f: seq<byte>, i: nat, lo: nat, hi: nat, n: nat)
    requires i <= lo <= hi <= n <= |f|
    ensures Kept(Elements(at, f, i, n, LexAt(f, i)), lo, hi) == Elements(at, f, lo, hi, LexAt(f, lo))
  {
    var before, owned := Elements(at, f, i, lo, LexAt(f, i)), Elements(at, f, lo, hi, LexAt(f, lo));
    var after := Elements(at, f, hi, n, LexAt(f, hi));
    ElementsSplit(at, f, i, lo, n);
    ElementsSplit(at, f, lo, hi, n);
    ElementsBounded(at, f, i, lo, LexAt(f, i));
    ElementsBounded(at, f, lo, hi, LexAt(f, lo));
    ElementsBounded(at, f, hi, n, LexAt(f, hi));
    KeptAll(before, lo, hi);
    KeptAll(owned, lo, hi);
    KeptAll(after, lo, hi);
    KeptConcat(before, owned + after, lo, hi);
    KeptConcat(owned, after, lo, hi);
  }

  // What a scan that starts at o keeps, when nothing matches before o.
  lemma KeptFromAligned(at: nat -> Option<nat>, f: seq<byte>, o: nat, lo: nat, hi: nat, n: nat)
    requires o <= n <= |f| && lo <= hi <= n && forall k :: lo <= k < hi && k < o ==> at(k).None?
    ensures Kept(Elements(at, f, o, n, LexAt(f, o)), lo, hi) == Elements(at, f, lo, hi, LexAt(f, lo))
  {
    if o <= lo {
      KeptRange(at, f, o, lo, hi, n);
    } else if o <= hi {
      KeptRange(at, f, o, o, hi, n);
      ElementsBounded(at, f, o, n, LexAt(f, o));
      KeptLower(Elements(at, f, o, n, LexAt(f, o)), lo, o, hi);
      ElementsSplit(at, f, lo, o, hi);
      NoElements(at, f, lo, o, LexAt(f, lo));
    } else {
      ElementsBounded(at, f, o, n, LexAt(f, o));
      KeptAll(Elements(at, f, o, n, LexAt(f, o)), lo, hi);
      NoElements(at, f, lo, hi, LexAt(f, lo));
    }
  }

  lemma {:induction false} KeptLower(x: seq<Element>, lo: nat, o: nat, hi: nat)
    requires lo <= o && forall e :: e in x ==> o <= e.start
    ensures Kept(x, lo, hi) == Kept(x, o, hi)
  {
    if x != [] { KeptLower(x[1..], lo, o, hi); }
  }

  // ---- What a run publishes -----------------------------------------------------------------

  /** The elements, with the offsets a run publishes them with: the window's start
      plus the distance from the first aligned byte. */
  function Records(f: seq<byte>, aligned: nat, readStart: int, elements: seq<Element>): seq<Emitted> {
    if elements == [] then []
    else
      var e := elements[0];
      [Emitted(e.start, readStart + (e.start - aligned), TextAt(f, e))] + Records(f, aligned, readStart, elements[1..])
  }

  ghost predicate Short(elements: seq<Element>, limit: int) { forall e :: e in elements ==> e.end - e.start <= limit }
  ghost predicate Inside(elements: seq<Element>, n: nat) { forall e :: e in elements ==> e.start <= e.end <= n }

  lemma ShiftedText(f: seq<byte>, o: nat, b: nat, w: seq<byte>, e: Element, x: Element)
    requires o <= b <= |f| && w == f[o..b] && e.start <= e.end <= |w| && x == Element(o + e.start, o + e.end)
    ensures TextAt(w, e) == TextAt(f, x)
  {
    SliceOfSlice(f, o, b, e.start, e.end);
  }

  lemma {:induction false} EmitIs(f: seq<byte>, o: nat, b: nat, w: seq<byte>, dropped: nat, readStart: int, j: ChunkJob,
                                  elements: seq<Element>, kept: seq<Element>, lo: nat, hi: nat)
    requires lo == j.startByte && hi == j.endByteInclusive + 1
    requires o <= b <= |f| && w == f[o..b] && Inside(elements, |w|) && o == readStart + dropped
    requires kept == Kept(Shifted(o, elements), lo, hi) && Short(kept, j.maxBytesPerElement)
    ensures Emit(w, dropped, readStart, j, elements) == Ok(Records(f, o, readStart, kept))
  {
    if elements != [] {
      var e, rest, kept' := elements[0], elements[1..], Kept(Shifted(o, elements[1..]), lo, hi);
      var x := Element(o + e.start, o + e.end);
      KeptFirst(o, elements, lo, hi, x, kept, kept');
      EmitIs(f, o, b, w, dropped, readStart, j, rest, kept', lo, hi);
      EmitStep(f, o, b, w, dropped, readStart, j, elements, e, x, kept, kept', lo, hi);
    }
  }

  lemma KeptFirst(o: nat, elements: seq<Element>, lo: nat, hi: nat, x: Element, kept: seq<Element>, kept': seq<Element>)
    requires elements != [] && x == Element(o + elements[0].start, o + elements[0].end)
    requires kept == Kept(Shifted(o, elements), lo, hi) && kept' == Kept(Shifted(o, elements[1..]), lo, hi)
    ensures kept == if lo <= x.start < hi then [x] + kept' else kept'
    ensures elements[0] in elements
  {
    assert Shifted(o, elements)[1..] == Shifted(o, elements[1..]);
    assert [] + kept' == kept';
  }

  lemma EmitStep(f: seq<byte>, o: nat, b: nat, w: seq<byte>, dropped: nat, readStart: int, j: ChunkJob,
                 elements: seq<Element>,
                 e: Element, x: Element, kept: seq<Element>, kept': seq<Element>, lo: nat, hi: nat)
    requires lo == j.startByte && hi == j.endByteInclusive + 1 && elements != [] && e == elements[0]
    requires o <= b <= |f| && w == f[o..b] && e.start <= e.end <= |w| && o == readStart + dropped
    requires x == Element(o + e.start, o + e.end)
    requires kept == (if lo <= x.start < hi then [x] + kept' else kept') && Short(kept, j.maxBytesPerElement)
    requires Emit(w, dropped, readStart, j, elements[1..]) == Ok(Records(f, o, readStart, kept'))
    ensures Emit(w, dropped, readStart, j, elements) == Ok(Records(f, o, readStart, kept))
  {
    EmitFirst(w, dropped, readStart, j, elements, Records(f, o, readStart, kept'));
    if lo <= x.start < hi {
      assert kept[0] == x && kept[1..] == kept' && x in kept;
      ShiftedText(f, o, b, w, e, x);
      assert EmitOne(w, dropped, readStart, e) == Emitted(x.start, readStart + (x.start - o), TextAt(f, x));
    }
  }

  lemma EmitFirst(w: seq<byte>, dropped: nat, readStart: int, j: ChunkJob, elements: seq<Element>, rest: seq<Emitted>)
    requires elements != [] && Emit(w, dropped, readStart, j, elements[1..]) == Ok(rest)
    ensures var e := elements[0];
      var owned := j.startByte <= readStart + dropped + e.start <= j.endByteInclusive;
      owned && e.end - e.start <= j.maxBytesPerElement ==>
        Emit(w, dropped, readStart, j, elements) == Ok([EmitOne(w, dropped, readStart, e)] + rest)
    ensures !(j.startByte <= readStart + dropped + elements[0].start <= j.endByteInclusive) ==>
        Emit(w, dropped, readStart, j, elements) == Ok(rest)
  {
  }

  // ---- One run ------------------------------------------------------------------------------

  /** The whole file scanned in one pass. */
  ghost function Whole(js: Decoder, f: seq<byte>): seq<Element> { Elements(Matches(js, f, |f|), f, 0, |f|, Out) }

  /** The objects of the file that start in [lo, hi). */
  ghost function OwnedBy(js: Decoder, f: seq<byte>, lo: nat, hi: nat): seq<Element>
    requires lo <= hi <= |f|
  {
    Elements(Matches(js, f, |f|), f, lo, hi, LexAt(f, lo))
  }

  /** A JSON text whose objects are within the limit, and a name to find them by. */
  ghost predicate Scannable(js: Decoder, f: seq<byte>, limit: int) {
    WellQuoted(f) && PlainName(js) && Short(Whole(js, f), limit)
  }

  lemma MatchShort(js: Decoder, f: seq<byte>, limit: int, k: nat)
    requires Scannable(js, f, limit) && k < |f| && Match(js, f, k, |f|).Some?
    ensures Match(js, f, k, |f|).value - k <= limit
  {
    var at := Matches(js, f, |f|);
    assert at(k) == Match(js, f, k, |f|);
    MatchOutside(js, f, k, |f|);
    ElementListed(at, f, 0, k, |f|);
  }

  // Realignment drops no object, and stops at one if there is any.
  lemma AlignedMeans(seen: nat -> Option<nat>, at: nat -> Option<nat>, a: nat, n: nat, dropped: nat, o: nat)
    requires forall i :: 0 <= i < n ==> ShiftedAt(seen, at, a, i)
    requires dropped == Aligned(seen, 0, n) && o == a + dropped
    ensures forall k :: a <= k < o ==> at(k).None?
    ensures (dropped < n && at(o).Some?) || (dropped == 0 && forall k :: o <= k < a + n ==> at(k).None?)
  {
    forall k | a <= k < a + n ensures at(k).None? <==> seen(k - a).None? { assert ShiftedAt(seen, at, a, k - a); }
    assert dropped < n ==> o - a == dropped;
  }

  // So the scan of the window is in step with a scan of the whole file.
  lemma AlignedScan(js: Decoder, f: seq<byte>, o: nat, b: nat, at: nat -> Option<nat>)
    requires WellQuoted(f) && PlainName(js) && o <= b <= |f| && at == Matches(js, f, b)
    requires (o < b && at(o).Some?) || forall k :: o <= k < b ==> at(k).None?
    ensures Elements(at, f, o, b, Out) == Elements(at, f, o, b, LexAt(f, o))
  {
    if o < b && at(o).Some? {
      assert at(o) == Match(js, f, o, b);
      MatchOutside(js, f, o, b);
    } else {
      NoElements(at, f, o, b, Out);
      NoElements(at, f, o, b, LexAt(f, o));
    }
  }

  // What the window's elements that the chunk owns are.
  lemma KeptOwned(js: Decoder, f: seq<byte>, limit: int, a: nat, b: nat, o: nat, at: nat -> Option<nat>, lo: nat,
                  hi: nat, owned: seq<Element>)
    requires Scannable(js, f, limit) && a <= lo <= hi <= b <= |f| && o <= b && at == Matches(js, f, b)
    requires b == |f| || hi - 1 + limit <= b
    requires (forall k :: a <= k < o ==> at(k).None?) && owned == OwnedBy(js, f, lo, hi)
    ensures Kept(Elements(at, f, o, b, LexAt(f, o)), lo, hi) == owned
  {
    KeptFromAligned(at, f, o, lo, hi, b);
    forall k | lo <= k < hi && Match(js, f, k, |f|).Some? ensures Match(js, f, k, |f|).value <= b {
      MatchShort(js, f, limit, k);
    }
    ElementsWider(js, f, lo, hi, b, LexAt(f, lo));
  }

  // The elements found in a realigned window, and those of them the chunk owns.
  lemma WindowOwned(js: Decoder, f: seq<byte>, limit: int, a: nat, b: nat, data: seq<byte>, dropped: nat, o: nat,
                    w: seq<byte>, elements: seq<Element>, lo: nat, hi: nat, owned: seq<Element>)
    requires Scannable(js, f, limit) && a <= lo < hi <= b <= |f| && data == f[a..b] && (b == |f| || hi - 1 + limit <= b)
    requires dropped == Aligned(Matches(js, data, |data|), 0, |data|) && o == a + dropped && w == f[o..b] && o <= b
    requires elements == Elements(Matches(js, w, |w|), w, 0, |w|, Out) && owned == OwnedBy(js, f, lo, hi)
    ensures Kept(Shifted(o, elements), lo, hi) == owned
    ensures forall k :: a <= k < o ==> Match(js, f, k, b).None?
    ensures owned != [] ==> o < b && Match(js, f, o, b).Some?
  {
    var seen, at := Matches(js, data, |data|), Matches(js, f, b);
    forall i | 0 <= i < |data| ensures ShiftedAt(seen, at, a, i) {
      MatchesShift(js, f, a, b, data, i, a + i, seen, at);
    }
    AlignedMeans(seen, at, a, |data|, dropped, o);
    AlignedScan(js, f, o, b, at);
    WindowElements(js, f, o, b, w);
    KeptOwned(js, f, limit, a, b, o, at, lo, hi, owned);
    if o < b && at(o).Some? { assert at(o) == Match(js, f, o, b); } else { NothingKept(at, f, o, b, lo, hi); }
    forall k | a <= k < o ensures Match(js, f, k, b).None? { assert at(k) == Match(js, f, k, b); }
  }

  lemma AlignedPublishes(js: Decoder, f: seq<byte>, j: ChunkJob, a: nat, dropped: nat, o: nat, b: nat, w: seq<byte>,
                         elements: seq<Element>, owned: seq<Element>, lo: nat, hi: nat)
    requires lo == j.startByte && hi == j.endByteInclusive + 1
    requires o <= b <= |f| && w == f[o..b] && o == a + dropped
    requires elements == Elements(Matches(js, w, |w|), w, 0, |w|, Out)
    requires owned == Kept(Shifted(o, elements), lo, hi) && Short(owned, j.maxBytesPerElement)
    ensures ReadAligned(js, w, dropped, a, j) == Ok(Records(f, o, a, owned))
  {
    ElementsBounded(Matches(js, w, |w|), w, 0, |w|, Out);
    EmitIs(f, o, b, w, dropped, a, j, elements, owned, lo, hi);
  }

  lemma DroppedSlice(f: seq<byte>, a: nat, b: nat, data: seq<byte>, dropped: nat, o: nat)
    requires a <= b <= |f| && data == f[a..b] && dropped <= |data| && o == a + dropped
    ensures o <= b && data[dropped..] == f[o..b]
  {
    SliceOfSlice(f, a, b, dropped, b - a);
    assert data[dropped..] == data[dropped..b - a];
  }

  // One window: what is published, and the byte its scan began at.
  lemma WindowPublishes(js: Decoder, f: seq<byte>, j: ChunkJob, a: nat, b: nat, data: seq<byte>, lo: nat, hi: nat,
                        owned: seq<Element>)
    returns (aligned: nat, records: seq<Emitted>)
    requires Scannable(js, f, j.maxBytesPerElement) && a <= lo < hi <= b <= |f| && data == f[a..b]
    requires lo == j.startByte && hi == j.endByteInclusive + 1 && owned == OwnedBy(js, f, lo, hi)
    requires b == |f| || hi - 1 + j.maxBytesPerElement <= b
    ensures ReadWindow(js, data, a, j) == Ok(records) && records == Records(f, aligned, a, owned)
    ensures a <= aligned <= b && forall k :: a <= k < aligned ==> Match(js, f, k, b).None?
    ensures owned != [] ==> aligned < b && Match(js, f, aligned, b).Some?
  {
    var dropped := Aligned(Matches(js, data, |data|), 0, |data|);
    var w := data[dropped..];
    aligned := a + dropped;
    DroppedSlice(f, a, b, data, dropped, aligned);
    var elements := Elements(Matches(js, w, |w|), w, 0, |w|, Out);
    WindowOwned(js, f, j.maxBytesPerElement, a, b, data, dropped, aligned, w, elements, lo, hi, owned);
    OwnedShort(js, f, lo, hi, j.maxBytesPerElement);
    AlignedPublishes(js, f, j, a, dropped, aligned, b, w, elements, owned, lo, hi);
    records := Records(f, aligned, a, owned);
  }

  lemma NothingKept(at: nat -> Option<nat>, f: seq<byte>, o: nat, b: nat, lo: nat, hi: nat)
    requires o <= b <= |f| && forall k :: o <= k < b ==> at(k).None?
    ensures Kept(Elements(at, f, o, b, LexAt(f, o)), lo, hi) == []
  {
    NoElements(at, f, o, b, LexAt(f, o));
  }

  ghost predicate IsRunnable(js: Decoder, f: seq<byte>, j: ChunkJob, maxChunkBytes: int) {
    && j.dataType.Json? && Valid(j, maxChunkBytes) && InFile(j) && j.fileSize == |f|
    && j.endByteInclusive + j.maxBytesPerElement <= MAX_INT64 && Scannable(js, f, j.maxBytesPerElement)
  }

  lemma WindowOpens(f: seq<byte>, j: ChunkJob, maxChunkBytes: int, a: nat, b: nat)
    requires j.dataType.Json? && Valid(j, maxChunkBytes) && InFile(j) && j.fileSize == |f|
    requires j.endByteInclusive + j.maxBytesPerElement <= MAX_INT64
    requires a == Max0(j.startByte - j.maxBytesPerElement)
    requires b == Min(j.endByteInclusive + j.maxBytesPerElement, |f| - 1) + 1
    ensures a <= j.startByte < b <= |f| && OpenWindow(f, j, maxChunkBytes) == Ok((a, f[a..b]))
  {
  }

  /** The first object of the file that starts at a or later. */
  ghost predicate IsFirstObject(js: Decoder, f: seq<byte>, a: nat, first: nat) {
    && a <= first < |f| && Match(js, f, first, |f|).Some?
    && forall k :: a <= k < first ==> Match(js, f, k, |f|).None?
  }

  // The first object the window shows is the first the file has.
  lemma FirstInFile(js: Decoder, f: seq<byte>, limit: int, a: nat, b: nat, o: nat, lo: nat, hi: nat,
                    owned: seq<Element>)
    requires Scannable(js, f, limit) && a <= lo < hi <= b <= |f| && (b == |f| || hi - 1 + limit <= b)
    requires a <= o < b && Match(js, f, o, b).Some? && forall k :: a <= k < o ==> Match(js, f, k, b).None?
    requires owned == OwnedBy(js, f, lo, hi) && owned != []
    ensures IsFirstObject(js, f, a, o)
  {
    MatchWider(js, f, o, b, |f|);
    var at, e := Matches(js, f, |f|), owned[0];
    ElementsBounded(at, f, lo, hi, LexAt(f, lo));
    assert e in owned && at(e.start) == Match(js, f, e.start, |f|);
    MatchSeen(js, f, limit, e.start, b, hi);
    assert o <= e.start;
    forall k | a <= k < o ensures Match(js, f, k, |f|).None? {
      if Match(js, f, k, |f|).Some? { MatchSeen(js, f, limit, k, b, hi); }
    }
  }

  // An object that starts before hi is complete before b.
  lemma MatchSeen(js: Decoder, f: seq<byte>, limit: int, k: nat, b: nat, hi: nat)
    requires Scannable(js, f, limit) && k < hi <= b <= |f| && (b == |f| || hi - 1 + limit <= b)
    requires Match(js, f, k, |f|).Some?
    ensures Match(js, f, k, b) == Match(js, f, k, |f|)
  {
    MatchShort(js, f, limit, k);
    MatchWider(js, f, k, b, |f|);
  }

  /** A chunk's run succeeds and publishes exactly the objects that start in its
      range, even when its window begins inside a string. aligned: the byte at
      which its scan began. */
  lemma JsonRunPublishes(js: Decoder, f: seq<byte>, j: ChunkJob, maxChunkBytes: int, a: nat, lo: nat, hi: nat,
                         owned: seq<Element>)
    returns (aligned: nat, records: seq<Emitted>)
    requires IsRunnable(js, f, j, maxChunkBytes) && a == Max0(j.startByte - j.maxBytesPerElement)
    requires lo == j.startByte && hi == j.endByteInclusive + 1 && owned == OwnedBy(js, f, lo, hi)
    ensures JsonRun(js, f, j, maxChunkBytes) == Ok(records) && records == Records(f, aligned, a, owned)
    ensures owned != [] ==> IsFirstObject(js, f, a, aligned)
  {
    var b: nat := Min(j.endByteInclusive + j.maxBytesPerElement, |f| - 1) + 1;
    var data := f[a..b];
    WindowOpens(f, j, maxChunkBytes, a, b);
    aligned, records := WindowPublishes(js, f, j, a, b, data, lo, hi, owned);
    if owned != [] { FirstInFile(js, f, j.maxBytesPerElement, a, b, aligned, lo, hi, owned); }
  }

  lemma OwnedShort(js: Decoder, f: seq<byte>, lo: nat, hi: nat, limit: int)
    requires lo <= hi <= |f| && Scannable(js, f, limit)
    ensures Short(OwnedBy(js, f, lo, hi), limit)
  {
    ElementsBounded(Matches(js, f, |f|), f, lo, hi, LexAt(f, lo));
    forall e | e in OwnedBy(js, f, lo, hi) ensures e.end - e.start <= limit { MatchShort(js, f, limit, e.start); }
  }

  // ---- All runs ----------------------------------------------------------------------------------

  function Texts(f: seq<byte>, elements: seq<Element>): seq<seq<byte>> {
    if elements == [] then [] else [TextAt(f, elements[0])] + Texts(f, elements[1..])
  }

  function Raws(emitted: seq<Emitted>): seq<seq<byte>> {
    if emitted == [] then [] else [emitted[0].raw] + Raws(emitted[1..])
  }

  lemma {:induction false} RecordsRaws(f: seq<byte>, aligned: nat, readStart: int, elements: seq<Element>,
                                       records: seq<Emitted>)
    requires records == Records(f, aligned, readStart, elements)
    ensures Raws(records) == Texts(f, elements)
  {
    if elements != [] { RecordsRaws(f, aligned, readStart, elements[1..], records[1..]); }
  }

  lemma {:induction false} TextsConcat(f: seq<byte>, x: seq<Element>, y: seq<Element>)
    ensures Texts(f, x + y) == Texts(f, x) + Texts(f, y)
  {
    if x == [] {
      assert x + y == y;
    } else {
      TextsConcat(f, x[1..], y);
      assert (x + y)[1..] == x[1..] + y;
    }
  }

  lemma {:induction false} RawsConcat(x: seq<Emitted>, y: seq<Emitted>)
    ensures Raws(x + y) == Raws(x) + Raws(y)
  {
    if x == [] {
      assert x + y == y;
    } else {
      RawsConcat(x[1..], y);
      assert (x + y)[1..] == x[1..] + y;
    }
  }

  ghost predicate Publishes(js: Decoder, f: seq<byte>, j: ChunkJob, maxChunkBytes: int, run: seq<Emitted>) {
    JsonRun(js, f, j, maxChunkBytes) == Ok(run)
  }

  ghost predicate Ready(js: Decoder, f: seq<byte>, nominal: int, limit: int, jobs: seq<ChunkJob>, maxChunkBytes: int) {
    && IsJsonPlan(|f|, nominal, limit, jobs) && nominal <= WorkerMaximum(maxChunkBytes)
    && |f| + limit <= MAX_INT64 && Scannable(js, f, limit)
  }

  lemma PlannedIsRunnable(js: Decoder, f: seq<byte>, nominal: int, limit: int, jobs: seq<ChunkJob>, maxChunkBytes: int,
                          j: ChunkJob, c: nat)
    requires Ready(js, f, nominal, limit, jobs, maxChunkBytes) && c < |jobs| && j == jobs[c]
    ensures IsRunnable(js, f, j, maxChunkBytes)
  {
    assert IsJsonJob(j, c, |f|, nominal, limit);
  }

  lemma RunTexts(js: Decoder, f: seq<byte>, j: ChunkJob, maxChunkBytes: int, lo: nat, hi: nat, owned: seq<Element>,
                 run: seq<Emitted>)
    requires IsRunnable(js, f, j, maxChunkBytes) && lo == j.startByte && hi == j.endByteInclusive + 1
    requires owned == OwnedBy(js, f, lo, hi)
    requires Publishes(js, f, j, maxChunkBytes, run)
    ensures Raws(run) == Texts(f, owned)
  {
    var a := Max0(j.startByte - j.maxBytesPerElement);
    var aligned, records := JsonRunPublishes(js, f, j, maxChunkBytes, a, lo, hi, owned);
    RecordsRaws(f, aligned, a, owned, run);
  }

  lemma RawsOfRuns(runs: seq<seq<Emitted>>, k: nat, run: seq<Emitted>)
    requires k < |runs| && run == runs[k]
    ensures Raws(Flatten(runs[..k + 1])) == Raws(Flatten(runs[..k])) + Raws(run)
  {
    assert runs[..k + 1] == runs[..k] + [run];
    FlattenAppend(runs[..k], run);
    RawsConcat(Flatten(runs[..k]), run);
  }

  lemma {:induction false} FirstRuns(js: Decoder, f: seq<byte>, nominal: int, limit: int, jobs: seq<ChunkJob>,
                                     maxChunkBytes: int, runs: seq<seq<Emitted>>, k: nat, end: nat)
    requires Ready(js, f, nominal, limit, jobs, maxChunkBytes) && |runs| == |jobs|
    requires forall c {:trigger runs[c]} :: 0 <= c < |jobs| ==> Publishes(js, f, jobs[c], maxChunkBytes, runs[c])
    requires k <= |jobs| && end == if k == 0 then 0 else jobs[k - 1].endByteInclusive + 1
    ensures end <= |f|
    ensures Raws(Flatten(runs[..k])) == Texts(f, OwnedBy(js, f, 0, end))
  {
    if k > 0 {
      var j, run := jobs[k - 1], runs[k - 1];
      var start: nat := j.startByte;
      FirstRuns(js, f, nominal, limit, jobs, maxChunkBytes, runs, k - 1, start);
      PlannedIsRunnable(js, f, nominal, limit, jobs, maxChunkBytes, j, k - 1);
      var before, owned := OwnedBy(js, f, 0, start), OwnedBy(js, f, start, end);
      RunTexts(js, f, j, maxChunkBytes, start, end, owned, run);
      RawsOfRuns(runs, k - 1, run);
      ElementsSplit(Matches(js, f, |f|), f, 0, start, end);
      assert OwnedBy(js, f, 0, end) == before + owned;
      TextsConcat(f, before, owned);
    }
  }

  /** The chunks of a plan together publish each element's text exactly once, in
      order: what one scan of the whole file finds. */
  lemma JsonChunksEqualWholeFile(js: Decoder, f: seq<byte>, nominal: int, limit: int, jobs: seq<ChunkJob>,
                                 maxChunkBytes: int, runs: seq<seq<Emitted>>)
    requires Ready(js, f, nominal, limit, jobs, maxChunkBytes) && |runs| == |jobs|
    requires forall c {:trigger runs[c]} :: 0 <= c < |jobs| ==> Publishes(js, f, jobs[c], maxChunkBytes, runs[c])
    ensures Raws(Flatten(runs)) == Texts(f, Whole(js, f))
  {
    FirstRuns(js, f, nominal, limit, jobs, maxChunkBytes, runs, |jobs|, |f|);
    assert runs[..|jobs|] == runs;
  }

  /** And every chunk does succeed. */
  lemma EveryChunkSucceeds(js: Decoder, f: seq<byte>, nominal: int, limit: int, jobs: seq<ChunkJob>,
                           maxChunkBytes: int, c: nat)
    requires Ready(js, f, nominal, limit, jobs, maxChunkBytes) && c < |jobs|
    ensures JsonRun(js, f, jobs[c], maxChunkBytes).Ok?
  {
    var j := jobs[c];
    PlannedIsRunnable(js, f, nominal, limit, jobs, maxChunkBytes, j, c);
    var lo: nat, hi: nat := j.startByte, j.endByteInclusive + 1;
    var a := Max0(j.startByte - j.maxBytesPerElement);
    var aligned, records := JsonRunPublishes(js, f, j, maxChunkBytes, a, lo, hi, OwnedBy(js, f, lo, hi));
  }

  // ---- Published offsets -------------------------------------------------------------------------

  lemma {:induction false} RecordsOffsets(f: seq<byte>, aligned: nat, readStart: int, elements: seq<Element>,
                                          records: seq<Emitted>)
    requires records == Records(f, aligned, readStart, elements)
    ensures |records| == |elements|
    ensures forall i :: 0 <= i < |records| ==>
      && records[i].fileOffset == elements[i].start
      && records[i].publishedOffset == elements[i].start - (aligned - readStart)
  {
    if elements != [] { RecordsOffsets(f, aligned, readStart, elements[1..], records[1..]); }
  }

  /** What is published as an element's byte offset: too small by the distance from
      the window's start to the first object in it. */
  lemma OffsetsAreShifted(js: Decoder, f: seq<byte>, j: ChunkJob, maxChunkBytes: int, a: nat, lo: nat, hi: nat,
                          owned: seq<Element>)
    returns (first: nat, records: seq<Emitted>)
    requires IsRunnable(js, f, j, maxChunkBytes) && a == Max0(j.startByte - j.maxBytesPerElement)
    requires lo == j.startByte && hi == j.endByteInclusive + 1 && owned == OwnedBy(js, f, lo, hi)
    ensures JsonRun(js, f, j, maxChunkBytes) == Ok(records) && |records| == |owned|
    ensures forall i :: 0 <= i < |records| ==>
      records[i].fileOffset == owned[i].start && records[i].publishedOffset == owned[i].start - (first - a)
    ensures owned != [] ==> IsFirstObject(js, f, a, first)
  {
    first, records := JsonRunPublishes(js, f, j, maxChunkBytes, a, lo, hi, owned);
    RecordsOffsets(f, first, a, owned, records);
  }

  /** So a chunk publishes its elements with their own offsets exactly when it owns
      none, or an object starts at the very first byte of its window. */
  lemma OffsetsExactIff(js: Decoder, f: seq<byte>, j: ChunkJob, maxChunkBytes: int, a: nat, lo: nat, hi: nat,
                        owned: seq<Element>)
    returns (records: seq<Emitted>)
    requires IsRunnable(js, f, j, maxChunkBytes) && a == Max0(j.startByte - j.maxBytesPerElement)
    requires lo == j.startByte && hi == j.endByteInclusive + 1 && owned == OwnedBy(js, f, lo, hi)
    ensures JsonRun(js, f, j, maxChunkBytes) == Ok(records)
    ensures (forall r :: r in records ==> r.publishedOffset == r.fileOffset) <==>
        owned == [] || Match(js, f, a, |f|).Some?
  {
    var first;
    first, records := OffsetsAreShifted(js, f, j, maxChunkBytes, a, lo, hi, owned);
    if owned != [] {
      assert records[0] in records;
      assert Match(js, f, a, |f|).Some? <==> first == a;
    }
  }

  /** In a text that does not begin with an object, such as an array, every element
      of the first chunk is published with an offset too small. */
  lemma FirstChunkOffsetsLow(js: Decoder, f: seq<byte>, j: ChunkJob, maxChunkBytes: int) returns (records: seq<Emitted>)
    requires IsRunnable(js, f, j, maxChunkBytes) && j.startByte == 0 && f[0] != OPEN
    ensures JsonRun(js, f, j, maxChunkBytes) == Ok(records)
    ensures forall r :: r in records ==> r.publishedOffset < r.fileOffset
  {
    var first: nat, hi: nat := 0, j.endByteInclusive + 1;
    var owned := OwnedBy(js, f, 0, hi);
    first, records := OffsetsAreShifted(js, f, j, maxChunkBytes, 0, 0, hi, owned);
  }
}
