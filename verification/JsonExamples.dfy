/** Real arrays that the results on JSON are about, and what happens to the offsets
    of one of them. */
module JsonExamples {
  import opened Bytes
  import opened Jobs
  import opened JsonPlan
  import opened JsonScan
  import opened JsonWindows
  import opened JsonChunks
  import opened JsonArrays
  import opened JsonLimits

  const LETTER: byte := 0x61
  const NAME: seq<byte> := [LETTER]

  /** The name is "a", written without escapes; what the braces enclose is taken
      as an object. */
  const BY_LETTER: Decoder := Decoder((s: seq<byte>) => s == NAME, (s: seq<byte>) => true)

  predicate IsDigits(s: seq<byte>) { s != [] && forall k :: 0 <= k < |s| ==> 0x30 <= s[k] <= 0x39 }

  const BEFORE: seq<byte> := [OPEN, QUOTE, LETTER, QUOTE, COLON]

  /** {"a":digits} */
  function NumberObject(digits: seq<byte>): seq<byte> { BEFORE + digits + [CLOSE] }

  // ---- Objects that end in a number ------------------------------------------------------

  lemma {:induction false} DigitsThenClose(f: seq<byte>, k: nat)
    requires k < |f| && f[|f| - 1] == CLOSE && forall i :: k <= i < |f| - 1 ==> 0x30 <= f[i] <= 0x39
    ensures ObjectEnd(f, k, |f|, Out, 0) == Some(|f|)
    decreases |f| - k
  {
    if k < |f| - 1 { DigitsThenClose(f, k + 1); }
  }

  lemma NumberObjectMatches(f: seq<byte>)
    requires |f| >= 7 && f[..5] == BEFORE && f[|f| - 1] == CLOSE
    requires forall i :: 5 <= i < |f| - 1 ==> 0x30 <= f[i] <= 0x39
    ensures Match(BY_LETTER, f, 0, |f|) == Some(|f|)
  {
    var n := |f|;
    assert f[0] == f[..5][0] && f[1] == f[..5][1] && f[2] == f[..5][2] && f[3] == f[..5][3] && f[4] == f[..5][4];
    assert SkipSpace(f, 1, n) == 1 && SkipSpace(f, 4, n) == 4;
    assert StringEnd(f, 3, n, In) == Some(4);
    assert StringEnd(f, 2, n, In) == Some(4);
    assert f[2..3] == NAME;
    assert NameEnd(BY_LETTER, f, 0, n) == Some(5);
    DigitsThenClose(f, 5);
    assert ObjectEnd(f, 3, n, In, 0) == ObjectEnd(f, 4, n, Out, 0) == ObjectEnd(f, 5, n, Out, 0);
    assert ObjectEnd(f, 1, n, Out, 0) == ObjectEnd(f, 2, n, In, 0) == ObjectEnd(f, 3, n, In, 0);
  }

  lemma BeforeRuns()
    ensures Run(START, BEFORE).lex.Out? && Run(START, BEFORE).ok
  {
    assert BEFORE[..4] == [OPEN, QUOTE, LETTER, QUOTE] && BEFORE[..4][..3] == [OPEN, QUOTE, LETTER];
    assert BEFORE[..4][..3][..2] == [OPEN, QUOTE] && [OPEN, QUOTE][..1] == [OPEN] && [OPEN][..0] == [];
    assert Run(START, [OPEN]) == START;
    assert Run(START, [OPEN, QUOTE]) == Progress(In, true, true);
    assert Run(START, [OPEN, QUOTE, LETTER]) == Progress(In, true, true);
    assert Run(START, [OPEN, QUOTE, LETTER, QUOTE]) == Progress(Out, false, true);
  }

  lemma CloseRuns(s: Progress)
    requires s.lex.Out?
    ensures Run(s, [CLOSE]) == s
  {
    assert [CLOSE][..0] == [];
  }

  lemma NumberObjectIsFlat(digits: seq<byte>)
    requires IsDigits(digits)
    ensures IsFlatObject(BY_LETTER, NumberObject(digits))
  {
    var text := NumberObject(digits);
    assert text[..5] == BEFORE;
    assert forall i :: 5 <= i < |text| - 1 ==> text[i] == digits[i - 5];
    NumberObjectMatches(text);
    assert forall k :: 0 < k < 5 ==> text[k] == BEFORE[k] && BEFORE[k] != OPEN;
    BeforeRuns();
    RunConcat(START, BEFORE + digits, [CLOSE]);
    RunConcat(START, BEFORE, digits);
    RunGap(Run(START, BEFORE), digits);
    CloseRuns(Run(START, BEFORE + digits));
  }

  /** The decoder's name is plain, and every array of such objects, of any length,
      is one of the arrays ArrayChunksPublishObjects is about. */
  lemma NumberArraysAreArrays(gaps: seq<seq<byte>>, objects: seq<seq<byte>>, numbers: seq<seq<byte>>)
    requires |gaps| == |objects| + 1 && |numbers| == |objects|
    requires forall k :: 0 <= k < |gaps| ==> IsGap(gaps[k])
    requires forall k :: 0 < k < |objects| ==> COMMA in gaps[k]
    requires forall k :: 0 <= k < |objects| ==> IsDigits(numbers[k]) && objects[k] == NumberObject(numbers[k])
    ensures PlainName(BY_LETTER) && IsArray(BY_LETTER, gaps, objects)
  {
    PlainNameIff(BY_LETTER, NAME);
    forall k | 0 <= k < |objects| ensures IsFlatObject(BY_LETTER, objects[k]) { NumberObjectIsFlat(numbers[k]); }
  }

  // ---- One array, in chunks of twelve bytes ---------------------------------------------

  const ONE: seq<byte> := [0x31]
  const LONG: seq<byte> := [0x31, 0x32, 0x33, 0x34, 0x35, 0x36]
  const TWELVE: seq<byte> := [0x31, 0x32]
  const NINE: seq<byte> := [0x39]

  const NUMBERS: seq<seq<byte>> := [ONE, LONG, TWELVE, NINE]
  const OBJECTS: seq<seq<byte>> := [NumberObject(ONE), NumberObject(LONG), NumberObject(TWELVE), NumberObject(NINE)]
  const GAPS: seq<seq<byte>> := [[0x5B], [COMMA], [COMMA], [COMMA], [0x5D]]

  /** [{"a":1},{"a":123456},{"a":12},{"a":9}] */
  const ARRAY: seq<byte> := Document(GAPS, OBJECTS)

  lemma ArrayIsScannable()
    ensures Scannable(BY_LETTER, ARRAY, 12)
  {
    NumberArraysAreArrays(GAPS, OBJECTS, NUMBERS);
    ArrayScannable(BY_LETTER, ARRAY, GAPS, OBJECTS, 12);
  }

  predicate NoBraceIn(f: seq<byte>, lo: nat, hi: nat) { hi <= |f| && forall k :: lo <= k < hi ==> f[k] != OPEN }

  // One object, which the scan takes.
  ghost predicate ObjectIs(f: seq<byte>, i: nat, end: nat) {
    i < end <= |f| && Match(BY_LETTER, f, i, |f|) == Some(end) && NoBraceIn(f, i + 1, end)
  }

  lemma ObjectAt(f: seq<byte>, i: nat, digits: seq<byte>, end: nat)
    requires IsDigits(digits) && end == i + |digits| + 6 <= |f| && f[i..end] == NumberObject(digits)
    ensures ObjectIs(f, i, end)
  {
    var text := NumberObject(digits);
    NumberObjectIsFlat(digits);
    ObjectMatches(BY_LETTER, f, i, text, end);
    forall k | i + 1 <= k < end ensures f[k] != OPEN {
      assert f[i..end][k - i] == f[k];
      assert k - i < 5 ==> text[k - i] == BEFORE[k - i];
    }
  }

  lemma DocumentAppend(gaps: seq<seq<byte>>, objects: seq<seq<byte>>, gap: seq<byte>, item: seq<byte>)
    requires |gaps| == |objects| + 1
    ensures Document(gaps + [gap], objects + [item]) == Document(gaps, objects) + item + gap
  {
    var n := |objects| + 1;
    assert (gaps + [gap])[..n] == gaps && (objects + [item])[..n - 1] == objects;
  }

  // The last object of a document, and the bytes in front of it.
  lemma LastObject(f: seq<byte>, gaps: seq<seq<byte>>, objects: seq<seq<byte>>, gap: seq<byte>, item: seq<byte>,
                   i: nat, end: nat, stop: nat)
    requires |gaps| == |objects| + 1 && stop <= |f| && f[..stop] == Document(gaps + [gap], objects + [item])
    requires i == |Document(gaps, objects)| && end == i + |item| && stop == end + |gap|
    ensures f[..i] == Document(gaps, objects) && f[i..end] == item && f[end..stop] == gap
  {
    DocumentAppend(gaps, objects, gap, item);
    Slices(f, Document(gaps, objects), item, gap, stop);
  }

  function FirstObjects(n: nat): seq<seq<byte>>
    requires n <= 4
  {
    OBJECTS[..n]
  }

  function FirstGaps(n: nat): seq<seq<byte>>
    requires n <= 4
  {
    GAPS[..n + 1]
  }

  lemma DocumentLengths()
    ensures |Document(FirstGaps(0), FirstObjects(0))| == 1 && |Document(FirstGaps(1), FirstObjects(1))| == 9
    ensures |Document(FirstGaps(2), FirstObjects(2))| == 22 && |Document(FirstGaps(3), FirstObjects(3))| == 31
    ensures |Document(FirstGaps(4), FirstObjects(4))| == 39
  {
    assert FirstGaps(0) == [[0x5B]] && FirstObjects(0) == [];
    FirstNext(0);
    FirstNext(1);
    FirstNext(2);
    FirstNext(3);
    DocumentAppend(FirstGaps(0), FirstObjects(0), GAPS[1], OBJECTS[0]);
    DocumentAppend(FirstGaps(1), FirstObjects(1), GAPS[2], OBJECTS[1]);
    DocumentAppend(FirstGaps(2), FirstObjects(2), GAPS[3], OBJECTS[2]);
    DocumentAppend(FirstGaps(3), FirstObjects(3), GAPS[4], OBJECTS[3]);
  }

  lemma FirstNext(n: nat)
    requires n < 4
    ensures FirstGaps(n + 1) == FirstGaps(n) + [GAPS[n + 1]] && FirstObjects(n + 1) == FirstObjects(n) + [OBJECTS[n]]
  {
  }

  predicate HasPieces(f: seq<byte>) {
    && |f| == 39 && f[0] == 0x5B && f[8] == f[21] == f[30] == COMMA
    && f[1..8] == NumberObject(ONE) && f[9..21] == NumberObject(LONG)
    && f[22..30] == NumberObject(TWELVE) && f[31..38] == NumberObject(NINE)
  }

  ghost predicate Begins(f: seq<byte>, n: nat, stop: nat) {
    n <= 4 && stop <= |f| && f[..stop] == Document(FirstGaps(n), FirstObjects(n))
  }

  // The n-th object, its place given.
  lemma Piece(f: seq<byte>, n: nat, i: nat, end: nat, stop: nat)
    requires n < 4 && Begins(f, n + 1, stop) && i == |Document(FirstGaps(n), FirstObjects(n))|
    requires end == i + |OBJECTS[n]| && stop == end + |GAPS[n + 1]|
    ensures Begins(f, n, i) && f[i..end] == OBJECTS[n] && f[end..stop] == GAPS[n + 1]
  {
    FirstNext(n);
    LastObject(f, FirstGaps(n), FirstObjects(n), GAPS[n + 1], OBJECTS[n], i, end, stop);
  }

  lemma ArrayPieces(f: seq<byte>)
    requires f == ARRAY
    ensures HasPieces(f)
  {
    DocumentLengths();
    assert FirstGaps(4) == GAPS && FirstObjects(4) == OBJECTS && f[..39] == f;
    Piece(f, 3, 31, 38, 39);
    Piece(f, 2, 22, 30, 31);
    Piece(f, 1, 9, 21, 22);
    Piece(f, 0, 1, 8, 9);
    assert f[30] == f[30..31][0] && f[21] == f[21..22][0] && f[8] == f[8..9][0] && f[0] == f[..1][0];
  }

  lemma FirstObject(f: seq<byte>, i: nat, end: nat)
    requires HasPieces(f) && i == 1 && end == 8
    ensures ObjectIs(f, i, end)
  {
    ObjectAt(f, i, ONE, end);
  }

  lemma SecondObject(f: seq<byte>, i: nat, end: nat)
    requires HasPieces(f) && i == 9 && end == 21
    ensures ObjectIs(f, i, end)
  {
    ObjectAt(f, i, LONG, end);
  }

  lemma ThirdObject(f: seq<byte>, i: nat, end: nat)
    requires HasPieces(f) && i == 22 && end == 30
    ensures ObjectIs(f, i, end)
  {
    ObjectAt(f, i, TWELVE, end);
  }

  lemma FourthObject(f: seq<byte>, i: nat, end: nat)
    requires HasPieces(f) && i == 31 && end == 38
    ensures ObjectIs(f, i, end)
  {
    ObjectAt(f, i, NINE, end);
  }

  lemma OnlyMatch(at: nat -> Option<nat>, f: seq<byte>, lo: nat, k: nat, next: nat, hi: nat, e: Element)
    requires lo <= k < next <= hi <= |f| && next == k + 1 && LexAt(f, k).Out? && at(k) == Some(e.end) && e.start == k
    requires forall i :: lo <= i < hi && i != k ==> at(i).None?
    ensures Elements(at, f, lo, hi, LexAt(f, lo)) == [e]
  {
    ElementsSplit(at, f, lo, k, hi);
    NoElements(at, f, lo, k, LexAt(f, lo));
    NoElements(at, f, next, hi, LexAt(f, next));
    assert LexAt(f, next) == Step(Out, f[k]);
    assert ElementAt(at, k, Out) == [e] && [e] + [] == [e];
    assert Elements(at, f, k, hi, Out) == [e];
    assert [] + [e] == [e];
  }

  // Bytes lo to hi have one opening brace, where e starts.
  lemma OnlyOne(js: Decoder, f: seq<byte>, lo: nat, hi: nat, e: Element)
    requires lo <= e.start < hi <= |f| && WellQuoted(f) && PlainName(js) && Match(js, f, e.start, |f|) == Some(e.end)
    requires NoBraceIn(f, lo, e.start) && NoBraceIn(f, e.start + 1, hi)
    ensures OwnedBy(js, f, lo, hi) == [e]
  {
    var at, k := Matches(js, f, |f|), e.start;
    assert at(k) == Some(e.end);
    forall i | lo <= i < hi && i != k ensures at(i).None? { NoBraceNoMatch(js, f, i); }
    MatchOutside(js, f, k, |f|);
    OnlyMatch(at, f, lo, k, k + 1, hi, e);
  }

  /** With a limit of 12 bytes an element and chunks of 12 bytes, the object at byte
      22 and the object at byte 31, which different chunks own, are both published
      with byte offset 21: two records, one source record id. */
  lemma TwoElementsOneOffset(f: seq<byte>, j1: ChunkJob, j2: ChunkJob, maxChunkBytes: int)
    returns (r1: seq<Emitted>, r2: seq<Emitted>)
    requires f == ARRAY && WorkerMaximum(maxChunkBytes) >= 12
    requires IsJsonJob(j1, 1, 39, 12, 12) && j1.startByte == 12 && IsJsonJob(j2, 2, 39, 12, 12) && j2.startByte == 24
    ensures JsonRun(BY_LETTER, f, j1, maxChunkBytes) == Ok(r1) && JsonRun(BY_LETTER, f, j2, maxChunkBytes) == Ok(r2)
    ensures |r1| == |r2| == 1 && r1[0].fileOffset == 22 && r2[0].fileOffset == 31
    ensures r1[0].publishedOffset == r2[0].publishedOffset == 21
  {
    ArrayIsScannable();
    ArrayPieces(f);
    r1 := ThirdPublished(f, j1, maxChunkBytes, 0, 12, 24, 1, Element(22, 30));
    r2 := FourthPublished(f, j2, maxChunkBytes, 12, 24, 36, 22, Element(31, 38));
  }

  lemma ThirdPublished(f: seq<byte>, j: ChunkJob, maxChunkBytes: int, a: nat, lo: nat, hi: nat, first: nat, e: Element)
    returns (r: seq<Emitted>)
    requires HasPieces(f) && IsRunnable(BY_LETTER, f, j, maxChunkBytes)
    requires a == Max0(j.startByte - j.maxBytesPerElement) == 0
    requires lo == j.startByte == 12 && hi == j.endByteInclusive + 1 == 24 && first == 1 && e == Element(22, 30)
    ensures JsonRun(BY_LETTER, f, j, maxChunkBytes) == Ok(r) && |r| == 1
    ensures r[0].fileOffset == 22 && r[0].publishedOffset == 21
  {
    FirstObject(f, first, 8);
    SecondObject(f, 9, 21);
    ThirdObject(f, e.start, e.end);
    r := OneOffset(f, j, maxChunkBytes, a, lo, hi, first, e);
  }

  lemma FourthPublished(f: seq<byte>, j: ChunkJob, maxChunkBytes: int, a: nat, lo: nat, hi: nat, first: nat, e: Element)
    returns (r: seq<Emitted>)
    requires HasPieces(f) && IsRunnable(BY_LETTER, f, j, maxChunkBytes)
    requires a == Max0(j.startByte - j.maxBytesPerElement) == 12
    requires lo == j.startByte == 24 && hi == j.endByteInclusive + 1 == 36 && first == 22 && e == Element(31, 38)
    ensures JsonRun(BY_LETTER, f, j, maxChunkBytes) == Ok(r) && |r| == 1
    ensures r[0].fileOffset == 31 && r[0].publishedOffset == 21
  {
    SecondObject(f, 9, 21);
    ThirdObject(f, first, 30);
    FourthObject(f, e.start, e.end);
    r := OneOffset(f, j, maxChunkBytes, a, lo, hi, first, e);
  }

  // A chunk that owns bytes lo to hi and one object, its window starting at a and
  // the first object in it at first.
  lemma OneOffset(f: seq<byte>, j: ChunkJob, maxChunkBytes: int, a: nat, lo: nat, hi: nat, first: nat, e: Element)
    returns (r: seq<Emitted>)
    requires IsRunnable(BY_LETTER, f, j, maxChunkBytes) && a == Max0(j.startByte - j.maxBytesPerElement)
    requires lo == j.startByte && hi == j.endByteInclusive + 1 && lo <= e.start < hi <= |f|
    requires Match(BY_LETTER, f, e.start, |f|) == Some(e.end) && NoBraceIn(f, lo, e.start)
    requires NoBraceIn(f, e.start + 1, hi)
    requires a <= first < |f| && Match(BY_LETTER, f, first, |f|).Some? && NoBraceIn(f, a, first)
    ensures JsonRun(BY_LETTER, f, j, maxChunkBytes) == Ok(r) && |r| == 1
    ensures r[0].fileOffset == e.start && r[0].publishedOffset == e.start - (first - a)
  {
    OnlyOne(BY_LETTER, f, lo, hi, e);
    var found;
    found, r := OffsetsAreShifted(BY_LETTER, f, j, maxChunkBytes, a, lo, hi, [e]);
    FirstIs(f, a, found, first);
  }

  lemma FirstIs(f: seq<byte>, a: nat, first: nat, k: nat)
    requires IsFirstObject(BY_LETTER, f, a, first) && a <= k < |f| && Match(BY_LETTER, f, k, |f|).Some?
    requires NoBraceIn(f, a, k)
    ensures first == k
  {
    if first < k { NoBraceNoMatch(BY_LETTER, f, first); }
  }

  // ---- An object above the limit that nobody misses ----------------------------------------

  lemma DocumentOfOne(none: seq<byte>, f: seq<byte>)
    requires none == []
    ensures Document([none, none], [f]) == f
  {
    assert [none, none] == [none] + [none] && [f] == [] + [f] && Document([none], []) == none;
    DocumentAppend([none], [], none, f);
  }

  // A text that is one object and nothing else.
  lemma OneObject(digits: seq<byte>, f: seq<byte>)
    requires IsDigits(digits) && f == NumberObject(digits)
    ensures ObjectIs(f, 0, |f|) && WellQuoted(f) && PlainName(BY_LETTER)
  {
    OneIsArray(digits, f, []);
    DocumentOfOne([], f);
    ArrayScannable(BY_LETTER, f, [[], []], [f], |f|);
    assert f[0..|f|] == f;
    ObjectAt(f, 0, digits, |f|);
  }

  lemma OneIsArray(digits: seq<byte>, f: seq<byte>, none: seq<byte>)
    requires IsDigits(digits) && f == NumberObject(digits) && none == []
    ensures PlainName(BY_LETTER) && IsArray(BY_LETTER, [none, none], [f])
  {
    NumberArraysAreArrays([none, none], [f], [digits]);
  }

  lemma SeesNothing(f: seq<byte>, b: nat, lo: nat, hi: nat)
    requires ObjectIs(f, 0, |f|) && WellQuoted(f) && PlainName(BY_LETTER)
    requires lo < hi <= b <= |f| && (lo == 0 ==> b < |f|)
    ensures Seen(BY_LETTER, f, b, lo, hi) == []
  {
    if lo == 0 {
      OnlyOne(BY_LETTER, f, 0, hi, Element(0, |f|));
      NothingSeen(BY_LETTER, f, b, 0, hi, Element(0, |f|));
    } else {
      var at := Matches(BY_LETTER, f, b);
      forall k | lo <= k < hi ensures at(k).None? { assert f[k] != OPEN; }
      NoElements(at, f, lo, hi, LexAt(f, lo));
    }
  }

  // A chunk of such a text whose window does not reach the end of the object.
  lemma ChunkMisses(f: seq<byte>, j: ChunkJob, maxChunkBytes: int, b: nat, lo: nat, hi: nat)
    requires ObjectIs(f, 0, |f|) && WellQuoted(f) && PlainName(BY_LETTER)
    requires j.dataType.Json? && Valid(j, maxChunkBytes) && InFile(j) && j.fileSize == |f|
    requires j.endByteInclusive + j.maxBytesPerElement <= MAX_INT64
    requires lo == j.startByte && hi == j.endByteInclusive + 1 && (lo == 0 ==> b < |f|)
    requires b == Min(j.endByteInclusive + j.maxBytesPerElement, |f| - 1) + 1
    ensures JsonRun(BY_LETTER, f, j, maxChunkBytes) == Ok([])
  {
    JsonRunIff(BY_LETTER, f, j, maxChunkBytes, b, lo, hi);
    SeesNothing(f, b, lo, hi);
    RawsLength(JsonRun(BY_LETTER, f, j, maxChunkBytes).value);
  }

  /** {"a":digits} with so many digits that the first window does not reach its end:
      every chunk of the plan succeeds and none publishes it. */
  lemma LostElement(digits: seq<byte>, f: seq<byte>, nominal: int, limit: int, jobs: seq<ChunkJob>,
                    maxChunkBytes: int, c: nat)
    requires IsDigits(digits) && f == NumberObject(digits) && nominal + limit < |f|
    requires Admitted(BY_LETTER, f, nominal, limit, jobs, maxChunkBytes) && c < |jobs|
    ensures Whole(BY_LETTER, f) == [Element(0, |f|)]
    ensures JsonRun(BY_LETTER, f, jobs[c], maxChunkBytes) == Ok([])
  {
    OneObject(digits, f);
    OnlyOne(BY_LETTER, f, 0, |f|, Element(0, |f|));
    var j := jobs[c];
    assert IsJsonJob(j, c, |f|, nominal, limit);
    var b := Min(j.endByteInclusive + j.maxBytesPerElement, |f| - 1) + 1;
    ChunkMisses(f, j, maxChunkBytes, b, j.startByte, j.endByteInclusive + 1);
  }
}
