/** JSON arrays of flat objects: texts that the windows handle, whose elements are
    the array's own. */
module JsonArrays {
  import opened Bytes
  import opened Sequences
  import opened Jobs
  import opened JsonPlan
  import opened JsonScan
  import opened JsonWindows
  import opened JsonChunks

  // ---- Strings and what separates them ------------------------------------------------

  /** separated: a comma or colon has come since the last string. ok: no string
      began before one had, and no backslash stood outside a string. */
  datatype Progress = Progress(lex: Lex, separated: bool, ok: bool)

  const START: Progress := Progress(Out, true, true)

  function Advance(s: Progress, b: byte): Progress {
    var l := Step(s.lex, b);
    match s.lex
    case Out =>
      if b == QUOTE then Progress(l, s.separated, s.ok && s.separated)
      else Progress(l, s.separated || b == COMMA || b == COLON, s.ok && b != BACKSLASH)
    case _ => if l.Out? then Progress(l, false, s.ok) else Progress(l, s.separated, s.ok)
  }

  function Run(s: Progress, text: seq<byte>): Progress {
    if text == [] then s else Advance(Run(s, text[..|text| - 1]), text[|text| - 1])
  }

  lemma {:induction false} RunConcat(s: Progress, a: seq<byte>, b: seq<byte>)
    ensures Run(s, a + b) == Run(Run(s, a), b)
  {
    if b == [] {
      assert a + b == a;
    } else {
      RunConcat(s, a, b[..|b| - 1]);
      assert (a + b)[..|a + b| - 1] == a + b[..|b| - 1];
    }
  }

  lemma {:induction false} RunLex(f: seq<byte>, k: nat)
    requires k <= |f|
    ensures Run(START, f[..k]).lex == LexAt(f, k)
  {
    if k > 0 {
      RunLex(f, k - 1);
      assert f[..k][..k - 1] == f[..k - 1];
    }
  }

  lemma {:induction false} RunOk(s: Progress, f: seq<byte>, k: nat)
    requires k <= |f| && Run(s, f).ok
    ensures Run(s, f[..k]).ok
  {
    if k < |f| {
      RunOk(s, f[..|f| - 1], k);
      assert f[..|f| - 1][..k] == f[..k];
    } else {
      assert f[..k] == f;
    }
  }

  // From a closing quote at p up to k, with no quote between.
  lemma {:induction false} Between(f: seq<byte>, p: nat, k: nat)
    requires p < k <= |f| && Run(START, f).ok && LexAt(f, p).In? && f[p] == QUOTE && QUOTE !in f[p + 1..k]
    ensures BACKSLASH !in f[p + 1..k] && LexAt(f, k).Out?
    ensures Run(START, f[..k]).separated ==> COMMA in f[p + 1..k] || COLON in f[p + 1..k]
    decreases k - p
  {
    RunLex(f, k - 1);
    RunOk(START, f, k);
    assert f[..k][..k - 1] == f[..k - 1];
    if k > p + 1 {
      assert f[p + 1..k] == f[p + 1..k - 1] + [f[k - 1]];
      Between(f, p, k - 1);
    }
  }

  /** A text with strings separated, as JSON's grammar has them. */
  lemma SeparatedIsWellQuoted(f: seq<byte>)
    requires Run(START, f).ok
    ensures WellQuoted(f)
  {
    forall p: nat, o: nat | NextQuote(f, p, o) && LexAt(f, p).In? ensures Separated(f[p + 1..o]) {
      Between(f, p, o);
      RunOk(START, f, o + 1);
      assert f[..o + 1][..o] == f[..o];
      RunLex(f, o);
    }
  }

  // ---- Arrays ----------------------------------------------------------------------------

  /** One object, nothing else, with no object inside; the scan takes it. */
  ghost predicate IsFlatObject(js: Decoder, text: seq<byte>) {
    && text != [] && Match(js, text, 0, |text|) == Some(|text|)
    && (forall k :: 0 < k < |text| && LexAt(text, k).Out? ==> text[k] != OPEN)
    && Run(START, text).lex.Out? && Run(START, text).ok
  }

  /** What stands around and between objects: brackets, commas, white space. */
  predicate IsGap(text: seq<byte>) { QUOTE !in text && BACKSLASH !in text && OPEN !in text && CLOSE !in text }

  /** gaps[0] objects[0] gaps[1] objects[1] ... and a last gap. */
  function Document(gaps: seq<seq<byte>>, objects: seq<seq<byte>>): seq<byte>
    requires |gaps| == |objects| + 1
  {
    if objects == [] then gaps[0]
    else Document(gaps[..|gaps| - 1], objects[..|objects| - 1]) + objects[|objects| - 1] + gaps[|gaps| - 1]
  }

  ghost predicate IsArray(js: Decoder, gaps: seq<seq<byte>>, objects: seq<seq<byte>>) {
    && |gaps| == |objects| + 1
    && (forall k :: 0 <= k < |gaps| ==> IsGap(gaps[k]))
    && (forall k :: 0 < k < |objects| ==> COMMA in gaps[k])
    && (forall k :: 0 <= k < |objects| ==> IsFlatObject(js, objects[k]))
  }

  lemma {:induction false} RunGap(s: Progress, gap: seq<byte>)
    requires s.lex.Out? && IsGap(gap)
    ensures Run(s, gap) == Progress(Out, s.separated || COMMA in gap || COLON in gap, s.ok)
  {
    if gap != [] {
      var front, b := gap[..|gap| - 1], gap[|gap| - 1];
      assert gap == front + [b];
      RunGap(s, front);
    }
  }

  lemma {:induction false} DocumentRuns(js: Decoder, gaps: seq<seq<byte>>, objects: seq<seq<byte>>)
    requires IsArray(js, gaps, objects)
    ensures var r := Run(START, Document(gaps, objects));
      r.lex.Out? && r.ok && (objects == [] || COMMA in gaps[|objects|] ==> r.separated)
  {
    var n := |objects|;
    if n == 0 {
      RunGap(START, gaps[0]);
    } else {
      var before, item, gap := Document(gaps[..n], objects[..n - 1]), objects[n - 1], gaps[n];
      DocumentRuns(js, gaps[..n], objects[..n - 1]);
      RunConcat(START, before + item, gap);
      RunConcat(START, before, item);
      assert Run(START, before) == START;
      RunGap(Run(START, before + item), gap);
    }
  }

  // ---- The elements of an array are its objects ---------------------------------------------

  // The first n bytes of f are text; what the scan finds there.
  lemma {:induction false} LexShift(f: seq<byte>, i: nat, text: seq<byte>, k: nat)
    requires i + |text| <= |f| && f[i..i + |text|] == text && LexAt(f, i).Out? && k <= |text|
    ensures LexAt(f, i + k) == LexAt(text, k)
  {
    if k > 0 {
      LexShift(f, i, text, k - 1);
      assert f[i..i + |text|][k - 1] == f[i + k - 1];
    }
  }

  lemma {:induction false} NoneHere(at: nat -> Option<nat>, f: seq<byte>, i: nat, stop: nat)
    requires i <= stop <= |f| && forall k :: i <= k < stop ==> !LexAt(f, k).Out? || at(k).None?
    ensures Elements(at, f, i, stop, LexAt(f, i)) == []
    decreases stop - i
  {
    if i < stop {
      NoneHere(at, f, i + 1, stop);
      assert LexAt(f, i + 1) == Step(LexAt(f, i), f[i]);
      assert ElementAt(at, i, LexAt(f, i)) == [];
    }
  }

  lemma NoBraceNoMatch(js: Decoder, f: seq<byte>, k: nat)
    requires k < |f| && f[k] != OPEN
    ensures Matches(js, f, |f|)(k).None?
  {
  }

  lemma GapHasNone(js: Decoder, f: seq<byte>, i: nat, gap: seq<byte>, stop: nat)
    requires stop == i + |gap| <= |f| && f[i..stop] == gap && IsGap(gap)
    ensures OwnedBy(js, f, i, stop) == []
  {
    var at := Matches(js, f, |f|);
    forall k | i <= k < stop ensures at(k).None? {
      assert f[i..stop][k - i] == f[k] && gap[k - i] in gap;
      NoBraceNoMatch(js, f, k);
    }
    NoneHere(at, f, i, stop);
  }

  lemma ObjectMatches(js: Decoder, f: seq<byte>, i: nat, item: seq<byte>, end: nat)
    requires end == i + |item| <= |f| && f[i..end] == item && IsFlatObject(js, item)
    ensures Match(js, f, i, |f|) == Some(end)
  {
    MatchShift(js, f, i, end, item, 0, i);
    MatchWider(js, f, i, end, |f|);
  }

  // Inside an object nothing is found.
  lemma InteriorHasNone(js: Decoder, f: seq<byte>, i: nat, item: seq<byte>, end: nat, k: nat, at: nat -> Option<nat>)
    requires end == i + |item| <= |f| && f[i..end] == item && IsFlatObject(js, item) && LexAt(f, i).Out?
    requires i < k < end && at == Matches(js, f, |f|)
    ensures !LexAt(f, k).Out? || at(k).None?
  {
    LexShift(f, i, item, k - i);
    assert f[i..end][k - i] == f[k];
    if LexAt(f, k).Out? { NoBraceNoMatch(js, f, k); }
  }

  lemma OneElement(at: nat -> Option<nat>, f: seq<byte>, i: nat, next: nat, end: nat, l: Lex, e: Element)
    requires i < next <= end <= |f| && next == i + 1 && LexAt(f, i).Out? && l == LexAt(f, next)
    requires at(i) == Some(end) && e == Element(i, end) && Elements(at, f, next, end, l) == []
    ensures Elements(at, f, i, end, Out) == [e]
  {
    assert l == Step(Out, f[i]);
    assert ElementAt(at, i, Out) == [e];
  }

  lemma ObjectIsOne(js: Decoder, f: seq<byte>, i: nat, item: seq<byte>, end: nat)
    requires end == i + |item| <= |f| && f[i..end] == item && IsFlatObject(js, item) && LexAt(f, i).Out?
    ensures OwnedBy(js, f, i, end) == [Element(i, end)]
  {
    var at := Matches(js, f, |f|);
    ObjectMatches(js, f, i, item, end);
    assert at(i) == Some(end);
    forall k | i < k < end ensures !LexAt(f, k).Out? || at(k).None? { InteriorHasNone(js, f, i, item, end, k, at); }
    NoneHere(at, f, i + 1, end);
    OneElement(at, f, i, i + 1, end, LexAt(f, i + 1), Element(i, end));
  }

  lemma Join(at: nat -> Option<nat>, f: seq<byte>, i: nat, end: nat, stop: nat, e: Element)
    requires i <= end <= stop <= |f|
    requires Elements(at, f, i, end, LexAt(f, i)) == [e] && Elements(at, f, end, stop, LexAt(f, end)) == []
    ensures Elements(at, f, 0, stop, LexAt(f, 0)) == Elements(at, f, 0, i, LexAt(f, 0)) + [e]
  {
    ElementsSplit(at, f, 0, i, stop);
    ElementsSplit(at, f, i, end, stop);
    assert [e] + [] == [e];
  }

  lemma TextsAppend(f: seq<byte>, elements: seq<Element>, e: Element)
    requires e.start <= e.end <= |f|
    ensures Texts(f, elements + [e]) == Texts(f, elements) + [f[e.start..e.end]]
  {
    TextsConcat(f, elements, [e]);
    assert [e][1..] == [];
  }

  // One object and the gap after it.
  lemma ObjectThenGap(js: Decoder, f: seq<byte>, before: seq<byte>, i: nat, item: seq<byte>, gap: seq<byte>, stop: nat,
                      texts: seq<seq<byte>>)
    requires i == |before| && stop == i + |item| + |gap| <= |f| && f[..stop] == before + item + gap
    requires IsFlatObject(js, item) && IsGap(gap) && LexAt(f, i).Out?
    requires texts == Texts(f, OwnedBy(js, f, 0, i))
    ensures Texts(f, OwnedBy(js, f, 0, stop)) == texts + [item]
  {
    var end := i + |item|;
    Slices(f, before, item, gap, stop);
    ObjectIsOne(js, f, i, item, end);
    GapHasNone(js, f, end, gap, stop);
    Join(Matches(js, f, |f|), f, i, end, stop, Element(i, end));
    TextsAppend(f, OwnedBy(js, f, 0, i), Element(i, end));
  }

  lemma {:induction false} ElementsAreObjects(js: Decoder, f: seq<byte>, gaps: seq<seq<byte>>, objects: seq<seq<byte>>,
                                              stop: nat)
    requires IsArray(js, gaps, objects) && stop == |Document(gaps, objects)| <= |f|
    requires f[..stop] == Document(gaps, objects)
    ensures Texts(f, OwnedBy(js, f, 0, stop)) == objects
    decreases objects
  {
    var n := |objects|;
    if n == 0 {
      GapHasNone(js, f, 0, gaps[0], stop);
    } else {
      var before, item, gap := Document(gaps[..n], objects[..n - 1]), objects[n - 1], gaps[n];
      FrontOfArray(js, gaps, objects, gaps[..n], objects[..n - 1], before, item, gap);
      BeforeLast(js, f, gaps[..n], objects[..n - 1], before, before + item + gap, stop);
      ElementsAreObjects(js, f, gaps[..n], objects[..n - 1], |before|);
      ObjectThenGap(js, f, before, |before|, item, gap, stop, objects[..n - 1]);
    }
  }

  lemma FrontOfArray(js: Decoder, gaps: seq<seq<byte>>, objects: seq<seq<byte>>, gaps': seq<seq<byte>>,
                     objects': seq<seq<byte>>,
                     before: seq<byte>, item: seq<byte>, gap: seq<byte>)
    requires IsArray(js, gaps, objects) && objects != [] && gaps' == gaps[..|objects|]
    requires objects' == objects[..|objects| - 1]
    requires before == Document(gaps', objects') && item == objects[|objects| - 1] && gap == gaps[|objects|]
    ensures IsArray(js, gaps', objects') && IsFlatObject(js, item) && IsGap(gap)
    ensures Document(gaps, objects) == before + item + gap && objects == objects' + [item]
  {
  }

  lemma BeforeLast(js: Decoder, f: seq<byte>, gaps: seq<seq<byte>>, objects: seq<seq<byte>>, before: seq<byte>,
                   all: seq<byte>, stop: nat)
    requires IsArray(js, gaps, objects) && before == Document(gaps, objects) && before <= all
    requires stop == |all| <= |f| && f[..stop] == all
    ensures f[..|before|] == before && LexAt(f, |before|).Out?
  {
    assert f[..|before|] == f[..stop][..|before|] == before;
    DocumentRuns(js, gaps, objects);
    RunLex(f, |before|);
  }

  lemma Slices(f: seq<byte>, before: seq<byte>, item: seq<byte>, gap: seq<byte>, stop: nat)
    requires stop == |before| + |item| + |gap| <= |f| && f[..stop] == before + item + gap
    ensures f[..|before|] == before && f[|before|..|before| + |item|] == item && f[|before| + |item|..stop] == gap
  {
    var t := f[..stop];
    assert t[..|before|] == before && t[|before|..|before| + |item|] == item && t[|before| + |item|..] == gap;
  }

  lemma {:induction false} TextListed(f: seq<byte>, elements: seq<Element>, e: Element)
    requires e in elements
    ensures TextAt(f, e) in Texts(f, elements)
  {
    if e != elements[0] { TextListed(f, elements[1..], e); }
  }

  lemma ArrayScannable(js: Decoder, f: seq<byte>, gaps: seq<seq<byte>>, objects: seq<seq<byte>>, limit: int)
    requires IsArray(js, gaps, objects) && f == Document(gaps, objects) && PlainName(js)
    requires forall item :: item in objects ==> |item| <= limit
    ensures Scannable(js, f, limit) && Texts(f, Whole(js, f)) == objects
  {
    assert f[..|f|] == f;
    ElementsAreObjects(js, f, gaps, objects, |f|);
    DocumentRuns(js, gaps, objects);
    SeparatedIsWellQuoted(f);
    var whole := Whole(js, f);
    assert whole == OwnedBy(js, f, 0, |f|);
    ElementsBounded(Matches(js, f, |f|), f, 0, |f|, Out);
    forall e | e in whole ensures e.end - e.start <= limit { TextListed(f, whole, e); }
  }

  /** Reading an array of flat objects in chunks publishes exactly its objects, in
      order, each once, wherever the chunks are cut. */
  lemma ArrayChunksPublishObjects(js: Decoder, gaps: seq<seq<byte>>, objects: seq<seq<byte>>, f: seq<byte>,
                                  nominal: int, limit: int,
                                  jobs: seq<ChunkJob>, maxChunkBytes: int, runs: seq<seq<Emitted>>)
    requires IsArray(js, gaps, objects) && f == Document(gaps, objects) && PlainName(js)
    requires forall item :: item in objects ==> |item| <= limit
    requires IsJsonPlan(|f|, nominal, limit, jobs) && nominal <= WorkerMaximum(maxChunkBytes)
    requires |f| + limit <= MAX_INT64
    requires |runs| == |jobs|
    requires forall c {:trigger runs[c]} :: 0 <= c < |jobs| ==> Publishes(js, f, jobs[c], maxChunkBytes, runs[c])
    ensures Raws(Flatten(runs)) == objects
  {
    ArrayScannable(js, f, gaps, objects, limit);
    JsonChunksEqualWholeFile(js, f, nominal, limit, jobs, maxChunkBytes, runs);
  }
}
