/** What the scan for objects sees in a window of the file. */
module JsonWindows {
  import opened Bytes
  import opened JsonScan

  // ---- A window's own positions -------------------------------------------------------

  lemma {:induction false} SkipSpaceShift(f: seq<byte>, a: nat, b: nat, w: seq<byte>, k: nat)
    requires a + k <= b <= |f| && w == f[a..b]
    ensures a + SkipSpace(w, k, |w|) == SkipSpace(f, a + k, b)
    decreases b - k
  {
    if k < |w| && IsSpace(w[k]) { SkipSpaceShift(f, a, b, w, k + 1); }
  }

  function Plus(a: nat, r: Option<nat>): Option<nat> { if r.None? then None else Some(a + r.value) }

  lemma {:induction false} StringEndShift(f: seq<byte>, a: nat, b: nat, w: seq<byte>, k: nat, k': nat, l: Lex)
    requires a + k == k' <= b <= |f| && w == f[a..b]
    ensures Plus(a, StringEnd(w, k, |w|, l)) == StringEnd(f, k', b, l)
    decreases b - k
  {
    if k < |w| {
      var next := if Step(l, w[k]).Out? then Out else Step(l, w[k]);
      assert w[k] == f[k'];
      StringEndShift(f, a, b, w, k + 1, k' + 1, next);
    }
  }

  lemma {:induction false} ObjectEndShift(f: seq<byte>, a: nat, b: nat, w: seq<byte>, k: nat, l: Lex, depth: nat)
    requires a + k <= b <= |f| && w == f[a..b]
    ensures Plus(a, ObjectEnd(w, k, |w|, l, depth)) == ObjectEnd(f, a + k, b, l, depth)
    decreases b - k
  {
    if k < |w| {
      if l.Out? && w[k] == OPEN { ObjectEndShift(f, a, b, w, k + 1, l, depth + 1); }
      else if l.Out? && w[k] == CLOSE { if depth > 0 { ObjectEndShift(f, a, b, w, k + 1, l, depth - 1); } }
      else { ObjectEndShift(f, a, b, w, k + 1, Step(l, w[k]), depth); }
    }
  }

  lemma KeyEndShift(js: Decoder, f: seq<byte>, a: nat, b: nat, w: seq<byte>, p: nat, p': nat)
    requires a + p == p' <= b <= |f| && w == f[a..b]
    ensures Plus(a, KeyEnd(js, w, p, |w|)) == KeyEnd(js, f, p', b)
  {
    if p < |w| && w[p] == QUOTE {
      StringEndShift(f, a, b, w, p + 1, p' + 1, In);
      var key := StringEnd(w, p + 1, |w|, In);
      if key.Some? { SliceOfSlice(f, a, b, p + 1, key.value - 1); }
    }
  }

  lemma ColonEndShift(f: seq<byte>, a: nat, b: nat, w: seq<byte>, k: nat, k': nat)
    requires a + k == k' <= b <= |f| && w == f[a..b]
    ensures Plus(a, ColonEnd(w, k, |w|)) == ColonEnd(f, k', b)
  {
    SkipSpaceShift(f, a, b, w, k);
  }

  lemma NameEndShift(js: Decoder, f: seq<byte>, a: nat, b: nat, w: seq<byte>, i: nat, i': nat)
    requires a + i == i' < b <= |f| && w == f[a..b]
    ensures Plus(a, NameEnd(js, w, i, |w|)) == NameEnd(js, f, i', b)
  {
    SkipSpaceShift(f, a, b, w, i + 1);
    var p, p' := SkipSpace(w, i + 1, |w|), SkipSpace(f, i' + 1, b);
    assert p' == a + p;
    KeyEndShift(js, f, a, b, w, p, p');
    var key, key' := KeyEnd(js, w, p, |w|), KeyEnd(js, f, p', b);
    if key.Some? { ColonEndShift(f, a, b, w, key.value, key'.value); }
  }

  lemma MatchShift(js: Decoder, f: seq<byte>, a: nat, b: nat, w: seq<byte>, i: nat, i': nat)
    requires a + i == i' < b <= |f| && w == f[a..b]
    ensures Plus(a, Match(js, w, i, |w|)) == Match(js, f, i', b)
  {
    NameEndShift(js, f, a, b, w, i, i');
    BracesShift(f, a, b, w, i, i', i + 1, i' + 1);
  }

  // The text from an opening brace to its closing one.
  lemma BracesShift(f: seq<byte>, a: nat, b: nat, w: seq<byte>, i: nat, i': nat, k: nat, k': nat)
    requires a + i == i' < b <= |f| && w == f[a..b] && k == i + 1 && k' == i' + 1
    ensures Plus(a, ObjectEnd(w, k, |w|, Out, 0)) == ObjectEnd(f, k', b, Out, 0)
    ensures var end, end' := ObjectEnd(w, k, |w|, Out, 0), ObjectEnd(f, k', b, Out, 0);
      end.Some? ==> w[i..end.value] == f[i'..end'.value]
  {
    ObjectEndShift(f, a, b, w, k, Out, 0);
    var end := ObjectEnd(w, k, |w|, Out, 0);
    if end.Some? { SliceOfSlice(f, a, b, i, end.value); }
  }

  function Shifted(a: nat, elements: seq<Element>): seq<Element> {
    if elements == [] then [] else [Element(a + elements[0].start, a + elements[0].end)] + Shifted(a, elements[1..])
  }

  predicate ShiftedAt(at: nat -> Option<nat>, at': nat -> Option<nat>, a: nat, k: nat) { Plus(a, at(k)) == at'(a + k) }

  lemma MatchesShift(js: Decoder, f: seq<byte>, a: nat, b: nat, w: seq<byte>, k: nat, k': nat,
                     at: nat -> Option<nat>, at': nat -> Option<nat>)
    requires a + k == k' < b <= |f| && w == f[a..b] && at == Matches(js, w, |w|) && at' == Matches(js, f, b)
    ensures ShiftedAt(at, at', a, k)
  {
    MatchShift(js, f, a, b, w, k, k');
    assert at(k) == Match(js, w, k, |w|) && at'(k') == Match(js, f, k', b);
  }

  lemma {:induction false} ElementsShift(at: nat -> Option<nat>, at': nat -> Option<nat>, f: seq<byte>, a: nat, b: nat,
                                         w: seq<byte>, i: nat, i': nat, l: Lex)
    requires a + i == i' <= b <= |f| && w == f[a..b]
    requires forall k :: 0 <= k < |w| ==> ShiftedAt(at, at', a, k)
    ensures Shifted(a, Elements(at, w, i, |w|, l)) == Elements(at', f, i', b, l)
    decreases |w| - i
  {
    if i < |w| {
      var next, next', l' := i + 1, i' + 1, Step(l, w[i]);
      assert ShiftedAt(at, at', a, i);
      assert Shifted(a, ElementAt(at, i, l)) == ElementAt(at', i', l);
      ElementsShift(at, at', f, a, b, w, next, next', l');
      ShiftedConcat(a, ElementAt(at, i, l), Elements(at, w, next, |w|, l'));
      assert f[i'] == w[i];
    }
  }

  /** The scan of a window finds what the scan of the file, limited to the
      window, finds there. */
  lemma WindowElements(js: Decoder, f: seq<byte>, a: nat, b: nat, w: seq<byte>)
    requires a <= b <= |f| && w == f[a..b]
    ensures Shifted(a, Elements(Matches(js, w, |w|), w, 0, |w|, Out)) == Elements(Matches(js, f, b), f, a, b, Out)
  {
    var at, at' := Matches(js, w, |w|), Matches(js, f, b);
    forall k | 0 <= k < |w| ensures ShiftedAt(at, at', a, k) { MatchesShift(js, f, a, b, w, k, a + k, at, at'); }
    ElementsShift(at, at', f, a, b, w, 0, a, Out);
  }

  lemma ShiftedConcat(a: nat, x: seq<Element>, y: seq<Element>)
    requires |x| <= 1
    ensures Shifted(a, x + y) == Shifted(a, x) + Shifted(a, y)
  {
    if x == [] { assert x + y == y; } else { assert (x + y)[1..] == y && x[1..] == []; }
  }

  // ---- Where the window ends ---------------------------------------------------------------

  lemma {:induction false} SkipSpaceWider(f: seq<byte>, k: nat, hi: nat, hi': nat)
    requires k <= hi <= hi' <= |f|
    ensures SkipSpace(f, k, hi) < hi || SkipSpace(f, k, hi') < hi ==> SkipSpace(f, k, hi) == SkipSpace(f, k, hi')
    decreases hi - k
  {
    if k < hi { SkipSpaceWider(f, k + 1, hi, hi'); }
  }

  lemma {:induction false} StringEndWider(f: seq<byte>, k: nat, hi: nat, hi': nat, l: Lex)
    requires k <= hi <= hi' <= |f|
    ensures StringEnd(f, k, hi, l).Some? ==> StringEnd(f, k, hi', l) == StringEnd(f, k, hi, l)
    ensures StringEnd(f, k, hi', l).Some? && StringEnd(f, k, hi', l).value <= hi ==>
        StringEnd(f, k, hi, l) == StringEnd(f, k, hi', l)
    decreases hi - k
  {
    if k < hi {
      StringEndWider(f, k + 1, hi, hi', Step(l, f[k]));
      StringEndWider(f, k + 1, hi, hi', Out);
    }
  }

  lemma {:induction false} ObjectEndWider(f: seq<byte>, k: nat, hi: nat, hi': nat, l: Lex, depth: nat)
    requires k <= hi <= hi' <= |f|
    ensures ObjectEnd(f, k, hi, l, depth).Some? ==> ObjectEnd(f, k, hi', l, depth) == ObjectEnd(f, k, hi, l, depth)
    ensures ObjectEnd(f, k, hi', l, depth).Some? && ObjectEnd(f, k, hi', l, depth).value <= hi
        ==> ObjectEnd(f, k, hi, l, depth) == ObjectEnd(f, k, hi', l, depth)
    decreases hi - k
  {
    if k < hi {
      if l.Out? && f[k] == OPEN { ObjectEndWider(f, k + 1, hi, hi', l, depth + 1); }
      else if l.Out? && f[k] == CLOSE { if depth > 0 { ObjectEndWider(f, k + 1, hi, hi', l, depth - 1); } }
      else { ObjectEndWider(f, k + 1, hi, hi', Step(l, f[k]), depth); }
    }
  }

  lemma {:induction false} ObjectEndSpaces(f: seq<byte>, k: nat, hi: nat, depth: nat)
    requires k <= hi <= |f|
    ensures ObjectEnd(f, k, hi, Out, depth) == ObjectEnd(f, SkipSpace(f, k, hi), hi, Out, depth)
    decreases hi - k
  {
    if k < hi && IsSpace(f[k]) { ObjectEndSpaces(f, k + 1, hi, depth); }
  }

  lemma {:induction false} ObjectEndString(f: seq<byte>, k: nat, hi: nat, l: Lex, depth: nat)
    requires k <= hi <= |f| && !l.Out? && StringEnd(f, k, hi, l).Some?
    ensures ObjectEnd(f, k, hi, l, depth) == ObjectEnd(f, StringEnd(f, k, hi, l).value, hi, Out, depth)
    decreases hi - k
  {
    if !Step(l, f[k]).Out? { ObjectEndString(f, k + 1, hi, Step(l, f[k]), depth); }
  }

  // The name lies within the object.
  lemma NameWithin(js: Decoder, f: seq<byte>, i: nat, hi: nat)
    requires i < hi <= |f| && NameEnd(js, f, i, hi).Some? && ObjectEnd(f, i + 1, hi, Out, 0).Some?
    ensures NameEnd(js, f, i, hi).value < ObjectEnd(f, i + 1, hi, Out, 0).value
  {
    var p := SkipSpace(f, i + 1, hi);
    ObjectEndSpaces(f, i + 1, hi, 0);
    var key := KeyEnd(js, f, p, hi).value;
    KeyWithin(js, f, p, hi);
    ColonWithin(f, key, hi);
  }

  lemma KeyWithin(js: Decoder, f: seq<byte>, p: nat, hi: nat)
    requires p < hi <= |f| && KeyEnd(js, f, p, hi).Some?
    ensures ObjectEnd(f, p, hi, Out, 0) == ObjectEnd(f, KeyEnd(js, f, p, hi).value, hi, Out, 0)
  {
    ObjectEndString(f, p + 1, hi, In, 0);
  }

  lemma ColonWithin(f: seq<byte>, k: nat, hi: nat)
    requires k <= hi <= |f| && ColonEnd(f, k, hi).Some?
    ensures ObjectEnd(f, k, hi, Out, 0) == ObjectEnd(f, ColonEnd(f, k, hi).value, hi, Out, 0)
  {
    ObjectEndSpaces(f, k, hi, 0);
  }

  lemma KeyEndWider(js: Decoder, f: seq<byte>, p: nat, hi: nat, hi': nat)
    requires p <= hi <= hi' <= |f|
    ensures KeyEnd(js, f, p, hi).Some? ==> KeyEnd(js, f, p, hi') == KeyEnd(js, f, p, hi)
    ensures KeyEnd(js, f, p, hi').Some? && KeyEnd(js, f, p, hi').value <= hi ==>
        KeyEnd(js, f, p, hi) == KeyEnd(js, f, p, hi')
  {
    if p < hi { StringEndWider(f, p + 1, hi, hi', In); }
  }

  lemma ColonEndWider(f: seq<byte>, k: nat, hi: nat, hi': nat)
    requires k <= hi <= hi' <= |f|
    ensures ColonEnd(f, k, hi).Some? ==> ColonEnd(f, k, hi') == ColonEnd(f, k, hi)
    ensures ColonEnd(f, k, hi').Some? && ColonEnd(f, k, hi').value <= hi ==> ColonEnd(f, k, hi) == ColonEnd(f, k, hi')
  {
    SkipSpaceWider(f, k, hi, hi');
  }

  lemma NameEndWider(js: Decoder, f: seq<byte>, i: nat, hi: nat, hi': nat)
    requires i < hi <= hi' <= |f|
    ensures NameEnd(js, f, i, hi).Some? ==> NameEnd(js, f, i, hi') == NameEnd(js, f, i, hi)
    ensures NameEnd(js, f, i, hi').Some? && NameEnd(js, f, i, hi').value <= hi ==>
        NameEnd(js, f, i, hi) == NameEnd(js, f, i, hi')
  {
    SkipSpaceWider(f, i + 1, hi, hi');
    var p := SkipSpace(f, i + 1, hi);
    KeyEndWider(js, f, p, hi, hi');
    var key := KeyEnd(js, f, p, hi);
    if key.Some? { ColonEndWider(f, key.value, hi, hi'); }
  }

  /** An object complete in a window is the same object in any wider one, and an
      object that ends within the window is complete in it. */
  lemma MatchWider(js: Decoder, f: seq<byte>, i: nat, hi: nat, hi': nat)
    requires i < hi <= hi' <= |f|
    ensures Match(js, f, i, hi).Some? ==> Match(js, f, i, hi') == Match(js, f, i, hi)
    ensures Match(js, f, i, hi').Some? && Match(js, f, i, hi').value <= hi ==>
        Match(js, f, i, hi) == Match(js, f, i, hi')
  {
    if f[i] == OPEN {
      NameEndWider(js, f, i, hi, hi');
      ObjectEndWider(f, i + 1, hi, hi', Out, 0);
      if NameEnd(js, f, i, hi').Some? && ObjectEnd(f, i + 1, hi', Out, 0).Some? { NameWithin(js, f, i, hi'); }
    }
  }

  // ---- Where the window begins: never in step inside a string ---------------------------------

  /** What stands between two strings of a JSON text: no backslash, and a comma or
      a colon. */
  predicate Separated(s: seq<byte>) { BACKSLASH !in s && (COMMA in s || COLON in s) }

  predicate NextQuote(f: seq<byte>, p: nat, o: nat) {
    p < o < |f| && f[p] == QUOTE && f[o] == QUOTE && QUOTE !in f[p + 1..o]
  }

  /** Between a quote that closes a string and the next quote stands what
      separates two strings (sections 4 and 5 of RFC 8259). */
  ghost predicate WellQuoted(f: seq<byte>) {
    forall p: nat, o: nat :: NextQuote(f, p, o) && LexAt(f, p).In? ==> Separated(f[p + 1..o])
  }

  /** The name looked for contains neither a comma nor a colon. */
  ghost predicate PlainName(js: Decoder) { forall s :: Separated(s) ==> !js.isKey(s) }

  /** For a decoder that reads a string without backslashes as itself, that is so
      exactly for the names that would not separate two strings: in particular for
      every name with no comma and no colon (section 7 of RFC 8259). */
  lemma PlainNameIff(js: Decoder, name: seq<byte>)
    requires forall s :: BACKSLASH !in s ==> (js.isKey(s) <==> s == name)
    ensures PlainName(js) <==> !Separated(name)
    ensures COMMA !in name && COLON !in name ==> PlainName(js)
  {
  }

  lemma {:induction false} LexInSpaces(f: seq<byte>, k: nat, p: nat)
    requires k <= p <= |f| && LexAt(f, k).In? && forall i :: k <= i < p ==> IsSpace(f[i])
    ensures LexAt(f, p).In?
    decreases p - k
  {
    if k < p { LexInSpaces(f, k, p - 1); }
  }

  lemma {:induction false} FirstQuote(f: seq<byte>, k: nat, hi: nat, l: Lex) returns (o: nat)
    requires k <= hi <= |f| && StringEnd(f, k, hi, l).Some?
    ensures k <= o < hi && f[o] == QUOTE && QUOTE !in f[k..o]
    decreases hi - k
  {
    if f[k] == QUOTE {
      o := k;
    } else {
      o := FirstQuote(f, k + 1, hi, Step(l, f[k]));
      assert f[k..o] == [f[k]] + f[k + 1..o];
    }
  }

  lemma {:induction false} StringEndPlain(f: seq<byte>, k: nat, o: nat, hi: nat)
    requires k <= o < hi <= |f| && f[o] == QUOTE && QUOTE !in f[k..o] && BACKSLASH !in f[k..o]
    ensures StringEnd(f, k, hi, In) == Some(o + 1)
    decreases o - k
  {
    if k < o {
      assert f[k..o] == [f[k]] + f[k + 1..o];
      StringEndPlain(f, k + 1, o, hi);
    }
  }

  // The quote that closes a string does not open the name.
  lemma NoNameAfterString(js: Decoder, f: seq<byte>, p: nat, hi: nat)
    requires p < hi <= |f| && WellQuoted(f) && PlainName(js) && LexAt(f, p).In?
    ensures KeyEnd(js, f, p, hi).None?
  {
    if f[p] == QUOTE && StringEnd(f, p + 1, hi, In).Some? {
      var o := FirstQuote(f, p + 1, hi, In);
      assert NextQuote(f, p, o);
      StringEndPlain(f, p + 1, o, hi);
    }
  }

  /** An opening brace inside a string never looks like an object with the name:
      what would be its first key lies between that string and the next. */
  lemma MatchOutside(js: Decoder, f: seq<byte>, i: nat, hi: nat)
    requires i < hi <= |f| && WellQuoted(f) && PlainName(js) && Match(js, f, i, hi).Some?
    ensures LexAt(f, i).Out?
  {
    if !LexAt(f, i).Out? {
      var p := SkipSpace(f, i + 1, hi);
      assert LexAt(f, i + 1).In?;
      LexInSpaces(f, i + 1, p);
      NoNameAfterString(js, f, p, hi);
    }
  }

  // ---- Parts of a scan -----------------------------------------------------------------------------

  lemma {:induction false} ElementsSplit(at: nat -> Option<nat>, f: seq<byte>, i: nat, m: nat, stop: nat)
    requires i <= m <= stop <= |f|
    ensures Elements(at, f, i, stop, LexAt(f, i))
        == Elements(at, f, i, m, LexAt(f, i)) + Elements(at, f, m, stop, LexAt(f, m))
    decreases m - i
  {
    if i < m {
      ElementsSplit(at, f, i + 1, m, stop);
      assert LexAt(f, i + 1) == Step(LexAt(f, i), f[i]);
    }
  }

  lemma {:induction false} NoElements(at: nat -> Option<nat>, f: seq<byte>, i: nat, stop: nat, l: Lex)
    requires i <= stop <= |f| && forall k :: i <= k < stop ==> at(k).None?
    ensures Elements(at, f, i, stop, l) == []
    decreases stop - i
  {
    if i < stop { NoElements(at, f, i + 1, stop, Step(l, f[i])); }
  }

  lemma {:induction false} SameElements(at: nat -> Option<nat>, at': nat -> Option<nat>, f: seq<byte>, i: nat,
                                        stop: nat, l: Lex)
    requires i <= stop <= |f| && forall k :: i <= k < stop ==> at(k) == at'(k)
    ensures Elements(at, f, i, stop, l) == Elements(at', f, i, stop, l)
    decreases stop - i
  {
    if i < stop { SameElements(at, at', f, i + 1, stop, Step(l, f[i])); }
  }

  /** Where every object of the file that starts in [i, stop) ends before hi, the
      window shows exactly those. */
  lemma ElementsWider(js: Decoder, f: seq<byte>, i: nat, stop: nat, hi: nat, l: Lex)
    requires i <= stop <= hi <= |f|
    requires forall k :: i <= k < stop && Match(js, f, k, |f|).Some? ==> Match(js, f, k, |f|).value <= hi
    ensures Elements(Matches(js, f, hi), f, i, stop, l) == Elements(Matches(js, f, |f|), f, i, stop, l)
  {
    var at, at' := Matches(js, f, hi), Matches(js, f, |f|);
    forall k | i <= k < stop ensures at(k) == at'(k) { MatchWider(js, f, k, hi, |f|); }
    SameElements(at, at', f, i, stop, l);
  }

  lemma {:induction false} ElementListed(at: nat -> Option<nat>, f: seq<byte>, i: nat, k: nat, stop: nat)
    requires i <= k < stop <= |f| && LexAt(f, k).Out? && at(k).Some?
    ensures Element(k, at(k).value) in Elements(at, f, i, stop, LexAt(f, i))
    decreases k - i
  {
    var e, next, l := Element(k, at(k).value), i + 1, LexAt(f, i);
    var first, rest := ElementAt(at, i, l), Elements(at, f, next, stop, Step(l, f[i]));
    if i < k {
      ElementListed(at, f, next, k, stop);
      assert LexAt(f, next) == Step(l, f[i]);
      assert e in rest;
    } else {
      assert first == [e];
    }
    assert e in first + rest;
  }

  /** Elements in order, within their bounds. */
  lemma {:induction false} ElementsBounded(at: nat -> Option<nat>, f: seq<byte>, i: nat, stop: nat, l: Lex)
    requires i <= stop <= |f|
    ensures forall e :: e in Elements(at, f, i, stop, l) ==> i <= e.start < stop && at(e.start) == Some(e.end)
    decreases stop - i
  {
    if i < stop { ElementsBounded(at, f, i + 1, stop, Step(l, f[i])); }
  }
}
