/** What the scan takes for a string, an object and a first key, by positions. */
module JsonLexing {
  import opened Bytes
  import opened JsonScan

  // ---- Strings ----------------------------------------------------------------------

  /** How many backslashes stand right in front of q, as far back as k. */
  function Backslashes(f: seq<byte>, k: nat, q: nat): nat
    requires k <= q <= |f|
  {
    if q > k && f[q - 1] == 0x5C then 1 + Backslashes(f, k, q - 1) else 0
  }

  /** A quote that is not escaped: an even number of backslashes stands in front. */
  predicate IsClosingQuote(f: seq<byte>, k: nat, q: nat)
    requires k <= q < |f|
  {
    f[q] == 0x22 && Backslashes(f, k, q) % 2 == 0
  }

  ghost predicate IsStringEnd(f: seq<byte>, k: nat, from: nat, hi: nat, end: nat)
    requires k <= from <= hi <= |f|
  {
    from < end <= hi && IsClosingQuote(f, k, end - 1) && forall q :: from <= q < end - 1 ==> !IsClosingQuote(f, k, q)
  }

  lemma {:induction false} StringEndFrom(f: seq<byte>, k: nat, q: nat, hi: nat, end: nat)
    requires k <= q <= hi <= |f|
    ensures StringEnd(f, q, hi, if Backslashes(f, k, q) % 2 == 1 then Escaped else In) == Some(end)
       <==> IsStringEnd(f, k, q, hi, end)
    decreases hi - q
  {
    if q < hi {
      StringEndFrom(f, k, q + 1, hi, end);
      assert Backslashes(f, k, q + 1) == if f[q] == 0x5C then 1 + Backslashes(f, k, q) else 0;
      assert IsStringEnd(f, k, q, hi, end)
        <==> if IsClosingQuote(f, k, q) then end == q + 1 else IsStringEnd(f, k, q + 1, hi, end);
    }
  }

  /** The string whose content begins at k ends behind its first quote that is not
      escaped. */
  lemma StringEndIff(f: seq<byte>, k: nat, hi: nat, end: nat)
    requires k <= hi <= |f|
    ensures StringEnd(f, k, hi, In) == Some(end) <==> IsStringEnd(f, k, k, hi, end)
  {
    StringEndFrom(f, k, k, hi, end);
  }

  // ---- Objects ----------------------------------------------------------------------

  // The state of a scan that begins outside strings at k.
  function LexFrom(f: seq<byte>, k: nat, q: nat): Lex
    requires k <= q <= |f|
  {
    if q == k then Out else Step(LexFrom(f, k, q - 1), f[q - 1])
  }

  /** Opening less closing braces outside strings, in f[k..q]. */
  function Depth(f: seq<byte>, k: nat, q: nat): int
    requires k <= q <= |f|
  {
    if q == k then 0
    else Depth(f, k, q - 1) + if !LexFrom(f, k, q - 1).Out? then 0
                              else if f[q - 1] == 0x7B then 1 else if f[q - 1] == 0x7D then -1 else 0
  }

  ghost predicate IsObjectEnd(f: seq<byte>, k: nat, from: nat, hi: nat, end: nat)
    requires k <= from <= hi <= |f|
  {
    from < end <= hi && Depth(f, k, end) == -1 && forall q :: from < q < end ==> Depth(f, k, q) >= 0
  }

  lemma {:induction false} ObjectEndFrom(f: seq<byte>, k: nat, q: nat, hi: nat, end: nat)
    requires k <= q <= hi <= |f| && Depth(f, k, q) >= 0
    ensures ObjectEnd(f, q, hi, LexFrom(f, k, q), Depth(f, k, q)) == Some(end) <==> IsObjectEnd(f, k, q, hi, end)
    decreases hi - q
  {
    if q < hi && Depth(f, k, q + 1) >= 0 {
      ObjectEndFrom(f, k, q + 1, hi, end);
      assert Depth(f, k, q + 1) >= 0;
    } else if q < hi {
      assert Depth(f, k, q + 1) == -1;
    }
  }

  /** The object whose brace stands in front of k ends where the braces outside strings
      first balance. */
  lemma ObjectEndIff(f: seq<byte>, k: nat, hi: nat, end: nat)
    requires k <= hi <= |f|
    ensures ObjectEnd(f, k, hi, Out, 0) == Some(end) <==> IsObjectEnd(f, k, k, hi, end)
  {
    ObjectEndFrom(f, k, k, hi, end);
  }

  // ---- First keys -------------------------------------------------------------------

  /** Space, tab, carriage return and line feed, and nothing else. */
  predicate OnlySpaces(f: seq<byte>, k: nat, p: nat)
    requires k <= p <= |f|
  {
    forall q :: k <= q < p ==> f[q] == 0x20 || f[q] == 0x09 || f[q] == 0x0D || f[q] == 0x0A
  }

  lemma {:induction false} SkipSpaceIff(f: seq<byte>, k: nat, hi: nat, p: nat)
    requires k <= p < hi <= |f| && !IsSpace(f[p])
    ensures SkipSpace(f, k, hi) == p <==> OnlySpaces(f, k, p)
    decreases p - k
  {
    if k < p { SkipSpaceIff(f, k + 1, hi, p); }
  }

  /** A name stands at p, up to n, and a colon at q: only white space in front of it, and
      between the two. */
  ghost predicate NamedAt(js: Decoder, f: seq<byte>, i: nat, hi: nat, p: nat, n: nat, q: nat) {
    && i < p < n <= q < hi <= |f|
    && OnlySpaces(f, i + 1, p) && f[p] == 0x22
    && IsStringEnd(f, p + 1, p + 1, hi, n) && js.isKey(f[p + 1..n - 1])
    && OnlySpaces(f, n, q) && f[q] == 0x3A
  }

  lemma NameEndIff(js: Decoder, f: seq<byte>, i: nat, hi: nat)
    requires i < hi <= |f|
    ensures NameEnd(js, f, i, hi).Some? <==> exists p, n, q :: NamedAt(js, f, i, hi, p, n, q)
  {
    if NameEnd(js, f, i, hi).Some? { var p, n, q := FoundName(js, f, i, hi); }
    forall p: nat, n: nat, q: nat | NamedAt(js, f, i, hi, p, n, q) ensures NameEnd(js, f, i, hi).Some? {
      NameFound(js, f, i, hi, p, n, q);
    }
  }

  lemma FoundName(js: Decoder, f: seq<byte>, i: nat, hi: nat) returns (p: nat, n: nat, q: nat)
    requires i < hi <= |f| && NameEnd(js, f, i, hi).Some?
    ensures NamedAt(js, f, i, hi, p, n, q)
  {
    p := SkipSpace(f, i + 1, hi);
    n := KeyEnd(js, f, p, hi).value;
    q := SkipSpace(f, n, hi);
    StringEndIff(f, p + 1, hi, n);
  }

  lemma NameFound(js: Decoder, f: seq<byte>, i: nat, hi: nat, p: nat, n: nat, q: nat)
    requires NamedAt(js, f, i, hi, p, n, q)
    ensures NameEnd(js, f, i, hi).Some?
  {
    SkipSpaceIff(f, i + 1, hi, p);
    StringEndIff(f, p + 1, hi, n);
    SkipSpaceIff(f, n, hi, q);
    assert KeyEnd(js, f, p, hi) == Some(n);
    assert ColonEnd(f, n, hi) == Some(q + 1);
  }

  /** What is found at i: a brace, the wanted name as the first key, a colon, and an
      object that ends where its braces balance and that the decoder accepts. White
      space in front of the name and of the colon does not matter. */
  lemma MatchIff(js: Decoder, f: seq<byte>, i: nat, hi: nat, end: nat)
    requires i < hi <= |f|
    ensures Match(js, f, i, hi) == Some(end) <==>
      && f[i] == 0x7B && (exists p, n, q :: NamedAt(js, f, i, hi, p, n, q))
      && IsObjectEnd(f, i + 1, i + 1, hi, end) && js.isObject(f[i..end])
  {
    NameEndIff(js, f, i, hi);
    ObjectEndIff(f, i + 1, hi, end);
  }

  // ---- The scan ---------------------------------------------------------------------

  /** What the scan lists: every position outside strings at which something matches. */
  lemma {:induction false} ListedIff(at: nat -> Option<nat>, f: seq<byte>, i: nat, stop: nat, e: Element)
    requires i <= stop <= |f|
    ensures e in Elements(at, f, i, stop, LexAt(f, i)) <==>
        i <= e.start < stop && LexAt(f, e.start).Out? && at(e.start) == Some(e.end)
    decreases stop - i
  {
    if i < stop {
      var first, rest := ElementAt(at, i, LexAt(f, i)), Elements(at, f, i + 1, stop, LexAt(f, i + 1));
      ListedIff(at, f, i + 1, stop, e);
      assert e in first + rest <==> e in first || e in rest;
    }
  }

  ghost predicate Increasing(found: seq<Element>) {
    forall m, n :: 0 <= m < n < |found| ==> found[m].start < found[n].start
  }

  lemma PutFirst(first: seq<Element>, rest: seq<Element>, i: nat)
    requires |first| <= 1 && (forall e :: e in first ==> e.start == i)
    requires Increasing(rest) && forall e :: e in rest ==> e.start > i
    ensures Increasing(first + rest)
  {
    if |first| == 1 {
      var e := first[0];
      assert e in first && first == [e];
      var found := [e] + rest;
      forall m, n | 0 <= m < n < |found| ensures found[m].start < found[n].start {
        assert found[n] == rest[n - 1] && found[n] in rest;
        assert m > 0 ==> found[m] == rest[m - 1];
      }
    } else {
      assert first + rest == rest;
    }
  }

  /** In the order of the text, and each position once. */
  lemma {:induction false} ListedInOrder(at: nat -> Option<nat>, f: seq<byte>, i: nat, stop: nat)
    requires i <= stop <= |f|
    ensures Increasing(Elements(at, f, i, stop, LexAt(f, i)))
    decreases stop - i
  {
    if i < stop {
      var first, rest := ElementAt(at, i, LexAt(f, i)), Elements(at, f, i + 1, stop, LexAt(f, i + 1));
      ListedInOrder(at, f, i + 1, stop);
      forall e | e in rest ensures e.start > i { ListedIff(at, f, i + 1, stop, e); }
      PutFirst(first, rest, i);
    }
  }
}
