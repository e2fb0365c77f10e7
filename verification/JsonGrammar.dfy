/** Flat JSON objects, by a recogniser: all that it accepts the array results hold of. */
module JsonGrammar {
  import opened Bytes
  import opened Jobs
  import opened JsonScan
  import opened JsonWindows
  import opened JsonArrays

  // ---- The recogniser (sections 2 to 7 of RFC 8259) -----------------------------------

  // The bytes of which numbers, true, false and null are made.
  predicate IsScalarByte(b: byte) {
    || 0x30 <= b <= 0x39 || 0x41 <= b <= 0x5A || 0x61 <= b <= 0x7A
    || b == 0x2B || b == 0x2D || b == 0x2E
  }

  function ScalarEnd(f: seq<byte>, k: nat): (r: nat)
    requires k <= |f|
    ensures k <= r <= |f|
    decreases |f| - k
  {
    if k < |f| && IsScalarByte(f[k]) then ScalarEnd(f, k + 1) else k
  }

  // A string begins at p: the position after it.
  function QuotedEnd(f: seq<byte>, p: nat): (r: Option<nat>)
    requires p <= |f|
    ensures r.Some? ==> p < r.value <= |f|
  {
    if p < |f| && f[p] == QUOTE then StringEnd(f, p + 1, |f|, In) else None
  }

  // A string or a scalar begins at p.
  function ValueEnd(f: seq<byte>, p: nat): (r: Option<nat>)
    requires p <= |f|
    ensures r.Some? ==> p < r.value <= |f|
  {
    if p < |f| && f[p] == QUOTE then QuotedEnd(f, p)
    else if ScalarEnd(f, p) > p then Some(ScalarEnd(f, p))
    else None
  }

  // A name, a colon and a value, with white space around: the position after them.
  function MemberEnd(f: seq<byte>, k: nat): (r: Option<nat>)
    requires k <= |f|
    ensures r.Some? ==> k < r.value <= |f|
  {
    var key := QuotedEnd(f, SkipSpace(f, k, |f|));
    if key.None? then None else
    var colon := ColonEnd(f, key.value, |f|);
    if colon.None? then None else
    var value := ValueEnd(f, SkipSpace(f, colon.value, |f|));
    if value.None? then None else Some(SkipSpace(f, value.value, |f|))
  }

  /** Members up to the closing brace, which is the last byte. */
  predicate AreMembers(f: seq<byte>, k: nat)
    requires k <= |f|
    decreases |f| - k
  {
    var m := MemberEnd(f, k);
    && m.Some? && m.value < |f|
    && if f[m.value] == COMMA then AreMembers(f, m.value + 1) else f[m.value] == CLOSE && m.value + 1 == |f|
  }

  predicate IsFlatText(f: seq<byte>) { f != [] && f[0] == OPEN && AreMembers(f, 1) }

  // The bytes between the quotes of the first name.
  function FirstKey(f: seq<byte>): seq<byte> {
    if |f| < 1 then [] else
    var p := SkipSpace(f, 1, |f|);
    var key := QuotedEnd(f, p);
    if key.None? || key.value < p + 2 then [] else f[p + 1..key.value - 1]
  }

  /** The decoder that goes with it. */
  function FlatDecoder(name: seq<byte>): Decoder {
    Decoder((s: seq<byte>) => s == name, (text: seq<byte>) => IsFlatText(text))
  }

  // ---- The end of an object ---------------------------------------------------------------

  // Nothing in [i, j) opens or closes an object.
  predicate Same(f: seq<byte>, i: nat, j: nat)
    requires i <= |f| && j <= |f|
  {
    ObjectEnd(f, i, |f|, Out, 0) == ObjectEnd(f, j, |f|, Out, 0)
  }

  lemma {:induction false} ScalarSame(f: seq<byte>, k: nat)
    requires k <= |f|
    ensures Same(f, k, ScalarEnd(f, k))
    decreases |f| - k
  {
    if k < |f| && IsScalarByte(f[k]) { ScalarSame(f, k + 1); }
  }

  lemma SpacesSame(f: seq<byte>, k: nat)
    requires k <= |f|
    ensures Same(f, k, SkipSpace(f, k, |f|))
  {
    ObjectEndSpaces(f, k, |f|, 0);
  }

  lemma QuotedSame(f: seq<byte>, p: nat)
    requires p <= |f| && QuotedEnd(f, p).Some?
    ensures Same(f, p, QuotedEnd(f, p).value)
  {
    ObjectEndString(f, p + 1, |f|, In, 0);
  }

  lemma MemberSame(f: seq<byte>, k: nat)
    requires k <= |f| && MemberEnd(f, k).Some?
    ensures Same(f, k, MemberEnd(f, k).value)
  {
    var p := SkipSpace(f, k, |f|);
    var key := QuotedEnd(f, p).value;
    var colon := ColonEnd(f, key, |f|).value;
    var v := SkipSpace(f, colon, |f|);
    var end := ValueEnd(f, v).value;
    SpacesSame(f, k);
    QuotedSame(f, p);
    ColonWithin(f, key, |f|);
    SpacesSame(f, colon);
    if f[v] == QUOTE { QuotedSame(f, v); } else { ScalarSame(f, v); }
    SpacesSame(f, end);
  }

  // The first of some members, and where the others begin.
  lemma NextMember(f: seq<byte>, k: nat) returns (m: nat, next: nat)
    requires k <= |f| && AreMembers(f, k)
    ensures MemberEnd(f, k) == Some(m) && k < m < next <= |f| && next == m + 1
    ensures if f[m] == COMMA then AreMembers(f, next) else f[m] == CLOSE && next == |f|
  {
    var end := MemberEnd(f, k);
    m, next := end.value, end.value + 1;
  }

  lemma EndStep(f: seq<byte>, k: nat, m: nat, next: nat)
    requires k <= |f| && MemberEnd(f, k) == Some(m) && m < |f| && next == m + 1 && (f[m] == COMMA || f[m] == CLOSE)
    ensures f[m] == COMMA ==> Same(f, k, next)
    ensures f[m] == CLOSE ==> ObjectEnd(f, k, |f|, Out, 0) == Some(next)
  {
    MemberSame(f, k);
    OneByte(f, m, next);
  }

  lemma OneByte(f: seq<byte>, m: nat, next: nat)
    requires m < |f| && next == m + 1
    ensures f[m] == COMMA ==> Same(f, m, next)
    ensures f[m] == CLOSE ==> ObjectEnd(f, m, |f|, Out, 0) == Some(next)
  {
  }

  lemma {:induction false} MembersEnd(f: seq<byte>, k: nat)
    requires k <= |f| && AreMembers(f, k)
    ensures ObjectEnd(f, k, |f|, Out, 0) == Some(|f|)
    decreases |f| - k
  {
    var m, next := NextMember(f, k);
    EndStep(f, k, m, next);
    if f[m] == COMMA { MembersEnd(f, next); }
  }

  // ---- Strings and braces inside an object ----------------------------------------------------

  // What the first k bytes are, read from the first.
  function Before(f: seq<byte>, k: nat): Progress
    requires k <= |f|
  {
    Run(START, f[..k])
  }

  lemma BeforeNext(f: seq<byte>, k: nat)
    requires k < |f|
    ensures Before(f, k + 1) == Advance(Before(f, k), f[k])
  {
    assert f[..k + 1][..k] == f[..k];
  }

  // No string is out of place before k, and no object opens there but the first.
  ghost predicate Tidy(f: seq<byte>, k: nat, l: Lex) {
    && k <= |f| && Before(f, k).ok && Before(f, k).lex == l
    && forall i :: 0 < i < k && LexAt(f, i).Out? ==> f[i] != OPEN
  }

  // And k is outside strings; with separated, a string may begin there.
  ghost predicate Clean(f: seq<byte>, k: nat, separated: bool) {
    Tidy(f, k, Out) && (separated ==> Before(f, k).separated)
  }

  lemma TidyNext(f: seq<byte>, k: nat, l: Lex)
    requires k < |f| && k > 0 && Tidy(f, k, l) && (l.Out? ==> f[k] != OPEN && f[k] != BACKSLASH)
    requires l.Out? && f[k] == QUOTE ==> Before(f, k).separated
    ensures Tidy(f, k + 1, Step(l, f[k]))
  {
    BeforeNext(f, k);
    RunLex(f, k);
  }

  lemma CleanNext(f: seq<byte>, k: nat, separated: bool)
    requires 0 < k < |f| && Clean(f, k, separated) && f[k] != OPEN && f[k] != BACKSLASH && f[k] != QUOTE
    ensures Clean(f, k + 1, separated || f[k] == COMMA || f[k] == COLON)
  {
    BeforeNext(f, k);
    TidyNext(f, k, Out);
  }

  lemma {:induction false} CleanSpaces(f: seq<byte>, k: nat, separated: bool)
    requires 0 < k <= |f| && Clean(f, k, separated)
    ensures Clean(f, SkipSpace(f, k, |f|), separated)
    decreases |f| - k
  {
    if k < |f| && IsSpace(f[k]) {
      CleanNext(f, k, separated);
      CleanSpaces(f, k + 1, separated);
    }
  }

  lemma {:induction false} CleanScalar(f: seq<byte>, k: nat, separated: bool)
    requires 0 < k <= |f| && Clean(f, k, separated)
    ensures Clean(f, ScalarEnd(f, k), separated)
    decreases |f| - k
  {
    if k < |f| && IsScalarByte(f[k]) {
      CleanNext(f, k, separated);
      CleanScalar(f, k + 1, separated);
    }
  }

  lemma {:induction false} TidyString(f: seq<byte>, k: nat, l: Lex)
    requires 0 < k <= |f| && !l.Out? && Tidy(f, k, l) && StringEnd(f, k, |f|, l).Some?
    ensures Tidy(f, StringEnd(f, k, |f|, l).value, Out)
    decreases |f| - k
  {
    TidyNext(f, k, l);
    if !Step(l, f[k]).Out? { TidyString(f, k + 1, Step(l, f[k])); }
  }

  lemma CleanQuoted(f: seq<byte>, p: nat)
    requires 0 < p <= |f| && Clean(f, p, true) && QuotedEnd(f, p).Some?
    ensures Clean(f, QuotedEnd(f, p).value, false)
  {
    TidyNext(f, p, Out);
    TidyString(f, p + 1, In);
  }

  lemma CleanColon(f: seq<byte>, k: nat)
    requires 0 < k <= |f| && Clean(f, k, false) && ColonEnd(f, k, |f|).Some?
    ensures Clean(f, ColonEnd(f, k, |f|).value, true)
  {
    CleanSpaces(f, k, false);
    CleanNext(f, SkipSpace(f, k, |f|), false);
  }

  lemma CleanMember(f: seq<byte>, k: nat)
    requires 0 < k <= |f| && Clean(f, k, true) && MemberEnd(f, k).Some?
    ensures Clean(f, MemberEnd(f, k).value, false)
  {
    var p := SkipSpace(f, k, |f|);
    var key := QuotedEnd(f, p).value;
    var colon := ColonEnd(f, key, |f|).value;
    var v := SkipSpace(f, colon, |f|);
    var end := ValueEnd(f, v).value;
    CleanSpaces(f, k, true);
    CleanQuoted(f, p);
    CleanColon(f, key);
    CleanSpaces(f, colon, true);
    if f[v] == QUOTE { CleanQuoted(f, v); } else { CleanScalar(f, v, false); }
    CleanSpaces(f, end, false);
  }

  // One member and the comma or brace behind it.
  lemma CleanStep(f: seq<byte>, k: nat, m: nat, next: nat)
    requires 0 < k <= |f| && Clean(f, k, true) && MemberEnd(f, k) == Some(m) && m < |f| && next == m + 1
    requires f[m] == COMMA || f[m] == CLOSE
    ensures Clean(f, next, f[m] == COMMA)
  {
    CleanMember(f, k);
    CleanNext(f, m, false);
  }

  lemma {:induction false} CleanMembers(f: seq<byte>, k: nat, n: nat)
    requires 0 < k <= |f| == n && Clean(f, k, true) && AreMembers(f, k)
    ensures Clean(f, n, false)
    decreases |f| - k
  {
    var m, next := NextMember(f, k);
    CleanStep(f, k, m, next);
    if f[m] == COMMA { CleanMembers(f, next, n); }
  }

  // ---- What the recogniser accepts ----------------------------------------------------------------

  /** Everything the recogniser accepts is, with its own first name, one of the
      objects that the results on arrays are about. */
  lemma FlatTextIsFlatObject(name: seq<byte>, text: seq<byte>)
    requires IsFlatText(text) && FirstKey(text) == name
    ensures IsFlatObject(FlatDecoder(name), text)
  {
    var js, n := FlatDecoder(name), |text|;
    FirstClean(text);
    CleanMembers(text, 1, n);
    assert text[..n] == text;
    NameFound(name, text);
    MembersEnd(text, 1);
    assert text[0..n] == text;
  }

  lemma FirstClean(text: seq<byte>)
    requires text != [] && text[0] == OPEN
    ensures Clean(text, 1, true)
  {
    BeforeNext(text, 0);
    assert text[..0] == [];
  }

  lemma NameFound(name: seq<byte>, text: seq<byte>)
    requires IsFlatText(text) && FirstKey(text) == name
    ensures NameEnd(FlatDecoder(name), text, 0, |text|).Some?
  {
    var p := SkipSpace(text, 1, |text|);
    assert QuotedEnd(text, p).Some? && ColonEnd(text, QuotedEnd(text, p).value, |text|).Some?;
  }

  /** Arrays of any such objects whose first name is the wanted one, without a comma
      or a colon in it. */
  lemma FlatArrays(name: seq<byte>, gaps: seq<seq<byte>>, objects: seq<seq<byte>>)
    requires COMMA !in name && COLON !in name && |gaps| == |objects| + 1
    requires forall k :: 0 <= k < |gaps| ==> IsGap(gaps[k])
    requires forall k :: 0 < k < |objects| ==> COMMA in gaps[k]
    requires forall k :: 0 <= k < |objects| ==> IsFlatText(objects[k]) && FirstKey(objects[k]) == name
    ensures PlainName(FlatDecoder(name)) && IsArray(FlatDecoder(name), gaps, objects)
  {
    PlainNameIff(FlatDecoder(name), name);
    forall k | 0 <= k < |objects| ensures IsFlatObject(FlatDecoder(name), objects[k]) {
      FlatTextIsFlatObject(name, objects[k]);
    }
  }
}
