/** The scan for named JSON objects: strings are skipped, an object counts when
    its first key is the given name and its text is a complete value. */
module JsonScan {
  import opened Bytes

  const QUOTE: byte := 0x22
  const BACKSLASH: byte := 0x5C
  const OPEN: byte := 0x7B
  const CLOSE: byte := 0x7D
  const COLON: byte := 0x3A
  const COMMA: byte := 0x2C

  /** What is taken from the JSON library. isKey: the bytes between two quotes
      decode to the wanted first key. isObject: the bytes from an opening brace
      to the matching closing one are a valid object; a decoder that accepts an
      object stops at that brace. */
  datatype Decoder = Decoder(isKey: seq<byte> -> bool, isObject: seq<byte> -> bool)

  /** Outside strings, in one, or in one just after a backslash; section 7 of
      RFC 8259. */
  datatype Lex = Out | In | Escaped

  function Step(l: Lex, b: byte): Lex {
    match l
    case Out => if b == QUOTE then In else Out
    case In => if b == BACKSLASH then Escaped else if b == QUOTE then Out else In
    case Escaped => In
  }

  // Section 2 of RFC 8259.
  predicate IsSpace(b: byte) { b == 0x20 || b == 0x09 || b == CR || b == LF }

  // ---- Specification, over the bytes of f before hi ----------------------------------

  function SkipSpace(f: seq<byte>, k: nat, hi: nat): (r: nat)
    requires k <= hi <= |f|
    ensures k <= r <= hi
    ensures forall i :: k <= i < r ==> IsSpace(f[i])
    ensures r < hi ==> !IsSpace(f[r])
    decreases hi - k
  {
    if k < hi && IsSpace(f[k]) then SkipSpace(f, k + 1, hi) else k
  }

  // The position after the quote that ends the string entered before k.
  function StringEnd(f: seq<byte>, k: nat, hi: nat, l: Lex): (r: Option<nat>)
    requires k <= hi <= |f|
    ensures r.Some? ==> k < r.value <= hi && f[r.value - 1] == QUOTE
    decreases hi - k
  {
    if k == hi then None
    else if Step(l, f[k]).Out? then (if f[k] == QUOTE then Some(k + 1) else StringEnd(f, k + 1, hi, Out))
    else StringEnd(f, k + 1, hi, Step(l, f[k]))
  }

  // The position after the brace that closes depth + 1 open ones.
  function ObjectEnd(f: seq<byte>, k: nat, hi: nat, l: Lex, depth: nat): (r: Option<nat>)
    requires k <= hi <= |f|
    ensures r.Some? ==> k < r.value <= hi
    decreases hi - k
  {
    if k == hi then None
    else if l.Out? && f[k] == OPEN then ObjectEnd(f, k + 1, hi, l, depth + 1)
    else if l.Out? && f[k] == CLOSE then (if depth == 0 then Some(k + 1) else ObjectEnd(f, k + 1, hi, l, depth - 1))
    else ObjectEnd(f, k + 1, hi, Step(l, f[k]), depth)
  }

  // The position after the string at p, if it is the name looked for.
  function KeyEnd(js: Decoder, f: seq<byte>, p: nat, hi: nat): (r: Option<nat>)
    requires p <= hi <= |f|
    ensures r.Some? ==> p < r.value <= hi
  {
    if p == hi || f[p] != QUOTE then None else
    var key := StringEnd(f, p + 1, hi, In);
    if key.Some? && js.isKey(f[p + 1..key.value - 1]) then key else None
  }

  function ColonEnd(f: seq<byte>, k: nat, hi: nat): (r: Option<nat>)
    requires k <= hi <= |f|
    ensures r.Some? ==> k < r.value <= hi
  {
    var q := SkipSpace(f, k, hi);
    if q == hi || f[q] != COLON then None else Some(q + 1)
  }

  /** The position after the name and its colon, when the object opened at i
      begins with them. */
  function NameEnd(js: Decoder, f: seq<byte>, i: nat, hi: nat): (r: Option<nat>)
    requires i < hi <= |f|
    ensures r.Some? ==> i < r.value <= hi
  {
    var key := KeyEnd(js, f, SkipSpace(f, i + 1, hi), hi);
    if key.None? then None else ColonEnd(f, key.value, hi)
  }

  /** The end of the object at i, if it is one of those looked for. */
  function Match(js: Decoder, f: seq<byte>, i: nat, hi: nat): (r: Option<nat>)
    requires i < hi <= |f|
    ensures r.Some? ==> i < r.value <= hi
  {
    if f[i] != OPEN || NameEnd(js, f, i, hi).None? then None else
    var end := ObjectEnd(f, i + 1, hi, Out, 0);
    if end.Some? && js.isObject(f[i..end.value]) then end else None
  }

  datatype Element = Element(start: nat, end: nat)

  /** Match, as what a scan of the bytes before hi looks up at each position. */
  function Matches(js: Decoder, f: seq<byte>, hi: nat): nat -> Option<nat> {
    (i: nat) => if i < hi <= |f| then Match(js, f, i, hi) else None
  }

  function ElementAt(at: nat -> Option<nat>, i: nat, l: Lex): seq<Element> {
    if l.Out? && at(i).Some? then [Element(i, at(i).value)] else []
  }

  /** The objects that start in [i, stop), when the scan is in state l at i. */
  function Elements(at: nat -> Option<nat>, f: seq<byte>, i: nat, stop: nat, l: Lex): seq<Element>
    requires i <= stop <= |f|
    decreases stop - i
  {
    if i == stop then [] else ElementAt(at, i, l) + Elements(at, f, i + 1, stop, Step(l, f[i]))
  }

  /** The state of a scan that began outside strings at byte 0. */
  function LexAt(f: seq<byte>, i: nat): Lex
    requires i <= |f|
  {
    if i == 0 then Out else Step(LexAt(f, i - 1), f[i - 1])
  }

  // ---- The scan ----------------------------------------------------------------------

  method SkipSpaces(data: seq<byte>, k: nat) returns (p: nat)
    requires k <= |data|
    ensures p == SkipSpace(data, k, |data|)
  {
    p := k;
    while p < |data| && IsSpace(data[p])
      invariant k <= p <= |data| && SkipSpace(data, k, |data|) == SkipSpace(data, p, |data|)
    {
      p := p + 1;
    }
  }

  method MatchAt(js: Decoder, data: seq<byte>, i: nat) returns (end: Option<nat>)
    requires i < |data|
    ensures end == Match(js, data, i, |data|)
  {
    if data[i] != OPEN { return None; }
    var p := SkipSpaces(data, i + 1);
    if p >= |data| || data[p] != QUOTE { return None; }
    var key := StringEnd(data, p + 1, |data|, In);
    if key.None? || !js.isKey(data[p + 1..key.value - 1]) { return None; }
    var q := SkipSpaces(data, key.value);
    if q >= |data| || data[q] != COLON { return None; }
    end := ObjectEnd(data, i + 1, |data|, Out, 0);
    if end.Some? && !js.isObject(data[i..end.value]) { end := None; }
  }

  // The two flags of the scan.
  function Flags(inString: bool, escaped: bool): Lex { if escaped then Escaped else if inString then In else Out }

  method FindJSONObjectStarts(js: Decoder, data: seq<byte>) returns (found: seq<Element>)
    ensures found == Elements(Matches(js, data, |data|), data, 0, |data|, Out)
  {
    found := [];
    var inString, escaped := false, false;
    ghost var at := Matches(js, data, |data|);
    for i := 0 to |data|
      invariant escaped ==> inString
      invariant Elements(at, data, 0, |data|, Out) == found + Elements(at, data, i, |data|, Flags(inString, escaped))
    {
      ghost var was, l := found, Flags(inString, escaped);
      if inString {
        if escaped { escaped := false; }
        else if data[i] == BACKSLASH { escaped := true; }
        else if data[i] == QUOTE { inString := false; }
      } else if data[i] == QUOTE {
        inString := true;
      } else {
        var end := MatchAt(js, data, i);
        if end.Some? { found := found + [Element(i, end.value)]; }
      }
      assert was + [] == was;
      ScanStep(at, data, i, was, l, found, Flags(inString, escaped));
    }
  }

  lemma ScanStep(at: nat -> Option<nat>, data: seq<byte>, i: nat, was: seq<Element>, l: Lex, found: seq<Element>,
                 l': Lex)
    requires i < |data| && l' == Step(l, data[i]) && found == was + ElementAt(at, i, l)
    ensures was + Elements(at, data, i, |data|, l) == found + Elements(at, data, i + 1, |data|, l')
  {
  }
}
