/** Valid UTF-8 is the concatenated encoding of Unicode scalar values; section 3 of
    RFC 3629. */
module Utf8 {
  import opened Bytes

  predicate IsScalar(c: int) { 0 <= c < 0xD800 || 0xE000 <= c <= 0x10FFFF }

  // The six bits of c above the lowest 6 * k.
  function Tail(c: nat, k: nat): byte
    requires k in {1, 64, 0x1000}
  {
    (0x80 + c / k % 64) as byte
  }

  function Encode(c: int): (s: seq<byte>)
    requires IsScalar(c)
    ensures 1 <= |s| <= 4
  {
    if c < 0x80 then [c as byte]
    else if c < 0x800 then [(0xC0 + c / 64) as byte, Tail(c, 1)]
    else if c < 0x1_0000 then [(0xE0 + c / 0x1000) as byte, Tail(c, 64), Tail(c, 1)]
    else [(0xF0 + c / 0x4_0000) as byte, Tail(c, 0x1000), Tail(c, 64), Tail(c, 1)]
  }

  predicate AllScalar(cs: seq<int>) { forall i :: 0 <= i < |cs| ==> IsScalar(cs[i]) }

  function EncodeAll(cs: seq<int>): seq<byte>
    requires AllScalar(cs)
  {
    if cs == [] then [] else Encode(cs[0]) + EncodeAll(cs[1..])
  }

  // ---- One character ---------------------------------------------------------------

  // s is as its lead byte announces.
  predicate WellFormed(s: seq<byte>)
    requires s != []
  {
    var lead := LeadOf(s[0]);
    && lead.length == |s| && (|s| > 1 ==> lead.lo <= s[1] <= lead.hi)
    && forall k :: 2 <= k < |s| ==> 0x80 <= s[k] <= 0xBF
  }

  lemma EncodedForm(c: int)
    requires IsScalar(c)
    ensures WellFormed(Encode(c))
  {
    if c >= 0x1_0000 { FormOfFour(c); } else if c >= 0x800 { FormOfThree(c); }
  }

  lemma FormOfThree(c: int)
    requires IsScalar(c) && 0x800 <= c < 0x1_0000
    ensures WellFormed(Encode(c))
  {
    var lead, second := c / 0x1000, c / 64 % 64;
    assert c / 64 == lead * 64 + second;
    assert lead == 0 ==> second >= 0x20;
    assert lead == 0xD ==> second < 0x20;
  }

  lemma FormOfFour(c: int)
    requires 0x1_0000 <= c <= 0x10FFFF
    ensures WellFormed(Encode(c))
  {
    var lead, second := c / 0x4_0000, c / 0x1000 % 64;
    assert c / 0x1000 == lead * 64 + second;
    assert lead == 0 ==> second >= 0x10;
    assert lead == 4 ==> second < 0x10;
  }

  lemma EncodedIsChar(c: int, rest: seq<byte>)
    requires IsScalar(c)
    ensures Utf8Char(Encode(c) + rest) == |Encode(c)|
  {
    EncodedForm(c);
    var s := Encode(c) + rest;
    assert forall k :: 0 <= k < |Encode(c)| ==> s[k] == Encode(c)[k];
  }

  // What the lead byte s[0] and the bytes behind it stand for.
  function ValueOf(s: seq<byte>): int
    requires 1 <= |s| <= 4
  {
    if |s| == 1 then s[0] as int
    else if |s| == 2 then (s[0] as int - 0xC0) * 64 + (s[1] as int - 0x80)
    else if |s| == 3 then (s[0] as int - 0xE0) * 0x1000 + (s[1] as int - 0x80) * 64 + (s[2] as int - 0x80)
    else (s[0] as int - 0xF0) * 0x4_0000 + (s[1] as int - 0x80) * 0x1000 + (s[2] as int - 0x80) * 64
         + (s[3] as int - 0x80)
  }

  lemma CharIsEncoded(s: seq<byte>)
    requires s != [] && Utf8Char(s) == |s|
    ensures |s| <= 4 && IsScalar(ValueOf(s)) && Encode(ValueOf(s)) == s
  {
    if |s| == 2 {
      TwoBytes(s);
    } else if |s| == 3 {
      ThreeBytes(s);
    } else if |s| == 4 {
      FourBytes(s);
    }
  }

  lemma TwoBytes(s: seq<byte>)
    requires |s| == 2 && Utf8Char(s) == 2
    ensures IsScalar(ValueOf(s)) && Encode(ValueOf(s)) == s
  {
  }

  lemma ThreeBytes(s: seq<byte>)
    requires |s| == 3 && Utf8Char(s) == 3
    ensures IsScalar(ValueOf(s)) && Encode(ValueOf(s)) == s
  {
    assert 0x80 <= s[2] <= 0xBF;
    var c := ValueOf(s);
    Digits(0, s[0] as int - 0xE0, s[1] as int - 0x80, s[2] as int - 0x80, c);
    ThreeTails(s, c);
  }

  lemma ThreeTails(s: seq<byte>, c: int)
    requires |s| == 3 && 0x800 <= c < 0x1_0000 && IsScalar(c)
    requires c / 0x1000 == s[0] as int - 0xE0 && c / 64 % 64 == s[1] as int - 0x80 && c % 64 == s[2] as int - 0x80
    ensures Encode(c) == s
  {
    assert Tail(c, 64) == s[1] && Tail(c, 1) == s[2];
  }

  lemma FourBytes(s: seq<byte>)
    requires |s| == 4 && Utf8Char(s) == 4
    ensures IsScalar(ValueOf(s)) && Encode(ValueOf(s)) == s
  {
    assert 0x80 <= s[2] <= 0xBF && 0x80 <= s[3] <= 0xBF;
    var c := ValueOf(s);
    Digits(s[0] as int - 0xF0, s[1] as int - 0x80, s[2] as int - 0x80, s[3] as int - 0x80, c);
    FourTails(s, c);
  }

  lemma Digits(a: nat, x: nat, y: nat, z: nat, c: nat)
    requires x < 64 && y < 64 && z < 64 && c == a * 0x4_0000 + x * 0x1000 + y * 64 + z
    ensures c / 0x4_0000 == a && c / 0x1000 == a * 64 + x
    ensures c / 0x1000 % 64 == x && c / 64 % 64 == y && c % 64 == z
  {
    assert c / 64 == a * 0x1000 + x * 64 + y;
    assert c / 0x1000 == a * 64 + x;
  }

  lemma FourTails(s: seq<byte>, c: int)
    requires |s| == 4 && 0x1_0000 <= c <= 0x10FFFF
    requires c / 0x4_0000 == s[0] as int - 0xF0 && c / 0x1000 % 64 == s[1] as int - 0x80
    requires c / 64 % 64 == s[2] as int - 0x80 && c % 64 == s[3] as int - 0x80
    ensures Encode(c) == s
  {
    assert Tail(c, 0x1000) == s[1] && Tail(c, 64) == s[2] && Tail(c, 1) == s[3];
  }

  // A character's length does not depend on what follows it.
  lemma CharAlone(s: seq<byte>)
    requires s != [] && Utf8Char(s) > 0
    ensures Utf8Char(s[..Utf8Char(s)]) == Utf8Char(s)
  {
  }

  // ---- Any number of them ------------------------------------------------------------

  lemma {:induction false} EncodedIsValid(cs: seq<int>)
    requires AllScalar(cs)
    ensures ValidUtf8(EncodeAll(cs))
    decreases |cs|
  {
    if cs != [] {
      var c, rest := cs[0], EncodeAll(cs[1..]);
      EncodedIsValid(cs[1..]);
      EncodedIsChar(c, rest);
      assert (Encode(c) + rest)[|Encode(c)|..] == rest;
    }
  }

  lemma {:induction false} ValidIsEncoded(s: seq<byte>) returns (cs: seq<int>)
    requires ValidUtf8(s)
    ensures AllScalar(cs) && EncodeAll(cs) == s
    decreases |s|
  {
    if s == [] {
      cs := [];
    } else {
      var n := Utf8Char(s);
      var rest := ValidIsEncoded(s[n..]);
      CharAlone(s);
      CharIsEncoded(s[..n]);
      cs := [ValueOf(s[..n])] + rest;
      assert cs[1..] == rest;
      assert s == s[..n] + s[n..];
    }
  }

  /** The check accepts exactly the encodings of scalar values: no overlong form, no
      surrogate, nothing above U+10FFFF, nothing cut short. */
  lemma ValidIffEncoded(s: seq<byte>)
    ensures ValidUtf8(s) <==> exists cs :: AllScalar(cs) && EncodeAll(cs) == s
  {
    if ValidUtf8(s) {
      var cs := ValidIsEncoded(s);
    }
    forall cs | AllScalar(cs) && EncodeAll(cs) == s ensures ValidUtf8(s) { EncodedIsValid(cs); }
  }
}
