/** Bytes, line terminators, UTF-8 validity and the source's 64-bit integers. */
module Bytes {

  newtype byte = x: int | 0 <= x < 256

  const LF: byte := 10
  const CR: byte := 13

  datatype Option<+T> = None | Some(value: T)
  datatype Result<+T, +E> = Ok(value: T) | Err(error: E)

  predicate IsTerminator(b: byte) {
    b == LF || b == CR
  }

  lemma SliceOfSlice<T>(s: seq<T>, a: nat, b: nat, i: nat, j: nat)
    requires a <= b <= |s| && i <= j <= b - a
    ensures s[a..b][i..j] == s[a + i..a + j]
  {
    var x, y := s[a..b][i..j], s[a + i..a + j];
    assert forall k :: 0 <= k < j - i ==> x[k] == s[a + i + k] == y[k];
  }

  lemma PrefixOfSlice<T>(s: seq<T>, a: nat, b: nat, c: nat)
    requires a <= b <= c <= |s|
    ensures s[a..b] <= s[a..c]
  {
    SliceOfSlice(s, a, c, 0, b - a);
  }

  /** What a lead byte announces: the length of its sequence (0: none starts
      here) and the bounds of the second byte; section 4 of RFC 3629. */
  datatype Lead = Lead(length: nat, lo: byte, hi: byte)

  function LeadOf(b: byte): Lead {
    if b <= 0x7F then Lead(1, 0, 0)
    else if 0xC2 <= b <= 0xDF then Lead(2, 0x80, 0xBF)
    else if b == 0xE0 then Lead(3, 0xA0, 0xBF)
    else if b == 0xED then Lead(3, 0x80, 0x9F)
    else if 0xE1 <= b <= 0xEF then Lead(3, 0x80, 0xBF)
    else if b == 0xF0 then Lead(4, 0x90, 0xBF)
    else if 0xF1 <= b <= 0xF3 then Lead(4, 0x80, 0xBF)
    else if b == 0xF4 then Lead(4, 0x80, 0x8F)
    else Lead(0, 0, 0)
  }

  /** Length of the well-formed UTF8-char at the head of s, or 0. */
  function Utf8Char(s: seq<byte>): (n: nat)
    requires s != []
    ensures n <= |s|
  {
    var lead := LeadOf(s[0]);
    if lead.length <= |s|
      && (lead.length < 2 || lead.lo <= s[1] <= lead.hi)
      && (forall k :: 2 <= k < lead.length ==> 0x80 <= s[k] <= 0xBF)
    then lead.length else 0
  }

  predicate ValidUtf8(s: seq<byte>) {
    s == [] || (Utf8Char(s) > 0 && ValidUtf8(s[Utf8Char(s)..]))
  }

  const TWO_63: int := 0x8000_0000_0000_0000
  const MAX_INT64: int := TWO_63 - 1

  /** Two's-complement wrap-around of a 64-bit signed result. */
  function Wrap64(x: int): (r: int)
    ensures -TWO_63 <= r < TWO_63
    ensures -TWO_63 <= x < TWO_63 ==> r == x
  {
    (x + TWO_63) % (2 * TWO_63) - TWO_63
  }

  /** Integer division as the source's language defines it: toward zero. */
  function Quotient(a: int, b: int): int
    requires b != 0
  {
    if a >= 0 then a / b else -((-a) / b)
  }
}
