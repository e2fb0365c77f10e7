/** Reading a byte window of a file: which of the file's lines it shows. */
module Windows {
  import opened Bytes
  import opened Sequences
  import opened LineIo

  /** w is what the reader is given for f[a..b]: those bytes, with one LF behind
      them when they reach the end of the file without a terminator. */
  ghost predicate IsWindow(f: seq<byte>, a: nat, b: nat, w: seq<byte>) {
    && a < b <= |f|
    && (w == f[a..b] || (b == |f| && !IsTerminator(f[b - 1]) && w == f[a..b] + [LF]))
  }

  /** The same lines at file offsets, the window starting at base. */
  function Shift(lines: seq<Line>, base: nat): (shifted: seq<Line>) {
    if lines == [] then []
    else [Line(base + lines[0].offset, lines[0].raw)] + Shift(lines[1..], base)
  }

  lemma {:induction false} LineEndUnique(data: seq<byte>, i: nat, e: nat)
    requires i <= e <= |data|
    requires forall k :: i <= k < e ==> !IsTerminator(data[k])
    requires e == |data| || IsTerminator(data[e])
    ensures LineEnd(data, i) == e
    decreases e - i
  {
    if i < e { LineEndUnique(data, i + 1, e); }
  }

  // A terminated window shows the whole of every line that starts in it.
  lemma WindowLineEnd(f: seq<byte>, a: nat, b: nat, w: seq<byte>, p: nat)
    requires IsWindow(f, a, b, w) && Terminated(w) && a <= p < b
    ensures LineEnd(w, p - a) < |w|
    ensures a + LineEnd(w, p - a) == LineEnd(f, p) <= b
    ensures w[p - a..LineEnd(w, p - a)] == f[p..LineEnd(f, p)]
  {
    var e := LineEnd(w, p - a);
    var last := w[|w| - 1];
    assert e < |w| || !IsTerminator(last);
    forall k | p <= k < a + e ensures !IsTerminator(f[k]) { assert w[k - a] == f[k]; }
    assert a + e < b ==> w[e] == f[a + e];
    LineEndUnique(f, p, a + e);
    var view, content := w[p - a..e], f[p..a + e];
    assert forall k :: 0 <= k < |view| ==> view[k] == w[p - a + k] == f[p + k] == content[k];
  }

  function Move(slot: Option<Line>, base: nat): Option<Line> {
    if slot.Some? then Some(Line(base + slot.value.offset, slot.value.raw)) else None
  }

  lemma {:induction false} PresentMoved(s: seq<Option<Line>>, t: seq<Option<Line>>, base: nat)
    requires |s| == |t| && forall k :: 0 <= k < |s| ==> t[k] == Move(s[k], base)
    ensures Present(t) == Shift(Present(s), base)
  {
    if s != [] {
      PresentMoved(s[1..], t[1..], base);
      var rest := Present(s[1..]);
      assert s[0].Some? ==> ([s[0].value] + rest)[1..] == rest;
      assert s[0].None? ==> [] + rest == rest;
    }
  }

  lemma WindowSlot(f: seq<byte>, a: nat, b: nat, w: seq<byte>, p: nat)
    requires IsWindow(f, a, b, w) && Terminated(w)
    requires a <= p < b && (a == 0 || a < p)
    ensures Slots(f)[p] == Move(Slots(w)[p - a], a)
  {
    assert w[p - a] == f[p];
    assert p > a ==> w[p - 1 - a] == f[p - 1];
    WindowLineEnd(f, a, b, w, p);
  }

  /** The slice lemma: behind its first byte, a terminated window has exactly
      the file's lines; a window at byte 0 has them from there on. A window that
      cuts a CRLF in two, at either end, is no exception. */
  lemma WindowLinesIn(f: seq<byte>, a: nat, b: nat, w: seq<byte>, lo: nat, hi: nat)
    requires IsWindow(f, a, b, w) && Terminated(w)
    requires a <= lo <= hi <= b && (a == 0 || a < lo)
    ensures Shift(LinesIn(w, lo - a, hi - a), a) == LinesIn(f, lo, hi)
  {
    var s, t := Slots(w)[lo - a..hi - a], Slots(f)[lo..hi];
    forall k | 0 <= k < |s| ensures t[k] == Move(s[k], a) {
      var p := lo + k;
      WindowSlot(f, a, b, w, p);
      assert s[k] == Slots(w)[p - a] && t[k] == Slots(f)[p];
    }
    PresentMoved(s, t, a);
  }

  lemma WindowSplit(f: seq<byte>, a: nat, b: nat, w: seq<byte>)
    requires IsWindow(f, a, b, w)
    ensures Split(w, 0) == [LineAt(w, 0)] + LinesIn(w, 1, b - a)
    ensures LinesIn(w, 0, b - a) == [LineAt(w, 0)] + LinesIn(w, 1, b - a)
  {
    SplitIsLinesIn(w, 0);
    LineStarting(w, 0);
    LinesInConcat(w, 0, 1, b - a);
    LinesInConcat(w, 0, b - a, |w|);
    assert b - a < |w| ==> w[b - a - 1] == f[b - 1];
    NoStartInside(w, b - a, |w|);
  }

  /** When reading a window succeeds, in the file's own terms: it must end where
      a line ends, and the bytes up to the first line end must fit like a line. */
  lemma WindowReadIff(f: seq<byte>, a: nat, b: nat, w: seq<byte>, maxLineBytes: nat, skip: bool)
    requires IsWindow(f, a, b, w)
    ensures Read(w, 0, maxLineBytes, skip).error.None?
       <==> Terminated(w) && Fits(LineAt(f, a).raw, maxLineBytes) && AllFit(LinesIn(f, a + 1, b), maxLineBytes)
    ensures Read(w, 0, maxLineBytes, skip).error.None?
        ==> Read(w, 0, maxLineBytes, skip).emitted == LinesIn(w, if skip then 1 else 0, b - a)
  {
    ReadSucceedsIff(w, 0, maxLineBytes, skip);
    WindowSplit(f, a, b, w);
    AllFitCons(LineAt(w, 0), LinesIn(w, 1, b - a), maxLineBytes);
    if Terminated(w) {
      WindowLineEnd(f, a, b, w, a);
      WindowLinesIn(f, a, b, w, a + 1, b);
      AllFitShift(LinesIn(w, 1, b - a), a, maxLineBytes);
    }
  }

  // The lines that start inside [from, to], moved to file offsets: the
  // ownership filter in the reader's callback.
  function Owned(lines: seq<Line>, base: nat, from: int, to: int): seq<Line> {
    if lines == [] then []
    else
      var at := base + lines[0].offset;
      (if from <= at <= to then [Line(at, lines[0].raw)] else []) + Owned(lines[1..], base, from, to)
  }

  lemma {:induction false} OwnedConcat(a: seq<Line>, b: seq<Line>, base: nat, from: int, to: int)
    ensures Owned(a + b, base, from, to) == Owned(a, base, from, to) + Owned(b, base, from, to)
  {
    if a == [] {
      assert a + b == b;
    } else {
      assert (a + b)[1..] == a[1..] + b;
      OwnedConcat(a[1..], b, base, from, to);
    }
  }

  function OwnedLine(l: Line, base: nat, from: int, to: int): seq<Line> {
    if from <= base + l.offset <= to then [Line(base + l.offset, l.raw)] else []
  }

  lemma OwnedStep(lines: seq<Line>, k: nat, base: nat, from: int, to: int)
    requires k < |lines|
    ensures Owned(lines[..k + 1], base, from, to)
        == Owned(lines[..k], base, from, to) + OwnedLine(lines[k], base, from, to)
  {
    assert lines[..k + 1] == lines[..k] + [lines[k]];
    OwnedConcat(lines[..k], [lines[k]], base, from, to);
    assert [lines[k]][1..] == [];
  }

  method FilterOwned(lines: seq<Line>, base: nat, from: int, to: int) returns (published: seq<Line>)
    ensures published == Owned(lines, base, from, to)
  {
    published := [];
    for k := 0 to |lines|
      invariant published == Owned(lines[..k], base, from, to)
    {
      OwnedStep(lines, k, base, from, to);
      var at := base + lines[k].offset;
      if from <= at && at <= to {
        published := published + [Line(at, lines[k].raw)];
      }
    }
    assert lines[..|lines|] == lines;
  }

  lemma {:induction false} OwnedNone(lines: seq<Line>, base: nat, from: int, to: int)
    requires forall k :: 0 <= k < |lines| ==> base + lines[k].offset < from || to < base + lines[k].offset
    ensures Owned(lines, base, from, to) == []
  {
    if lines != [] { OwnedNone(lines[1..], base, from, to); }
  }

  lemma {:induction false} OwnedAll(lines: seq<Line>, base: nat, from: int, to: int)
    requires forall k :: 0 <= k < |lines| ==> from <= base + lines[k].offset <= to
    ensures Owned(lines, base, from, to) == Shift(lines, base)
  {
    if lines != [] {
      OwnedAll(lines[1..], base, from, to);
    }
  }

  lemma OwnedMiddle(before: seq<Line>, own: seq<Line>, after: seq<Line>, base: nat, from: int, to: int)
    requires forall k :: 0 <= k < |before| ==> base + before[k].offset < from
    requires forall k :: 0 <= k < |own| ==> from <= base + own[k].offset <= to
    requires forall k :: 0 <= k < |after| ==> to < base + after[k].offset
    ensures Owned(before + (own + after), base, from, to) == Shift(own, base)
  {
    OwnedConcat(before, own + after, base, from, to);
    OwnedConcat(own, after, base, from, to);
    OwnedNone(before, base, from, to);
    OwnedAll(own, base, from, to);
    OwnedNone(after, base, from, to);
  }

  lemma LinesInThree(w: seq<byte>, lo: nat, mid: nat, end: nat, hi: nat, a: seq<Line>, b: seq<Line>, c: seq<Line>)
    requires lo <= mid <= end <= hi <= |w|
    requires a == LinesIn(w, lo, mid) && b == LinesIn(w, mid, end) && c == LinesIn(w, end, hi)
    ensures LinesIn(w, lo, hi) == a + (b + c)
  {
    LinesInConcat(w, lo, mid, hi);
    LinesInConcat(w, mid, end, hi);
  }

  lemma {:induction false} PresentBounds(s: seq<Option<Line>>, lo: nat, hi: nat)
    requires forall k :: 0 <= k < |s| && s[k].Some? ==> lo <= s[k].value.offset < hi
    ensures forall k :: 0 <= k < |Present(s)| ==> lo <= Present(s)[k].offset < hi
  {
    if s != [] { PresentBounds(s[1..], lo, hi); }
  }

  lemma LinesInBounds(data: seq<byte>, lo: nat, hi: nat)
    requires lo <= hi <= |data|
    ensures forall k :: 0 <= k < |LinesIn(data, lo, hi)| ==> lo <= LinesIn(data, lo, hi)[k].offset < hi
  {
    PresentBounds(Slots(data)[lo..hi], lo, hi);
  }

  /** Filtering a window's lines by ownership is asking for the lines that start
      in the owned range. */
  lemma OwnedLinesIn(w: seq<byte>, lo: nat, mid: nat, end: nat, hi: nat, base: nat, from: int, to: int)
    requires lo <= mid <= end <= hi <= |w| && from == base + mid && to + 1 == base + end
    ensures Owned(LinesIn(w, lo, hi), base, from, to) == Shift(LinesIn(w, mid, end), base)
  {
    var before, own, after := LinesIn(w, lo, mid), LinesIn(w, mid, end), LinesIn(w, end, hi);
    LinesInBounds(w, lo, mid);
    LinesInBounds(w, mid, end);
    LinesInBounds(w, end, hi);
    LinesInThree(w, lo, mid, end, hi, before, own, after);
    OwnedMiddle(before, own, after, base, from, to);
  }

  lemma {:induction false} AllFitPresent(s: seq<Option<Line>>, maxLineBytes: nat)
    ensures AllFit(Present(s), maxLineBytes)
       <==> forall k :: 0 <= k < |s| && s[k].Some? ==> Fits(s[k].value.raw, maxLineBytes)
  {
    if s != [] {
      AllFitPresent(s[1..], maxLineBytes);
      assert forall k :: 0 < k < |s| ==> s[k] == s[1..][k - 1];
      assert forall k :: 0 <= k < |s[1..]| ==> s[1..][k] == s[k + 1];
      if s[0].Some? { AllFitCons(s[0].value, Present(s[1..]), maxLineBytes); }
      else { assert Present(s) == Present(s[1..]); }
    }
  }

  lemma AllFitLinesIn(f: seq<byte>, lo: nat, hi: nat, maxLineBytes: nat)
    requires lo <= hi <= |f|
    ensures AllFit(LinesIn(f, lo, hi), maxLineBytes)
       <==> forall p :: lo <= p < hi && IsLineStart(f, p) ==> Fits(LineAt(f, p).raw, maxLineBytes)
  {
    var s := Slots(f)[lo..hi];
    AllFitPresent(s, maxLineBytes);
    assert forall k :: 0 <= k < |s| ==> s[k] == Slots(f)[lo + k];
    assert forall p :: lo <= p < hi ==> Slots(f)[p] == s[p - lo];
  }

  lemma {:induction false} AllFitShift(lines: seq<Line>, base: nat, maxLineBytes: nat)
    ensures AllFit(Shift(lines, base), maxLineBytes) <==> AllFit(lines, maxLineBytes)
  {
    if lines != [] {
      AllFitShift(lines[1..], base, maxLineBytes);
      AllFitCons(lines[0], lines[1..], maxLineBytes);
      AllFitCons(Shift(lines, base)[0], Shift(lines[1..], base), maxLineBytes);
      assert [lines[0]] + lines[1..] == lines;
    }
  }

  lemma {:induction false} ShiftNone(lines: seq<Line>)
    ensures Shift(lines, 0) == lines
  {
    if lines != [] { ShiftNone(lines[1..]); }
  }

  ghost predicate IsPart(f: seq<byte>, part: seq<Line>, lo: nat, hi: nat) {
    lo <= hi <= |f| && part == LinesIn(f, lo, hi)
  }

  /** Ranges that tile [cuts[0], cuts[n]) together have all its lines, once. */
  lemma {:induction false} FlattenTiles(f: seq<byte>, parts: seq<seq<Line>>, cuts: seq<nat>)
    requires |cuts| == |parts| + 1
    requires forall c :: 0 <= c < |parts| ==> IsPart(f, parts[c], cuts[c], cuts[c + 1])
    requires cuts[0] <= |f|
    ensures cuts[0] <= cuts[|parts|] <= |f|
    ensures Flatten(parts) == LinesIn(f, cuts[0], cuts[|parts|])
  {
    if parts == [] {
      assert Slots(f)[cuts[0]..cuts[0]] == [];
    } else {
      FlattenTiles(f, parts[1..], cuts[1..]);
      LinesInConcat(f, cuts[0], cuts[1], cuts[|parts|]);
    }
  }

  lemma {:induction false} AllFitFlatten(parts: seq<seq<Line>>, maxLineBytes: nat)
    requires forall c :: 0 <= c < |parts| ==> AllFit(parts[c], maxLineBytes)
    ensures AllFit(Flatten(parts), maxLineBytes)
  {
    if parts != [] { AllFitFlatten(parts[1..], maxLineBytes); }
  }

  // Every listed line is one of the object's, whole.
  ghost predicate LinesOf(f: seq<byte>, lines: seq<Line>, lo: nat, hi: nat) {
    forall k :: 0 <= k < |lines| ==> LineOf(f, lines[k], lo, hi)
  }

  ghost predicate LineOf(f: seq<byte>, l: Line, lo: nat, hi: nat) {
    lo <= l.offset < hi && l.offset < |f| && IsLineStart(f, l.offset) && l == LineAt(f, l.offset)
  }

  lemma {:induction false} PresentLinesOf(f: seq<byte>, s: seq<Option<Line>>, lo: nat, hi: nat)
    requires forall k :: 0 <= k < |s| && s[k].Some? ==> LineOf(f, s[k].value, lo, hi)
    ensures LinesOf(f, Present(s), lo, hi)
  {
    if s != [] { PresentLinesOf(f, s[1..], lo, hi); }
  }

  lemma LinesInAreLines(f: seq<byte>, lo: nat, hi: nat)
    requires lo <= hi <= |f|
    ensures LinesOf(f, LinesIn(f, lo, hi), lo, hi)
  {
    var s := Slots(f)[lo..hi];
    forall k | 0 <= k < |s| && s[k].Some? ensures LineOf(f, s[k].value, lo, hi) {
      assert s[k] == Slots(f)[lo + k];
    }
    PresentLinesOf(f, s, lo, hi);
  }

  lemma LinesInHead(f: seq<byte>, p: nat, hi: nat)
    requires p < hi <= |f| && IsLineStart(f, p)
    ensures LinesIn(f, p, hi) != [] && LinesIn(f, p, hi)[0] == LineAt(f, p)
  {
    LineStarting(f, p);
    LinesInConcat(f, p, p + 1, hi);
  }

  lemma {:induction false} ShiftConcat(s: seq<Line>, t: seq<Line>, base: nat)
    ensures Shift(s + t, base) == Shift(s, base) + Shift(t, base)
  {
    if s == [] {
      assert s + t == t;
    } else {
      assert (s + t)[1..] == s[1..] + t;
      ShiftConcat(s[1..], t, base);
    }
  }

  lemma {:induction false} ShiftAt(lines: seq<Line>, base: nat)
    ensures |Shift(lines, base)| == |lines|
    ensures forall k :: 0 <= k < |lines| ==> Shift(lines, base)[k] == Line(base + lines[k].offset, lines[k].raw)
  {
    if lines != [] { ShiftAt(lines[1..], base); }
  }

  // Lines whose shifted offsets are all owned survive the filter.
  lemma OwnedShifted(lines: seq<Line>, base: nat, from: int, to: int)
    requires forall k :: 0 <= k < |Shift(lines, base)| ==> from <= Shift(lines, base)[k].offset <= to
    ensures Owned(lines, base, from, to) == Shift(lines, base)
  {
    ShiftAt(lines, base);
    forall k | 0 <= k < |lines| ensures from <= base + lines[k].offset <= to {
      assert Shift(lines, base)[k].offset == base + lines[k].offset;
    }
    OwnedAll(lines, base, from, to);
  }
}
