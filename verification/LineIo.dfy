/** The CR / LF / CRLF line reader, and the line splitter it refines. */
module LineIo {
  import opened Bytes

  datatype Line = Line(offset: nat, raw: seq<byte>)

  datatype ReadError =
    | BadLimit
    | Unterminated(at: nat)
    | TooLong(at: nat)
    | BadUtf8(at: nat)

  /** What one call of the reader hands to its callback, and how it ends. */
  datatype Outcome = Outcome(emitted: seq<Line>, error: Option<ReadError>)

  // ---- Positional specification -------------------------------------------

  /** p is the first byte of a line: the start of the input, or just behind a
      terminator that p does not itself complete. */
  predicate IsLineStart(data: seq<byte>, p: nat)
    requires p < |data|
  {
    p == 0 || data[p - 1] == LF || (data[p - 1] == CR && data[p] != LF)
  }

  function LineEnd(data: seq<byte>, i: nat): (e: nat)
    requires i <= |data|
    ensures i <= e <= |data|
    ensures forall k :: i <= k < e ==> !IsTerminator(data[k])
    ensures e < |data| ==> IsTerminator(data[e])
    decreases |data| - i
  {
    if i == |data| || IsTerminator(data[i]) then i else LineEnd(data, i + 1)
  }

  function LineAt(data: seq<byte>, p: nat): Line
    requires p <= |data|
  {
    Line(p, data[p..LineEnd(data, p)])
  }

  /** One slot per byte of the input: the line that starts there, if any. */
  function Slots(data: seq<byte>): (slots: seq<Option<Line>>)
    ensures |slots| == |data|
    ensures forall p :: 0 <= p < |data| ==> slots[p] == if IsLineStart(data, p) then Some(LineAt(data, p)) else None
  {
    seq(|data|, p requires 0 <= p < |data| => if IsLineStart(data, p) then Some(LineAt(data, p)) else None)
  }

  function Present<T>(slots: seq<Option<T>>): seq<T> {
    if slots == [] then []
    else (if slots[0].Some? then [slots[0].value] else []) + Present(slots[1..])
  }

  /** The lines of data that start in [lo, hi): the positional specification. */
  function LinesIn(data: seq<byte>, lo: nat, hi: nat): (lines: seq<Line>)
    requires lo <= hi <= |data|
  {
    Present(Slots(data)[lo..hi])
  }

  predicate Terminated(data: seq<byte>) {
    data == [] || IsTerminator(data[|data| - 1])
  }

  predicate Fits(raw: seq<byte>, maxLineBytes: nat) {
    |raw| <= maxLineBytes && ValidUtf8(raw)
  }

  // ---- Recursive splitter --------------------------------------------------

  // First byte behind the terminator at e.
  function AfterTerminator(data: seq<byte>, e: nat): (next: nat)
    requires e < |data|
    ensures e < next <= |data|
  {
    if data[e] == CR && e + 1 < |data| && data[e + 1] == LF then e + 2 else e + 1
  }

  /** The logical lines of data[i..]; a last line without terminator counts. */
  function Split(data: seq<byte>, i: nat): seq<Line>
    requires i <= |data|
    decreases |data| - i
  {
    if i == |data| then [] else
    var e := LineEnd(data, i);
    [LineAt(data, i)] + (if e == |data| then [] else Split(data, AfterTerminator(data, e)))
  }

  /** The reader's outcome from line start i on, checks in the reader's order. */
  function Read(data: seq<byte>, i: nat, maxLineBytes: nat, skip: bool): Outcome
    requires i <= |data|
    decreases |data| - i
  {
    if i == |data| then Outcome([], None) else
    var e := LineEnd(data, i);
    if e - i > maxLineBytes then Outcome([], Some(TooLong(i)))
    else if e == |data| then Outcome([], Some(Unterminated(i)))
    else if !ValidUtf8(data[i..e]) then Outcome([], Some(BadUtf8(i)))
    else
      var rest := Read(data, AfterTerminator(data, e), maxLineBytes, false);
      if skip then rest else Prepend([LineAt(data, i)], rest)
  }

  function Prepend(lines: seq<Line>, o: Outcome): Outcome {
    Outcome(lines + o.emitted, o.error)
  }

  // The current line starts at i; buf is its content as far as p.
  ghost predicate InLine(data: seq<byte>, i: nat, p: nat, buf: seq<byte>) {
    i <= p <= |data| && buf == data[i..p] && LineEnd(data, i) == LineEnd(data, p)
  }

  lemma InLineStart(data: seq<byte>, i: nat)
    requires i <= |data|
    ensures InLine(data, i, i, [])
  {
  }

  lemma InLineStep(data: seq<byte>, i: nat, p: nat, buf: seq<byte>)
    requires InLine(data, i, p, buf) && p < |data| && !IsTerminator(data[p])
    ensures InLine(data, i, p + 1, buf + [data[p]])
  {
  }

  function Emitted(content: seq<byte>, lineStart: nat, skip: bool): seq<Line> {
    if skip then [] else [Line(lineStart, content)]
  }

  lemma LineComplete(data: seq<byte>, i: nat, e: nat, buf: seq<byte>, maxLineBytes: nat, skip: bool,
                     emitted: seq<Line>, rest: Outcome)
    returns (rest': Outcome)
    requires InLine(data, i, e, buf) && e < |data| && IsTerminator(data[e]) && |buf| <= maxLineBytes
    requires rest == Read(data, i, maxLineBytes, skip)
    ensures !ValidUtf8(buf) ==> rest == Outcome([], Some(BadUtf8(i)))
    ensures ValidUtf8(buf) ==>
      && rest' == Read(data, AfterTerminator(data, e), maxLineBytes, false)
      && Prepend(emitted, rest) == Prepend(emitted + Emitted(buf, i, skip), rest')
  {
    rest' := Read(data, AfterTerminator(data, e), maxLineBytes, false);
    assert emitted + ([Line(i, buf)] + rest'.emitted) == emitted + [Line(i, buf)] + rest'.emitted;
    assert emitted + [] == emitted;
  }

  lemma LineTooLong(data: seq<byte>, i: nat, p: nat, buf: seq<byte>, maxLineBytes: nat, skip: bool)
    requires InLine(data, i, p, buf) && p < |data| && !IsTerminator(data[p]) && |buf| >= maxLineBytes
    ensures Read(data, i, maxLineBytes, skip) == Outcome([], Some(TooLong(i)))
  {
  }

  lemma InputComplete(data: seq<byte>, i: nat, buf: seq<byte>, maxLineBytes: nat, skip: bool)
    requires InLine(data, i, |data|, buf) && |buf| <= maxLineBytes
    ensures Read(data, i, maxLineBytes, skip) == Outcome([], if |buf| > 0 then Some(Unterminated(i)) else None)
  {
  }

  method EmitLine(content: seq<byte>, lineStart: nat, skip: bool, emitted: seq<Line>)
    returns (emitted': seq<Line>, error: Option<ReadError>)
    ensures error == if ValidUtf8(content) then None else Some(BadUtf8(lineStart))
    ensures emitted' == if error.None? then emitted + Emitted(content, lineStart, skip) else emitted
  {
    if !ValidUtf8(content) { return emitted, Some(BadUtf8(lineStart)); }
    if skip { return emitted + [], None; }
    return emitted + [Line(lineStart, content)], None;
  }

  /** One byte at a time, as the source does it: buf holds the current line,
      pos is the buffered reader's cursor. The callback is the append to
      emitted; its record number is the index in emitted. */
  method ReadLines(data: seq<byte>, maxLineBytes: int, skipFirst: bool)
    returns (emitted: seq<Line>, error: Option<ReadError>)
    ensures maxLineBytes < 1 ==> emitted == [] && error == Some(BadLimit)
    ensures maxLineBytes >= 1 ==> Outcome(emitted, error) == Read(data, 0, maxLineBytes, skipFirst)
  {
    emitted, error := [], None;
    if maxLineBytes < 1 {
      error := Some(BadLimit);
      return;
    }
    ghost var whole := Read(data, 0, maxLineBytes, skipFirst);
    ghost var rest := whole;
    var skipping := skipFirst;
    InLineStart(data, 0);
    var buf: seq<byte> := [];
    var pos: nat, physOffset: nat, lineStart: nat, seen: nat := 0, 0, 0, 0;
    while pos < |data| && error.None?
      invariant lineStart == physOffset <= pos <= |data|
      invariant skipping == (skipFirst && seen == 0)
      invariant whole == Prepend(emitted, rest)
      invariant error.Some? ==> rest == Outcome([], error)
      invariant error.None? ==> |buf| == pos - lineStart <= maxLineBytes
      invariant error.None? ==> InLine(data, lineStart, pos, buf)
      invariant error.None? ==> rest == Read(data, lineStart, maxLineBytes, skipping)
      decreases error.None?, |data| - pos
    {
      var b := data[pos];
      if IsTerminator(b) {
        ghost var rest' := LineComplete(data, lineStart, pos, buf, maxLineBytes, skipping, emitted, rest);
        ghost var next := AfterTerminator(data, pos);
        var terminatorLen := if b == CR && pos + 1 < |data| && data[pos + 1] == LF then 2 else 1;
        emitted, error := EmitLine(buf, lineStart, skipping, emitted);
        if error.None? {
          rest := rest';
          seen := seen + 1;
          skipping := false;
          pos := pos + terminatorLen;
          physOffset := physOffset + |buf| + terminatorLen;
          lineStart := physOffset;
          buf := [];
          assert lineStart == pos == next;
          InLineStart(data, pos);
        }
      } else if |buf| >= maxLineBytes {
        LineTooLong(data, lineStart, pos, buf, maxLineBytes, skipping);
        error := Some(TooLong(lineStart));
      } else {
        InLineStep(data, lineStart, pos, buf);
        buf := buf + [b];
        pos := pos + 1;
      }
    }
    if error.None? {
      InputComplete(data, lineStart, buf, maxLineBytes, skipping);
      if |buf| > 0 {
        error := Some(Unterminated(lineStart));
      }
    }
    assert emitted + [] == emitted;
  }

  // ---- The reader against the splitter -------------------------------------

  predicate AllFit(lines: seq<Line>, maxLineBytes: nat) {
    forall k :: 0 <= k < |lines| ==> Fits(lines[k].raw, maxLineBytes)
  }

  function DropFirst(lines: seq<Line>, skip: bool): seq<Line> {
    if skip && lines != [] then lines[1..] else lines
  }

  lemma AllFitCons(l: Line, rest: seq<Line>, maxLineBytes: nat)
    ensures AllFit([l] + rest, maxLineBytes) <==> Fits(l.raw, maxLineBytes) && AllFit(rest, maxLineBytes)
  {
    var lines := [l] + rest;
    assert lines[0] == l;
    assert forall k :: 0 <= k < |rest| ==> rest[k] == lines[k + 1];
    assert forall k :: 0 < k < |lines| ==> lines[k] == rest[k - 1];
  }

  /** The reader succeeds exactly when every line fits, is valid UTF-8 and is
      terminated; then it emits the splitter's lines, less the skipped one. */
  lemma {:induction false} ReadSucceedsIff(data: seq<byte>, i: nat, maxLineBytes: nat, skip: bool)
    requires i <= |data|
    ensures Read(data, i, maxLineBytes, skip).error.None?
       <==> (i == |data| || Terminated(data)) && AllFit(Split(data, i), maxLineBytes)
    ensures Read(data, i, maxLineBytes, skip).error.None?
        ==> Read(data, i, maxLineBytes, skip).emitted == DropFirst(Split(data, i), skip)
    decreases |data| - i
  {
    if i < |data| {
      var e := LineEnd(data, i);
      if e < |data| {
        var next := AfterTerminator(data, e);
        ReadSucceedsIff(data, next, maxLineBytes, false);
        AllFitCons(LineAt(data, i), Split(data, next), maxLineBytes);
      } else {
        assert !IsTerminator(data[|data| - 1]);
      }
    }
  }

  /** Whatever the error, what was emitted is a prefix of the splitter's lines. */
  lemma {:induction false} EmittedIsPrefix(data: seq<byte>, i: nat, maxLineBytes: nat, skip: bool)
    requires i <= |data|
    ensures Read(data, i, maxLineBytes, skip).emitted <= DropFirst(Split(data, i), skip)
    decreases |data| - i
  {
    if i < |data| && LineEnd(data, i) < |data| {
      EmittedIsPrefix(data, AfterTerminator(data, LineEnd(data, i)), maxLineBytes, false);
    }
  }

  // ---- The splitter against the positional specification --------------------

  lemma {:induction false} PresentConcat<T>(s: seq<Option<T>>, t: seq<Option<T>>)
    ensures Present(s + t) == Present(s) + Present(t)
  {
    if s == [] {
      assert s + t == t;
    } else {
      assert (s + t)[0] == s[0] && (s + t)[1..] == s[1..] + t;
      PresentConcat(s[1..], t);
    }
  }

  lemma PresentOne<T>(slot: Option<T>)
    ensures Present([slot]) == if slot.Some? then [slot.value] else []
  {
    assert [slot][1..] == [];
  }

  lemma {:induction false} PresentNone<T>(s: seq<Option<T>>)
    requires forall k :: 0 <= k < |s| ==> s[k].None?
    ensures Present(s) == []
  {
    if s != [] { PresentNone(s[1..]); }
  }

  lemma LinesInConcat(data: seq<byte>, lo: nat, mid: nat, hi: nat)
    requires lo <= mid <= hi <= |data|
    ensures LinesIn(data, lo, mid) + LinesIn(data, mid, hi) == LinesIn(data, lo, hi)
  {
    var slots := Slots(data);
    assert slots[lo..hi] == slots[lo..mid] + slots[mid..hi];
    PresentConcat(slots[lo..mid], slots[mid..hi]);
  }

  lemma NoStartInside(data: seq<byte>, lo: nat, hi: nat)
    requires lo <= hi <= |data|
    requires forall p :: lo <= p < hi ==> !IsLineStart(data, p)
    ensures LinesIn(data, lo, hi) == []
  {
    PresentNone(Slots(data)[lo..hi]);
  }

  lemma LineStarting(data: seq<byte>, p: nat)
    requires p < |data|
    ensures LinesIn(data, p, p + 1) == if IsLineStart(data, p) then [LineAt(data, p)] else []
  {
    assert Slots(data)[p..p + 1] == [Slots(data)[p]];
    PresentOne(Slots(data)[p]);
  }

  // Where the line that starts at i gives way to the next one.
  function NextStart(data: seq<byte>, i: nat): (next: nat)
    requires i < |data|
    ensures i < next <= |data|
  {
    var e := LineEnd(data, i);
    if e < |data| then AfterTerminator(data, e) else e
  }

  lemma NoStartBeforeNext(data: seq<byte>, i: nat, p: nat)
    requires i < |data| && i < p < NextStart(data, i) && p < |data|
    ensures !IsLineStart(data, p)
  {
    assert p - 1 < LineEnd(data, i) ==> !IsTerminator(data[p - 1]);
  }

  lemma NextStartIsNext(data: seq<byte>, i: nat)
    requires i < |data|
    ensures LinesIn(data, i + 1, NextStart(data, i)) == []
    ensures NextStart(data, i) < |data| ==> IsLineStart(data, NextStart(data, i))
  {
    forall p | i < p < NextStart(data, i) ensures !IsLineStart(data, p) {
      NoStartBeforeNext(data, i, p);
    }
    NoStartInside(data, i + 1, NextStart(data, i));
  }

  /** The recursive splitter finds exactly the positions that start a line. */
  lemma {:induction false} SplitIsLinesIn(data: seq<byte>, i: nat)
    requires i < |data| ==> IsLineStart(data, i)
    requires i <= |data|
    ensures Split(data, i) == LinesIn(data, i, |data|)
    decreases |data| - i
  {
    if i < |data| {
      var next := NextStart(data, i);
      NextStartIsNext(data, i);
      SplitIsLinesIn(data, next);
      LineStarting(data, i);
      LinesInConcat(data, i, i + 1, next);
      LinesInConcat(data, i, next, |data|);
    }
  }

  // ---- Where reading stops --------------------------------------------------

  /** What is wrong with the line at p, looked at in this order: it is too long, it
      has no terminator, or it is no UTF-8. */
  function Fault(data: seq<byte>, p: nat, maxLineBytes: nat): Option<ReadError>
    requires p < |data|
  {
    if |LineAt(data, p).raw| > maxLineBytes then Some(TooLong(p))
    else if LineEnd(data, p) == |data| then Some(Unterminated(p))
    else if !ValidUtf8(LineAt(data, p).raw) then Some(BadUtf8(p))
    else None
  }

  ghost predicate IsFirstFault(data: seq<byte>, i: nat, p: nat, maxLineBytes: nat)
    requires i <= p < |data|
  {
    && IsLineStart(data, p) && Fault(data, p, maxLineBytes).Some?
    && forall q :: i <= q < p && IsLineStart(data, q) ==> Fault(data, q, maxLineBytes).None?
  }

  /** An error is that of the first faulty line, and what was emitted are the lines
      in front of it. */
  lemma {:induction false} ReadStopsAt(data: seq<byte>, i: nat, maxLineBytes: nat, skip: bool) returns (p: nat)
    requires i < |data| && IsLineStart(data, i) && Read(data, i, maxLineBytes, skip).error.Some?
    ensures i <= p < |data| && IsFirstFault(data, i, p, maxLineBytes)
    ensures Read(data, i, maxLineBytes, skip)
         == Outcome(DropFirst(LinesIn(data, i, p), skip), Fault(data, p, maxLineBytes))
    decreases |data| - i
  {
    if Fault(data, i, maxLineBytes).Some? {
      p := i;
    } else {
      var next := AfterTerminator(data, LineEnd(data, i));
      NextStartIsNext(data, i);
      p := ReadStopsAt(data, next, maxLineBytes, false);
      LineStarting(data, i);
      LinesInConcat(data, i, i + 1, next);
      LinesInConcat(data, i, next, p);
      var rest := LinesIn(data, next, p);
      assert LinesIn(data, i, p) == [LineAt(data, i)] + rest;
      forall q | i <= q < p && IsLineStart(data, q) ensures Fault(data, q, maxLineBytes).None? {
        if i < q < next { NoStartBeforeNext(data, i, q); }
      }
    }
  }

  // ---- Rebuilding the input -------------------------------------------------

  /** Line contents in order, each followed by its own terminator bytes. */
  function Join(data: seq<byte>, lines: seq<Line>): seq<byte> {
    if lines == [] then [] else
    var e := lines[0].offset + |lines[0].raw|;
    lines[0].raw + (if e < |data| then data[e..AfterTerminator(data, e)] else []) + Join(data, lines[1..])
  }

  lemma SliceTwice(data: seq<byte>, i: nat, e: nat, next: nat)
    requires i <= e <= next <= |data|
    ensures data[i..] == data[i..e] + data[e..next] + data[next..]
  {
  }

  lemma JoinCons(data: seq<byte>, i: nat, rest: seq<Line>)
    requires i < |data|
    ensures var e := LineEnd(data, i);
      Join(data, [LineAt(data, i)] + rest)
        == data[i..e] + (if e < |data| then data[e..AfterTerminator(data, e)] else []) + Join(data, rest)
  {
    assert ([LineAt(data, i)] + rest)[1..] == rest;
  }

  /** Contents and terminators, put back in order, are the input. */
  lemma {:induction false} SplitRebuilds(data: seq<byte>, i: nat)
    requires i <= |data|
    ensures Join(data, Split(data, i)) == data[i..]
    decreases |data| - i
  {
    if i < |data| {
      var e := LineEnd(data, i);
      if e < |data| {
        var next := AfterTerminator(data, e);
        SplitRebuilds(data, next);
        JoinCons(data, i, Split(data, next));
        SliceTwice(data, i, e, next);
      } else {
        JoinCons(data, i, []);
      }
    }
  }
}
