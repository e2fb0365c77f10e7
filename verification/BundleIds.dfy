/** What a bundle's id is a digest of: its event ids, sorted and joined. */
module BundleIds {

  // Byte-wise order of strings.
  predicate AtMost(a: string, b: string) {
    a == [] || (b != [] && (a[0] < b[0] || (a[0] == b[0] && AtMost(a[1..], b[1..]))))
  }

  lemma {:induction false} AtMostTotal(a: string, b: string)
    ensures AtMost(a, b) || AtMost(b, a)
    ensures AtMost(a, b) && AtMost(b, a) ==> a == b
  {
    if a != [] && b != [] {
      AtMostTotal(a[1..], b[1..]);
      assert a == [a[0]] + a[1..] && b == [b[0]] + b[1..];
    }
  }

  lemma {:induction false} AtMostTransitive(a: string, b: string, c: string)
    requires AtMost(a, b) && AtMost(b, c)
    ensures AtMost(a, c)
  {
    if a != [] && a[0] == b[0] == c[0] { AtMostTransitive(a[1..], b[1..], c[1..]); }
  }

  ghost predicate Sorted(ids: seq<string>) {
    forall i, j :: 0 <= i < j < |ids| ==> AtMost(ids[i], ids[j])
  }

  function Insert(id: string, ids: seq<string>): seq<string> {
    if ids == [] || AtMost(id, ids[0]) then [id] + ids else [ids[0]] + Insert(id, ids[1..])
  }

  function Sort(ids: seq<string>): seq<string> {
    if ids == [] then [] else Insert(ids[0], Sort(ids[1..]))
  }

  function Join(ids: seq<string>): string { if ids == [] then "" else ids[0] + Join(ids[1..]) }

  function BundleKey(ids: seq<string>): string { Join(Sort(ids)) }

  lemma {:induction false} InsertSorts(id: string, ids: seq<string>)
    requires Sorted(ids)
    ensures Sorted(Insert(id, ids)) && multiset(Insert(id, ids)) == multiset{id} + multiset(ids)
  {
    if ids != [] {
      assert ids == [ids[0]] + ids[1..];
      AtMostTotal(id, ids[0]);
      if AtMost(id, ids[0]) {
        forall j | 0 <= j < |ids| ensures AtMost(id, ids[j]) { if j > 0 { AtMostTransitive(id, ids[0], ids[j]); } }
      } else {
        InsertSorts(id, ids[1..]);
        SortedAfter(ids[0], id, ids[1..], Insert(id, ids[1..]));
      }
    }
  }

  lemma SortedAfter(first: string, id: string, ids: seq<string>, rest: seq<string>)
    requires Sorted(rest) && multiset(rest) == multiset{id} + multiset(ids)
    requires AtMost(first, id) && forall s :: s in ids ==> AtMost(first, s)
    ensures Sorted([first] + rest)
  {
    forall j | 0 <= j < |rest| ensures AtMost(first, rest[j]) { assert rest[j] in multiset(rest); }
  }

  lemma {:induction false} SortSorts(ids: seq<string>)
    ensures Sorted(Sort(ids)) && multiset(Sort(ids)) == multiset(ids)
  {
    if ids != [] {
      SortSorts(ids[1..]);
      InsertSorts(ids[0], Sort(ids[1..]));
      assert ids == [ids[0]] + ids[1..];
    }
  }

  lemma {:induction false} SortedUnique(a: seq<string>, b: seq<string>)
    requires Sorted(a) && Sorted(b) && multiset(a) == multiset(b)
    ensures a == b
  {
    assert |multiset(a)| == |a| && |multiset(b)| == |b|;
    if a != [] {
      SameFirst(a, b);
      WithoutFirst(a);
      WithoutFirst(b);
      SortedUnique(a[1..], b[1..]);
    }
  }

  lemma WithoutFirst(a: seq<string>)
    requires a != []
    ensures multiset(a[1..]) == multiset(a) - multiset{a[0]} && a == [a[0]] + a[1..]
  {
    assert a == [a[0]] + a[1..];
  }

  lemma SameFirst(a: seq<string>, b: seq<string>)
    requires Sorted(a) && Sorted(b) && a != [] && b != [] && multiset(a) == multiset(b)
    ensures a[0] == b[0]
  {
    assert a[0] in multiset(b) && b[0] in multiset(a);
    FirstIsLeast(a, b[0]);
    FirstIsLeast(b, a[0]);
    AtMostTotal(a[0], b[0]);
  }

  lemma FirstIsLeast(a: seq<string>, x: string)
    requires Sorted(a) && a != [] && x in a
    ensures AtMost(a[0], x)
  {
    var i :| 0 <= i < |a| && a[i] == x;
    AtMostTotal(a[0], a[0]);
  }

  lemma JoinEmpty(a: seq<string>, width: nat)
    requires width > 0 && (forall s :: s in a ==> |s| == width) && Join(a) == ""
    ensures a == []
  {
  }

  lemma {:induction false} JoinInjective(a: seq<string>, b: seq<string>, width: nat)
    requires width > 0 && (forall s :: s in a ==> |s| == width) && (forall s :: s in b ==> |s| == width)
    requires Join(a) == Join(b)
    ensures a == b
  {
    if a != [] && b != [] {
      assert a[0] == Join(a)[..width] && b[0] == Join(b)[..width];
      assert Join(a[1..]) == Join(a)[width..] && Join(b[1..]) == Join(b)[width..];
      JoinInjective(a[1..], b[1..], width);
      assert a == [a[0]] + a[1..] && b == [b[0]] + b[1..];
    } else {
      JoinEmpty(a, width);
      JoinEmpty(b, width);
    }
  }

  /** Two bundles digest the same bytes exactly when they carry the same events,
      in whatever order those were added. Event ids all have one width. */
  lemma SameKeyIffSameEvents(a: seq<string>, b: seq<string>, width: nat)
    requires width > 0 && (forall s :: s in a ==> |s| == width) && (forall s :: s in b ==> |s| == width)
    ensures BundleKey(a) == BundleKey(b) <==> multiset(a) == multiset(b)
  {
    SortSorts(a);
    SortSorts(b);
    if multiset(a) == multiset(b) {
      SortedUnique(Sort(a), Sort(b));
    } else if BundleKey(a) == BundleKey(b) {
      forall s | s in Sort(a) ensures |s| == width { assert s in multiset(Sort(a)); }
      forall s | s in Sort(b) ensures |s| == width { assert s in multiset(Sort(b)); }
      JoinInjective(Sort(a), Sort(b), width);
    }
  }
}
