/** Grouping items in order under a byte budget and an optional count limit, each
    item joining the current group if it still fits. */
module Greedy {
  import opened Sequences

  /** A group of n items weighs base + its items' sizes + separator * (n - 1).
      cap: the most items in one group; 0 for no such limit. */
  datatype Budget = Budget(base: nat, separator: nat, limit: int, cap: nat)

  function Sum<T>(size: T -> nat, group: seq<T>): nat {
    if group == [] then 0 else Sum(size, group[..|group| - 1]) + size(group[|group| - 1])
  }

  function Weight<T>(b: Budget, size: T -> nat, group: seq<T>): nat {
    b.base + Sum(size, group) + b.separator * (if group == [] then 0 else |group| - 1)
  }

  predicate Fits<T>(b: Budget, size: T -> nat, group: seq<T>) {
    (b.cap > 0 ==> |group| <= b.cap) && Weight(b, size, group) <= b.limit
  }

  /** The groups of the items held so far and the items to come. */
  function Pack<T>(b: Budget, size: T -> nat, held: seq<T>, items: seq<T>): seq<seq<T>>
    decreases items
  {
    if items == [] then (if held == [] then [] else [held])
    else if held != [] && !Fits(b, size, held + [items[0]]) then [held] + Pack(b, size, [items[0]], items[1..])
    else Pack(b, size, held + [items[0]], items[1..])
  }

  ghost predicate AllFit<T>(b: Budget, size: T -> nat, groups: seq<seq<T>>) {
    forall g :: g in groups ==> g != [] && Fits(b, size, g)
  }

  // ---- The groups are the items, in order --------------------------------------------

  lemma {:induction false} PackFlatten<T>(b: Budget, size: T -> nat, held: seq<T>, items: seq<T>)
    ensures Flatten(Pack(b, size, held, items)) == held + items
    decreases items
  {
    if items != [] {
      var x := [items[0]];
      PackFlatten(b, size, x, items[1..]);
      PackFlatten(b, size, held + x, items[1..]);
      assert items == x + items[1..];
      assert held + items == (held + x) + items[1..];
    }
  }

  /** When every item fits alone, every group fits. */
  lemma {:induction false} PackFits<T>(b: Budget, size: T -> nat, held: seq<T>, items: seq<T>)
    requires held != [] ==> Fits(b, size, held)
    requires forall x :: x in items ==> Fits(b, size, [x])
    ensures AllFit(b, size, Pack(b, size, held, items))
    decreases items
  {
    if items != [] {
      var x := items[0];
      assert [] + [x] == [x];
      if held != [] && !Fits(b, size, held + [x]) { PackFits(b, size, [x], items[1..]); }
      else { PackFits(b, size, held + [x], items[1..]); }
    }
  }

  // ---- Part of a group that fits, fits -----------------------------------------------------

  lemma {:induction false} SumConcat<T>(size: T -> nat, a: seq<T>, c: seq<T>)
    ensures Sum(size, a + c) == Sum(size, a) + Sum(size, c)
  {
    if c == [] {
      assert a + c == a;
    } else {
      var last := |c| - 1;
      SumConcat(size, a, c[..last]);
      assert (a + c)[..|a + c| - 1] == a + c[..last];
    }
  }

  lemma PartFits<T>(b: Budget, size: T -> nat, left: seq<T>, middle: seq<T>, right: seq<T>, all: seq<T>)
    requires all == left + middle + right && Fits(b, size, all) && middle != []
    ensures Fits(b, size, middle)
  {
    SumConcat(size, left + middle, right);
    SumConcat(size, left, middle);
    Product(b.separator, |middle| - 1, |left + middle + right| - 1);
  }

  lemma Product(k: nat, m: nat, n: nat)
    requires m <= n
    ensures k * m <= k * n
  {
  }

  // ---- Greedy is optimal ---------------------------------------------------------------------

  function Groups<T>(b: Budget, size: T -> nat, held: seq<T>, items: seq<T>): nat { |Pack(b, size, held, items)| }

  // Dropping the front of the group held costs nothing; holding more in front
  // costs at most one group. Each leads to the other at the next boundary.
  lemma {:induction false} ShorterNoWorse<T>(b: Budget, size: T -> nat, front: seq<T>, held: seq<T>, items: seq<T>)
    requires held != []
    ensures Groups(b, size, held, items) <= Groups(b, size, front + held, items)
    decreases items
  {
    if items != [] {
      var x, rest := [items[0]], items[1..];
      FitsSuffix(b, size, front, held, x);
      if Fits(b, size, front + held + x) {
        ShorterNoWorse(b, size, front, held + x, rest);
        assert front + held + x == front + (held + x);
      } else if Fits(b, size, held + x) {
        LongerCostsOne(b, size, held, x, rest);
      }
    }
  }

  lemma {:induction false} LongerCostsOne<T>(b: Budget, size: T -> nat, front: seq<T>, held: seq<T>, items: seq<T>)
    ensures Groups(b, size, front + held, items) <= 1 + Groups(b, size, held, items)
    decreases items
  {
    if items != [] {
      var x, rest := [items[0]], items[1..];
      FitsSuffix(b, size, front, held, x);
      assert front + held + x == front + (held + x);
      if front + held == [] || Fits(b, size, front + held + x) {
        LongerCostsOne(b, size, front, held + x, rest);
      } else {
        ShorterNoWorse(b, size, held, x, rest);
        assert held == [] ==> held + x == x;
      }
    }
  }

  lemma FitsSuffix<T>(b: Budget, size: T -> nat, front: seq<T>, held: seq<T>, x: seq<T>)
    requires x != []
    ensures Fits(b, size, front + held + x) ==> Fits(b, size, held + x)
  {
    if Fits(b, size, front + held + x) {
      PartFits(b, size, front, held + x, [], front + held + x);
    }
  }

  lemma {:induction false} FittingGroupIsHeld<T>(b: Budget, size: T -> nat, held: seq<T>, group: seq<T>, rest: seq<T>)
    requires held + group != [] ==> Fits(b, size, held + group)
    ensures Pack(b, size, held, group + rest) == Pack(b, size, held + group, rest)
    decreases group
  {
    if group == [] {
      assert group + rest == rest && held + group == held;
    } else {
      var x, more := [group[0]], group[1..];
      assert held + group == (held + x) + more;
      PartFits(b, size, [], held + x, more, held + group);
      assert (group + rest)[0] == group[0] && (group + rest)[1..] == more + rest;
      FittingGroupIsHeld(b, size, held + x, more, rest);
    }
  }

  /** No way of cutting the items, in order, into groups that fit uses fewer. */
  lemma {:induction false} GreedyIsOptimal<T>(b: Budget, size: T -> nat, groups: seq<seq<T>>)
    requires AllFit(b, size, groups)
    ensures |Pack(b, size, [], Flatten(groups))| <= |groups|
  {
    if groups != [] {
      var g, rest := groups[0], groups[1..];
      assert g in groups && [] + g == g && g + [] == g;
      forall h | h in rest ensures h in groups {}
      GreedyIsOptimal(b, size, rest);
      FittingGroupIsHeld(b, size, [], g, Flatten(rest));
      LongerCostsOne(b, size, g, [], Flatten(rest));
    }
  }
}
