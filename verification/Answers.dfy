/** What a queue's answer to a request, a list of failed indices, makes of the
    items of the request. */
module Answers {

  // The first n items of a request that the answer does not list as failed.
  function Accepted<T>(pending: seq<T>, failed: seq<int>, n: nat): seq<T>
    requires n <= |pending|
  {
    if n == 0 then [] else Accepted(pending, failed, n - 1) + (if n - 1 in failed then [] else [pending[n - 1]])
  }

  // The items to send again, in the order of the answer; an index out of range
  // is skipped.
  function Again<T>(pending: seq<T>, failed: seq<int>): seq<T> {
    if failed == [] then [] else
    var index := failed[|failed| - 1];
    Again(pending, failed[..|failed| - 1]) + if 0 <= index < |pending| then [pending[index]] else []
  }

  /** What is sent again stands in the order of the answer. */
  lemma {:induction false} AgainInOrder<T>(pending: seq<T>, failed: seq<int>)
    requires forall i :: 0 <= i < |failed| ==> 0 <= failed[i] < |pending|
    ensures |Again(pending, failed)| == |failed|
    ensures forall i :: 0 <= i < |failed| ==> Again(pending, failed)[i] == pending[failed[i]]
  {
    if failed != [] {
      var front := failed[..|failed| - 1];
      assert forall i :: 0 <= i < |front| ==> front[i] == failed[i];
      AgainInOrder(pending, front);
    }
  }

  /** An answer divides the request exactly when it names no index of the request
      twice: then every item is either confirmed or sent again. */
  lemma AnswerDividesIff<T>(pending: seq<T>, failed: seq<int>)
    ensures multiset(Accepted(pending, failed, |pending|)) + multiset(Again(pending, failed)) == multiset(pending)
        <==> NoneTwice(failed, |pending|)
  {
    if NoneTwice(failed, |pending|) {
      Divides(pending, failed, |pending|);
      assert pending[..|pending|] == pending;
      InRangeAll(pending, failed);
    } else {
      TooMany(pending, failed);
      assert |multiset(pending)| == |pending|;
    }
  }

  predicate NoneTwice(failed: seq<int>, n: int) {
    forall i, j :: 0 <= i < j < |failed| && 0 <= failed[i] < n ==> failed[i] != failed[j]
  }

  lemma InRangeAll<T>(pending: seq<T>, failed: seq<int>)
    ensures AgainBelow(pending, failed, |pending|) == Again(pending, failed)
  {
  }

  // Those of Again whose index is below n.
  function AgainBelow<T>(pending: seq<T>, failed: seq<int>, n: nat): seq<T>
    requires n <= |pending|
  {
    if failed == [] then [] else
    var index := failed[|failed| - 1];
    AgainBelow(pending, failed[..|failed| - 1], n) + if 0 <= index < n then [pending[index]] else []
  }

  lemma {:induction false} Divides<T>(pending: seq<T>, failed: seq<int>, n: nat)
    requires n <= |pending| && NoneTwice(failed, |pending|)
    ensures multiset(Accepted(pending, failed, n)) + multiset(AgainBelow(pending, failed, n)) == multiset(pending[..n])
  {
    if n == 0 {
      NoneBelow(pending, failed);
    } else {
      Divides(pending, failed, n - 1);
      OneMore(pending, failed, n);
      assert pending[..n] == pending[..n - 1] + [pending[n - 1]];
    }
  }

  lemma NoneBelow<T>(pending: seq<T>, failed: seq<int>)
    ensures AgainBelow(pending, failed, 0) == []
  {
  }

  lemma {:induction false} OneMore<T>(pending: seq<T>, failed: seq<int>, n: nat)
    requires 0 < n <= |pending| && NoneTwice(failed, |pending|)
    ensures multiset(AgainBelow(pending, failed, n))
         == multiset(AgainBelow(pending, failed, n - 1))
            + if n - 1 in failed then multiset{pending[n - 1]} else multiset{}
  {
    if failed != [] {
      var front, last := failed[..|failed| - 1], failed[|failed| - 1];
      NoneTwiceFront(failed, front, last, |pending|);
      OneMore(pending, front, n);
      AgainLast(pending, failed, front, last, n);
      AgainLast(pending, failed, front, last, n - 1);
      var here := if n - 1 in front then multiset{pending[n - 1]} else multiset{};
      var below := if 0 <= last < n - 1 then multiset{pending[last]} else multiset{};
      if last == n - 1 {
        assert n - 1 !in front && n - 1 in failed;
      } else {
        assert n - 1 in failed <==> n - 1 in front;
        SwapLast(multiset(AgainBelow(pending, front, n - 1)), here, below);
      }
    }
  }

  lemma SwapLast<T>(a: multiset<T>, b: multiset<T>, c: multiset<T>)
    ensures a + b + c == a + c + b
  {
  }

  lemma AgainLast<T>(pending: seq<T>, failed: seq<int>, front: seq<int>, last: int, n: nat)
    requires n <= |pending| && failed == front + [last]
    ensures multiset(AgainBelow(pending, failed, n))
         == multiset(AgainBelow(pending, front, n)) + if 0 <= last < n then multiset{pending[last]} else multiset{}
  {
    assert failed[..|failed| - 1] == front;
  }

  lemma NoneTwiceFront(failed: seq<int>, front: seq<int>, last: int, n: int)
    requires failed == front + [last]
    ensures NoneTwice(failed, n) <==> NoneTwice(front, n) && !(0 <= last < n && last in front)
  {
    if !NoneTwice(front, n) {
      var i, j :| 0 <= i < j < |front| && 0 <= front[i] < n && front[i] == front[j];
      assert failed[i] == failed[j];
    } else if 0 <= last < n && last in front {
      var i :| 0 <= i < |front| && front[i] == last;
      assert failed[i] == failed[|front|];
    }
  }

  // A repeated index sends an item again twice: more comes out than went in.
  lemma TooMany<T>(pending: seq<T>, failed: seq<int>)
    requires !NoneTwice(failed, |pending|)
    ensures |multiset(Accepted(pending, failed, |pending|)) + multiset(Again(pending, failed))| > |pending|
  {
    var named := set i | 0 <= i < |pending| && i in failed;
    AcceptedLength(pending, failed, |pending|, named);
    AgainLength(pending, failed, named);
  }

  lemma {:induction false} AcceptedLength<T>(pending: seq<T>, failed: seq<int>, n: nat, named: set<int>)
    requires n <= |pending| && named == set i | 0 <= i < n && i in failed
    ensures |Accepted(pending, failed, n)| + |named| == n
  {
    if n > 0 {
      var below := set i | 0 <= i < n - 1 && i in failed;
      AcceptedLength(pending, failed, n - 1, below);
      assert named == below + if n - 1 in failed then {n - 1} else {};
    } else {
      assert named == {};
    }
  }

  lemma {:induction false} AgainLength<T>(pending: seq<T>, failed: seq<int>, named: set<int>)
    requires named == set i | 0 <= i < |pending| && i in failed
    ensures |Again(pending, failed)| >= |named|
    ensures !NoneTwice(failed, |pending|) ==> |Again(pending, failed)| > |named|
  {
    if failed == [] {
      assert named == {};
    } else {
      var front, last := failed[..|failed| - 1], failed[|failed| - 1];
      var before := set i | 0 <= i < |pending| && i in front;
      AgainLength(pending, front, before);
      NoneTwiceFront(failed, front, last, |pending|);
      Named(failed, front, last, |pending|, before, named);
    }
  }

  lemma Named(failed: seq<int>, front: seq<int>, last: int, n: nat, before: set<int>, named: set<int>)
    requires failed == front + [last]
    requires before == (set i | 0 <= i < n && i in front) && named == (set i | 0 <= i < n && i in failed)
    ensures |named| == |before| + if 0 <= last < n && last !in front then 1 else 0
  {
    if 0 <= last < n && last !in front {
      assert named == before + {last};
    } else {
      assert named == before;
    }
  }
}
