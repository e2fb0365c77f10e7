/** The organizer's publication of chunk messages, with its checkpoints. */
module Publication {
  import opened Sequences
  import opened Answers

  /** queueUrl: the chunk's own queue, or the service's when it names none; ""
      when there is neither. control: a completion message, not in the manifest. */
  datatype Chunk = Chunk(id: string, queueUrl: string, control: bool)

  const ATTEMPTS := 3
  const BATCH := 10

  /** What happens to one request and to what follows it. failed: the indices
      that were not accepted. saved: how many of the confirmed chunks are
      checkpointed before the ledger fails, if it does. started: chunks that a
      worker has already taken, on which a checkpoint has no effect. cancelled:
      whether the context ends before the next attempt. */
  datatype Reply =
    | Answer(failed: seq<int>, saved: nat, started: set<Chunk>, cancelled: bool)
    | Refusal(cancelled: bool)

  lemma {:induction false} AcceptedAre(pending: seq<Chunk>, failed: seq<int>, n: nat)
    requires n <= |pending|
    ensures forall c :: c in Accepted(pending, failed, n) <==> exists i :: 0 <= i < n && i !in failed && pending[i] == c
  {
    if n > 0 { AcceptedAre(pending, failed, n - 1); }
  }

  // How many of the first n items the answer confirms.
  function Confirmed(failed: seq<int>, n: nat): nat {
    if n == 0 then 0 else Confirmed(failed, n - 1) + if n - 1 in failed then 0 else 1
  }

  lemma {:induction false} AcceptedCount(pending: seq<Chunk>, failed: seq<int>, n: nat)
    requires n <= |pending|
    ensures |Accepted(pending, failed, n)| == Confirmed(failed, n) <= n
    ensures failed == [] ==> Confirmed(failed, n) == n
  {
    if n > 0 { AcceptedCount(pending, failed, n - 1); }
  }

  predicate InRange(failed: seq<int>, n: nat) { forall i :: 0 <= i < |failed| ==> 0 <= failed[i] < n }

  // ---- What the replies make of a batch -----------------------------------------------

  type Replies = nat -> Reply

  /** How many messages attempt k sends of a batch of n whose first request is number
      at. */
  function Left(reply: Replies, at: nat, n: nat, k: nat): nat {
    if k == 0 then n
    else if reply(at + k - 1).Answer? then |reply(at + k - 1).failed|
    else Left(reply, at, n, k - 1)
  }

  /** Attempt k is answered without a failure, and all it sent is checkpointed. */
  predicate Accepts(reply: Replies, at: nat, n: nat, k: nat) {
    var r := reply(at + k);
    r.Answer? && r.failed == [] && r.saved >= Left(reply, at, n, k)
  }

  /** Attempt k leaves something to send again, and nothing prevents it: a refusal, or
      an answer that names messages of the request and whose others are checkpointed;
      and the context goes on. */
  predicate Retries(reply: Replies, at: nat, n: nat, k: nat) {
    var r, left := reply(at + k), Left(reply, at, n, k);
    && !r.cancelled
    && (r.Answer? ==> r.failed != [] && InRange(r.failed, left) && r.saved >= Confirmed(r.failed, left))
  }

  /** The batch is through at attempt k. */
  ghost predicate ThroughAt(reply: Replies, at: nat, n: nat, k: nat) {
    k < 3 && Accepts(reply, at, n, k) && AllRetry(reply, at, n, k)
  }

  ghost predicate AllRetry(reply: Replies, at: nat, n: nat, k: nat) {
    forall i :: 0 <= i < k ==> Retries(reply, at, n, i)
  }

  lemma ThroughOnce(reply: Replies, at: nat, n: nat, k: nat, k': nat)
    requires ThroughAt(reply, at, n, k) && ThroughAt(reply, at, n, k')
    ensures k == k'
  {
    assert k < k' ==> Retries(reply, at, n, k);
    assert k' < k ==> Retries(reply, at, n, k');
  }

  ghost predicate NeverThrough(reply: Replies, at: nat, n: nat) { forall k :: !ThroughAt(reply, at, n, k) }

  // What attempt k decides when all before it were retried.
  lemma AttemptDecides(reply: Replies, at: nat, n: nat, k: nat)
    requires k < ATTEMPTS && AllRetry(reply, at, n, k)
    ensures Accepts(reply, at, n, k) ==> ThroughAt(reply, at, n, k)
    ensures !Accepts(reply, at, n, k) && (k == ATTEMPTS - 1 || !Retries(reply, at, n, k)) ==> NeverThrough(reply, at, n)
    ensures Retries(reply, at, n, k) ==> AllRetry(reply, at, n, k + 1) && !Accepts(reply, at, n, k)
  {
    forall k': nat | ThroughAt(reply, at, n, k') && k' != k ensures Retries(reply, at, n, k) && k < ATTEMPTS - 1 {
      assert k' < k ==> Retries(reply, at, n, k');
    }
  }

  /** All batches, one after the other, get through. */
  ghost predicate AllThrough(reply: Replies, at: nat, batches: seq<seq<Chunk>>)
    decreases |batches|
  {
    batches == []
    || exists k :: ThroughAt(reply, at, |batches[0]|, k) && AllThrough(reply, at + k + 1, batches[1..])
  }

  lemma ThroughFirst(reply: Replies, at: nat, batch: seq<Chunk>, rest: seq<seq<Chunk>>, ok: bool, at': nat)
    requires ok <==> exists k :: ThroughAt(reply, at, |batch|, k)
    requires ok ==> at' > at && ThroughAt(reply, at, |batch|, at' - at - 1)
    ensures AllThrough(reply, at, [batch] + rest) <==> ok && AllThrough(reply, at', rest)
  {
    var batches := [batch] + rest;
    assert batches[0] == batch && batches[1..] == rest;
    if ok {
      var k := at' - at - 1;
      if AllThrough(reply, at, batches) {
        var k' :| ThroughAt(reply, at, |batches[0]|, k') && AllThrough(reply, at + k' + 1, batches[1..]);
        ThroughOnce(reply, at, |batch|, k, k');
      }
    }
  }

  // ---- How chunks are divided into batches ----------------------------------------------

  /** The batches of an open one and the chunks behind it. */
  function Batches(open: seq<Chunk>, chunks: seq<Chunk>): seq<seq<Chunk>>
    requires |open| < BATCH
    decreases |chunks|
  {
    if chunks == [] then (if open == [] then [] else [open])
    else if open != [] && open[0].queueUrl != chunks[0].queueUrl then [open] + Batches([chunks[0]], chunks[1..])
    else if |open| + 1 == BATCH then [open + [chunks[0]]] + Batches([], chunks[1..])
    else Batches(open + [chunks[0]], chunks[1..])
  }

  ghost predicate OneQueue(batch: seq<Chunk>) {
    forall i, j :: 0 <= i < |batch| && 0 <= j < |batch| ==> batch[i].queueUrl == batch[j].queueUrl
  }

  ghost predicate Divides(batches: seq<seq<Chunk>>) {
    && (forall b :: 0 <= b < |batches| ==> 0 < |batches[b]| <= 10 && OneQueue(batches[b]))
    && (forall b :: 0 <= b < |batches| - 1 ==>
         |batches[b]| == 10 || batches[b][0].queueUrl != batches[b + 1][0].queueUrl)
  }

  lemma DividesCons(batch: seq<Chunk>, rest: seq<seq<Chunk>>)
    requires 0 < |batch| <= BATCH && OneQueue(batch) && Divides(rest)
    requires rest != [] ==> |batch| == BATCH || batch[0].queueUrl != rest[0][0].queueUrl
    ensures Divides([batch] + rest)
  {
    var all := [batch] + rest;
    forall b | 0 <= b < |all| ensures 0 < |all[b]| <= BATCH && OneQueue(all[b]) {
      assert all[b] == if b == 0 then batch else rest[b - 1];
    }
    forall b | 0 <= b < |all| - 1
      ensures |all[b]| == BATCH || all[b][0].queueUrl != all[b + 1][0].queueUrl
    {
      assert all[b + 1] == rest[b] && all[b] == if b == 0 then batch else rest[b - 1];
    }
  }

  /** The batches hold the chunks in order; each is for one queue and within the queue's
      limit, and only a full batch or another queue ends one. */
  lemma {:induction false} BatchesDivide(open: seq<Chunk>, chunks: seq<Chunk>)
    requires |open| < BATCH && OneQueue(open)
    ensures Flatten(Batches(open, chunks)) == open + chunks && Divides(Batches(open, chunks))
    ensures open != [] ==> var all := Batches(open, chunks); all != [] && all[0][0] == open[0]
    ensures open == [] && chunks != [] ==> var all := Batches(open, chunks); all != [] && all[0][0] == chunks[0]
    decreases |chunks|
  {
    if chunks == [] {
      if open != [] {
        assert [open][1..] == [];
        assert open + [] == open;
      }
    } else {
      var c, rest := chunks[0], chunks[1..];
      assert chunks == [c] + rest;
      if open != [] && open[0].queueUrl != c.queueUrl {
        BatchesDivide([c], rest);
        FlattenCons(open, Batches([c], rest));
        DividesCons(open, Batches([c], rest));
      } else {
        assert OneQueue(open + [c]);
        assert open + [c] + rest == open + chunks;
        if |open| + 1 == BATCH {
          BatchesDivide([], rest);
          FlattenCons(open + [c], Batches([], rest));
          assert [] + rest == rest;
          DividesCons(open + [c], Batches([], rest));
        } else {
          BatchesDivide(open + [c], rest);
        }
      }
    }
  }

  lemma FlattenCons<T>(part: seq<T>, parts: seq<seq<T>>)
    ensures Flatten([part] + parts) == part + Flatten(parts)
  {
    assert ([part] + parts)[1..] == parts;
  }

  function Elements(chunks: seq<Chunk>): set<Chunk> { set c | c in chunks }

  // The chunks among the first n that a checkpoint has an effect on.
  function Marked(chunks: seq<Chunk>, n: nat, running: set<Chunk>): set<Chunk> {
    set i | 0 <= i < n && i < |chunks| && !chunks[i].control && chunks[i] !in running :: chunks[i]
  }

  /** The organizer, the queue and the ledger over any number of publications of
      one job, some of them cut short. */
  class Publisher {
    /** The n-th request's reply. */
    const reply: Replies

    var asked: nat
    // The ledger's checkpoints.
    var scheduled: set<Chunk>
    // What the queues have accepted: a chunk and the queue it went to.
    ghost var accepted: set<(Chunk, string)>
    // Chunks that some worker has taken.
    ghost var started: set<Chunk>

    /** A chunk is checkpointed only after its own queue accepted it, and no other
        queue is sent one. */
    ghost predicate Valid()
      reads this
    {
      && (forall c :: c in scheduled ==> (c, c.queueUrl) in accepted && !c.control)
      && (forall x :: x in accepted ==> x.1 == x.0.queueUrl)
    }

    // All that was accepted since is of these chunks.
    twostate predicate SentOnly(chunks: seq<Chunk>)
      reads this
    {
      forall x :: x in accepted && x !in old(accepted) ==> x.0 in chunks
    }

    ghost predicate Sent(chunks: seq<Chunk>)
      reads this
    {
      forall c :: c in chunks ==> (c, c.queueUrl) in accepted
    }

    // Not lost: checkpointed, unless it is no chunk of the manifest or is running.
    ghost predicate Saved(chunks: seq<Chunk>)
      reads this
    {
      forall c :: c in chunks ==> c in scheduled || c.control || c in started
    }

    // Every request is accepted whole and checkpointed.
    ghost predicate Healthy() {
      forall n: nat :: reply(n).Answer? && reply(n).failed == [] && reply(n).saved >= BATCH
    }

    twostate predicate Grows()
      reads this
    {
      old(scheduled) <= scheduled && old(accepted) <= accepted && old(started) <= started
    }

    constructor (reply: Replies)
      ensures Valid() && scheduled == {} && accepted == {} && this.reply == reply && asked == 0
    {
      this.reply := reply;
      asked, scheduled, accepted, started := 0, {}, {}, {};
    }

    method MarkChunksScheduled(chunks: seq<Chunk>, saved: nat, running: set<Chunk>) returns (ok: bool)
      requires Valid() && Sent(chunks) && running <= started
      modifies this
      ensures Valid() && Grows() && accepted == old(accepted) && started == old(started) && asked == old(asked)
      ensures scheduled <= old(scheduled) + Elements(chunks)
      ensures scheduled == old(scheduled) + Marked(chunks, saved, running)
      ensures ok <==> saved >= |chunks|
      ensures ok ==> Saved(chunks)
    {
      for i := 0 to |chunks|
        invariant Valid() && Grows() && accepted == old(accepted) && started == old(started) && asked == old(asked)
        invariant scheduled == old(scheduled) + Marked(chunks, i, running)
        invariant i <= saved && Saved(chunks[..i])
      {
        assert chunks[..i + 1] == chunks[..i] + [chunks[i]];
        if i == saved { return false; }
        if !chunks[i].control && chunks[i] !in running { scheduled := scheduled + {chunks[i]}; }
      }
      assert chunks[..|chunks|] == chunks;
      return true;
    }

    /** One batch, all for one queue: up to three attempts, each for what the one
        before left. */
    method Flush(messages: seq<Chunk>, queueUrl: string) returns (ok: bool)
      requires Valid() && |messages| <= BATCH && forall c :: c in messages ==> c.queueUrl == queueUrl
      modifies this
      ensures Valid() && Grows() && SentOnly(messages) && scheduled <= old(scheduled) + Elements(messages)
      ensures ok ==> Sent(messages) && Saved(messages)
      ensures ok <==> exists k :: ThroughAt(reply, old(asked), |messages|, k)
      ensures ok ==> asked > old(asked) && ThroughAt(reply, old(asked), |messages|, asked - old(asked) - 1)
      ensures Healthy() ==> ok
    {
      var pending := messages;
      ghost var at, n := asked, |messages|;
      if Healthy() { HealthyThrough(at, n); }
      for attempt := 0 to ATTEMPTS
        invariant Valid() && Grows() && SentOnly(messages) && scheduled <= old(scheduled) + Elements(messages)
        invariant forall c :: c in pending ==> c in messages
        invariant forall c :: c in messages ==> c in pending || Done(c)
        invariant asked == at + attempt && |pending| == Left(reply, at, n, attempt)
        invariant AllRetry(reply, at, n, attempt) && (attempt == ATTEMPTS ==> NeverThrough(reply, at, n))
      {
        AttemptDecides(reply, at, n, attempt);
        var r, next;
        r, ok, next := Ask(pending, queueUrl);
        if r.Refusal? {
          if attempt == ATTEMPTS - 1 { return false; }
        } else {
          if !ok { return false; }
          if r.failed == [] { return true; }
          pending := next;
        }
        if r.cancelled { return false; }
      }
      return false;
    }

    /** One request, and what its answer leaves to send again. */
    method Ask(pending: seq<Chunk>, queueUrl: string) returns (r: Reply, ok: bool, next: seq<Chunk>)
      requires Valid() && forall c :: c in pending ==> c.queueUrl == queueUrl
      modifies this
      ensures Valid() && Grows() && SentOnly(pending) && scheduled <= old(scheduled) + Elements(pending)
      ensures r == reply(old(asked)) && asked == old(asked) + 1
      ensures r.Answer? ==> (ok <==> InRange(r.failed, |pending|) && r.saved >= Confirmed(r.failed, |pending|))
      ensures r.Answer? && r.failed == [] ==> Confirmed(r.failed, |pending|) == |pending|
      ensures r.Answer? && ok ==> |next| == |r.failed| && forall c :: c in next ==> c in pending
      ensures r.Answer? && ok ==> forall c :: c in pending ==> c in next || Done(c)
    {
      r, ok, next := reply(asked), true, pending;
      asked := asked + 1;
      if r.Answer? { ok, next := Confirm(pending, queueUrl, r.failed, r.saved, r.started); }
    }

    lemma HealthyThrough(at: nat, n: nat)
      requires Healthy() && n <= BATCH
      ensures ThroughAt(reply, at, n, 0)
    {
      assert reply(at + 0).Answer?;
    }

    /** A batch that is followed by others. */
    method FlushNext(messages: seq<Chunk>, queueUrl: string, ghost rest: seq<seq<Chunk>>) returns (ok: bool)
      requires Valid() && |messages| <= BATCH && forall c :: c in messages ==> c.queueUrl == queueUrl
      modifies this
      ensures Valid() && Grows() && SentOnly(messages) && scheduled <= old(scheduled) + Elements(messages)
      ensures ok ==> forall c :: c in messages ==> Done(c)
      ensures AllThrough(reply, old(asked), [messages] + rest) <==> ok && AllThrough(reply, asked, rest)
      ensures Healthy() ==> ok
    {
      ghost var at := asked;
      ok := Flush(messages, queueUrl);
      ThroughFirst(reply, at, messages, rest, ok, asked);
    }

    /** One answer: what it confirms is checkpointed, and what it names as failed is
        what to send next. */
    method Confirm(pending: seq<Chunk>, queueUrl: string, failed: seq<int>, saved: nat, running: set<Chunk>)
      returns (ok: bool, next: seq<Chunk>)
      requires Valid() && forall c :: c in pending ==> c.queueUrl == queueUrl
      modifies this
      ensures Valid() && Grows() && SentOnly(pending) && scheduled <= old(scheduled) + Elements(pending)
      ensures ok ==> (forall c :: c in next ==> c in pending) && forall c :: c in pending ==> c in next || Done(c)
      ensures ok <==> InRange(failed, |pending|) && saved >= Confirmed(failed, |pending|)
      ensures ok ==> |next| == |failed|
      ensures failed == [] ==> Confirmed(failed, |pending|) == |pending|
      ensures asked == old(asked)
    {
      var confirmed := Accepted(pending, failed, |pending|);
      AcceptedAre(pending, failed, |pending|);
      AcceptedCount(pending, failed, |pending|);
      accepted, started := accepted + (set c | c in confirmed :: (c, queueUrl)), started + running;
      next := [];
      if !InRange(failed, |pending|) { return false, next; }
      AgainInOrder(pending, failed);
      next := Again(pending, failed);
      ok := MarkChunksScheduled(confirmed, saved, running);
      if ok { Divided(pending, failed, confirmed, next); }
    }

    ghost predicate Done(c: Chunk)
      reads this
    {
      (c, c.queueUrl) in accepted && (c in scheduled || c.control || c in started)
    }

    /** Whatever the replies: if it succeeds, every chunk it was given has been
        accepted by its own queue and is checkpointed or already running. If it
        fails, what was checkpointed stays so. */
    method Publish(chunks: seq<Chunk>) returns (ok: bool)
      requires Valid()
      modifies this
      ensures Valid() && Grows() && SentOnly(chunks) && scheduled <= old(scheduled) + Elements(chunks)
      ensures ok ==> Sent(chunks) && Saved(chunks) && forall c :: c in chunks ==> c.queueUrl != ""
      ensures ok <==>
        (forall c :: c in chunks ==> c.queueUrl != "") && AllThrough(reply, old(asked), Batches([], chunks))
      ensures Healthy() && (forall c :: c in chunks ==> c.queueUrl != "") ==> ok
    {
      var messages: seq<Chunk>, queueUrl := [], "";
      ghost var at, all := asked, Batches([], chunks);
      for i := 0 to |chunks|
        invariant Valid() && Grows() && SentOnly(chunks) && scheduled <= old(scheduled) + Elements(chunks)
        invariant |messages| < BATCH && (forall c :: c in messages ==> c.queueUrl == queueUrl && c in chunks)
        invariant forall c :: c in chunks[..i] ==> c.queueUrl != "" && (c in messages || Done(c))
        invariant AllThrough(reply, at, all) <==> AllThrough(reply, asked, Batches(messages, chunks[i..]))
      {
        assert chunks[..i + 1] == chunks[..i] + [chunks[i]];
        if chunks[i].queueUrl == "" { return false; }
        ok, messages := Take(messages, queueUrl, chunks, i);
        if !ok { return; }
        queueUrl := chunks[i].queueUrl;
      }
      assert chunks[..|chunks|] == chunks;
      ok := true;
      if messages != [] {
        ok := FlushNext(messages, queueUrl, []);
        assert [messages] + [] == [messages];
      }
    }

    /** The next chunk: what is open goes out first when it is for another queue, and
        goes out with the chunk when it is full then. */
    method Take(open: seq<Chunk>, queueUrl: string, chunks: seq<Chunk>, i: nat) returns (ok: bool, messages: seq<Chunk>)
      requires Valid() && i < |chunks| && |open| < BATCH
      requires forall c :: c in open ==> c.queueUrl == queueUrl && c in chunks
      modifies this
      ensures Valid() && Grows() && SentOnly(chunks) && scheduled <= old(scheduled) + Elements(chunks)
      ensures |messages| < BATCH && forall c :: c in messages ==> c.queueUrl == chunks[i].queueUrl && c in chunks
      ensures AllThrough(reply, old(asked), Batches(open, chunks[i..]))
         <==> ok && AllThrough(reply, asked, Batches(messages, chunks[i + 1..]))
      ensures ok ==> (chunks[i] in messages || Done(chunks[i])) && forall c :: c in open ==> c in messages || Done(c)
      ensures Healthy() ==> ok
    {
      var c := chunks[i];
      BatchesNext(open, c, chunks[i + 1..], chunks[i..]);
      messages := open;
      if messages != [] && queueUrl != c.queueUrl {
        ok := FlushNext(messages, queueUrl, Batches([c], chunks[i + 1..]));
        messages := [];
        if !ok { return; }
        assert [] + [c] == [c];
      }
      messages, ok := messages + [c], true;
      if |messages| == BATCH {
        ok := FlushNext(messages, c.queueUrl, Batches([], chunks[i + 1..]));
        messages := [];
      }
    }

    /** One delivery of the job to an organizer, after any number of others: it
        publishes what the ledger does not show as scheduled. A success means
        that every chunk of the manifest was accepted by its own queue. */
    method PublishJob(manifest: seq<Chunk>, controls: seq<Chunk>) returns (ok: bool)
      requires Valid() && forall c :: c in manifest ==> !c.control
      modifies this
      ensures Valid() && Grows()
      ensures forall x :: x in accepted && x !in old(accepted) ==>
          x.0 in controls || (x.0 in manifest && x.0 !in old(scheduled))
      ensures ok ==> Sent(manifest) && Sent(controls) && Saved(manifest)
      ensures var chunks := Without(manifest, old(scheduled)) + controls;
        ok <==> (forall c :: c in chunks ==> c.queueUrl != "") && AllThrough(reply, old(asked), Batches([], chunks))
      ensures Healthy() && (forall c :: c in manifest + controls ==> c.queueUrl != "") ==> ok
    {
      var unscheduled := Without(manifest, scheduled);
      WithoutAre(manifest, scheduled);
      ok := Publish(unscheduled + controls);
    }
  }

  lemma BatchesNext(open: seq<Chunk>, c: Chunk, rest: seq<Chunk>, chunks: seq<Chunk>)
    requires |open| < BATCH && chunks == [c] + rest
    ensures Batches(open, chunks)
         == if open != [] && open[0].queueUrl != c.queueUrl then [open] + Batches([c], rest)
            else if |open| + 1 == BATCH then [open + [c]] + Batches([], rest)
            else Batches(open + [c], rest)
  {
    assert chunks[0] == c && chunks[1..] == rest;
  }

  lemma {:induction false} FailedAre(pending: seq<Chunk>, failed: seq<int>)
    requires forall i :: 0 <= i < |failed| ==> 0 <= failed[i] < |pending|
    ensures forall c :: c in Again(pending, failed) ==> c in pending
    ensures forall i :: i in failed ==> pending[i] in Again(pending, failed)
  {
    if failed != [] { FailedAre(pending, failed[..|failed| - 1]); }
  }

  lemma Divided(pending: seq<Chunk>, failed: seq<int>, confirmed: seq<Chunk>, next: seq<Chunk>)
    requires forall i :: 0 <= i < |failed| ==> 0 <= failed[i] < |pending|
    requires confirmed == Accepted(pending, failed, |pending|) && next == Again(pending, failed)
    ensures forall c :: c in pending <==> c in confirmed || c in next
    ensures failed == [] ==> next == []
  {
    AcceptedAre(pending, failed, |pending|);
    FailedAre(pending, failed);
    forall c | c in pending ensures c in confirmed || c in next {
      var i :| 0 <= i < |pending| && pending[i] == c;
    }
  }

  function Without(chunks: seq<Chunk>, scheduled: set<Chunk>): seq<Chunk> {
    if chunks == [] then []
    else (if chunks[0] in scheduled then [] else [chunks[0]]) + Without(chunks[1..], scheduled)
  }

  lemma {:induction false} WithoutAre(chunks: seq<Chunk>, scheduled: set<Chunk>)
    ensures forall c :: c in Without(chunks, scheduled) <==> c in chunks && c !in scheduled
  {
    if chunks != [] { WithoutAre(chunks[1..], scheduled); }
  }
}
