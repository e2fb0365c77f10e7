/** The concurrent sender: batches within the queue's limits, retries of partial
    failures, bounded parallelism. */
module Sender {
  import opened Sequences
  import opened Greedy
  import opened Messages
  import opened Answers

  // ---- Batches --------------------------------------------------------------------

  const BATCH: Budget := Budget(0, 0, MAX_BATCH_BYTES, MAX_BATCH_MESSAGES)

  method BatchSize(batch: seq<Message>) returns (total: nat)
    ensures total == Sum(MessageBytes, batch)
  {
    total := 0;
    for i := 0 to |batch|
      invariant total == Sum(MessageBytes, batch[..i])
    {
      var size := OutboundMessageSize(batch[i]);
      total := total + size;
      assert batch[..i + 1][..i] == batch[..i];
    }
    assert batch[..|batch|] == batch;
  }

  // The batches closed so far and the open one.
  ghost function WithOpen(closed: seq<seq<Message>>, open: seq<Message>): seq<seq<Message>> {
    if open == [] then closed else closed + [open]
  }

  /** Every message joins the last batch if it fits there, an oversized one in a
      batch of its own. */
  method SplitSendBatches(messages: seq<Message>) returns (batches: seq<seq<Message>>)
    ensures batches == Pack(BATCH, MessageBytes, [], messages)
  {
    batches := [];
    ghost var closed: seq<seq<Message>>, open: seq<Message> := [], [];
    for i := 0 to |messages|
      invariant batches == WithOpen(closed, open) && (open == [] ==> closed == []) && |open| <= MAX_BATCH_MESSAGES
      invariant Pack(BATCH, MessageBytes, [], messages) == closed + Pack(BATCH, MessageBytes, open, messages[i..])
    {
      var message := messages[i];
      ghost var rest := messages[i + 1..];
      assert messages[i..] == [message] + rest;
      var size := OutboundMessageSize(message);
      var total := 0;
      if batches != [] { total := BatchSize(batches[|batches| - 1]); }
      JoinsIff(open, message);
      PackStep(closed, open, message, rest);
      assert open != [] ==> batches[|batches| - 1] == open;
      var starts :=
        || size > MAX_MESSAGE_BYTES || batches == []
        || |batches[|batches| - 1]| == MAX_BATCH_MESSAGES || total + size > MAX_BATCH_BYTES;
      assert starts <==> open == [] || !Fits(BATCH, MessageBytes, open + [message]);
      if starts {
        closed, open := batches, [message];
        batches := batches + [[message]];
      } else {
        open := open + [message];
        batches := batches[|batches| - 1 := batches[|batches| - 1] + [message]];
      }
    }
  }

  lemma PackStep(closed: seq<seq<Message>>, open: seq<Message>, message: Message, rest: seq<Message>)
    requires open == [] ==> closed == []
    ensures closed + Pack(BATCH, MessageBytes, open, [message] + rest)
         == if open == [] || !Fits(BATCH, MessageBytes, open + [message])
            then WithOpen(closed, open) + Pack(BATCH, MessageBytes, [message], rest)
            else closed + Pack(BATCH, MessageBytes, open + [message], rest)
  {
    assert ([message] + rest)[1..] == rest && [] + [message] == [message];
    assert closed + ([open] + Pack(BATCH, MessageBytes, [message], rest))
        == closed + [open] + Pack(BATCH, MessageBytes, [message], rest);
  }

  /** A batch is within the queue's limits with at most ten messages and one MiB. */
  lemma BatchFitsIff(batch: seq<Message>)
    ensures Fits(BATCH, MessageBytes, batch) <==> |batch| <= 10 && Sum(MessageBytes, batch) <= 0x10_0000
  {
  }

  lemma JoinsIff(open: seq<Message>, message: Message)
    ensures Fits(BATCH, MessageBytes, open + [message])
        <==> |open| + 1 <= MAX_BATCH_MESSAGES && Sum(MessageBytes, open) + MessageBytes(message) <= MAX_BATCH_BYTES
  {
    assert (open + [message])[..|open|] == open;
  }

  /** The batches hold the messages in order; when none is oversized each batch
      is within both limits, and no other such division uses fewer calls. */
  lemma SplitIsOptimal(messages: seq<Message>, other: seq<seq<Message>>)
    requires forall m :: m in messages ==> MessageBytes(m) <= MAX_MESSAGE_BYTES
    ensures Flatten(Pack(BATCH, MessageBytes, [], messages)) == messages
    ensures AllFit(BATCH, MessageBytes, Pack(BATCH, MessageBytes, [], messages))
    ensures AllFit(BATCH, MessageBytes, other) && Flatten(other) == messages ==>
        |Pack(BATCH, MessageBytes, [], messages)| <= |other|
  {
    PackFlatten(BATCH, MessageBytes, [], messages);
    forall m | m in messages ensures Fits(BATCH, MessageBytes, [m]) {
      JoinsIff([], m);
      assert [] + [m] == [m];
    }
    PackFits(BATCH, MessageBytes, [], messages);
    if AllFit(BATCH, MessageBytes, other) && Flatten(other) == messages { GreedyIsOptimal(BATCH, MessageBytes, other); }
  }

  // ---- One answer -----------------------------------------------------------------------

  function Events(messages: seq<Message>): nat {
    if messages == [] then 0 else
    var m := messages[|messages| - 1];
    Events(messages[..|messages| - 1]) + if m.logicalEvents > 0 then m.logicalEvents else 1
  }

  /** Every message counts for its events, and for one when it names none. */
  lemma EventsMore(messages: seq<Message>, m: Message)
    ensures Events(messages + [m]) == Events(messages) + m.logicalEvents + if m.logicalEvents == 0 then 1 else 0
  {
    assert (messages + [m])[..|messages|] == messages;
  }

  // What the counters gain from an answer, and what is pending after it.
  method HandleAnswer(pending: seq<Message>, failed: seq<int>) returns (messages: nat, events: nat, next: seq<Message>)
    ensures messages == |Accepted(pending, failed, |pending|)| && events == Events(Accepted(pending, failed, |pending|))
    ensures next == Again(pending, failed)
  {
    messages, events := 0, 0;
    for index := 0 to |pending|
      invariant messages == |Accepted(pending, failed, index)| && events == Events(Accepted(pending, failed, index))
    {
      ghost var before := Accepted(pending, failed, index);
      assert (before + [pending[index]])[..|before|] == before && before + [] == before;
      if index !in failed {
        messages := messages + 1;
        events := events + if pending[index].logicalEvents > 0 then pending[index].logicalEvents else 1;
      }
    }
    next := [];
    for k := 0 to |failed|
      invariant next == Again(pending, failed[..k])
    {
      assert failed[..k + 1][..k] == failed[..k];
      if 0 <= failed[k] < |pending| { next := next + [pending[failed[k]]]; }
    }
    assert failed[..|failed|] == failed;
  }
}
