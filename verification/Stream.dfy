/** From a chunk's records to the batches given to the sender, and what their
    counters say in the end. */
module Stream {
  import opened Bytes
  import opened Sequences
  import opened Greedy
  import opened Messages
  import opened Packer
  import opened Sender
  import BundleIds
  import SenderRuns

  datatype Mode = Single | Bundled

  datatype Config = Config(
    mode: Mode, labels: Labels, digest: Digest,
    maxEnvelopes: int, maxMessageBytes: int, batchSize: int, maxEventBytes: int)

  const DEFAULT_EVENT_BYTES := MAX_MESSAGE_BYTES - 4 * 1024
  const DEFAULT_BATCH := 10
  const MAX_ATTRIBUTES := 10

  function EventLimit(cfg: Config): int { if cfg.maxEventBytes == 0 then DEFAULT_EVENT_BYTES else cfg.maxEventBytes }
  function BatchLimit(cfg: Config): int { if cfg.batchSize == 0 then DEFAULT_BATCH else cfg.batchSize }

  function MessageLimit(cfg: Config): int {
    if 0 < cfg.maxMessageBytes <= MAX_MESSAGE_BYTES then cfg.maxMessageBytes else MAX_MESSAGE_BYTES
  }

  ghost function Limits(cfg: Config): Budget {
    Budget(EmptySize(cfg.labels), 1, MessageLimit(cfg), if cfg.maxEnvelopes > 0 then cfg.maxEnvelopes else 0)
  }

  // ---- Specification ------------------------------------------------------------------

  function Alone(r: Record): Message { Message(r.json, r.attributes, 1) }

  /** A record that ends the whole chunk with an error. */
  predicate Fatal(cfg: Config, r: Record) {
    || (|r.json| > EventLimit(cfg) && EventLimit(cfg) < MAX_MESSAGE_BYTES)
    || |r.attributes| > MAX_ATTRIBUTES
    || (cfg.mode.Bundled? && r.json == "")
  }

  /** A record too large to be sent, even alone. */
  ghost predicate Oversized(cfg: Config, r: Record) {
    match cfg.mode
    case Single => MessageBytes(Alone(r)) > MAX_MESSAGE_BYTES
    case Bundled => !Fits(Limits(cfg), RecordBytes, [r])
  }

  function MessageOf(cfg: Config, group: seq<Record>): Message
    requires group != []
  {
    match cfg.mode
    case Single => Alone(group[0])
    case Bundled => BundleOf(cfg.labels, cfg.digest, group)
  }

  function MessagesOf(cfg: Config, groups: seq<seq<Record>>): seq<Message>
    requires forall i :: 0 <= i < |groups| ==> groups[i] != []
  {
    if groups == [] then [] else MessagesOf(cfg, groups[..|groups| - 1]) + [MessageOf(cfg, groups[|groups| - 1])]
  }

  ghost function Kept(cfg: Config, records: seq<Record>): (kept: seq<Record>)
    ensures |kept| <= |records|
  {
    if records == [] then []
    else if Oversized(cfg, records[0]) then Kept(cfg, records[1..])
    else [records[0]] + Kept(cfg, records[1..])
  }

  function Singletons(records: seq<Record>): seq<seq<Record>> {
    if records == [] then [] else [[records[0]]] + Singletons(records[1..])
  }

  /** The groups that become messages, and the number of records rejected. */
  datatype Grouped = Grouped(groups: seq<seq<Record>>, rejected: nat)

  // The course of the loop over the records, with some held by the packer; None
  // when it ends in an error.
  ghost function Course(cfg: Config, held: seq<Record>, records: seq<Record>): Option<Grouped>
    decreases records
  {
    if records == [] then
      if held == [] then Some(Grouped([], 0))
      else if Fits(Limits(cfg), RecordBytes, held) then Some(Grouped([held], 0))
      else None
    else
      var r, rest := records[0], records[1..];
      if Fatal(cfg, r) then None
      else if cfg.mode.Single? then
        if Oversized(cfg, r) then Reject(Course(cfg, held, rest)) else Emit([r], Course(cfg, held, rest))
      else if held == [] && Oversized(cfg, r) then Reject(Course(cfg, held, rest))
      else if held == [] || Fits(Limits(cfg), RecordBytes, held + [r]) then Course(cfg, held + [r], rest)
      else if Fits(Limits(cfg), RecordBytes, held) then Emit(held, Course(cfg, [r], rest))
      else None
  }

  function Reject(g: Option<Grouped>): Option<Grouped> {
    if g.None? then None else Some(Grouped(g.value.groups, g.value.rejected + 1))
  }

  function Emit(group: seq<Record>, g: Option<Grouped>): Option<Grouped> {
    if g.None? then None else Some(Grouped([group] + g.value.groups, g.value.rejected))
  }

  ghost predicate NoneFatal(cfg: Config, records: seq<Record>) { forall r :: r in records ==> !Fatal(cfg, r) }

  /** No oversized record follows one that can be sent. */
  ghost predicate OversizedFirst(cfg: Config, records: seq<Record>) {
    forall i, j :: 0 <= i < j < |records| && Oversized(cfg, records[j]) ==> Oversized(cfg, records[i])
  }

  // ---- When the loop succeeds, and with what -------------------------------------------

  lemma AloneOrTogether(cfg: Config, held: seq<Record>, r: Record)
    requires Fits(Limits(cfg), RecordBytes, held + [r])
    ensures Fits(Limits(cfg), RecordBytes, [r])
    ensures held != [] ==> Fits(Limits(cfg), RecordBytes, held)
  {
    PartFits(Limits(cfg), RecordBytes, held, [r], [], held + [r]);
    if held != [] { PartFits(Limits(cfg), RecordBytes, [], held, [r], held + [r]); }
  }

  // Records that make neither an error nor a rejection.
  ghost predicate Smooth(cfg: Config,
                         records: seq<Record>) { forall r :: r in records ==> !Fatal(cfg, r) && !Oversized(cfg, r) }

  lemma SmoothRest(cfg: Config, r: Record, rest: seq<Record>, records: seq<Record>)
    requires records == [r] + rest
    ensures Smooth(cfg, records) <==> !Fatal(cfg, r) && !Oversized(cfg, r) && Smooth(cfg, rest)
  {
  }

  // Once the packer holds something, any oversized record is an error.
  lemma {:induction false} CourseHolding(cfg: Config, held: seq<Record>, records: seq<Record>)
    requires cfg.mode.Bundled? && held != []
    ensures Course(cfg, held, records)
         == if Fits(Limits(cfg), RecordBytes, held) && Smooth(cfg, records)
            then Some(Grouped(Pack(Limits(cfg), RecordBytes, held, records), 0)) else None
    decreases records
  {
    if records != [] {
      var r, rest := records[0], records[1..];
      assert records == [r] + rest;
      SmoothRest(cfg, r, rest, records);
      if Fits(Limits(cfg), RecordBytes, held + [r]) {
        AloneOrTogether(cfg, held, r);
        CourseHolding(cfg, held + [r], rest);
      } else {
        CourseHolding(cfg, [r], rest);
      }
    }
  }

  /** In bundle mode a chunk's records are accepted exactly when none is fatal and
      every oversized one comes before every other; then the oversized ones are
      the rejected ones and the rest are packed greedily. */
  lemma {:induction false} BundledIff(cfg: Config, records: seq<Record>)
    requires cfg.mode.Bundled?
    ensures Course(cfg, [], records).Some? <==> NoneFatal(cfg, records) && OversizedFirst(cfg, records)
    ensures Course(cfg, [], records).Some? ==>
      Course(cfg, [], records).value
        == Grouped(Pack(Limits(cfg), RecordBytes, [], Kept(cfg, records)), |records| - |Kept(cfg, records)|)
    decreases records
  {
    if records != [] {
      var r, rest := records[0], records[1..];
      assert records == [r] + rest;
      if Oversized(cfg, r) {
        BundledIff(cfg, rest);
        OversizedFirstRest(cfg, r, rest, records);
        assert Course(cfg, [], records) == if Fatal(cfg, r) then None else Reject(Course(cfg, [], rest));
        assert Kept(cfg, records) == Kept(cfg, rest);
      } else {
        FirstKept(cfg, r, rest, records);
      }
    }
  }

  lemma FirstKept(cfg: Config, r: Record, rest: seq<Record>, records: seq<Record>)
    requires cfg.mode.Bundled? && records == [r] + rest && !Oversized(cfg, r)
    ensures Course(cfg, [], records).Some? <==> NoneFatal(cfg, records) && OversizedFirst(cfg, records)
    ensures Course(cfg, [], records).Some? ==>
      && Kept(cfg, records) == records
      && Course(cfg, [], records).value == Grouped(Pack(Limits(cfg), RecordBytes, [], records), 0)
  {
    assert [] + [r] == [r] && records[0] == r && records[1..] == rest;
    CourseHolding(cfg, [r], rest);
    SmoothRest(cfg, r, rest, records);
    KeptAll(cfg, records);
    NoneOversizedAfter(cfg, r, rest, records);
  }

  lemma OversizedFirstRest(cfg: Config, r: Record, rest: seq<Record>, records: seq<Record>)
    requires records == [r] + rest && Oversized(cfg, r)
    ensures OversizedFirst(cfg, rest) <==> OversizedFirst(cfg, records)
  {
    if OversizedFirst(cfg, records) {
      forall i, j | 0 <= i < j < |rest| && Oversized(cfg, rest[j]) ensures Oversized(cfg, rest[i]) {
        assert records[j + 1] == rest[j] && records[i + 1] == rest[i];
      }
    }
  }

  lemma NoneOversizedAfter(cfg: Config, r: Record, rest: seq<Record>, records: seq<Record>)
    requires records == [r] + rest && !Oversized(cfg, r)
    ensures OversizedFirst(cfg, records) <==> forall x :: x in rest ==> !Oversized(cfg, x)
  {
    if OversizedFirst(cfg, records) {
      forall k | 0 <= k < |rest| ensures !Oversized(cfg, rest[k]) {
        assert records[0] == r && records[k + 1] == rest[k];
      }
    }
  }

  lemma {:induction false} KeptAll(cfg: Config, records: seq<Record>)
    ensures (forall r :: r in records ==> !Oversized(cfg, r)) ==> Kept(cfg, records) == records
  {
    if records != [] {
      KeptAll(cfg, records[1..]);
      assert records == [records[0]] + records[1..];
    }
  }

  /** In single mode only a fatal record is an error; any order will do. */
  lemma {:induction false} SingleIff(cfg: Config, records: seq<Record>)
    requires cfg.mode.Single?
    ensures Course(cfg, [], records).Some? <==> NoneFatal(cfg, records)
    ensures Course(cfg, [], records).Some? ==>
      Course(cfg, [], records).value == Grouped(Singletons(Kept(cfg, records)), |records| - |Kept(cfg, records)|)
    decreases records
  {
    if records != [] {
      assert records == [records[0]] + records[1..];
      SingleIff(cfg, records[1..]);
      KeptAll(cfg, records[1..]);
      if !Oversized(cfg, records[0]) {
        assert Kept(cfg, records)[1..] == Kept(cfg, records[1..]);
      }
    }
  }

  lemma {:induction false} SingletonsFlatten(records: seq<Record>)
    ensures Flatten(Singletons(records)) == records
    ensures forall g :: g in Singletons(records) ==> |g| == 1
  {
    if records != [] { SingletonsFlatten(records[1..]); }
  }

  lemma {:induction false} KeptFit(cfg: Config, records: seq<Record>)
    ensures forall r :: r in Kept(cfg, records) ==> !Oversized(cfg, r)
  {
    if records != [] { KeptFit(cfg, records[1..]); }
  }

  /** Whatever the mode, the groups hold exactly the records that are not
      oversized, in order, and every record read is in a group or rejected. */
  lemma GroupsAreKept(cfg: Config, records: seq<Record>, g: Grouped)
    requires Course(cfg, [], records) == Some(g)
    ensures forall x :: x in g.groups ==> x != [] && (cfg.mode.Single? ==> |x| == 1)
    ensures Flatten(g.groups) == Kept(cfg, records)
    ensures |records| == |Flatten(g.groups)| + g.rejected
    ensures cfg.mode.Bundled? ==> AllFit(Limits(cfg), RecordBytes, g.groups)
    ensures cfg.mode.Single? ==> forall x :: x in g.groups ==> !Oversized(cfg, x[0])
  {
    var kept := Kept(cfg, records);
    KeptAll(cfg, records);
    KeptFit(cfg, records);
    if cfg.mode.Single? {
      SingleIff(cfg, records);
      SingletonsFlatten(kept);
      SingletonsOf(kept);
    } else {
      BundledIff(cfg, records);
      PackFlatten(Limits(cfg), RecordBytes, [], kept);
      PackFits(Limits(cfg), RecordBytes, [], kept);
    }
  }

  lemma {:induction false} SingletonsOf(records: seq<Record>)
    ensures forall g :: g in Singletons(records) ==> |g| == 1 && g[0] in records
  {
    if records != [] { SingletonsOf(records[1..]); }
  }

  /** No other way of bundling the accepted records, in order and within both
      limits, takes fewer messages. */
  lemma FewestBundles(cfg: Config, records: seq<Record>, g: Grouped, other: seq<seq<Record>>)
    requires cfg.mode.Bundled? && Course(cfg, [], records) == Some(g)
    requires AllFit(Limits(cfg), RecordBytes, other) && Flatten(other) == Kept(cfg, records)
    ensures |g.groups| <= |other|
  {
    BundledIff(cfg, records);
    GreedyIsOptimal(Limits(cfg), RecordBytes, other);
  }

  // ---- The loop ---------------------------------------------------------------------------

  // What is given to the sender for a sequence of batches.
  ghost function Parts(batches: seq<seq<Message>>): seq<seq<Message>> {
    if batches == [] then []
    else Parts(batches[..|batches| - 1]) + Pack(BATCH, MessageBytes, [], batches[|batches| - 1])
  }

  // Every batch but the last is full, and the last is not over-full.
  predicate Chopped(batches: seq<seq<Message>>, size: int) {
    forall i :: 0 <= i < |batches| ==>
      batches[i] != [] && (size > 0 ==> |batches[i]| <= size) && (i < |batches| - 1 ==> |batches[i]| == size)
  }

  /** The batch being filled, and what the sender has been given. */
  class Outgoing {
    const size: int
    var batch: seq<Message>
    var submitted: seq<seq<Message>>
    ghost var closed: seq<seq<Message>>

    ghost predicate Valid()
      reads this
    {
      && submitted == Parts(closed)
      && (forall i :: 0 <= i < |closed| ==> |closed[i]| == size > 0)
      && (size > 0 ==> |batch| < size)
    }

    ghost function Messages(): seq<Message>
      reads this
    {
      Flatten(closed) + batch
    }

    constructor (batchSize: int)
      requires batchSize != 0
      ensures Valid() && Messages() == [] && size == batchSize && closed == []
    {
      size, batch, submitted, closed := batchSize, [], [], [];
    }

    method SendBatch()
      requires batch != [] && submitted == Parts(closed)
      modifies this
      ensures batch == [] && closed == old(closed) + [old(batch)] && submitted == Parts(closed)
    {
      var parts := SplitSendBatches(batch);
      closed := closed + [batch];
      assert closed[..|closed| - 1] == old(closed);
      submitted, batch := submitted + parts, [];
    }

    method Enqueue(message: Message)
      requires Valid()
      modifies this
      ensures Valid() && Messages() == old(Messages()) + [message]
    {
      ghost var before := Flatten(closed);
      ghost var longer := batch + [message];
      FlattenAppend(closed, longer);
      assert before + longer == Messages() + [message];
      batch := batch + [message];
      if |batch| == size {
        SendBatch();
        assert Messages() == Flatten(closed);
      }
    }

    // The last message joins the open batch, which then goes whatever its length.
    method Finish(last: Option<Message>)
      requires Valid()
      modifies this
      ensures Flatten(closed) == old(Messages()) + (if last.Some? then [last.value] else [])
      ensures Chopped(closed, size) && submitted == Parts(closed)
    {
      if last.Some? { batch := batch + [last.value]; }
      FlattenAppend(closed, batch);
      if |batch| > 0 { SendBatch(); }
    }
  }

  // The outcome with some groups made and some records rejected before.
  function After(groups: seq<seq<Record>>, rejected: nat, g: Option<Grouped>): Option<Grouped> {
    if g.None? then None else Some(Grouped(groups + g.value.groups, rejected + g.value.rejected))
  }

  lemma AfterReject(groups: seq<seq<Record>>, rejected: nat, rejected': nat, g: Option<Grouped>)
    requires rejected' == rejected + 1
    ensures After(groups, rejected, Reject(g)) == After(groups, rejected', g)
  {
  }

  lemma AfterEmit(groups: seq<seq<Record>>, rejected: nat, group: seq<Record>, g: Option<Grouped>)
    ensures After(groups, rejected, Emit(group, g)) == After(groups + [group], rejected, g)
  {
    if g.Some? { assert groups + ([group] + g.value.groups) == groups + [group] + g.value.groups; }
  }

  // One record of the loop.
  lemma CourseNext(cfg: Config, held: seq<Record>, r: Record, rest: seq<Record>, records: seq<Record>)
    requires records == [r] + rest && !Fatal(cfg, r)
    ensures cfg.mode.Single? ==>
      Course(cfg, held, records)
      == if Oversized(cfg, r) then Reject(Course(cfg, held, rest)) else Emit([r], Course(cfg, held, rest))
    ensures cfg.mode.Bundled? && held == [] && Oversized(cfg, r) ==>
        Course(cfg, held, records) == Reject(Course(cfg, held, rest))
    ensures cfg.mode.Bundled? && !(held == [] && Oversized(cfg, r)) ==>
      Course(cfg, held, records) ==
        if held == [] || Fits(Limits(cfg), RecordBytes, held + [r]) then Course(cfg, held + [r], rest)
        else if Fits(Limits(cfg), RecordBytes, held) then Emit(held, Course(cfg, [r], rest))
        else None
  {
    assert records[1..] == rest && records[0] == r;
  }

  // What each outcome of the packer's Add means for the rest of the loop; held is
  // what the packer holds after it.
  ghost predicate Continues(cfg: Config, was: seq<Record>, r: Record, added: Added, held: seq<Record>) {
    var joins := Fits(Limits(cfg), RecordBytes, was + [r]);
    match added
    case Joined => r.json != "" && joins && held == was + [r]
    case TooLarge(_, _, _) => r.json != "" && was == [] && Oversized(cfg, r) && held == was
    case Flushed(bundle) =>
      && r.json != "" && was != [] && !joins && Fits(Limits(cfg), RecordBytes, was)
      && bundle == MessageOf(cfg, was) && held == [r]
    case EmptyEnvelope => r.json == ""
    case BundleTooLarge => r.json != "" && was != [] && !joins && !Fits(Limits(cfg), RecordBytes, was)
  }

  lemma BundledNext(cfg: Config, groups: seq<seq<Record>>, rejected: nat, was: seq<Record>, r: Record,
                    rest: seq<Record>,
                    added: Added, held: seq<Record>, groups': seq<seq<Record>>, rejected': nat)
    requires cfg.mode.Bundled? && (Fatal(cfg, r) ==> r.json == "") && Continues(cfg, was, r, added, held)
    requires groups' == if added.Flushed? then groups + [was] else groups
    requires rejected' == if added.TooLarge? then rejected + 1 else rejected
    ensures After(groups, rejected, Course(cfg, was, [r] + rest))
         == if added.EmptyEnvelope? || added.BundleTooLarge? then None
           else After(groups', rejected', Course(cfg, held, rest))
  {
    assert [] + [r] == [r] && ([r] + rest)[0] == r;
    if !Fatal(cfg, r) { CourseNext(cfg, was, r, rest, [r] + rest); }
    if added.TooLarge? { AfterReject(groups, rejected, rejected', Course(cfg, was, rest)); }
    if added.Flushed? { AfterEmit(groups, rejected, was, Course(cfg, [r], rest)); }
  }

  lemma MessagesSnoc(cfg: Config, groups: seq<seq<Record>>, g: seq<Record>)
    requires g != [] && forall i :: 0 <= i < |groups| ==> groups[i] != []
    ensures MessagesOf(cfg, groups + [g]) == MessagesOf(cfg, groups) + [MessageOf(cfg, g)]
  {
    assert (groups + [g])[..|groups|] == groups;
  }

  // What the groups already made and the last one, if any, amount to.
  lemma LastGroup(cfg: Config, groups: seq<seq<Record>>, rejected: nat, held: seq<Record>, all: seq<seq<Record>>)
    requires all == if held == [] then groups else groups + [held]
    requires forall i :: 0 <= i < |groups| ==> groups[i] != []
    ensures After(groups, rejected, Course(cfg, held, []))
         == if held == [] || Fits(Limits(cfg), RecordBytes, held) then Some(Grouped(all, rejected)) else None
    ensures forall i :: 0 <= i < |all| ==> all[i] != []
    ensures MessagesOf(cfg, all) == MessagesOf(cfg, groups) + if held == [] then [] else [MessageOf(cfg, held)]
  {
    if held != [] {
      MessagesSnoc(cfg, groups, held);
    } else {
      assert groups + [] == groups;
      assert MessagesOf(cfg, groups) + [] == MessagesOf(cfg, groups);
    }
  }

  /** One chunk's loop over its records. */
  class Producer {
    const cfg: Config
    const packer: BundlePacker
    const out: Outgoing
    var rejected: nat
    ghost var groups: seq<seq<Record>>

    ghost predicate Valid()
      reads this, packer, out
    {
      && packer.Valid() && out.Valid() && out.size == BatchLimit(cfg)
      && packer.labels == cfg.labels && packer.digest == cfg.digest && packer.Limits() == Limits(cfg)
      && (cfg.mode.Single? ==> packer.held == [])
      && (forall i :: 0 <= i < |groups| ==> groups[i] != [])
      && out.Messages() == MessagesOf(cfg, groups)
    }

    constructor (cfg: Config)
      requires IsDigest(cfg.digest)
      ensures Valid() && fresh(packer) && fresh(out) && this.cfg == cfg && groups == [] && packer.held == []
      ensures rejected == 0
    {
      this.cfg := cfg;
      packer := new BundlePacker(cfg.labels, cfg.digest, cfg.maxEnvelopes, cfg.maxMessageBytes);
      out := new Outgoing(BatchLimit(cfg));
      rejected, groups := 0, [];
    }

    /** What the records so far and those to come amount to. */
    ghost function Outcome(records: seq<Record>): Option<Grouped>
      reads this, packer
    {
      After(groups, rejected, Course(cfg, packer.held, records))
    }

    method Publish(r: Record, ghost rest: seq<Record>) returns (ok: bool)
      requires Valid()
      modifies this, packer, out
      ensures Valid()
      ensures ok ==> Outcome(rest) == old(Outcome([r] + rest))
      ensures !ok ==> old(Outcome([r] + rest)).None?
    {
      assert ([r] + rest)[1..] == rest;
      if |r.json| > EventLimit(cfg) && EventLimit(cfg) < MAX_MESSAGE_BYTES { return false; }
      if |r.attributes| > MAX_ATTRIBUTES { return false; }
      if cfg.mode.Bundled? { ok := PublishBundled(r, rest); } else { PublishSingle(r, rest); ok := true; }
    }

    method PublishSingle(r: Record, ghost rest: seq<Record>)
      requires Valid() && cfg.mode.Single? && !Fatal(cfg, r)
      modifies this, packer, out
      ensures Valid() && Outcome(rest) == old(Outcome([r] + rest))
    {
      CourseNext(cfg, packer.held, r, rest, [r] + rest);
      ghost var c := Course(cfg, packer.held, rest);
      var size := OutboundMessageSize(Alone(r));
      if size > MAX_MESSAGE_BYTES {
        AfterReject(groups, rejected, rejected + 1, c);
        rejected := rejected + 1;
      } else {
        AfterEmit(groups, rejected, [r], c);
        MessagesSnoc(cfg, groups, [r]);
        out.Enqueue(Alone(r));
        groups := groups + [[r]];
      }
    }

    method PublishBundled(r: Record, ghost rest: seq<Record>) returns (ok: bool)
      requires Valid() && cfg.mode.Bundled? && (Fatal(cfg, r) ==> r.json == "")
      modifies this, packer, out
      ensures Valid()
      ensures ok ==> Outcome(rest) == old(Outcome([r] + rest))
      ensures !ok ==> old(Outcome([r] + rest)).None?
    {
      ghost var was, groups0, rejected0 := packer.held, groups, rejected;
      var added := Offer(r);
      match added {
        case TooLarge(_, _, _) => rejected := rejected + 1;
        case Flushed(bundle) => EmitBundle(bundle, was);
        case _ =>
      }
      BundledNext(cfg, groups0, rejected0, was, r, rest, added, packer.held, groups, rejected);
      return !added.EmptyEnvelope? && !added.BundleTooLarge?;
    }

    // Add, in the stream's own terms.
    method Offer(r: Record) returns (added: Added)
      requires Valid() && cfg.mode.Bundled?
      modifies packer
      ensures Valid()
      ensures Continues(cfg, old(packer.held), r, added, packer.held)
    {
      assert [] + [r] == [r];
      added := packer.Add(r);
    }

    method EmitBundle(bundle: Message, ghost group: seq<Record>)
      requires Valid() && cfg.mode.Bundled? && group != [] && bundle == MessageOf(cfg, group)
      modifies this, out
      ensures Valid() && groups == old(groups) + [group] && rejected == old(rejected) && packer.held == old(packer.held)
    {
      MessagesSnoc(cfg, groups, group);
      out.Enqueue(bundle);
      groups := groups + [group];
    }

    method FlushPacker() returns (ok: bool, last: Option<Message>)
      requires Valid()
      modifies packer
      ensures ok <==> old(packer.held) == [] || Fits(Limits(cfg), RecordBytes, old(packer.held))
      ensures ok ==> last == if old(packer.held) == [] then None else Some(MessageOf(cfg, old(packer.held)))
    {
      if cfg.mode.Single? { return true, None; }
      ok, last := packer.Flush();
    }

    method Flush() returns (ok: bool)
      requires Valid()
      modifies this, packer, out
      ensures ok <==> old(Outcome([])).Some?
      ensures ok ==> Delivers(cfg, old(Outcome([])).value, out.submitted) && rejected == old(Outcome([])).value.rejected
    {
      ghost var all := if packer.held == [] then groups else groups + [packer.held];
      LastGroup(cfg, groups, rejected, packer.held, all);
      assert packer.held != [] ==> cfg.mode.Bundled?;
      var last;
      ok, last := FlushPacker();
      if !ok { return; }
      out.Finish(last);
      assert Cut(out.closed, BatchLimit(cfg), MessagesOf(cfg, all), out.submitted);
    }

    method Run(records: seq<Record>) returns (ok: bool)
      requires Valid() && packer.held == [] && groups == [] && rejected == 0
      modifies this, packer, out
      ensures ok <==> Course(cfg, [], records).Some?
      ensures ok ==> rejected == Course(cfg, [], records).value.rejected
      ensures ok ==> Delivers(cfg, Course(cfg, [], records).value, out.submitted)
    {
      ghost var rest, whole := records, Course(cfg, [], records);
      assert whole.Some? ==> [] + whole.value.groups == whole.value.groups;
      for i := 0 to |records|
        invariant rest == records[i..] && Valid() && Outcome(rest) == whole
      {
        assert rest == [records[i]] + rest[1..];
        rest := rest[1..];
        ok := Publish(records[i], rest);
        if !ok { return; }
      }
      assert rest == [];
      ok := Flush();
    }
  }

  // A sequence of batches of the messages that gives the sender these parts.
  ghost predicate Cut(batches: seq<seq<Message>>, size: int, messages: seq<Message>, submitted: seq<seq<Message>>) {
    Chopped(batches, size) && Flatten(batches) == messages && submitted == Parts(batches)
  }

  /** The sender was given the groups' messages, cut into batches. */
  ghost predicate Delivers(cfg: Config, g: Grouped, submitted: seq<seq<Message>>) {
    && (forall i :: 0 <= i < |g.groups| ==> g.groups[i] != [])
    && exists batches :: Cut(batches, BatchLimit(cfg), MessagesOf(cfg, g.groups), submitted)
  }

  /** streamWithMetrics, up to the sender's own work: what it counts as read and
      rejected, and what it submits, in order. */
  method StreamRecords(cfg: Config, records: seq<Record>)
    returns (ok: bool, read: nat, rejected: nat, submitted: seq<seq<Message>>)
    requires IsDigest(cfg.digest)
    ensures ok <==> Course(cfg, [], records).Some?
    ensures ok ==> read == |records| && rejected == Course(cfg, [], records).value.rejected
                   && Delivers(cfg, Course(cfg, [], records).value, submitted)
  {
    var p := new Producer(cfg);
    ok := p.Run(records);
    read, rejected, submitted := |records|, p.rejected, p.out.submitted;
  }

  // ---- Conservation --------------------------------------------------------------------------

  lemma {:induction false} PartsFlatten(batches: seq<seq<Message>>)
    ensures Flatten(Parts(batches)) == Flatten(batches)
  {
    if batches != [] {
      var front, last := batches[..|batches| - 1], batches[|batches| - 1];
      PartsFlatten(front);
      PackFlatten(BATCH, MessageBytes, [], last);
      FlattenConcat(Parts(front), Pack(BATCH, MessageBytes, [], last));
      FlattenAppend(front, last);
      assert batches == front + [last];
    }
  }

  lemma {:induction false} EventsOfGroups(cfg: Config, groups: seq<seq<Record>>)
    requires forall i :: 0 <= i < |groups| ==> groups[i] != [] && (cfg.mode.Single? ==> |groups[i]| == 1)
    ensures Events(MessagesOf(cfg, groups)) == |Flatten(groups)| && |MessagesOf(cfg, groups)| == |groups|
  {
    if groups != [] {
      var front, last := groups[..|groups| - 1], groups[|groups| - 1];
      EventsOfGroups(cfg, front);
      assert groups == front + [last];
      FlattenAppend(front, last);
      var messages := MessagesOf(cfg, groups);
      assert messages[..|messages| - 1] == MessagesOf(cfg, front);
    }
  }

  /** The tasks of a sender that was given these parts, in order. */
  predicate GivenTo(tasks: seq<SenderRuns.Task>, parts: seq<seq<Message>>) {
    |tasks| == |parts| && forall i :: 0 <= i < |parts| ==> tasks[i].batch == parts[i]
  }

  lemma {:induction false} SubmittedIs(tasks: seq<SenderRuns.Task>, parts: seq<seq<Message>>)
    requires GivenTo(tasks, parts)
    ensures SenderRuns.Submitted(tasks) == Flatten(parts)
  {
    if tasks != [] {
      var last := |tasks| - 1;
      SubmittedIs(tasks[..last], parts[..last]);
      FlattenAppend(parts[..last], parts[last]);
      assert parts == parts[..last] + [parts[last]];
    }
  }

  lemma {:induction false} ConfirmedIs(tasks: seq<SenderRuns.Task>)
    requires forall i :: 0 <= i < |tasks| ==> multiset(tasks[i].confirmed) == multiset(tasks[i].batch)
    ensures multiset(SenderRuns.Confirmed(tasks)) == multiset(SenderRuns.Submitted(tasks))
  {
    if tasks != [] { ConfirmedIs(tasks[..|tasks| - 1]); }
  }

  /** When the stream returns without error, in either mode, with any batch size,
      concurrency and pattern of partial failures: records read equal records
      published plus records rejected; the confirmed messages are exactly those
      built, each once; and these carry exactly the records not rejected, in order. */
  lemma StreamConserves(cfg: Config, records: seq<Record>, g: Grouped, submitted: seq<seq<Message>>,
                        concurrency: int, steps: seq<SenderRuns.Step>, s: SenderRuns.State)
    requires Course(cfg, [], records) == Some(g) && Delivers(cfg, g, submitted)
    requires SenderRuns.Reaches(concurrency, steps, s) && SenderRuns.WaitsNil(s) && GivenTo(s.tasks, submitted)
    ensures |records| == s.events + g.rejected
    ensures s.messages == |g.groups|
    ensures multiset(SenderRuns.Confirmed(s.tasks)) == multiset(MessagesOf(cfg, g.groups))
    ensures Flatten(g.groups) == Kept(cfg, records)
  {
    GroupsAreKept(cfg, records, g);
    forall i | 0 <= i < |g.groups| ensures g.groups[i] != [] && (cfg.mode.Single? ==> |g.groups[i]| == 1) {
      assert g.groups[i] in g.groups;
    }
    var batches :| Cut(batches, BatchLimit(cfg), MessagesOf(cfg, g.groups), submitted);
    PartsFlatten(batches);
    SubmittedIs(s.tasks, submitted);
    EventsOfGroups(cfg, g.groups);
    SenderRuns.NilMeansAllConfirmed(concurrency, steps, s);
    ConfirmedIs(s.tasks);
  }

  // ---- The limits, in what they are of --------------------------------------------------------

  /** A record's JSON is too long for its chunk from one byte above the configured limit
      on, 4 KiB below one MiB when none is configured; a limit of one MiB or more leaves
      the decision to the size of the message. */
  lemma FatalIff(cfg: Config, r: Record)
    ensures Fatal(cfg, r) <==>
      || (cfg.maxEventBytes == 0 && |r.json| > 0xF_F000)
      || (cfg.maxEventBytes != 0 && cfg.maxEventBytes < 0x10_0000 && |r.json| > cfg.maxEventBytes)
      || |r.attributes| > 10
      || (cfg.mode.Bundled? && |r.json| == 0)
  {
  }

  /** Records can share a bundle exactly when the message they make is within the byte
      limit and they are no more than the configured number. */
  lemma BundleFitsIff(cfg: Config, group: seq<Record>)
    requires IsDigest(cfg.digest)
    ensures Fits(Limits(cfg), RecordBytes, group) <==>
      && (cfg.maxEnvelopes > 0 ==> |group| <= cfg.maxEnvelopes)
      && MessageBytes(BundleOf(cfg.labels, cfg.digest, group))
         <= if 0 < cfg.maxMessageBytes < 0x10_0000 then cfg.maxMessageBytes else 0x10_0000
  {
    SizeIsExact(cfg.labels, cfg.digest(BundleIds.BundleKey(EventIds(group))), group, Limits(cfg));
  }

  /** The messages go to the sender in full batches of the configured size, ten when
      none is configured, and what is left in a last one. */
  lemma BatchesAreFull(cfg: Config, g: Grouped, submitted: seq<seq<Message>>)
    returns (batches: seq<seq<Message>>)
    requires Delivers(cfg, g, submitted) && cfg.batchSize >= 0
    ensures Flatten(batches) == MessagesOf(cfg, g.groups) && submitted == Parts(batches)
    ensures var size := if cfg.batchSize == 0 then 10 else cfg.batchSize;
      && (forall i :: 0 <= i < |batches| - 1 ==> |batches[i]| == size)
      && forall i :: 0 <= i < |batches| ==> 0 < |batches[i]| <= size
  {
    batches :| Cut(batches, BatchLimit(cfg), MessagesOf(cfg, g.groups), submitted);
  }

  // ---- The sender never refuses a part ----------------------------------------------------------

  ghost predicate Sendable(cfg: Config, group: seq<Record>) {
    && group != []
    && match cfg.mode
       case Single => !Oversized(cfg, group[0])
       case Bundled => Fits(Limits(cfg), RecordBytes, group)
  }

  lemma GroupSendable(cfg: Config, group: seq<Record>)
    requires IsDigest(cfg.digest) && Sendable(cfg, group)
    ensures MessageBytes(MessageOf(cfg, group)) <= if cfg.mode.Single? then MAX_MESSAGE_BYTES else MessageLimit(cfg)
  {
    if cfg.mode.Bundled? {
      SizeIsExact(cfg.labels, cfg.digest(BundleIds.BundleKey(EventIds(group))), group, Limits(cfg));
    }
  }

  lemma {:induction false} MessagesSendable(cfg: Config, groups: seq<seq<Record>>)
    requires IsDigest(cfg.digest) && forall i :: 0 <= i < |groups| ==> Sendable(cfg, groups[i])
    requires forall i :: 0 <= i < |groups| ==> groups[i] != []
    ensures forall m :: m in MessagesOf(cfg, groups) ==> MessageBytes(m) <= MAX_MESSAGE_BYTES
  {
    if groups != [] {
      MessagesSendable(cfg, groups[..|groups| - 1]);
      GroupSendable(cfg, groups[|groups| - 1]);
    }
  }

  lemma {:induction false} PartsFit(batches: seq<seq<Message>>)
    requires forall m :: m in Flatten(batches) ==> MessageBytes(m) <= MAX_MESSAGE_BYTES
    ensures AllFit(BATCH, MessageBytes, Parts(batches))
  {
    if batches != [] {
      var front, last := batches[..|batches| - 1], batches[|batches| - 1];
      assert batches == front + [last];
      FlattenAppend(front, last);
      PartsFit(front);
      SplitIsOptimal(last, []);
    }
  }

  /** Every part is non-empty and within the limits of one request, so that
      submitOne never fails on a size. */
  lemma PartsWithinLimits(cfg: Config, records: seq<Record>, g: Grouped, submitted: seq<seq<Message>>)
    requires IsDigest(cfg.digest) && Course(cfg, [], records) == Some(g) && Delivers(cfg, g, submitted)
    ensures AllFit(BATCH, MessageBytes, submitted)
  {
    GroupsAreKept(cfg, records, g);
    forall i | 0 <= i < |g.groups| ensures Sendable(cfg, g.groups[i]) { assert g.groups[i] in g.groups; }
    MessagesSendable(cfg, g.groups);
    var batches :| Cut(batches, BatchLimit(cfg), MessagesOf(cfg, g.groups), submitted);
    PartsFit(batches);
  }
}
