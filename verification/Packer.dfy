/** The bundle packer: keeps serialised envelopes and their exact physical size. */
module Packer {
  import opened Bytes
  import opened Greedy
  import opened Messages
  import BundleIds

  const ID_BYTES := 64
  const PLACEHOLDER: string := "0000000000000000000000000000000000000000000000000000000000000000"

  /** The digest of a byte string, in hexadecimal: all that is used of it is its
      length. */
  type Digest = string -> string

  ghost predicate IsDigest(digest: Digest) { forall s: string :: |digest(s)| == ID_BYTES }

  /** The job's own values in a bundle, as JSON string literals. */
  datatype Labels = Labels(jobId: string, chunkId: string)

  /** One envelope: its event id, its JSON, and the attributes it would have as a
      message of its own. */
  datatype Record = Record(eventId: string, json: string, attributes: map<string, Attribute>)

  const SCHEMA := "f2e-bundle/1"

  function Quote(s: string): string { "\"" + s + "\"" }

  function Head(labels: Labels, id: string): string {
    "{\"schemaVersion\":" + Quote(SCHEMA) + ",\"bundleId\":" + Quote(id) + ",\"jobId\":" + labels.jobId
    + ",\"chunkId\":" + labels.chunkId + ",\"items\":["
  }

  // Items separated by commas.
  function Listed(items: seq<string>): string {
    if |items| == 0 then "" else if |items| == 1 then items[0]
    else Listed(items[..|items| - 1]) + "," + items[|items| - 1]
  }

  function Body(labels: Labels, id: string, items: seq<string>): string { Head(labels, id) + Listed(items) + "]}" }

  function BundleAttributes(id: string): map<string, Attribute> {
    map["schema" := Attribute("String", SCHEMA), "f2e-bundle-id" := Attribute("String", id)]
  }

  function Bundle(labels: Labels, id: string, items: seq<string>): Message {
    Message(Body(labels, id, items), BundleAttributes(id), |items|)
  }

  function Jsons(records: seq<Record>): (r: seq<string>)
    ensures |r| == |records|
  {
    if records == [] then [] else Jsons(records[..|records| - 1]) + [records[|records| - 1].json]
  }

  function EventIds(records: seq<Record>): (r: seq<string>)
    ensures |r| == |records|
  {
    if records == [] then [] else EventIds(records[..|records| - 1]) + [records[|records| - 1].eventId]
  }

  function RecordBytes(r: Record): nat { |r.json| }

  function BundleOf(labels: Labels, digest: Digest, records: seq<Record>): Message {
    Bundle(labels, digest(BundleIds.BundleKey(EventIds(records))), Jsons(records))
  }

  ghost function EmptySize(labels: Labels): nat { MessageBytes(Bundle(labels, PLACEHOLDER, [])) }

  // ---- The running size is the physical size ------------------------------------------

  lemma {:induction false} ListedLength(records: seq<Record>)
    ensures |Listed(Jsons(records))| == Sum(RecordBytes, records) + (if records == [] then 0 else |records| - 1)
  {
    if |records| > 0 {
      var front := records[..|records| - 1];
      assert Jsons(records)[..|records| - 1] == Jsons(front);
      ListedLength(front);
    }
  }

  lemma AttributesBytesOf(id: string)
    ensures AttributesBytes(BundleAttributes(id))
        == |"schema"| + |"f2e-bundle-id"| + 2 * |"String"| + |SCHEMA| + |id| + 64
  {
    var both := BundleAttributes(id);
    AttributesBytesWithout(both, "schema");
    var one := both - {"schema"};
    AttributesBytesWithout(one, "f2e-bundle-id");
    assert one - {"f2e-bundle-id"} == map[];
  }

  /** Every bundle with a 64-byte id weighs what the budget says: the empty size,
      plus the items, plus one comma after the first. */
  lemma SizeIsExact(labels: Labels, id: string, records: seq<Record>, b: Budget)
    requires |id| == ID_BYTES && b.base == EmptySize(labels) && b.separator == 1
    ensures MessageBytes(Bundle(labels, id, Jsons(records))) == Weight(b, RecordBytes, records)
  {
    AttributesBytesOf(id);
    AttributesBytesOf(PLACEHOLDER);
    ListedLength(records);
    HeadLength(labels, id, PLACEHOLDER);
  }

  lemma HeadLength(labels: Labels, id: string, other: string)
    requires |id| == |other|
    ensures |Head(labels, id)| == |Head(labels, other)|
  {
  }

  // ---- The packer ------------------------------------------------------------------------

  datatype Added =
    | Joined
    | Flushed(bundle: Message)
    | TooLarge(eventId: string, actualBytes: nat, limitBytes: int)
    | EmptyEnvelope
    | BundleTooLarge

  class BundlePacker {
    const labels: Labels
    const digest: Digest
    const maxEnvelopes: int
    const maxMessageBytes: int
    const emptyMessageSize: nat

    var items: seq<string>
    var eventIds: seq<string>
    var currentMessageSize: nat

    ghost var held: seq<Record>

    ghost function Limits(): Budget {
      Budget(emptyMessageSize, 1, maxMessageBytes, if maxEnvelopes > 0 then maxEnvelopes else 0)
    }

    ghost predicate Valid()
      reads this
    {
      && IsDigest(digest) && 0 < maxMessageBytes <= MAX_MESSAGE_BYTES && emptyMessageSize == EmptySize(labels)
      && items == Jsons(held) && eventIds == EventIds(held)
      && currentMessageSize == Weight(Limits(), RecordBytes, held)
      && (|held| >= 2 ==> Fits(Limits(), RecordBytes, held))
      && (maxEnvelopes > 0 ==> |held| <= maxEnvelopes)
    }

    constructor (labels: Labels, digest: Digest, maxEnvelopes: int, configuredBytes: int)
      requires IsDigest(digest)
      ensures Valid() && held == [] && this.labels == labels && this.digest == digest
      ensures this.maxEnvelopes == maxEnvelopes
      ensures maxMessageBytes == if 0 < configuredBytes <= MAX_MESSAGE_BYTES then configuredBytes else MAX_MESSAGE_BYTES
    {
      this.labels, this.digest, this.maxEnvelopes := labels, digest, maxEnvelopes;
      maxMessageBytes :=
        if configuredBytes <= 0 || configuredBytes > MAX_MESSAGE_BYTES then MAX_MESSAGE_BYTES else configuredBytes;
      var size := OutboundMessageSize(Bundle(labels, PLACEHOLDER, []));
      emptyMessageSize, currentMessageSize := size, size;
      items, eventIds, held := [], [], [];
    }

    function SizeWith(serialised: string): nat
      reads this
    {
      currentMessageSize + |serialised| + if |items| > 0 then 1 else 0
    }

    /** The size of the message the held items and one more would make. */
    lemma SizeWithIsExact(r: Record)
      requires Valid()
      ensures SizeWith(r.json) == Weight(Limits(), RecordBytes, held + [r])
      ensures forall id: string :: |id| == ID_BYTES ==>
          SizeWith(r.json) == MessageBytes(Bundle(labels, id, Jsons(held + [r])))
      ensures forall id: string :: |id| == ID_BYTES ==> currentMessageSize == MessageBytes(Bundle(labels, id, items))
    {
      assert (held + [r])[..|held|] == held;
      forall id: string | |id| == ID_BYTES
        ensures SizeWith(r.json) == MessageBytes(Bundle(labels, id, Jsons(held + [r])))
        ensures currentMessageSize == MessageBytes(Bundle(labels, id, items))
      {
        SizeIsExact(labels, id, held + [r], Limits());
        SizeIsExact(labels, id, held, Limits());
      }
    }

    ghost predicate Joins(records: seq<Record>, r: Record) { Fits(Limits(), RecordBytes, records + [r]) }

    /** The packer's test is whether the held items and one more still fit. */
    lemma TestIsFits(r: Record)
      requires Valid()
      ensures Joins(held, r) <==> !(maxEnvelopes > 0 && |items| >= maxEnvelopes) && SizeWith(r.json) <= maxMessageBytes
      ensures held == [] ==> (Joins([], r) <==> SizeWith(r.json) <= maxMessageBytes)
      ensures SizeWith(r.json) == Weight(Limits(), RecordBytes, held + [r])
      ensures Jsons(held + [r]) == items + [r.json] && EventIds(held + [r]) == eventIds + [r.eventId]
    {
      assert (held + [r])[..|held|] == held;
    }

    /** A flush is caused only by an item that no longer fits, which then joins an
        empty packer without a new check of its own size. */
    method Add(r: Record) returns (added: Added)
      requires Valid()
      modifies this
      ensures Valid()
      ensures added.EmptyEnvelope? <==> r.json == ""
      ensures added.TooLarge? <==> r.json != "" && old(held) == [] && !Joins([], r)
      ensures added.TooLarge? ==> added == TooLarge(r.eventId, Weight(Limits(), RecordBytes, [r]), maxMessageBytes)
      ensures added.Joined? <==> r.json != "" && Joins(old(held), r)
      ensures added.Flushed? || added.BundleTooLarge? <==> r.json != "" && old(held) != [] && !Joins(old(held), r)
      ensures added.Flushed? ==>
          Fits(Limits(), RecordBytes, old(held)) && added.bundle == BundleOf(labels, digest, old(held))
      ensures added.BundleTooLarge? ==> !Fits(Limits(), RecordBytes, old(held))
      ensures held == if added.Joined? then old(held) + [r]
                      else if added.Flushed? then [r] else old(held)
    {
      if |r.json| == 0 { return EmptyEnvelope; }
      TestIsFits(r);
      assert [] + [r] == [r];
      var candidateSize := SizeWith(r.json);
      if |items| == 0 && candidateSize > maxMessageBytes { return TooLarge(r.eventId, candidateSize, maxMessageBytes); }
      added := Joined;
      if |items| > 0 && ((maxEnvelopes > 0 && |items| >= maxEnvelopes) || candidateSize > maxMessageBytes) {
        var ok, flushed := Flush();
        if !ok { return BundleTooLarge; }
        added := Flushed(flushed.value);
        candidateSize := SizeWith(r.json);
      }
      Append(r, candidateSize);
    }

    method Append(r: Record, candidateSize: nat)
      requires Valid() && candidateSize == SizeWith(r.json)
      requires held == [] || Joins(held, r)
      modifies this
      ensures Valid() && held == old(held) + [r]
    {
      TestIsFits(r);
      items, eventIds, held := items + [r.json], eventIds + [r.eventId], held + [r];
      currentMessageSize := candidateSize;
    }

    /** Fails exactly when the held items do not fit, which only a lone item can
        do; then it keeps them. */
    method Flush() returns (ok: bool, bundle: Option<Message>)
      requires Valid()
      modifies this
      ensures Valid()
      ensures ok <==> old(held) == [] || Fits(Limits(), RecordBytes, old(held))
      ensures !ok ==> |old(held)| == 1
      ensures bundle == if ok && old(held) != [] then Some(BundleOf(labels, digest, old(held))) else None
      ensures bundle.Some? ==> MessageBytes(bundle.value) == Weight(Limits(), RecordBytes, old(held)) <= maxMessageBytes
      ensures held == if ok then [] else old(held)
    {
      if |items| == 0 { return true, None; }
      var id := digest(BundleIds.BundleKey(eventIds));
      var body := SerialiseBundle(id);
      var message := Message(body, BundleAttributes(id), |items|);
      var actual := OutboundMessageSize(message);
      SizeIsExact(labels, id, held, Limits());
      if actual > maxMessageBytes { return false, None; }
      items, eventIds, held, currentMessageSize := [], [], [], emptyMessageSize;
      return true, Some(message);
    }

    method SerialiseBundle(id: string) returns (body: string)
      ensures body == Body(labels, id, items)
    {
      body := Head(labels, id);
      for i := 0 to |items|
        invariant body == Head(labels, id) + Listed(items[..i])
      {
        if i > 0 { body := body + ","; }
        body := body + items[i];
        assert items[..i + 1][..i] == items[..i];
      }
      assert items[..|items|] == items;
      body := body + "]}";
    }
  }
}
