/** What a consumer gets out of the messages a stream publishes. */
module Unpacking {
  import opened Bytes
  import opened Sequences
  import opened Greedy
  import opened Messages
  import opened Packer
  import opened Stream
  import BundleIds
  import JsonScan
  import JsonWindows

  /** Where a JSON decoder says that the value at the head of a text ends. */
  type ValueEnd = string -> nat

  /** The item is one value that ends by itself, as an object does, whatever comes
      after it. */
  ghost predicate Delimits(end: ValueEnd, item: string) {
    item != "" && forall rest: string :: end(item + rest) == |item|
  }

  // The values of a comma-separated list.
  function Unlist(end: ValueEnd, text: string): seq<string>
    decreases |text|
  {
    if text == "" then [] else
    var n := end(text);
    if n >= |text| then [text] else [text[..n]] + Unlist(end, text[n + 1..])
  }

  /** The envelopes in a message. A bundle's list stands between its head, which
      has the same length for every id, and the two closing brackets. */
  function Unpack(cfg: Config, end: ValueEnd, m: Message): seq<string> {
    var head := |Head(cfg.labels, PLACEHOLDER)|;
    if cfg.mode.Single? || |m.body| < head + 2 then [m.body] else Unlist(end, m.body[head..|m.body| - 2])
  }

  function UnpackAll(cfg: Config, end: ValueEnd, messages: seq<Message>): seq<string> {
    if messages == [] then []
    else UnpackAll(cfg, end, messages[..|messages| - 1]) + Unpack(cfg, end, messages[|messages| - 1])
  }

  lemma {:induction false} ListedHead(items: seq<string>)
    requires |items| >= 2
    ensures Listed(items) == items[0] + "," + Listed(items[1..])
  {
    var front, last := items[..|items| - 1], items[|items| - 1];
    if |items| == 2 {
      assert front == [items[0]] && items[1..] == [last];
    } else {
      ListedHead(front);
      assert items[1..][..|items| - 2] == front[1..];
    }
  }

  /** The list of a bundle gives back its items. */
  lemma {:induction false} UnlistListed(end: ValueEnd, items: seq<string>)
    requires forall item :: item in items ==> Delimits(end, item)
    ensures Unlist(end, Listed(items)) == items
  {
    if |items| == 1 {
      assert items[0] + "" == items[0] && Delimits(end, items[0]);
    } else if |items| >= 2 {
      var rest := "," + Listed(items[1..]);
      ListedHead(items);
      var text := Listed(items);
      assert Delimits(end, items[0]) && text == items[0] + rest;
      UnlistListed(end, items[1..]);
      assert text[..|items[0]|] == items[0] && text[|items[0]| + 1..] == Listed(items[1..]);
      assert items == [items[0]] + items[1..];
    }
  }

  lemma {:induction false} JsonsConcat(a: seq<Record>, b: seq<Record>)
    ensures Jsons(a + b) == Jsons(a) + Jsons(b)
  {
    if b == [] {
      assert a + b == a;
    } else {
      JsonsConcat(a, b[..|b| - 1]);
      assert (a + b)[..|a + b| - 1] == a + b[..|b| - 1];
    }
  }

  ghost predicate AllDelimit(end: ValueEnd, records: seq<Record>) { forall r :: r in records ==> Delimits(end, r.json) }

  lemma {:induction false} JsonsDelimit(end: ValueEnd, records: seq<Record>)
    requires AllDelimit(end, records)
    ensures forall item :: item in Jsons(records) ==> Delimits(end, item)
  {
    if records != [] {
      assert records[|records| - 1] in records;
      JsonsDelimit(end, records[..|records| - 1]);
    }
  }

  lemma UnpackBundle(cfg: Config, end: ValueEnd, m: Message, id: string, items: seq<string>)
    requires cfg.mode.Bundled? && |id| == ID_BYTES && m == Bundle(cfg.labels, id, items)
    requires forall item :: item in items ==> Delimits(end, item)
    ensures Unpack(cfg, end, m) == items
  {
    var head := |Head(cfg.labels, PLACEHOLDER)|;
    HeadLength(cfg.labels, id, PLACEHOLDER);
    BodyMiddle(cfg.labels, id, items, head);
    UnlistListed(end, items);
  }

  lemma JsonsOfOne(group: seq<Record>)
    requires |group| == 1
    ensures Jsons(group) == [group[0].json]
  {
    assert group[..0] == [];
  }

  lemma UnpackGroup(cfg: Config, end: ValueEnd, group: seq<Record>, id: string, items: seq<string>)
    requires IsDigest(cfg.digest) && cfg.mode.Bundled? && group != [] && AllDelimit(end, group)
    requires id == cfg.digest(BundleIds.BundleKey(EventIds(group))) && items == Jsons(group)
    ensures Unpack(cfg, end, MessageOf(cfg, group)) == items
  {
    JsonsDelimit(end, group);
    UnpackBundle(cfg, end, MessageOf(cfg, group), id, items);
  }

  /** One message gives back the records of its group. */
  lemma UnpackMessage(cfg: Config, end: ValueEnd, group: seq<Record>)
    requires IsDigest(cfg.digest) && group != [] && (cfg.mode.Single? ==> |group| == 1) && AllDelimit(end, group)
    ensures Unpack(cfg, end, MessageOf(cfg, group)) == Jsons(group)
  {
    if cfg.mode.Single? {
      UnpackAlone(cfg, end, group);
    } else {
      UnpackGroup(cfg, end, group, cfg.digest(BundleIds.BundleKey(EventIds(group))), Jsons(group));
    }
  }

  lemma UnpackAlone(cfg: Config, end: ValueEnd, group: seq<Record>)
    requires cfg.mode.Single? && |group| == 1
    ensures Unpack(cfg, end, MessageOf(cfg, group)) == Jsons(group)
  {
    JsonsOfOne(group);
  }

  lemma BodyMiddle(labels: Labels, id: string, items: seq<string>, head: nat)
    requires head == |Head(labels, id)|
    ensures var body := Body(labels, id, items); |body| >= head + 2 && body[head..|body| - 2] == Listed(items)
  {
  }

  lemma {:induction false} UnpackGroups(cfg: Config, end: ValueEnd, groups: seq<seq<Record>>)
    requires IsDigest(cfg.digest)
    requires forall i :: 0 <= i < |groups| ==> groups[i] != [] && (cfg.mode.Single? ==> |groups[i]| == 1)
    requires forall i :: 0 <= i < |groups| ==> AllDelimit(end, groups[i])
    ensures UnpackAll(cfg, end, MessagesOf(cfg, groups)) == Jsons(Flatten(groups))
  {
    if groups != [] {
      var front, last := groups[..|groups| - 1], groups[|groups| - 1];
      var records := Flatten(front);
      assert groups == front + [last];
      UnpackGroups(cfg, end, front);
      UnpackLast(cfg, end, front, last);
      FlattenAppend(front, last);
      JsonsConcat(records, last);
      assert Flatten(groups) == records + last;
    }
  }

  lemma UnpackLast(cfg: Config, end: ValueEnd, front: seq<seq<Record>>, last: seq<Record>)
    requires IsDigest(cfg.digest) && last != [] && (cfg.mode.Single? ==> |last| == 1) && AllDelimit(end, last)
    requires forall i :: 0 <= i < |front| ==> front[i] != []
    ensures UnpackAll(cfg, end, MessagesOf(cfg, front + [last]))
        == UnpackAll(cfg, end, MessagesOf(cfg, front)) + Jsons(last)
  {
    MessagesSnoc(cfg, front, last);
    UnpackAppend(cfg, end, MessagesOf(cfg, front), MessageOf(cfg, last));
    UnpackMessage(cfg, end, last);
  }

  lemma UnpackAppend(cfg: Config, end: ValueEnd, messages: seq<Message>, m: Message)
    ensures UnpackAll(cfg, end, messages + [m]) == UnpackAll(cfg, end, messages) + Unpack(cfg, end, m)
  {
    assert (messages + [m])[..|messages|] == messages;
  }

  lemma {:induction false} InFlatten(groups: seq<seq<Record>>, i: nat, r: Record)
    requires i < |groups| && r in groups[i]
    ensures r in Flatten(groups)
  {
    if i > 0 { InFlatten(groups[1..], i - 1, r); }
  }

  lemma {:induction false} KeptIn(cfg: Config, records: seq<Record>)
    ensures forall r :: r in Kept(cfg, records) ==> r in records
  {
    if records != [] { KeptIn(cfg, records[1..]); }
  }

  /** The messages of a stream that succeeds unpack to exactly the records that are
      not rejected, in order, in either mode. */
  lemma StreamUnpacks(cfg: Config, end: ValueEnd, records: seq<Record>, g: Grouped)
    requires IsDigest(cfg.digest) && Course(cfg, [], records) == Some(g)
    requires AllDelimit(end, records)
    ensures forall i :: 0 <= i < |g.groups| ==> g.groups[i] != []
    ensures UnpackAll(cfg, end, MessagesOf(cfg, g.groups)) == Jsons(Kept(cfg, records))
  {
    GroupsAreKept(cfg, records, g);
    KeptIn(cfg, records);
    forall i | 0 <= i < |g.groups| ensures g.groups[i] != [] && (cfg.mode.Single? ==> |g.groups[i]| == 1) {
      assert g.groups[i] in g.groups;
    }
    forall i | 0 <= i < |g.groups| ensures AllDelimit(end, g.groups[i]) {
      forall r | r in g.groups[i] ensures Delimits(end, r.json) { InFlatten(g.groups, i, r); }
    }
    UnpackGroups(cfg, end, g.groups);
  }

  // ---- With the matching brace for a decoder ------------------------------------------------

  function Octets(s: string): (r: seq<byte>)
    ensures |r| == |s|
    ensures forall i :: 0 <= i < |s| ==> r[i] == (s[i] as int % 256) as byte
  {
    if s == "" then [] else [(s[0] as int % 256) as byte] + Octets(s[1..])
  }

  // Where the object at the head of a text ends.
  function ObjectAtHead(s: string): Option<nat> {
    if s == "" then None else JsonScan.ObjectEnd(Octets(s), 1, |s|, JsonScan.Out, 0)
  }

  /** The brace that matches the one at the head of the text. */
  function MatchingBrace(s: string): nat {
    var end := ObjectAtHead(s);
    if end.Some? then end.value else |s|
  }

  /** An object and nothing else: its first brace is closed by its last byte. */
  predicate IsObjectText(item: string) { item != "" && item[0] == '{' && ObjectAtHead(item) == Some(|item|) }

  lemma EndsItself(item: string, rest: string)
    requires IsObjectText(item)
    ensures MatchingBrace(item + rest) == |item|
  {
    var w, f, n := Octets(item), Octets(item + rest), |item|;
    assert w == f[0..n];
    JsonWindows.ObjectEndShift(f, 0, n, w, 1, JsonScan.Out, 0);
    JsonWindows.ObjectEndWider(f, 1, n, |f|, JsonScan.Out, 0);
  }

  /** It delimits every object, so that nothing is left to suppose. */
  lemma MatchingBraceDelimits(item: string)
    requires IsObjectText(item)
    ensures Delimits(MatchingBrace, item)
  {
    forall rest: string ensures MatchingBrace(item + rest) == |item| { EndsItself(item, rest); }
  }

  lemma ObjectsUnpack(cfg: Config, records: seq<Record>, g: Grouped)
    requires IsDigest(cfg.digest) && Course(cfg, [], records) == Some(g)
    requires forall r :: r in records ==> IsObjectText(r.json)
    ensures forall i :: 0 <= i < |g.groups| ==> g.groups[i] != []
    ensures UnpackAll(cfg, MatchingBrace, MessagesOf(cfg, g.groups)) == Jsons(Kept(cfg, records))
  {
    forall r | r in records ensures Delimits(MatchingBrace, r.json) { MatchingBraceDelimits(r.json); }
    StreamUnpacks(cfg, MatchingBrace, records, g);
  }

  // ---- One record too large, after one that fits -----------------------------------------

  /** In bundle mode an oversized record behind one that fits ends the chunk with
      an error; the other way round it is only rejected. */
  lemma OversizedAfterFitting(cfg: Config, small: Record, large: Record)
    requires cfg.mode.Bundled? && NoneFatal(cfg, [small, large]) && !Oversized(cfg, small) && Oversized(cfg, large)
    ensures Course(cfg, [], [small, large]).None?
    ensures Course(cfg, [], [large, small]) == Some(Grouped([[small]], 1))
  {
    var wrong, right := [small, large], [large, small];
    BundledIff(cfg, wrong);
    assert Oversized(cfg, wrong[1]) && !Oversized(cfg, wrong[0]);
    assert right[1..] == [small] && [small][1..] == [] && [] + [small] == [small];
    assert NoneFatal(cfg, [small]);
    CourseHolding(cfg, [small], []);
    assert Course(cfg, [], [small]) == Course(cfg, [small], []);
  }

  lemma OneWeight(b: Budget, r: Record)
    ensures Weight(b, RecordBytes, [r]) == b.base + |r.json|
  {
    assert [r][..0] == [] && Sum(RecordBytes, [r]) == Sum(RecordBytes, [r][..0]) + RecordBytes(r);
    assert b.separator * 0 == 0;
  }

  const SMALL: Record := Record("e", "{}", map[])

  function Bundling(digest: Digest): Config {
    Config(Bundled, Labels("\"j\"", "\"c\""), digest, 0, 0, DEFAULT_BATCH, MAX_MESSAGE_BYTES)
  }

  lemma EmptySizeSmall(labels: Labels)
    requires |labels.jobId| <= 100 && |labels.chunkId| <= 100
    ensures 0 < EmptySize(labels) < 1000
  {
    AttributesBytesOf(PLACEHOLDER);
    assert |Quote(PLACEHOLDER)| == 66 && |Quote(SCHEMA)| == 14;
  }

  /** So it is for a two-byte envelope and one of 1 MiB. */
  lemma OversizedExample(digest: Digest, large: Record)
    requires IsDigest(digest) && |large.json| == MAX_MESSAGE_BYTES && large.attributes == map[]
    ensures Course(Bundling(digest), [], [SMALL, large]).None?
    ensures Course(Bundling(digest), [], [large, SMALL]) == Some(Grouped([[SMALL]], 1))
  {
    var cfg := Bundling(digest);
    EmptySizeSmall(cfg.labels);
    OneWeight(Limits(cfg), SMALL);
    OneWeight(Limits(cfg), large);
    OversizedAfterFitting(cfg, SMALL, large);
  }
}
