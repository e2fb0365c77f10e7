/** A consumer's reader of bundle bodies. It knows JSON and the names of the members,
    not how the packer lays them out. */
module BundleReader {
  import opened Bytes
  import opened Messages
  import opened Packer
  import opened Stream
  import opened Unpacking
  import BundleIds

  // ---- String literals ------------------------------------------------------------------

  // How many characters of s up to the closing quote of a literal that is open.
  function LiteralRest(s: string, escaped: bool): (r: Option<nat>)
    ensures r.Some? ==> 0 < r.value <= |s|
  {
    if s == "" then None
    else if s[0] == '"' && !escaped then Some(1)
    else
      var r := LiteralRest(s[1..], s[0] == '\\' && !escaped);
      if r.None? then None else Some(r.value + 1)
  }

  /** The length of the string literal at the head of s. */
  function LiteralAt(s: string): (r: Option<nat>)
    ensures r.Some? ==> 1 < r.value <= |s|
  {
    if s == "" || s[0] != '"' then None else
    var r := LiteralRest(s[1..], false);
    if r.None? then None else Some(r.value + 1)
  }

  predicate IsLiteral(s: string) { LiteralAt(s) == Some(|s|) }

  lemma {:induction false} RestAhead(s: string, escaped: bool, more: string)
    requires LiteralRest(s, escaped) == Some(|s|)
    ensures LiteralRest(s + more, escaped) == Some(|s|)
    decreases |s|
  {
    assert (s + more)[0] == s[0] && (s + more)[1..] == s[1..] + more;
    if !(s[0] == '"' && !escaped) { RestAhead(s[1..], s[0] == '\\' && !escaped, more); }
  }

  lemma LiteralAhead(s: string, more: string)
    requires IsLiteral(s)
    ensures LiteralAt(s + more) == Some(|s|)
  {
    assert (s + more)[0] == s[0] && (s + more)[1..] == s[1..] + more;
    RestAhead(s[1..], false, more);
  }

  predicate IsPlain(s: string) { forall k :: 0 <= k < |s| ==> s[k] != '"' && s[k] != '\\' }

  lemma {:induction false} PlainRest(s: string)
    requires IsPlain(s)
    ensures LiteralRest(s + "\"", false) == Some(|s| + 1)
  {
    if s != "" {
      assert (s + "\"")[1..] == s[1..] + "\"";
      PlainRest(s[1..]);
    }
  }

  /** A digest in hexadecimal needs no escapes. */
  lemma PlainIsLiteral(s: string)
    requires IsPlain(s)
    ensures IsLiteral(Quote(s))
  {
    assert Quote(s)[1..] == s + "\"";
    PlainRest(s);
  }

  // ---- Members ----------------------------------------------------------------------------

  /** What was read up to the list, and what follows its opening bracket. */
  datatype Opened = Opened(fields: map<string, string>, rest: string)

  datatype Part = Part(literal: string, rest: string)

  /** A string literal, the given mark behind it, and the rest. */
  function PartAt(s: string, mark: char): (r: Option<Part>)
    ensures r.Some? ==> |r.value.rest| < |s|
  {
    var n := LiteralAt(s);
    if n.None? || n.value >= |s| || s[n.value] != mark then None else Some(Part(s[..n.value], s[n.value + 1..]))
  }

  /** Members with string values up to the list of items; None for anything else. */
  function Members(s: string, fields: map<string, string>): Option<Opened>
    decreases |s|
  {
    var name := PartAt(s, ':');
    if name.None? then None
    else if name.value.literal == Quote("items") then ListAt(name.value.rest, fields)
    else
      var value := PartAt(name.value.rest, ',');
      if value.None? then None
      else Members(value.value.rest, fields[name.value.literal := value.value.literal])
  }

  function ListAt(s: string, fields: map<string, string>): Option<Opened> {
    if s == "" || s[0] != '[' then None else Some(Opened(fields, s[1..]))
  }

  function ReadBundle(body: string): Option<Opened> {
    if body == "" || body[0] != '{' then None else Members(body[1..], map[])
  }

  lemma OneMember(name: string, value: string, rest: string, s: string, fields: map<string, string>)
    requires IsLiteral(name) && IsLiteral(value) && name != Quote("items")
    requires s == name + (":" + (value + ("," + rest)))
    ensures Members(s, fields) == Members(rest, fields[name := value])
  {
    PartAhead(name, ':', value + ("," + rest), s);
    PartAhead(value, ',', rest, value + ("," + rest));
  }

  lemma PartAhead(literal: string, mark: char, rest: string, s: string)
    requires IsLiteral(literal) && s == literal + ([mark] + rest)
    ensures PartAt(s, mark) == Some(Part(literal, rest))
  {
    LiteralAhead(literal, [mark] + rest);
    assert s[..|literal|] == literal && s[|literal| + 1..] == rest;
  }

  lemma ItemsMember(rest: string, s: string, fields: map<string, string>)
    requires s == Quote("items") + (":[" + rest)
    ensures Members(s, fields) == Some(Opened(fields, rest))
  {
    PlainIsLiteral("items");
    assert ":[" + rest == ":" + ("[" + rest);
    PartAhead(Quote("items"), ':', "[" + rest, s);
    assert ("[" + rest)[1..] == rest;
  }

  function FieldsOf(labels: Labels, id: string): map<string, string> {
    map[Quote("schemaVersion") := Quote("f2e-bundle/1"), Quote("bundleId") := Quote(id),
        Quote("jobId") := labels.jobId, Quote("chunkId") := labels.chunkId]
  }

  /** A member behind a separator. */
  function Member(before: string, name: string, value: string, rest: string): string {
    before + (Quote(name) + (":" + (value + rest)))
  }

  lemma ReadMember(name: string, value: string, rest: string, next: string, fields: map<string, string>)
    requires IsLiteral(Quote(name)) && IsLiteral(value) && name != "items" && rest == "," + next
    ensures Members(Member("", name, value, rest), fields) == Members(next, fields[Quote(name) := value])
  {
    NamesDiffer(name, "items");
    assert Member("", name, value, rest) == Quote(name) + (":" + (value + ("," + next)));
    OneMember(Quote(name), value, next, Member("", name, value, rest), fields);
  }

  lemma NamesDiffer(a: string, b: string)
    requires a != b
    ensures Quote(a) != Quote(b)
  {
    assert Quote(a)[1..|Quote(a)| - 1] == a && Quote(b)[1..|Quote(b)| - 1] == b;
  }

  // One more part of the head, in front of what follows it.
  lemma MemberAhead(head: string, before: string, name: string, opening: string, value: string, rest: string)
    requires opening == before + Quote(name) + ":"
    ensures head + opening + value + rest == head + Member(before, name, value, rest)
  {
  }

  // A separator is no part of the member.
  lemma Separated(before: string, name: string, value: string, rest: string)
    ensures Member(before, name, value, rest) == before + Member("", name, value, rest)
  {
  }

  lemma Openings()
    ensures "{\"schemaVersion\":" == "{" + Quote("schemaVersion") + ":"
    ensures ",\"bundleId\":" == "," + Quote("bundleId") + ":"
    ensures ",\"jobId\":" == "," + Quote("jobId") + ":"
    ensures ",\"chunkId\":" == "," + Quote("chunkId") + ":"
    ensures ",\"items\":[" == "," + (Quote("items") + ":[")
  {
  }

  /** The body, member by member, from the last to the first. */
  function ItemsPart(rest: string): string { Quote("items") + (":[" + rest) }
  function ChunkPart(labels: Labels, rest: string): string {
    Member("", "chunkId", labels.chunkId, "," + ItemsPart(rest))
  }
  function JobPart(labels: Labels, rest: string): string {
    Member("", "jobId", labels.jobId, "," + ChunkPart(labels, rest))
  }
  function IdPart(labels: Labels, id: string, rest: string): string {
    Member("", "bundleId", Quote(id), "," + JobPart(labels, rest))
  }
  function SchemaPart(labels: Labels, id: string, rest: string): string {
    Member("", "schemaVersion", Quote(SCHEMA), "," + IdPart(labels, id, rest))
  }

  lemma HeadParts(labels: Labels, id: string, rest: string)
    ensures Head(labels, id) + rest == "{" + SchemaPart(labels, id, rest)
  {
    var h1 := "{\"schemaVersion\":" + Quote(SCHEMA);
    var h2 := h1 + ",\"bundleId\":" + Quote(id);
    var h3 := h2 + ",\"jobId\":" + labels.jobId;
    var h4 := h3 + ",\"chunkId\":" + labels.chunkId;
    Openings();
    assert Head(labels, id) + rest == h4 + ("," + ItemsPart(rest)) by { ItemsAhead(h4, rest); }
    MemberBehind(h3, "chunkId", ",\"chunkId\":", labels.chunkId, "," + ItemsPart(rest));
    MemberBehind(h2, "jobId", ",\"jobId\":", labels.jobId, "," + ChunkPart(labels, rest));
    MemberBehind(h1, "bundleId", ",\"bundleId\":", Quote(id), "," + JobPart(labels, rest));
    FirstAhead("schemaVersion", "{\"schemaVersion\":", Quote(SCHEMA), "," + IdPart(labels, id, rest));
  }

  lemma ItemsAhead(head: string, rest: string)
    ensures head + ",\"items\":[" + rest == head + ("," + ItemsPart(rest))
  {
    Openings();
  }

  lemma MemberBehind(head: string, name: string, opening: string, value: string, rest: string)
    requires opening == "," + Quote(name) + ":"
    ensures head + opening + value + rest == head + ("," + Member("", name, value, rest))
  {
    MemberAhead(head, ",", name, opening, value, rest);
    Separated(",", name, value, rest);
  }

  lemma FirstAhead(name: string, opening: string, value: string, rest: string)
    requires opening == "{" + Quote(name) + ":"
    ensures opening + value + rest == "{" + Member("", name, value, rest)
  {
    MemberAhead("", "{", name, opening, value, rest);
    Separated("{", name, value, rest);
    assert "" + opening == opening;
  }

  lemma PlainNames()
    ensures IsLiteral(Quote("schemaVersion")) && IsLiteral(Quote("bundleId")) && IsLiteral(Quote("jobId"))
    ensures IsLiteral(Quote("chunkId")) && IsLiteral(Quote(SCHEMA))
  {
    PlainIsLiteral("schemaVersion");
    PlainIsLiteral("bundleId");
    PlainIsLiteral("jobId");
    PlainIsLiteral("chunkId");
    PlainIsLiteral(SCHEMA);
  }

  /** Each of the job's values comes back under its own name, and behind them the list
      of items, whatever the values and the items contain. */
  lemma BundleReadsBack(labels: Labels, id: string, items: seq<string>)
    requires IsLiteral(labels.jobId) && IsLiteral(labels.chunkId) && IsPlain(id)
    ensures ReadBundle(Body(labels, id, items)) == Some(Opened(FieldsOf(labels, id), Listed(items) + "]}"))
  {
    var rest := Listed(items) + "]}";
    assert Body(labels, id, items) == Head(labels, id) + rest;
    HeadParts(labels, id, rest);
    var first := SchemaPart(labels, id, rest);
    assert ("{" + first)[1..] == first;
    PartsRead(labels, id, rest);
  }

  lemma PartsRead(labels: Labels, id: string, rest: string)
    requires IsLiteral(labels.jobId) && IsLiteral(labels.chunkId) && IsPlain(id)
    ensures Members(SchemaPart(labels, id, rest), map[]) == Some(Opened(FieldsOf(labels, id), rest))
  {
    PlainNames();
    PlainIsLiteral(id);
    var f1: map<string, string> := map[][Quote("schemaVersion") := Quote(SCHEMA)];
    var f2 := f1[Quote("bundleId") := Quote(id)];
    var f3 := f2[Quote("jobId") := labels.jobId];
    ReadMember("schemaVersion", Quote(SCHEMA), "," + IdPart(labels, id, rest), IdPart(labels, id, rest), map[]);
    ReadMember("bundleId", Quote(id), "," + JobPart(labels, rest), JobPart(labels, rest), f1);
    ReadMember("jobId", labels.jobId, "," + ChunkPart(labels, rest), ChunkPart(labels, rest), f2);
    ReadMember("chunkId", labels.chunkId, "," + ItemsPart(rest), ItemsPart(rest), f3);
    ItemsMember(rest, ItemsPart(rest), FieldsOf(labels, id));
  }

  /** A bundle read by itself: the id in its body is the one in its attributes, and the
      items are the envelopes of its group, in order. */
  lemma BundleMessageReads(labels: Labels, digest: Digest, end: ValueEnd, group: seq<Record>, id: string)
    requires IsLiteral(labels.jobId) && IsLiteral(labels.chunkId) && AllDelimit(end, group)
    requires id == digest(BundleIds.BundleKey(EventIds(group))) && IsPlain(id)
    ensures var m := BundleOf(labels, digest, group);
      && ReadBundle(m.body).Some? && m.logicalEvents == |group|
      && m.attributes == map["schema" := Attribute("String", "f2e-bundle/1"),
                             "f2e-bundle-id" := Attribute("String", id)]
      && var o := ReadBundle(m.body).value;
        && o.fields == FieldsOf(labels, id) && |o.rest| >= 2
        && o.rest[|o.rest| - 2..] == "]}"
        && Unlist(end, o.rest[..|o.rest| - 2]) == Jsons(group)
  {
    var items := Jsons(group);
    BundleReadsBack(labels, id, items);
    JsonsDelimit(end, group);
    UnlistListed(end, items);
    var rest := Listed(items) + "]}";
    assert rest[..|rest| - 2] == Listed(items) && rest[|rest| - 2..] == "]}";
  }
}
