/** Outbound messages and their byte budget. A string here is a byte string. */
module Messages {

  datatype Attribute = Attribute(dataType: string, value: string)

  /** logicalEvents: the output events the message carries; 0 means one. */
  datatype Message = Message(body: string, attributes: map<string, Attribute>, logicalEvents: nat)

  const MAX_MESSAGE_BYTES := 1024 * 1024
  const MAX_BATCH_BYTES := 1024 * 1024
  const MAX_BATCH_MESSAGES := 10

  function AttributeBytes(name: string, a: Attribute): nat { |name| + |a.dataType| + |a.value| + 32 }

  ghost function AttributesBytes(attributes: map<string, Attribute>): nat {
    if attributes == map[] then 0
    else
      var name :| name in attributes;
      AttributeBytes(name, attributes[name]) + AttributesBytes(attributes - {name})
  }

  /** The total does not depend on the order in which the map is walked. */
  lemma {:induction false} AttributesBytesWithout(attributes: map<string, Attribute>, name: string)
    requires name in attributes
    ensures AttributesBytes(attributes) == AttributeBytes(name, attributes[name]) + AttributesBytes(attributes - {name})
    decreases |attributes|
  {
    var first :| && first in attributes
                 && AttributesBytes(attributes)
                    == AttributeBytes(first, attributes[first]) + AttributesBytes(attributes - {first});
    if first != name {
      AttributesBytesWithout(attributes - {first}, name);
      AttributesBytesWithout(attributes - {name}, first);
      assert attributes - {first} - {name} == attributes - {name} - {first};
    }
  }

  ghost function MessageBytes(m: Message): nat { |m.body| + 64 + AttributesBytes(m.attributes) }

  /** The body and 64 bytes; each attribute its three parts and 32 bytes. */
  lemma MessageBytesAdd(m: Message, name: string, a: Attribute)
    ensures m.attributes == map[] ==> MessageBytes(m) == |m.body| + 64
    ensures name !in m.attributes ==>
        MessageBytes(m.(attributes := m.attributes[name := a]))
        == MessageBytes(m) + |name| + |a.dataType| + |a.value| + 32
  {
    if name !in m.attributes {
      var more := m.attributes[name := a];
      AttributesBytesWithout(more, name);
      assert more - {name} == m.attributes;
    }
  }

  method OutboundMessageSize(m: Message) returns (size: nat)
    ensures size == MessageBytes(m)
  {
    size := |m.body| + 64;
    var left := m.attributes;
    while left != map[]
      invariant size + AttributesBytes(left) == MessageBytes(m)
      decreases |left|
    {
      var name :| name in left;
      AttributesBytesWithout(left, name);
      size := size + AttributeBytes(name, left[name]);
      left := left - {name};
    }
  }
}
