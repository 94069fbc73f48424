/** The message object that flows through the outbound buffer: the fields of
    `proton.Message` that the core reads or writes, and the Aorta message
    classes of aorta/messaging.py. */
module Messaging {
  import opened Wrappers
  import opened Positional

  /** 2^128: a UUID is a 128-bit number. */
  const UUID_LIMIT: nat := 0x1_0000_0000_0000_0000_0000_0000_0000_0000

  type Uuid = x: nat | x < UUID_LIMIT

  lemma HexWidthLimit()
    ensures Pow(16, 32) == UUID_LIMIT
  {
    assert Pow(16, 8) == 0x1_0000_0000;
    PowAdd(16, 8, 8);
    PowAdd(16, 16, 16);
  }

  predicate IsHexChar(c: char)
  {
    '0' <= c <= '9' || 'a' <= c <= 'f'
  }

  function HexChar(d: nat): (c: char)
    requires d < 16
    ensures IsHexChar(c)
  {
    if d < 10 then ('0' as int + d) as char else ('a' as int + d - 10) as char
  }

  function HexValue(c: char): (d: nat)
    requires IsHexChar(c)
    ensures d < 16 && HexChar(d) == c
  {
    if c <= '9' then c as int - '0' as int else c as int - 'a' as int + 10
  }

  /** `uuid.UUID.hex`: the 32 lower-case hexadecimal digits of the UUID. */
  function Hex(u: Uuid): (r: string)
    ensures |r| == 32
    ensures forall i :: 0 <= i < |r| ==> IsHexChar(r[i])
  {
    var ds := ToDigits(u, 16, 32);
    seq(32, i requires 0 <= i < 32 => HexChar(ds[i]))
  }

  /** `int(s, 16)` for a string of hexadecimal digits. */
  function ParseHex(s: string): nat
    requires forall i :: 0 <= i < |s| ==> IsHexChar(s[i])
  {
    FromDigits(seq(|s|, i requires 0 <= i < |s| => HexValue(s[i])), 16)
  }

  /** The hex form of a UUID identifies it: parsing it gives the UUID back. */
  lemma HexRoundTrip(u: Uuid)
    ensures ParseHex(Hex(u)) == u
  {
    var ds := ToDigits(u, 16, 32);
    var h := Hex(u);
    assert seq(|h|, i requires 0 <= i < |h| => HexValue(h[i])) == ds;
    HexWidthLimit();
    FromToDigits(u, 16, 32);
  }

  /** The value of `message.id` / `message.correlation_id`: unset, a
      `uuid.UUID`, or a string (what `publish` stores: the hex form). */
  datatype MessageId = NoId | UuidId(uuid: Uuid) | TextId(text: string)

  /** `str(uuid)`: the hex digits grouped 8-4-4-4-12. */
  function Dashed(h: string): string
    requires |h| == 32
  {
    h[..8] + "-" + h[8..12] + "-" + h[12..16] + "-" + h[16..20] + "-" + h[20..]
  }

  /** `str(message.id)`, the stem SpooledBuffer gives the message's files. */
  function IdText(id: MessageId): string
  {
    match id
    case NoId => "None"
    case UuidId(u) => Dashed(Hex(u))
    case TextId(s) => s
  }

  /** Application-property keys. aorta/const.py is not part of this model:
      its key strings are represented by distinct symbolic keys. */
  datatype PropKey = AortaId | Encrypted | Signed | MessageClassKey | ObjectType | Custom(name: string)

  datatype PropValue = PStr(s: string) | PBool(b: bool) | PInt(i: int)

  /** `message.properties`: a dict, or any other value (`None` by default). */
  datatype Properties = NotDict | Dict(entries: map<PropKey, PropValue>)

  /** A snapshot of the message fields the core uses. `body` is the
      application payload, opaque to the core. */
  datatype MessageValue = MessageValue(
    id: MessageId,
    correlationId: MessageId,
    creationTime: real,
    durable: bool,
    deliveryCount: int,
    properties: Properties,
    body: seq<int>)

  /** A `proton.Message` object: `publish` and the Aorta message classes
      update its fields in place. */
  class Message {
    var id: MessageId
    var correlationId: MessageId
    var creationTime: real
    var durable: bool
    var deliveryCount: int
    var properties: Properties
    var body: seq<int>

    constructor (v: MessageValue)
      ensures Value() == v
    {
      id, correlationId, creationTime := v.id, v.correlationId, v.creationTime;
      durable, deliveryCount := v.durable, v.deliveryCount;
      properties, body := v.properties, v.body;
    }

    function Value(): MessageValue
      reads this
    {
      MessageValue(id, correlationId, creationTime, durable, deliveryCount, properties, body)
    }

    /** `set_object_type`: writes the object-type key and nothing else;
        item assignment on a non-dict `properties` raises TypeError. */
    method SetObjectType(name: string) returns (r: Outcome)
      modifies this
      ensures r.Pass? <==> old(properties).Dict?
      ensures r.Pass? ==> properties == Dict(old(properties).entries[ObjectType := PStr(name)])
      ensures r.Fail? ==> r.error == TypeError
      ensures id == old(id) && correlationId == old(correlationId) && creationTime == old(creationTime)
      ensures durable == old(durable) && deliveryCount == old(deliveryCount) && body == old(body)
      ensures r.Fail? ==> properties == old(properties)
    {
      if !properties.Dict? {
        return Fail(TypeError);
      }
      properties := Dict(properties.entries[ObjectType := PStr(name)]);
      r := Pass;
    }
  }

  /** The Aorta message classes and their `message_class` attribute. */
  datatype MessageType = AortaMessage | EventMessage

  function MessageClass(t: MessageType): Option<string>
  {
    match t
    case AortaMessage => None
    case EventMessage => Some("event")
  }

  /** The properties `AortaMessage.__init__` leaves on a message whose
      class attribute is `cls`, given the properties it was created with;
      `aortaId` is the random UUID it draws for a fresh dict. */
  function InitProperties(props: Properties, cls: Option<string>, aortaId: Uuid): (r: Result<map<PropKey, PropValue>>)
    ensures r.Ok? <==> cls.Some?
    ensures r.Err? ==> r.error == AssertionError
    ensures r.Ok? ==> MessageClassKey in r.value && r.value[MessageClassKey] == PStr(cls.value)
    // an existing dict is kept; only the message-class key is written
    ensures r.Ok? && props.Dict? ==>
      forall k :: k != MessageClassKey ==>
        (k in r.value <==> k in props.entries) && (k in r.value ==> r.value[k] == props.entries[k])
    // otherwise a fresh dict: a hex Aorta id, not encrypted, not signed
    ensures r.Ok? && props.NotDict? ==>
      && r.value.Keys == {AortaId, Encrypted, Signed, MessageClassKey}
      && r.value[AortaId] == PStr(Hex(aortaId))
      && r.value[Encrypted] == PBool(false)
      && r.value[Signed] == PBool(false)
  {
    var base := if props.Dict? then props.entries
                else map[AortaId := PStr(Hex(aortaId)), Encrypted := PBool(false), Signed := PBool(false)];
    if cls.None? then Err(AssertionError) else Ok(base[MessageClassKey := PStr(cls.value)])
  }

  /** Construction of an Aorta message of class `t` from the initial field
      values `init`: the properties are initialised in place, then the
      class attribute is asserted to be set (the object is lost when it is not). */
  method NewMessage(t: MessageType, init: MessageValue, aortaId: Uuid) returns (r: Result<Message>)
    ensures r.Ok? <==> MessageClass(t).Some?
    ensures r.Err? ==> r.error == AssertionError
    ensures r.Ok? ==> fresh(r.value)
    ensures r.Ok? ==> r.value.Value() == init.(properties := Dict(InitProperties(init.properties, MessageClass(t), aortaId).value))
  {
    var m := new Message(init);
    if !m.properties.Dict? {
      m.properties := Dict(map[AortaId := PStr(Hex(aortaId)), Encrypted := PBool(false), Signed := PBool(false)]);
    }
    var cls := MessageClass(t);
    if cls.None? {
      return Err(AssertionError);
    }
    m.properties := Dict(m.properties.entries[MessageClassKey := PStr(cls.value)]);
    r := Ok(m);
  }

  /** An EventMessage carries the class 'event'; a plain AortaMessage cannot be built. */
  lemma EventMessageClass(props: Properties, aortaId: Uuid)
    ensures InitProperties(props, MessageClass(EventMessage), aortaId).Ok?
    ensures InitProperties(props, MessageClass(EventMessage), aortaId).value[MessageClassKey] == PStr("event")
    ensures InitProperties(props, MessageClass(AortaMessage), aortaId) == Err(AssertionError)
  {}
}
