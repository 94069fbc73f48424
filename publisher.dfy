/** BasePublisher (aorta/publisher/base.py): stamps the fields the Aorta
    framework requires on an outbound message, hands it to an outbound
    buffer, and reacts to the settlement of a transfer. The random UUIDs
    `publish` draws and the clock it reads are parameters. */
module PublisherBase {
  import opened Wrappers
  import opened Positional
  import opened Bytes
  import opened Messaging
  import opened Spool
  import opened BufBase
  import opened BufNull
  import opened BufSpooled

  // ---- retransmission back-off --------------------------------------------

  /** `delay(n)`: `int(5.0 * 1.25 ** n)`, the seconds to wait before the
      n-th retransmission, computed exactly as 5 * 5^n / 4^n rounded down. */
  function RetransmissionDelay(n: nat): nat
  {
    (5 * Pow(5, n)) / Pow(4, n)
  }

  /** `q * d <= c` bounds the quotient `c / d` from below. */
  lemma QuotientAtLeast(q: nat, c: nat, d: nat)
    requires d > 0 && q * d <= c
    ensures q <= c / d
  {
    if q > c / d {
      assert (c / d + 1) * d == (c / d) * d + d;
      MulMono(c / d + 1, q, d);
    }
  }

  /** The first retransmission waits the base delay of five seconds. */
  lemma FirstDelay()
    ensures RetransmissionDelay(0) == 5
  {}

  /** Scaling the dividend by 5 and the divisor by 4 never lowers the quotient. */
  lemma ScaledQuotient(a: nat, b: nat)
    requires b > 0
    ensures a / b <= (5 * a) / (4 * b)
  {
    var q := a / b;
    assert q * b <= a;
    assert q * (4 * b) == 4 * (q * b);
    QuotientAtLeast(q, 5 * a, 4 * b);
  }

  /** The back-off never shrinks from one attempt to the next. */
  lemma DelayGrows(n: nat)
    ensures RetransmissionDelay(n) <= RetransmissionDelay(n + 1)
  {
    var a, b := 5 * Pow(5, n), Pow(4, n);
    assert 5 * Pow(5, n + 1) == 5 * a;
    assert Pow(4, n + 1) == 4 * b;
    ScaledQuotient(a, b);
  }

  /** No retransmission waits less than the base delay. */
  lemma {:induction false} DelayAtLeastBase(n: nat)
    ensures RetransmissionDelay(n) >= 5
  {
    if n > 0 {
      DelayAtLeastBase(n - 1);
      DelayGrows(n - 1);
    }
  }

  // ---- publish --------------------------------------------------------------

  /** `int(x)` on a float: rounds toward zero. */
  function Trunc(x: real): (r: int)
    ensures x >= 0.0 ==> r as real <= x < r as real + 1.0
    ensures x < 0.0 ==> r as real - 1.0 < x <= r as real
  {
    if x >= 0.0 then x.Floor else -((-x).Floor)
  }

  /** The creation time `publish` sets: `now` when none was set, and in
      either case truncated to whole units. */
  function CreationTime(c: real, now: int): (r: real)
    ensures c == 0.0 ==> r == now as real
    ensures c != 0.0 ==> r == Trunc(c) as real
    ensures c != 0.0 ==> r.Floor as real == r && -1.0 < r - c < 1.0
  {
    Trunc(if c == 0.0 then now as real else c) as real
  }

  /** The fields `publish` sets before its assertions: durable, a delivery
      count of 0, an integral creation time (`now` when none was set), and
      fresh UUIDs for a missing id and correlation id. */
  function Stamped(v: MessageValue, now: int, freshId: Uuid, freshCorrelation: Uuid): (r: MessageValue)
    ensures r.durable && r.deliveryCount == 0
    ensures r.creationTime == CreationTime(v.creationTime, now)
    ensures !r.id.NoId? && !r.correlationId.NoId?
    ensures v.id.NoId? ==> r.id == UuidId(freshId)
    ensures !v.id.NoId? ==> r.id == v.id
    ensures v.correlationId.NoId? ==> r.correlationId == UuidId(freshCorrelation)
    ensures !v.correlationId.NoId? ==> r.correlationId == v.correlationId
    ensures r.properties == v.properties && r.body == v.body
  {
    v.(durable := true, deliveryCount := 0, creationTime := CreationTime(v.creationTime, now),
       id := if v.id.NoId? then UuidId(freshId) else v.id,
       correlationId := if v.correlationId.NoId? then UuidId(freshCorrelation) else v.correlationId)
  }

  /** The message `publish` hands to the buffer; AssertionError when the
      caller supplied an id or correlation id that is not a UUID (the
      message then keeps the `Stamped` fields). */
  function Published(v: MessageValue, now: int, freshId: Uuid, freshCorrelation: Uuid): (r: Result<MessageValue>)
    ensures r.Ok? <==> !v.id.TextId? && !v.correlationId.TextId?
    ensures r.Err? ==> r.error == AssertionError
    ensures r.Ok? ==> r.value.durable && r.value.deliveryCount == 0
    ensures r.Ok? ==>
      r.value.id.TextId? && |r.value.id.text| == 32
      && (forall i :: 0 <= i < 32 ==> IsHexChar(r.value.id.text[i]))
      && ParseHex(r.value.id.text) == if v.id.UuidId? then v.id.uuid else freshId
    ensures r.Ok? ==>
      r.value.correlationId.TextId? && |r.value.correlationId.text| == 32
      && (forall i :: 0 <= i < 32 ==> IsHexChar(r.value.correlationId.text[i]))
      && ParseHex(r.value.correlationId.text) == if v.correlationId.UuidId? then v.correlationId.uuid else freshCorrelation
    ensures r.Ok? && v.creationTime == 0.0 ==> r.value.creationTime == now as real
    ensures r.Ok? && v.creationTime != 0.0 ==> r.value.creationTime == Trunc(v.creationTime) as real
    ensures r.Ok? && v.creationTime != 0.0 ==>
      r.value.creationTime.Floor as real == r.value.creationTime
      && -1.0 < r.value.creationTime - v.creationTime < 1.0
    ensures r.Ok? ==> r.value.properties == v.properties && r.value.body == v.body
  {
    var s := Stamped(v, now, freshId, freshCorrelation);
    if !s.id.UuidId? || !s.correlationId.UuidId? then Err(AssertionError)
    else
      HexRoundTrip(s.id.uuid);
      HexRoundTrip(s.correlationId.uuid);
      Ok(s.(id := TextId(Hex(s.id.uuid)), correlationId := TextId(Hex(s.correlationId.uuid))))
  }

  /** Publishing a message twice fails: its id is no longer a UUID. */
  lemma RepublishFails(v: MessageValue, now: int, a: Uuid, b: Uuid, c: Uuid, d: Uuid)
    requires Published(v, now, a, b).Ok?
    ensures Published(Published(v, now, a, b).value, now, c, d) == Err(AssertionError)
  {}

  /** Messages published with different UUIDs get different spool names,
      so neither replaces the other's record. */
  lemma DistinctIdsDistinctNames(u1: Uuid, u2: Uuid)
    requires u1 != u2
    ensures IdText(TextId(Hex(u1))) != IdText(TextId(Hex(u2)))
  {
    HexRoundTrip(u1);
    HexRoundTrip(u2);
  }

  /** The first part of `publish`: the message's fields are set in place,
      then the id and correlation id are asserted to be UUIDs and replaced
      by their hex form. */
  method Stamp(message: Message, now: int, freshId: Uuid, freshCorrelation: Uuid) returns (r: Outcome)
    modifies message
    ensures var p := Published(old(message.Value()), now, freshId, freshCorrelation);
      (r.Pass? <==> p.Ok?)
      && (p.Err? ==>
            r == Fail(AssertionError)
            && message.Value() == Stamped(old(message.Value()), now, freshId, freshCorrelation))
      && (p.Ok? ==> message.Value() == p.value)
  {
    message.durable := true;
    message.deliveryCount := 0;
    if message.creationTime == 0.0 {
      message.creationTime := now as real;
    }
    message.creationTime := Trunc(message.creationTime) as real;
    if message.id.NoId? {
      message.id := UuidId(freshId);
    }
    if message.correlationId.NoId? {
      message.correlationId := UuidId(freshCorrelation);
    }
    if !message.id.UuidId? || !message.correlationId.UuidId? {
      return Fail(AssertionError);
    }
    message.id := TextId(Hex(message.id.uuid));
    message.correlationId := TextId(Hex(message.correlationId.uuid));
    r := Pass;
  }

  // ---- the publisher ------------------------------------------------------

  /** The outbound buffer a publisher uses. */
  datatype Backend = NullBackend(nb: NullBuffer) | SpooledBackend(sb: SpooledBuffer)
  {
    function Target(): object
    {
      if NullBackend? then nb else sb
    }

    ghost predicate Valid()
      reads Target()
    {
      SpooledBackend? ==> sb.Valid()
    }
  }

  /** proton's delivery states. ACCEPTED, REJECTED, RELEASED and MODIFIED
      are the terminal outcomes of section 3.4 of the AMQP 1.0 standard. */
  datatype DispositionType = Received | Accepted | Rejected | Released | Modified

  predicate Terminal(s: DispositionType)
  {
    s != Received
  }

  class BasePublisher {
    const backend: Backend

    /** `__init__`: the given buffer, or a new NullBuffer. */
    constructor (backend: Option<Backend>)
      requires backend.Some? ==> backend.value.Valid()
      ensures this.backend.Valid()
      ensures backend.Some? ==> this.backend == backend.value
      ensures backend.None? ==>
        this.backend.NullBackend? && fresh(this.backend.nb)
        && this.backend.nb.queue == [] && this.backend.nb.deliveries == map[] && this.backend.nb.errors == map[]
    {
      if backend.Some? {
        this.backend := backend.value;
      } else {
        var nb := new NullBuffer();
        this.backend := NullBackend(nb);
      }
    }

    /** `publish`: stamp the message in place, then `put` it on the buffer
        with no delay. */
    method Publish(message: Message, now: int, freshId: Uuid, freshCorrelation: Uuid) returns (r: Outcome)
      requires backend.Valid()
      modifies message, backend.Target()
      ensures backend.Valid()
      ensures var p := Published(old(message.Value()), now, freshId, freshCorrelation);
        (p.Err? ==>
          r == Fail(AssertionError)
          && message.Value() == Stamped(old(message.Value()), now, freshId, freshCorrelation))
        && (p.Ok? ==> message.Value() == p.value)
      ensures Published(old(message.Value()), now, freshId, freshCorrelation).Err? && backend.NullBackend? ==>
        backend.nb.queue == old(backend.nb.queue)
      ensures Published(old(message.Value()), now, freshId, freshCorrelation).Err? && backend.SpooledBackend? ==>
        backend.sb.spool == old(backend.sb.spool)
      ensures Published(old(message.Value()), now, freshId, freshCorrelation).Ok? && backend.NullBackend? ==>
        r == Pass && backend.nb.queue == old(backend.nb.queue) + [Entry(message, now, now)]
      ensures Published(old(message.Value()), now, freshId, freshCorrelation).Ok? && backend.SpooledBackend? ==>
        (r.Pass? <==> 0 <= now < U64_LIMIT)
        && (r.Pass? ==>
              backend.sb.spool
              == Stage(old(backend.sb.spool), message.id.text, Amqp, Record(now, message.Value(), backend.sb.codec).value))
        && (r.Fail? ==>
              r.error == OverflowError
              && backend.sb.spool == Write(old(backend.sb.spool), Name(message.id.text, Tmp), []))
      ensures backend.NullBackend? ==>
        backend.nb.deliveries == old(backend.nb.deliveries) && backend.nb.errors == old(backend.nb.errors)
      ensures backend.SpooledBackend? ==>
        backend.sb.deliveryDir == old(backend.sb.deliveryDir) && backend.sb.rejectedDir == old(backend.sb.rejectedDir)
        && backend.sb.undeliverableDir == old(backend.sb.undeliverableDir)
    {
      r := Stamp(message, now, freshId, freshCorrelation);
      if r.Fail? {
        return;
      }
      match backend
      case NullBackend(nb) =>
        r := nb.Put(message, None, now);
      case SpooledBackend(sb) =>
        r := sb.Put(message, None, now);
    }

    /** `on_settled` as written: for a terminal state the handler call
        evaluates the undefined name `delivery`. The handler is looked up
        first, so a backend without that handler (NullBuffer defines none;
        no buffer defines `on_rejected`, `on_released` or `on_modified`)
        raises AttributeError, and SpooledBuffer's `on_accepted` is never
        reached: an accepted delivery stays tracked. */
    method OnSettled(tag: Tag, state: DispositionType) returns (r: Outcome)
      ensures r.Pass? <==> !Terminal(state)
      ensures state == Accepted && backend.SpooledBackend? ==> r == Fail(NameError)
      ensures r.Fail? && !(state == Accepted && backend.SpooledBackend?) ==> r.error == AttributeError
    {
      if state == Accepted {
        if backend.NullBackend? {
          return Fail(AttributeError);
        }
        return Fail(NameError);
      }
      if state == Rejected || state == Released || state == Modified {
        return Fail(AttributeError);
      }
      r := Pass;
    }

    /** `on_settled` with the settled delivery and its disposition passed
        to the handler, as `on_accepted(delivery, message, disposition)`
        expects (it reads only the delivery's tag): an accepted delivery of
        a SpooledBuffer is fetched by its tag and then unlinked, so it is no
        longer tracked. */
    method Settle(tag: Tag, state: DispositionType) returns (r: Outcome)
      requires backend.Valid()
      modifies backend.Target()
      ensures backend.Valid()
      ensures !Terminal(state) ==> r == Pass
      ensures Terminal(state) && !(state == Accepted && backend.SpooledBackend?) ==> r == Fail(AttributeError)
      ensures state == Accepted && backend.SpooledBackend? ==>
        var got := Retrieve(old(backend.sb.deliveryDir), tag, backend.sb.codec);
        (r.Pass? <==> got.Ok?)
        && (r.Fail? ==> r.error == got.error && backend.sb.deliveryDir == old(backend.sb.deliveryDir))
        && (r.Pass? ==>
              backend.sb.deliveryDir == Remove(old(backend.sb.deliveryDir), Name(tag, DState))
              && backend.sb.DeliveryCount() == old(backend.sb.DeliveryCount()) - 1)
      ensures backend.SpooledBackend? ==>
        backend.sb.spool == old(backend.sb.spool) && backend.sb.rejectedDir == old(backend.sb.rejectedDir)
        && backend.sb.undeliverableDir == old(backend.sb.undeliverableDir)
      ensures backend.SpooledBackend? && state != Accepted ==> backend.sb.deliveryDir == old(backend.sb.deliveryDir)
      ensures backend.NullBackend? ==>
        backend.nb.queue == old(backend.nb.queue) && backend.nb.deliveries == old(backend.nb.deliveries)
        && backend.nb.errors == old(backend.nb.errors)
    {
      if !Terminal(state) {
        return Pass;
      }
      if state != Accepted || backend.NullBackend? {
        return Fail(AttributeError);
      }
      var sb := backend.sb;
      var got := sb.Get(tag);
      if got.Err? {
        return Fail(got.error);
      }
      r := sb.OnAccepted(tag);
    }
  }
}
