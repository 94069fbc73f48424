/** SpooledBuffer (aorta/buf/spooled.py): the buffer that keeps every
    message on the local filesystem. The spool directory holds queued
    records `<message id>.amqp` (an 8-byte big-endian not-before header,
    then the encoded message); `deliveries/` holds the encoded message of
    every unsettled delivery as `<tag>.dstate`; `rejected/` and
    `undeliverable/` hold failed records. Every file is written as `.tmp`
    first and then renamed. */
module BufSpooled {
  import opened Wrappers
  import opened Bytes
  import opened Messaging
  import opened Spool
  import opened BufBase

  /** `proton.Message.encode` / `decode`. The AMQP codec is not part of this
      model; results that depend on it assume only that decoding an
      encoding gives the message back. */
  datatype Codec = Codec(encode: MessageValue -> seq<byte>, decode: seq<byte> -> Option<MessageValue>)

  ghost predicate RoundTrips(c: Codec)
  {
    forall v :: c.decode(c.encode(v)) == Some(v)
  }

  function Min(a: nat, b: nat): nat
  {
    if a <= b then a else b
  }

  /** `int.from_bytes(f.read(8), 'big')`: the not-before time of a record,
      read from at most its first eight bytes. */
  function Header(data: seq<byte>): nat
  {
    FromBytes(data[..Min(8, |data|)])
  }

  /** `f.read()` after the header: the encoded message. */
  function Payload(data: seq<byte>): seq<byte>
  {
    data[Min(8, |data|)..]
  }

  /** The record `enqueue` writes: the header, then the encoded message;
      OverflowError when `nbf` does not fit in eight bytes. */
  function Record(nbf: int, v: MessageValue, codec: Codec): (r: Result<seq<byte>>)
    ensures r.Ok? <==> 0 <= nbf < U64_LIMIT
    ensures r.Err? ==> r.error == OverflowError
  {
    EightBytesLimit();
    match ToBytes(nbf, 8)
    case Err(e) => Err(e)
    case Ok(h) => Ok(h + codec.encode(v))
  }

  /** Reading a record back gives its not-before time and its message. */
  lemma RecordRoundTrip(nbf: int, v: MessageValue, codec: Codec)
    requires RoundTrips(codec) && 0 <= nbf < U64_LIMIT
    ensures Record(nbf, v, codec).Ok?
    ensures Header(Record(nbf, v, codec).value) == nbf
    ensures codec.decode(Payload(Record(nbf, v, codec).value)) == Some(v)
  {
    EightBytesLimit();
    FromToBytes(nbf, 8);
    var h := ToBytes(nbf, 8).value;
    var data := h + codec.encode(v);
    assert data[..8] == h;
    assert data[8..] == codec.encode(v);
  }

  function Headers(files: Directory): (r: seq<int>)
    ensures |r| == |files| && forall i :: 0 <= i < |files| ==> r[i] == Header(files[i].data)
  {
    seq(|files|, i requires 0 <= i < |files| => Header(files[i].data))
  }

  /** Record `i` of `files` is the one `pop` takes at time `now`: the first
      in mtime order whose not-before time has passed. */
  predicate FirstDue(files: Directory, now: int, i: int)
  {
    0 <= i < |files| && Header(files[i].data) <= now
    && forall k :: 0 <= k < i ==> Header(files[k].data) > now
  }

  /** What `pop` does to a spool directory at time `now`: the first queued
      record in mtime order whose not-before time has passed is decoded and
      unlinked; a record that fails to decode raises before the unlink. */
  function SpoolPopped(d: Directory, now: int, codec: Codec): (r: Result<(Option<MessageValue>, Directory)>)
    ensures r.Err? ==> r.error == DecodeError
    ensures (r.Ok? && r.value.0.None?) <==>
      forall k :: 0 <= k < |Listing(d, Amqp)| ==> Header(Listing(d, Amqp)[k].data) > now
    ensures r.Ok? && r.value.0.None? ==> r.value.1 == d
    ensures r.Err? || r.value.0.Some? ==>
      var files := Listing(d, Amqp);
      exists i :: FirstDue(files, now, i)
        && (r.Err? <==> codec.decode(Payload(files[i].data)).None?)
        && (r.Ok? ==> r.value == (codec.decode(Payload(files[i].data)), Remove(d, files[i].name)))
  {
    var files := Listing(d, Amqp);
    match FirstEligible(Headers(files), now)
    case None => Ok((None, d))
    case Some(i) =>
      assert FirstDue(files, now, i);
      match codec.decode(Payload(files[i].data))
      case None => Err(DecodeError)
      case Some(v) => Ok((Some(v), Remove(d, files[i].name)))
  }

  /** The contents of `deliveries/<tag>.dstate`, decoded: `get`. */
  function Retrieve(deliveries: Directory, tag: Tag, codec: Codec): (r: Result<MessageValue>)
    ensures r.Err? && r.error == LookupError <==> Name(tag, DState) !in Names(deliveries)
    ensures r.Err? ==> r.error == LookupError || r.error == DecodeError
    ensures r.Err? && r.error == DecodeError <==>
      Lookup(deliveries, Name(tag, DState)).Some?
      && codec.decode(Lookup(deliveries, Name(tag, DState)).value).None?
    ensures r.Ok? ==>
      Lookup(deliveries, Name(tag, DState)).Some?
      && codec.decode(Lookup(deliveries, Name(tag, DState)).value) == Some(r.value)
  {
    match Lookup(deliveries, Name(tag, DState))
    case None => Err(LookupError)
    case Some(data) =>
      match codec.decode(data)
      case None => Err(DecodeError)
      case Some(v) => Ok(v)
  }

  /** What `transfer` hands over: the message it tracks, and the one it
      sends. */
  datatype SpoolHandoff = SpoolHandoff(tracked: MessageValue, sent: Option<MessageValue>)

  /** `transfer` as written, on the spool: two pops, at the clock readings
      `now` and `later`. A decoding failure of the second pop leaves the
      first record unlinked and untracked. */
  function SpoolTransferred(d: Directory, now: int, later: int, codec: Codec): (r: (Result<Option<SpoolHandoff>>, Directory))
    ensures r.0.Err? ==> r.0.error == DecodeError
    ensures r.0.Ok? && r.0.value.None? <==>
      forall k :: 0 <= k < |Listing(d, Amqp)| ==> Header(Listing(d, Amqp)[k].data) > now
    ensures r.0.Ok? && r.0.value.None? ==> r.1 == d
  {
    match SpoolPopped(d, now, codec)
    case Err(e) => (Err(e), d)
    case Ok((None, _)) => (Ok(None), d)
    case Ok((Some(m), d1)) =>
      match SpoolPopped(d1, later, codec)
      case Err(e) => (Err(e), d1)
      case Ok((next, d2)) => (Ok(Some(SpoolHandoff(m, next))), d2)
  }

  class SpooledBuffer {
    var spool: Directory
    var deliveryDir: Directory
    var rejectedDir: Directory
    var undeliverableDir: Directory
    const codec: Codec

    /** No directory holds two files of the same name. */
    ghost predicate Valid()
      reads this
    {
      Distinct(spool) && Distinct(deliveryDir) && Distinct(rejectedDir) && Distinct(undeliverableDir)
    }

    /** Opening a spool that already holds the given directories (the
        subdirectories are created empty when missing). */
    constructor (codec: Codec, spool: Directory, deliveries: Directory, rejected: Directory, undeliverable: Directory)
      requires Distinct(spool) && Distinct(deliveries) && Distinct(rejected) && Distinct(undeliverable)
      ensures Valid()
      ensures this.codec == codec && this.spool == spool && deliveryDir == deliveries
      ensures rejectedDir == rejected && undeliverableDir == undeliverable
    {
      this.codec := codec;
      this.spool := spool;
      deliveryDir := deliveries;
      rejectedDir := rejected;
      undeliverableDir := undeliverable;
    }

    /** `__len__`, also the `queued` property. */
    function Queued(): nat
      reads this
    {
      |Listing(spool, Amqp)|
    }

    /** The `deliveries` property: unsettled deliveries. */
    function DeliveryCount(): nat
      reads this
    {
      |Listing(deliveryDir, DState)|
    }

    /** The `failed` property: every `.amqp` file of a subdirectory. The
        buffer writes them only to `rejected/` and `undeliverable/`, but the
        glob also counts any that `deliveries/` holds. */
    function Failed(): nat
      reads this
    {
      |Listing(deliveryDir, Amqp)| + |Listing(rejectedDir, Amqp)| + |Listing(undeliverableDir, Amqp)|
    }

    function Get(tag: Tag): Result<MessageValue>
      reads this
    {
      Retrieve(deliveryDir, tag, codec)
    }

    /** `enqueue`: `<id>.tmp` is created, the header and the encoded message
        are written and the file is renamed to `<id>.amqp`. A not-before
        time that does not fit in eight bytes raises OverflowError after the
        file was created, leaving it empty. */
    method Enqueue(message: Message, qat: int, nbf: int) returns (r: Outcome)
      requires Valid()
      modifies this
      ensures Valid()
      ensures r.Pass? <==> 0 <= nbf < U64_LIMIT
      ensures r.Fail? ==>
        r.error == OverflowError && spool == Write(old(spool), Name(IdText(message.id), Tmp), [])
      ensures r.Pass? ==>
        spool == Stage(old(spool), IdText(message.id), Amqp, Record(nbf, message.Value(), codec).value)
      ensures deliveryDir == old(deliveryDir) && rejectedDir == old(rejectedDir)
      ensures undeliverableDir == old(undeliverableDir)
    {
      var stem := IdText(message.id);
      var tmp := Name(stem, Tmp);
      WriteDistinct(spool, tmp, []);
      spool := Write(spool, tmp, []);
      var record := Record(nbf, message.Value(), codec);
      if record.Err? {
        return Fail(record.error);
      }
      WriteTwice(old(spool), tmp, [], record.value);
      spool := Write(spool, tmp, record.value);
      StageDistinct(old(spool), stem, Amqp, record.value);
      spool := Rename(spool, tmp, Name(stem, Amqp));
      r := Pass;
    }

    /** `put`: enqueue with the window `delay` computes from `now`. */
    method Put(message: Message, delay: Option<int>, now: int) returns (r: Outcome)
      requires Valid()
      modifies this
      ensures Valid()
      ensures Delay(now, delay).Err? ==> r == Fail(AssertionError) && spool == old(spool)
      ensures Delay(now, delay).Ok? ==>
        var nbf := Delay(now, delay).value.nbf;
        (r.Pass? <==> 0 <= nbf < U64_LIMIT)
        && (r.Pass? ==> spool == Stage(old(spool), IdText(message.id), Amqp, Record(nbf, message.Value(), codec).value))
        && (r.Fail? ==> r.error == OverflowError && spool == Write(old(spool), Name(IdText(message.id), Tmp), []))
      ensures deliveryDir == old(deliveryDir) && rejectedDir == old(rejectedDir)
      ensures undeliverableDir == old(undeliverableDir)
    {
      var w := Delay(now, delay);
      if w.Err? {
        return Fail(w.error);
      }
      r := Enqueue(message, w.value.qat, w.value.nbf);
    }

    /** `pop`: scan the queued records in mtime order, skip those whose
        not-before time lies after `now`, decode the first other one and
        unlink it. */
    method Pop(now: int) returns (r: Result<Option<Message>>)
      requires Valid()
      modifies this
      ensures Valid()
      ensures r.Ok? <==> SpoolPopped(old(spool), now, codec).Ok?
      ensures r.Err? ==> r.error == DecodeError && spool == old(spool)
      ensures r.Ok? ==> spool == SpoolPopped(old(spool), now, codec).value.1
      ensures r.Ok? ==> (r.value.None? <==> SpoolPopped(old(spool), now, codec).value.0.None?)
      ensures r.Ok? && r.value.Some? ==>
        fresh(r.value.value) && r.value.value.Value() == SpoolPopped(old(spool), now, codec).value.0.value
      ensures deliveryDir == old(deliveryDir) && rejectedDir == old(rejectedDir)
      ensures undeliverableDir == old(undeliverableDir)
    {
      var files := Listing(spool, Amqp);
      var i := FindDue(files, now);
      if i == |files| {
        return Ok(None);
      }
      var decoded := codec.decode(Payload(files[i].data));
      if decoded.None? {
        return Err(DecodeError);
      }
      var m := new Message(decoded.value);
      RemoveDistinct(spool, files[i].name);
      spool := Remove(spool, files[i].name);
      r := Ok(Some(m));
    }

    /** The scan of `pop`: read the header of each queued record in turn
        and stop at the first whose not-before time has passed. */
    method FindDue(files: Directory, now: int) returns (i: nat)
      ensures i <= |files|
      ensures FirstEligible(Headers(files), now) == if i == |files| then None else Some(i)
    {
      i := 0;
      while i < |files|
        invariant 0 <= i <= |files|
        invariant forall k :: 0 <= k < i ==> Header(files[k].data) > now
      {
        var nbf := Header(files[i].data);
        if nbf <= now {
          break;
        }
        i := i + 1;
      }
      if i < |files| {
        FirstEligibleAt(Headers(files), now, i);
      }
    }

    /** `track`: the encoded message, without a header, is staged as
        `deliveries/<tag>.dstate`. */
    method Track(tag: Tag, message: Message)
      requires Valid()
      modifies this
      ensures Valid()
      ensures deliveryDir == Stage(old(deliveryDir), tag, DState, codec.encode(message.Value()))
      ensures spool == old(spool) && rejectedDir == old(rejectedDir)
      ensures undeliverableDir == old(undeliverableDir)
    {
      var tmp := Name(tag, Tmp);
      var data := codec.encode(message.Value());
      StageDistinct(deliveryDir, tag, DState, data);
      deliveryDir := Write(deliveryDir, tmp, data);
      deliveryDir := Rename(deliveryDir, tmp, Name(tag, DState));
    }

    /** `on_accepted`: unlink `deliveries/<tag>.dstate`; FileNotFoundError
        when there is none. */
    method OnAccepted(tag: Tag) returns (r: Outcome)
      requires Valid()
      modifies this
      ensures Valid()
      ensures r.Pass? <==> Name(tag, DState) in Names(old(deliveryDir))
      ensures r.Fail? ==> r.error == FileNotFoundError && deliveryDir == old(deliveryDir)
      ensures r.Pass? ==> deliveryDir == Remove(old(deliveryDir), Name(tag, DState))
      ensures r.Pass? ==> DeliveryCount() == old(DeliveryCount()) - 1
      ensures spool == old(spool) && rejectedDir == old(rejectedDir)
      ensures undeliverableDir == old(undeliverableDir)
    {
      var n := Name(tag, DState);
      if n !in Names(deliveryDir) {
        return Fail(FileNotFoundError);
      }
      RemoveListed(deliveryDir, n);
      RemoveDistinct(deliveryDir, n);
      deliveryDir := Remove(deliveryDir, n);
      r := Pass;
    }

    /** `error`: the message is staged as `<id>.amqp` with a zero header in
        `undeliverable/` or `rejected/`; the delivery tag is not used. */
    method Error(tag: Tag, message: Message, undeliverable: bool)
      requires Valid()
      modifies this
      ensures Valid()
      ensures var data := Record(0, message.Value(), codec).value;
        if undeliverable then
          undeliverableDir == Stage(old(undeliverableDir), IdText(message.id), Amqp, data)
          && rejectedDir == old(rejectedDir)
        else
          rejectedDir == Stage(old(rejectedDir), IdText(message.id), Amqp, data)
          && undeliverableDir == old(undeliverableDir)
      ensures Failed() == old(Failed()) +
        (if Name(IdText(message.id), Amqp) in Names(if undeliverable then old(undeliverableDir) else old(rejectedDir))
         then 0 else 1)
      ensures spool == old(spool) && deliveryDir == old(deliveryDir)
    {
      var stem := IdText(message.id);
      var tmp := Name(stem, Tmp);
      EightBytesLimit();
      var data := Record(0, message.Value(), codec).value;
      if undeliverable {
        StageDistinct(undeliverableDir, stem, Amqp, data);
        StageCount(undeliverableDir, stem, Amqp, data);
        undeliverableDir := Write(undeliverableDir, tmp, data);
        undeliverableDir := Rename(undeliverableDir, tmp, Name(stem, Amqp));
      } else {
        StageDistinct(rejectedDir, stem, Amqp, data);
        StageCount(rejectedDir, stem, Amqp, data);
        rejectedDir := Write(rejectedDir, tmp, data);
        rejectedDir := Rename(rejectedDir, tmp, Name(stem, Amqp));
      }
    }

    /** The end of `transfer`: `sent` goes out over `sender` under `tag`
        and `message` is tracked under the delivery's tag. */
    method Deliver(message: Message, sent: Option<Message>, sender: Sender<Message>, tag: Tag)
      requires Valid()
      modifies this, sender
      ensures Valid()
      ensures deliveryDir == Stage(old(deliveryDir), tag, DState, codec.encode(message.Value()))
      ensures sender.sent == old(sender.sent) + [Transmission(sent, tag)]
      ensures spool == old(spool) && rejectedDir == old(rejectedDir)
      ensures undeliverableDir == old(undeliverableDir)
    {
      var delivery := sender.Send(sent, tag);
      assert delivery.tag == tag;
      Track(delivery.tag, message);
    }

    /** `transfer` as written (aorta/buf/base.py): the message handed to
        `sender.send` comes from a second `pop`, while the first popped
        message is the one tracked under the delivery's tag. The two pops
        read the clock as `now` and `later`. */
    method Transfer(host: string, sender: Sender<Message>, tag: Tag, now: int, later: int) returns (r: Outcome)
      requires Valid()
      modifies this, sender
      ensures Valid()
      ensures ParseHost(host).Err? ==>
        r == Fail(ParseHost(host).error)
        && spool == old(spool) && deliveryDir == old(deliveryDir) && sender.sent == old(sender.sent)
      ensures ParseHost(host).Ok? ==>
        var (h, rest) := SpoolTransferred(old(spool), now, later, codec);
        spool == rest
        && (h.Err? ==> r == Fail(h.error) && deliveryDir == old(deliveryDir) && sender.sent == old(sender.sent))
        && (h.Ok? && h.value.None? ==> r == Pass && deliveryDir == old(deliveryDir) && sender.sent == old(sender.sent))
        && (h.Ok? && h.value.Some? ==>
              r == Pass
              && deliveryDir == Stage(old(deliveryDir), tag, DState, codec.encode(h.value.value.tracked))
              && |sender.sent| == |old(sender.sent)| + 1
              && sender.sent[..|old(sender.sent)|] == old(sender.sent)
              && Sends(sender.sent[|old(sender.sent)|], h.value.value.sent, tag))
      ensures rejectedDir == old(rejectedDir) && undeliverableDir == old(undeliverableDir)
    {
      var hp := ParseHost(host);
      if hp.Err? {
        return Fail(hp.error);
      }
      r := PopThenSend(sender, tag, now, later);
    }

    /** The body of `transfer` as written, after the host check: pop at
        `now` and, when a message was popped, hand over to `SendNext`. */
    method PopThenSend(sender: Sender<Message>, tag: Tag, now: int, later: int) returns (r: Outcome)
      requires Valid()
      modifies this, sender
      ensures Valid()
      ensures var (h, rest) := SpoolTransferred(old(spool), now, later, codec);
        spool == rest
        && (h.Err? ==> r == Fail(h.error) && deliveryDir == old(deliveryDir) && sender.sent == old(sender.sent))
        && (h.Ok? && h.value.None? ==> r == Pass && deliveryDir == old(deliveryDir) && sender.sent == old(sender.sent))
        && (h.Ok? && h.value.Some? ==>
              r == Pass
              && deliveryDir == Stage(old(deliveryDir), tag, DState, codec.encode(h.value.value.tracked))
              && |sender.sent| == |old(sender.sent)| + 1
              && sender.sent[..|old(sender.sent)|] == old(sender.sent)
              && Sends(sender.sent[|old(sender.sent)|], h.value.value.sent, tag))
      ensures rejectedDir == old(rejectedDir) && undeliverableDir == old(undeliverableDir)
    {
      var first := Pop(now);
      if first.Err? {
        return Fail(first.error);
      }
      if first.value.None? {
        return Pass;
      }
      var message := first.value.value;
      assert SpoolPopped(old(spool), now, codec) == Ok((Some(message.Value()), spool));
      r := SendNext(message, sender, tag, later);
    }

    /** The rest of `transfer` as written once `message` was popped: pop
        again for the message to send, send it and track `message`. */
    method SendNext(message: Message, sender: Sender<Message>, tag: Tag, now: int) returns (r: Outcome)
      requires Valid()
      modifies this, sender
      ensures Valid()
      ensures var p := SpoolPopped(old(spool), now, codec);
        (p.Err? ==>
          r == Fail(p.error) && spool == old(spool)
          && deliveryDir == old(deliveryDir) && sender.sent == old(sender.sent))
        && (p.Ok? ==>
          r == Pass && spool == p.value.1
          && deliveryDir == Stage(old(deliveryDir), tag, DState, codec.encode(message.Value()))
          && |sender.sent| == |old(sender.sent)| + 1
          && sender.sent[..|old(sender.sent)|] == old(sender.sent)
          && Sends(sender.sent[|old(sender.sent)|], p.value.0, tag))
      ensures rejectedDir == old(rejectedDir) && undeliverableDir == old(undeliverableDir)
    {
      var second := Pop(now);
      if second.Err? {
        return Fail(second.error);
      }
      Deliver(message, second.value, sender, tag);
      r := Pass;
    }

    /** `transfer` with the popped message itself sent: what is sent is
        what is tracked, and exactly the record `pop` takes leaves the spool. */
    method TransferFixed(host: string, sender: Sender<Message>, tag: Tag, now: int) returns (r: Outcome)
      requires Valid()
      modifies this, sender
      ensures Valid()
      ensures ParseHost(host).Err? ==>
        r == Fail(ParseHost(host).error)
        && spool == old(spool) && deliveryDir == old(deliveryDir) && sender.sent == old(sender.sent)
      ensures ParseHost(host).Ok? ==>
        var p := SpoolPopped(old(spool), now, codec);
        (p.Err? ==> r == Fail(p.error) && spool == old(spool)
                    && deliveryDir == old(deliveryDir) && sender.sent == old(sender.sent))
        && (p.Ok? ==> r == Pass && spool == p.value.1)
        && (p.Ok? && p.value.0.None? ==> deliveryDir == old(deliveryDir) && sender.sent == old(sender.sent))
        && (p.Ok? && p.value.0.Some? ==>
              deliveryDir == Stage(old(deliveryDir), tag, DState, codec.encode(p.value.0.value))
              && |sender.sent| == |old(sender.sent)| + 1
              && sender.sent[..|old(sender.sent)|] == old(sender.sent)
              && Sends(sender.sent[|old(sender.sent)|], p.value.0, tag))
      ensures rejectedDir == old(rejectedDir) && undeliverableDir == old(undeliverableDir)
    {
      var hp := ParseHost(host);
      if hp.Err? {
        return Fail(hp.error);
      }
      var first := Pop(now);
      if first.Err? {
        return Fail(first.error);
      }
      if first.value.None? {
        return Pass;
      }
      Deliver(first.value.value, first.value, sender, tag);
      r := Pass;
    }
  }

  /** Transmission `t` carries a message with value `v` (or no message)
      under tag `tag`. */
  ghost predicate Sends(t: Transmission<Message>, v: Option<MessageValue>, tag: Tag)
    reads if t.message.Some? then {t.message.value} else {}
  {
    t.tag == tag && (t.message.None? <==> v.None?)
    && (t.message.Some? ==> v.Some? && t.message.value.Value() == v.value)
  }

  // ---- Lemmas -------------------------------------------------------------

  /** A message enqueued behind records that are all still embargoed is the
      next one `pop` returns once it is due, decoded intact; the spool is
      left without it (and without its `.tmp` file). */
  lemma EnqueueThenPop(d: Directory, stem: string, nbf: int, v: MessageValue, codec: Codec, now: int)
    requires RoundTrips(codec) && 0 <= nbf <= now && nbf < U64_LIMIT
    requires forall f :: f in Listing(d, Amqp) ==> Header(f.data) > now
    ensures Record(nbf, v, codec).Ok?
    ensures SpoolPopped(Stage(d, stem, Amqp, Record(nbf, v, codec).value), now, codec)
         == Ok((Some(v), Remove(Remove(d, Name(stem, Tmp)), Name(stem, Amqp))))
  {
    RecordRoundTrip(nbf, v, codec);
    var rec := Record(nbf, v, codec).value;
    var dst := Name(stem, Amqp);
    var kept := Remove(Listing(d, Amqp), dst);
    StageListing(d, stem, Amqp, rec, Amqp);
    assert Listing(Stage(d, stem, Amqp, rec), Amqp) == kept + [SpoolFile(dst, rec)];
    forall f | f in kept
      ensures Header(f.data) > now
    {
      RemoveSubset(Listing(d, Amqp), dst, f);
    }
    DueAfterEmbargoed(kept, SpoolFile(dst, rec), now);
    RemoveStaged(d, stem, Amqp, rec);
  }

  /** Behind records that are all embargoed, a due record is the one taken. */
  lemma DueAfterEmbargoed(kept: Directory, f: SpoolFile, now: int)
    requires forall g :: g in kept ==> Header(g.data) > now
    requires Header(f.data) <= now
    ensures FirstEligible(Headers(kept + [f]), now) == Some(|kept|)
  {
    var files := kept + [f];
    forall k | 0 <= k < |kept|
      ensures Headers(files)[k] > now
    {
      assert files[k] == kept[k];
      assert kept[k] in kept;
    }
    FirstEligibleAt(Headers(files), now, |kept|);
  }

  /** Popping a record shortens the queue by exactly one. */
  lemma PopShortensQueue(d: Directory, now: int, codec: Codec)
    requires Distinct(d)
    requires SpoolPopped(d, now, codec).Ok? && SpoolPopped(d, now, codec).value.0.Some?
    ensures |Listing(SpoolPopped(d, now, codec).value.1, Amqp)| == |Listing(d, Amqp)| - 1
  {
    var files := Listing(d, Amqp);
    var i :| FirstDue(files, now, i)
      && SpoolPopped(d, now, codec).value.1 == Remove(d, files[i].name);
    var f := files[i];
    NamedIn(files, f);
    ListingNames(d, f.name, Amqp);
    RemoveListed(d, f.name);
  }

  /** When record `i` is the first due at the first clock reading, decodes,
      and no other record is due by the second, `transfer` as written tracks
      that message, sends None in its place, and the queue loses exactly
      that record. */
  lemma TransferOneDue(d: Directory, now: int, later: int, i: nat, codec: Codec)
    requires Distinct(d)
    requires FirstDue(Listing(d, Amqp), now, i)
    requires codec.decode(Payload(Listing(d, Amqp)[i].data)).Some?
    requires forall k :: 0 <= k < |Listing(d, Amqp)| && k != i ==> Header(Listing(d, Amqp)[k].data) > later
    ensures var f := Listing(d, Amqp)[i];
      SpoolTransferred(d, now, later, codec)
      == (Ok(Some(SpoolHandoff(codec.decode(Payload(f.data)).value, None))), Remove(d, f.name))
    ensures |Listing(SpoolTransferred(d, now, later, codec).1, Amqp)| == |Listing(d, Amqp)| - 1
  {
    var files := Listing(d, Amqp);
    var f := files[i];
    FirstEligibleAt(Headers(files), now, i);
    var d1 := Remove(d, f.name);
    assert SpoolPopped(d, now, codec) == Ok((codec.decode(Payload(f.data)), d1));
    OthersEmbargoed(d, i, later);
    PopsNothing(d1, later, codec);
    NamedIn(files, f);
    ListingNames(d, f.name, Amqp);
    RemoveListed(d, f.name);
  }

  /** Unlinking queued record `i` leaves only records that are embargoed at
      `later`, when all the others were. */
  lemma OthersEmbargoed(d: Directory, i: nat, later: int)
    requires i < |Listing(d, Amqp)|
    requires forall k :: 0 <= k < |Listing(d, Amqp)| && k != i ==> Header(Listing(d, Amqp)[k].data) > later
    ensures forall g :: g in Listing(Remove(d, Listing(d, Amqp)[i].name), Amqp) ==> Header(g.data) > later
  {
    var files := Listing(d, Amqp);
    var n := files[i].name;
    ListingRemove(d, n, Amqp);
    forall g | g in Remove(files, n)
      ensures Header(g.data) > later
    {
      RemoveSubset(files, n, g);
      var j :| 0 <= j < |files| && files[j] == g;
      assert j != i;
    }
  }

  /** With every queued record embargoed, `pop` returns nothing and
      leaves the spool alone. */
  lemma PopsNothing(d: Directory, now: int, codec: Codec)
    requires forall g :: g in Listing(d, Amqp) ==> Header(g.data) > now
    ensures SpoolPopped(d, now, codec) == Ok((None, d))
  {
    var files := Listing(d, Amqp);
    assert forall k :: 0 <= k < |files| ==> files[k] in files;
  }


  /** A tracked message can be fetched by its tag until the delivery is
      accepted; afterwards the tag is unknown. */
  lemma TrackThenGet(dd: Directory, tag: Tag, v: MessageValue, codec: Codec)
    requires RoundTrips(codec)
    ensures Retrieve(Stage(dd, tag, DState, codec.encode(v)), tag, codec) == Ok(v)
    ensures Retrieve(Remove(Stage(dd, tag, DState, codec.encode(v)), Name(tag, DState)), tag, codec)
         == Err(LookupError)
  {
    StageLookup(dd, tag, DState, codec.encode(v));
  }

  /** Accepting a tracked delivery settles exactly that one. */
  lemma AcceptSettlesOne(dd: Directory, tag: Tag, v: MessageValue, codec: Codec)
    requires Distinct(dd)
    ensures |Listing(Remove(Stage(dd, tag, DState, codec.encode(v)), Name(tag, DState)), DState)|
         == |Listing(Stage(dd, tag, DState, codec.encode(v)), DState)| - 1
  {
    var staged := Stage(dd, tag, DState, codec.encode(v));
    StageDistinct(dd, tag, DState, codec.encode(v));
    StageLookup(dd, tag, DState, codec.encode(v));
    RemoveListed(staged, Name(tag, DState));
  }

  /** An enqueue that overflows leaves an empty `.tmp` file behind, which
      the queue does not see. */
  lemma OverflowKeepsQueue(d: Directory, stem: string)
    ensures Listing(Write(d, Name(stem, Tmp), []), Amqp) == Listing(d, Amqp)
  {
    TmpInvisible(d, stem, [], Amqp);
  }
}
