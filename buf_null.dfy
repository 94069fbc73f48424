/** NullBuffer (aorta/buf/null.py): the in-memory buffer. Queued messages
    are kept as [message, qat, nbf] entries in a list; tracked and failed
    messages in dicts keyed by delivery tag. Messages are held by reference,
    as the Python lists and dicts hold them. */
module BufNull {
  import opened Wrappers
  import opened Messaging
  import opened BufBase

  datatype Entry = Entry(message: Message, qat: int, nbf: int)

  function NotBefore(q: seq<Entry>): (r: seq<int>)
    ensures |r| == |q| && forall i :: 0 <= i < |q| ==> r[i] == q[i].nbf
  {
    seq(|q|, i requires 0 <= i < |q| => q[i].nbf)
  }

  /** Entry `i` is the one `pop` takes at time `now`: the first whose
      not-before time has passed. */
  predicate Taken(q: seq<Entry>, now: int, i: int)
  {
    0 <= i < |q| && q[i].nbf <= now && forall k :: 0 <= k < i ==> q[k].nbf > now
  }

  /** What `pop` returns at time `now`, and the queue it leaves. */
  function Popped(q: seq<Entry>, now: int): (r: (Option<Message>, seq<Entry>))
    ensures r.0.None? <==> forall k :: 0 <= k < |q| ==> q[k].nbf > now
    ensures r.0.None? ==> r.1 == q
    ensures r.0.Some? ==>
      exists i :: Taken(q, now, i) && r == (Some(q[i].message), q[..i] + q[i+1..])
  {
    match FirstEligible(NotBefore(q), now)
    case None => (None, q)
    case Some(i) =>
      assert Taken(q, now, i);
      (Some(q[i].message), q[..i] + q[i+1..])
  }

  /** What `transfer` hands over: the message it tracks and the one it sends. */
  datatype Handoff = Handoff(tracked: Message, sent: Option<Message>)

  /** `transfer` as written: pop a message at the clock reading `now` and,
      if there is one, pop again at the later reading `later` (each `pop`
      reads the clock itself) for the message to send. Returns the hand-off
      (None when the queue had nothing eligible) and the queue left behind,
      which loses one entry for every message popped. */
  function Transferred(q: seq<Entry>, now: int, later: int): (r: (Option<Handoff>, seq<Entry>))
    ensures r.0.None? <==> forall k :: 0 <= k < |q| ==> q[k].nbf > now
    ensures r.0.None? ==> r.1 == q
    ensures r.0.Some? ==> |r.1| == |q| - (if r.0.value.sent.Some? then 2 else 1)
  {
    var (m, q1) := Popped(q, now);
    if m.None? then (None, q)
    else
      var (next, q2) := Popped(q1, later);
      (Some(Handoff(m.value, next)), q2)
  }

  class NullBuffer {
    var queue: seq<Entry>
    var deliveries: map<Tag, Message>
    var errors: map<Tag, Message>

    constructor ()
      ensures queue == [] && deliveries == map[] && errors == map[]
    {
      queue := [];
      deliveries := map[];
      errors := map[];
    }

    /** `__len__`. */
    function Length(): nat
      reads this
    {
      |queue|
    }

    /** The `queued` property. */
    function Queued(): nat
      reads this
    {
      Length()
    }

    /** The `failed` property: the number of distinct failed delivery tags. */
    function Failed(): nat
      reads this
    {
      |errors|
    }

    method Enqueue(message: Message, qat: int, nbf: int)
      modifies this
      ensures queue == old(queue) + [Entry(message, qat, nbf)]
      ensures deliveries == old(deliveries) && errors == old(errors)
    {
      queue := queue + [Entry(message, qat, nbf)];
    }

    /** `put`: enqueue with the window `delay` computes from `now`. */
    method Put(message: Message, delay: Option<int>, now: int) returns (r: Outcome)
      modifies this
      ensures r.Pass? <==> Delay(now, delay).Ok?
      ensures r.Fail? ==> r.error == AssertionError && queue == old(queue)
      ensures r.Pass? ==> queue == old(queue) + [Entry(message, now, Delay(now, delay).value.nbf)]
      ensures deliveries == old(deliveries) && errors == old(errors)
    {
      var w := Delay(now, delay);
      if w.Err? {
        return Fail(w.error);
      }
      Enqueue(message, w.value.qat, w.value.nbf);
      r := Pass;
    }

    /** `pop`: scan the queue in order, skip entries whose not-before time
        lies after `now`, and remove and return the first other one. */
    method Pop(now: int) returns (m: Option<Message>)
      modifies this
      ensures (m, queue) == Popped(old(queue), now)
      ensures deliveries == old(deliveries) && errors == old(errors)
    {
      var i := 0;
      while i < |queue|
        invariant 0 <= i <= |queue|
        invariant forall k :: 0 <= k < i ==> queue[k].nbf > now
      {
        if queue[i].nbf <= now {
          break;
        }
        i := i + 1;
      }
      if i == |queue| {
        return None;
      }
      FirstEligibleAt(NotBefore(queue), now, i);
      m := Some(queue[i].message);
      queue := queue[..i] + queue[i+1..];
    }

    method Track(tag: Tag, message: Message)
      modifies this
      ensures deliveries == old(deliveries)[tag := message]
      ensures queue == old(queue) && errors == old(errors)
    {
      deliveries := deliveries[tag := message];
    }

    /** `error`: record the failed message under its tag; whether it was
        undeliverable or rejected makes no difference here. */
    method Error(tag: Tag, message: Message, undeliverable: bool)
      modifies this
      ensures errors == old(errors)[tag := message]
      ensures Failed() == old(Failed()) + (if tag in old(errors) then 0 else 1)
      ensures queue == old(queue) && deliveries == old(deliveries)
    {
      if tag !in errors {
        assert errors[tag := message].Keys == errors.Keys + {tag};
      } else {
        assert errors[tag := message].Keys == errors.Keys;
      }
      errors := errors[tag := message];
    }

    /** `transfer` as written (aorta/buf/base.py): the message handed to
        `sender.send` comes from a second `pop`, while the first popped
        message is the one tracked under the delivery's tag. The two pops
        read the clock as `now` and `later`. */
    method Transfer(host: string, sender: Sender<Message>, tag: Tag, now: int, later: int) returns (r: Outcome)
      modifies this, sender
      ensures r.Pass? <==> ParseHost(host).Ok?
      ensures r.Fail? ==> r.error == ParseHost(host).error
      ensures r.Fail? ==> queue == old(queue) && deliveries == old(deliveries) && sender.sent == old(sender.sent)
      ensures r.Pass? ==> queue == Transferred(old(queue), now, later).1
      ensures r.Pass? && Transferred(old(queue), now, later).0.None? ==>
        deliveries == old(deliveries) && sender.sent == old(sender.sent)
      ensures r.Pass? && Transferred(old(queue), now, later).0.Some? ==>
        var h := Transferred(old(queue), now, later).0.value;
        deliveries == old(deliveries)[tag := h.tracked]
        && sender.sent == old(sender.sent) + [Transmission(h.sent, tag)]
      ensures errors == old(errors)
    {
      var hp := ParseHost(host);
      if hp.Err? {
        return Fail(hp.error);
      }
      var message := Pop(now);
      if message.None? {
        return Pass;
      }
      var next := Pop(later);
      var delivery := sender.Send(next, tag);
      assert delivery.tag == tag;
      Track(delivery.tag, message.value);
      r := Pass;
    }

    /** `transfer` with the popped message itself sent: what is sent is
        what is tracked, and exactly the message `pop` takes leaves the queue. */
    method TransferFixed(host: string, sender: Sender<Message>, tag: Tag, now: int) returns (r: Outcome)
      modifies this, sender
      ensures r.Pass? <==> ParseHost(host).Ok?
      ensures r.Fail? ==> r.error == ParseHost(host).error
      ensures r.Fail? ==> queue == old(queue) && deliveries == old(deliveries) && sender.sent == old(sender.sent)
      ensures r.Pass? ==> queue == Popped(old(queue), now).1
      ensures r.Pass? && Popped(old(queue), now).0.None? ==>
        deliveries == old(deliveries) && sender.sent == old(sender.sent)
      ensures r.Pass? && Popped(old(queue), now).0.Some? ==>
        var m := Popped(old(queue), now).0.value;
        deliveries == old(deliveries)[tag := m]
        && sender.sent == old(sender.sent) + [Transmission(Some(m), tag)]
      ensures errors == old(errors)
    {
      var hp := ParseHost(host);
      if hp.Err? {
        return Fail(hp.error);
      }
      var message := Pop(now);
      if message.None? {
        return Pass;
      }
      var delivery := sender.Send(message, tag);
      assert delivery.tag == tag;
      Track(delivery.tag, message.value);
      r := Pass;
    }
  }

  // ---- Lemmas -------------------------------------------------------------

  /** A message enqueued behind entries that are all still embargoed is the
      next one `pop` returns once it is due, and the rest stay as they were. */
  lemma EnqueueThenPop(q: seq<Entry>, e: Entry, now: int)
    requires forall k :: 0 <= k < |q| ==> q[k].nbf > now
    requires e.nbf <= now
    ensures Popped(q + [e], now) == (Some(e.message), q)
  {
    var q' := q + [e];
    FirstEligibleAt(NotBefore(q'), now, |q|);
    assert q'[..|q|] + q'[|q|+1..] == q;
  }

  /** When entry `i` is due at the first reading and no other entry is due
      by the second, `transfer` as written tracks that message and sends
      None in its place. */
  lemma TransferOneDue(q: seq<Entry>, now: int, later: int, i: nat)
    requires i < |q| && q[i].nbf <= now
    requires forall k :: 0 <= k < |q| && k != i ==> q[k].nbf > now && q[k].nbf > later
    ensures Transferred(q, now, later) == (Some(Handoff(q[i].message, None)), q[..i] + q[i+1..])
  {
    FirstEligibleAt(NotBefore(q), now, i);
    var rest := q[..i] + q[i+1..];
    forall k | 0 <= k < |rest|
      ensures rest[k].nbf > later
    {
      if k < i {
        assert rest[k] == q[k];
      } else {
        assert rest[k] == q[k + 1];
      }
    }
  }

  /** With a message due at the first clock reading and another due by the
      second, `transfer` as written empties the queue but tracks only the
      first: the second goes out on the link under the first one's tag and
      is neither queued nor tracked any more. */
  lemma TransferTwoDue(a: Entry, b: Entry, now: int, later: int)
    requires a.nbf <= now && b.nbf <= later
    ensures Transferred([a, b], now, later) == (Some(Handoff(a.message, Some(b.message))), [])
  {
    FirstEligibleAt(NotBefore([a, b]), now, 0);
    assert [a, b][..0] + [a, b][1..] == [b];
    FirstEligibleAt(NotBefore([b]), later, 0);
    assert [b][..0] + [b][1..] == [];
  }

  /** Nothing eligible: `transfer` neither sends nor changes the queue. */
  lemma TransferIdle(q: seq<Entry>, now: int, later: int)
    requires forall k :: 0 <= k < |q| ==> q[k].nbf > now
    ensures Transferred(q, now, later) == (None, q)
  {}
}
