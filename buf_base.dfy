/** The contract shared by every outbound message buffer (aorta/buf/base.py):
    the (queued-at, not-before) window of `delay`, the `host:port` check of
    `transfer`, the eligibility rule of `pop`, and the AMQP sender that
    `transfer` hands messages to. Times are integer milliseconds since the
    UNIX epoch; the clock reading `now` is a parameter. */
module BufBase {
  import opened Wrappers

  /** A delivery tag: `generate_tag` draws it from `os.urandom`, so it is a
      parameter of the operations that use one. */
  type Tag = string

  /** The (queued-at, not-before) pair of a queued message. */
  datatype Window = Window(qat: int, nbf: int)

  /** `BaseBuffer.delay`: `delay` milliseconds from `now`; no delay (None)
      and a zero delay both give an immediately eligible message, and a
      negative delay fails the assertion. */
  function Delay(now: int, delay: Option<int>): (r: Result<Window>)
    ensures r.Ok? <==> delay.None? || delay.value >= 0
    ensures r.Err? ==> r.error == AssertionError
    ensures r.Ok? ==> r.value.qat == now && r.value.qat <= r.value.nbf
    ensures r.Ok? && (delay.None? || delay.value == 0) ==> r.value.nbf == r.value.qat
    ensures r.Ok? && delay.Some? && delay.value > 0 ==> r.value.nbf - r.value.qat == delay.value
  {
    var d := if delay.Some? then delay.value else 0;
    if d < 0 then Err(AssertionError)
    else if d != 0 then Ok(Window(now, now + d))
    else Ok(Window(now, now))
  }

  // ---- host:port ----------------------------------------------------------

  /** Python's `s.split(sep)` for a one-character separator. */
  function Split(s: string, sep: char): (r: seq<string>)
    ensures |r| >= 1
    decreases |s|
  {
    if s == [] then [""]
    else
      var rest := Split(s[1..], sep);
      if s[0] == sep then [""] + rest else [[s[0]] + rest[0]] + rest[1..]
  }

  /** `sep.join(parts)`. */
  function Join(parts: seq<string>, sep: char): string
    requires |parts| >= 1
  {
    if |parts| == 1 then parts[0] else parts[0] + [sep] + Join(parts[1..], sep)
  }

  function Occurrences(s: string, c: char): nat
  {
    if s == [] then 0 else (if s[0] == c then 1 else 0) + Occurrences(s[1..], c)
  }

  /** Splitting cuts at every separator and loses nothing. */
  lemma {:induction false} SplitJoin(s: string, sep: char)
    ensures Join(Split(s, sep), sep) == s
    ensures |Split(s, sep)| == Occurrences(s, sep) + 1
    ensures forall i :: 0 <= i < |Split(s, sep)| ==> sep !in Split(s, sep)[i]
    decreases |s|
  {
    if s != [] {
      SplitJoin(s[1..], sep);
      var rest := Split(s[1..], sep);
      if s[0] != sep {
        var parts := Split(s, sep);
        assert parts[1..] == rest[1..];
        if |rest| > 1 {
          assert Join(parts, sep) == [s[0]] + (rest[0] + [sep] + Join(rest[1..], sep));
        }
        assert s == [s[0]] + s[1..];
      } else {
        assert s == [sep] + s[1..];
      }
    }
  }

  /** A string without the separator splits into itself. */
  lemma {:induction false} SplitWithout(s: string, sep: char)
    requires sep !in s
    ensures Split(s, sep) == [s]
    decreases |s|
  {
    if s != [] {
      SplitWithout(s[1..], sep);
      assert s == [s[0]] + s[1..];
    }
  }

  /** Joining two separator-free parts and splitting gives the parts back. */
  lemma {:induction false} SplitPair(a: string, b: string, sep: char)
    requires sep !in a && sep !in b
    ensures Split(a + [sep] + b, sep) == [a, b]
    decreases |a|
  {
    if a == [] {
      assert a + [sep] + b == [sep] + b;
      SplitWithout(b, sep);
    } else {
      SplitPair(a[1..], b, sep);
      assert (a + [sep] + b)[1..] == a[1..] + [sep] + b;
      assert a == [a[0]] + a[1..];
    }
  }

  /** `str.isdigit` on ASCII text: non-empty and all decimal digits. */
  predicate IsDigits(s: string)
  {
    |s| > 0 && forall i :: 0 <= i < |s| ==> '0' <= s[i] <= '9'
  }

  /** The first two lines of `transfer`: `addr, port = host.split(':')`
      (ValueError unless there are exactly two parts) and
      `assert port.isdigit()`. */
  function ParseHost(host: string): (r: Result<(string, string)>)
    ensures r.Ok? ==> host == r.value.0 + [':'] + r.value.1
    ensures r.Ok? ==> ':' !in r.value.0 && IsDigits(r.value.1)
    ensures r.Err? && r.error == ValueError <==> Occurrences(host, ':') != 1
    ensures r.Err? ==> r.error == ValueError || r.error == AssertionError
  {
    SplitJoin(host, ':');
    var parts := Split(host, ':');
    if |parts| != 2 then Err(ValueError)
    else if !IsDigits(parts[1]) then Err(AssertionError)
    else Ok((parts[0], parts[1]))
  }

  /** Every well-formed `addr:port` is accepted and split back into its parts. */
  lemma ParseHostAccepts(addr: string, port: string)
    requires ':' !in addr && IsDigits(port)
    ensures ParseHost(addr + [':'] + port) == Ok((addr, port))
  {
    assert ':' !in port;
    SplitPair(addr, port, ':');
  }

  // ---- eligibility --------------------------------------------------------

  /** The index of the first not-before time that has passed, scanning in
      queue order: the message `pop` takes. */
  function FirstEligible(nbfs: seq<int>, now: int): (r: Option<nat>)
    ensures r.None? <==> forall k :: 0 <= k < |nbfs| ==> nbfs[k] > now
    ensures r.Some? ==> r.value < |nbfs| && nbfs[r.value] <= now
    ensures r.Some? ==> forall k :: 0 <= k < r.value ==> nbfs[k] > now
  {
    if nbfs == [] then None
    else if nbfs[0] <= now then Some(0)
    else match FirstEligible(nbfs[1..], now)
      case None => None
      case Some(i) => Some(i + 1)
  }

  /** Conversely, the first passed not-before time is the one taken. */
  lemma FirstEligibleAt(nbfs: seq<int>, now: int, i: nat)
    requires i < |nbfs| && nbfs[i] <= now
    requires forall k :: 0 <= k < i ==> nbfs[k] > now
    ensures FirstEligible(nbfs, now) == Some(i)
  {
    var r := FirstEligible(nbfs, now);
    assert r.Some? && r.value <= i;
  }

  /** A message whose not-before time has passed is taken by `pop` or one
      queued ahead of it is; so it is never starved by later messages. */
  lemma DueIsTaken(nbfs: seq<int>, now: int, j: nat)
    requires j < |nbfs| && nbfs[j] <= now
    ensures FirstEligible(nbfs, now).Some? && FirstEligible(nbfs, now).value <= j
  {}

  /** Waiting longer never makes `pop` take a later message. */
  lemma EligibleLater(nbfs: seq<int>, now: int, later: int)
    requires now <= later && FirstEligible(nbfs, now).Some?
    ensures FirstEligible(nbfs, later).Some?
    ensures FirstEligible(nbfs, later).value <= FirstEligible(nbfs, now).value
  {
    DueIsTaken(nbfs, later, FirstEligible(nbfs, now).value);
  }

  // ---- the AMQP link ------------------------------------------------------

  datatype Delivery = Delivery(tag: Tag, link: string)

  /** One call of `sender.send(message, tag)`. */
  datatype Transmission<M> = Transmission(message: Option<M>, tag: Tag)

  /** A `proton.Sender`, reduced to the record of what was sent over it
      (as the test suite's MockSender does). */
  class Sender<M> {
    const name: string
    var sent: seq<Transmission<M>>

    constructor (name: string)
      ensures this.name == name && sent == []
    {
      this.name := name;
      sent := [];
    }

    method Send(message: Option<M>, tag: Tag) returns (d: Delivery)
      modifies this
      ensures sent == old(sent) + [Transmission(message, tag)]
      ensures d == Delivery(tag, name)
    {
      sent := sent + [Transmission(message, tag)];
      d := Delivery(tag, name);
    }
  }
}
