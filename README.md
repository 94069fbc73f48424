# Aorta outbound message buffer, in Dafny

Aorta publishes AMQP 1.0 messages through an outbound buffer. This project models that buffer together with the message handling in front of it.

- **BaseBuffer** is the contract every buffer shares:
  - the (queued-at, not-before) window that `delay` computes;
  - `put`;
  - `transfer`, which checks `host:port` and pops the next eligible message. It then sends the result of a second `pop` over an AMQP sender and tracks the first message under the delivery's tag (see Findings).
- **NullBuffer** is the in-memory buffer. It keeps a list of `[message, qat, nbf]` entries and two dictionaries keyed by delivery tag: deliveries and errors.
- **SpooledBuffer** is the durable buffer. It uses a spool directory of `<id>.amqp` records, each an 8-byte big-endian not-before header followed by the encoded message. It also uses the `deliveries/`, `rejected/` and `undeliverable/` folders. Every file is written as `.tmp` and then renamed.
- **BasePublisher** stamps the fields the framework requires on a message and puts it on the buffer. It also computes the retransmission back-off and reacts to settled transfers.
- **AortaMessage / EventMessage** initialise the application properties of a message.

## Modelling choices

- Time is integer milliseconds since the UNIX epoch, passed in as `now`.
- Delivery tags and UUIDs come from `os.urandom` in the program. Here they are parameters.
- `proton.Message.encode`/`decode` is a `Codec` value held by the SpooledBuffer. Results that need decoding to undo encoding take `RoundTrips(codec)` as a hypothesis.
- A spool folder is a `Directory`: the sequence of its files in modification-time order.
  - Writing a file replaces any file of that name and appends the new one.
  - A rename keeps the file's place and replaces the target.
- Python exceptions become `Result`/`Outcome` values naming the exception.
- Message objects are a `Message` class with mutable fields. NullBuffer stores references to them, as the Python lists do. SpooledBuffer stores encoded bytes.
- The publisher's backend is a closed choice between the two buffers (`Backend`). `transfer`, which both buffers inherit from BaseBuffer, is written once for each buffer class.
- The retransmission back-off is `int(5.0 * 1.25**n)` seconds with no cap (aorta/publisher/base.py:27-31). Nothing in the modelled code, nor in the publisher and router `__main__` modules, calls it.
- Each `pop` reads the clock itself, so the two pops of `transfer` see two readings, `now` and `later`.
- **Header units.** `BaseBuffer.delay` builds datetimes, yet `SpooledBuffer.enqueue` writes `nbf.to_bytes(8, 'big')`, which a datetime does not support. The model uses integer milliseconds throughout, as the header comment at aorta/buf/spooled.py:91-92 describes.

## Model

| member | source | states |
|---|---|---|
| Bytes.ToBytes | aorta/buf/spooled.py:76 | `int.to_bytes(n, 8, 'big')` succeeds exactly for 0 <= n < 256^length and yields `length` bytes; otherwise OverflowError |
| Bytes.FromBytes | aorta/buf/spooled.py:94 | `int.from_bytes` of k bytes is below 256^k |
| Bytes.FromToBytes | aorta/buf/spooled.py:76 | decoding an encoded header gives the value back |
| Bytes.ToFromBytes | aorta/buf/spooled.py:94 | re-encoding the value of k bytes gives those k bytes |
| Messaging.IdText | aorta/buf/spooled.py:74 | `str(message.id)`: the text that names a message's spool files, `None` for a missing id |
| Messaging.Hex | aorta/publisher/base.py:110-111 | `UUID.hex` is 32 lower-case hexadecimal characters |
| Messaging.HexRoundTrip | aorta/publisher/base.py:110-111 | the hex form identifies the UUID: parsing it gives the UUID back |
| Messaging.Message.SetObjectType | aorta/messaging.py:32-34 | on a dict, writes only the object-type key and no other field; on a non-dict, TypeError and nothing changes |
| Messaging.InitProperties | aorta/messaging.py:20-30 | Ok exactly when the class attribute is set, else AssertionError; the class key is set; an existing dict keeps every other key and value; a non-dict becomes exactly {aorta id (hex), encrypted False, signed False, class} |
| Messaging.NewMessage | aorta/messaging.py:20-30 | a fresh message whose fields are the initial ones with the properties of `InitProperties`; AssertionError for a class without `message_class` |
| Messaging.EventMessageClass | aorta/messaging.py:37-38 | an EventMessage gets the class 'event'; a plain AortaMessage fails its assertion |
| Spool.Lookup | aorta/buf/spooled.py:51-53 | a file is found exactly when its name is in the directory |
| Spool.Remove | aorta/buf/spooled.py:100 | unlinking removes exactly that name; every other name reads back the same contents |
| Spool.Listing | aorta/buf/spooled.py:169-172 | a glob listing holds exactly the files of that extension |
| Spool.Write | aorta/buf/spooled.py:75 | `open(..., 'wb')` adds the name to the directory |
| Spool.Rename | aorta/buf/spooled.py:81 | `os.rename` of an existing file: the old name is gone and the new one present, and the new name holds the old file's contents; any file already named `to` is replaced, and every other file keeps its place, its name and its contents, the renamed one keeping its place |
| Spool.Stage | aorta/buf/spooled.py:74-81 | write `<stem>.tmp`, then rename it: the `.tmp` name is gone and `<stem>.<ext>` present |
| Spool.StageEffect | aorta/buf/spooled.py:74-81 | write-`.tmp`-then-rename leaves neither the `.tmp` file nor an older record of that name, and puts one new newest record |
| Spool.TmpInvisible | aorta/buf/spooled.py:169-172 | whatever a `.tmp` file holds, no `.amqp` or `.dstate` listing sees it |
| Spool.StageListing | aorta/buf/spooled.py:74-81 | a staged record replaces any same-named one and becomes the newest of its listing; other listings are unchanged |
| Spool.StageLookup | aorta/buf/spooled.py:120-126 | a staged record can be read back under its final name |
| Spool.StageDistinct | aorta/buf/spooled.py:74-81 | staging keeps file names unique |
| Spool.StageCount | aorta/buf/tests/base.py:30-34 | staging grows its listing by one unless it replaces a file of the same name |
| Spool.RemoveListed | aorta/buf/spooled.py:141-142 | unlinking an existing file shortens its listing by exactly one |
| Spool.RemoveStaged | aorta/buf/spooled.py:100 | unlinking a staged record leaves neither it nor its `.tmp` file |
| Spool.WriteTwice | aorta/buf/spooled.py:75-77 | writing more into an open file equals writing it once with the final contents |
| BufBase.Delay | aorta/buf/base.py:50-60 | a negative delay fails the assertion; otherwise qat = now, and nbf = qat for no or zero delay, nbf = qat + d for d > 0 |
| BufBase.Split | aorta/buf/base.py:105 | `str.split(sep)`: always at least one part |
| BufBase.IsDigits | aorta/buf/base.py:106 | `str.isdigit()` on ASCII: non-empty and all decimal digits |
| BufBase.SplitJoin | aorta/buf/base.py:105 | `split(':')` cuts at every separator: joining the parts gives the string back, the parts hold no separator, and there is one part more than separators |
| BufBase.SplitPair | aorta/buf/base.py:105 | two separator-free parts joined by ':' split back into exactly those parts |
| BufBase.ParseHost | aorta/buf/base.py:105-106 | ValueError exactly when the host does not hold exactly one ':'; otherwise AssertionError unless the port is a non-empty run of digits; on success host = addr + ':' + port |
| BufBase.ParseHostAccepts | aorta/buf/base.py:105-106 | every `addr:port` with a digit port is accepted and split into those parts |
| BufBase.FirstEligible | aorta/buf/null.py:45-54 | None exactly when every not-before time lies after now; otherwise the index of a passed time with none passed before it |
| BufBase.FirstEligibleAt | aorta/buf/null.py:45-54 | conversely, the first passed not-before time is the one chosen |
| BufBase.DueIsTaken | aorta/buf/tests/base.py:57-65 | a message whose not-before time has passed is taken, or one ahead of it is |
| BufBase.EligibleLater | aorta/buf/null.py:47 | waiting longer never moves the chosen message back in the queue |
| BufBase.Sender.Send | aorta/buf/base.py:113-115 | one transmission of the message under the tag is recorded; the delivery carries that tag |
| BufNull.Popped | aorta/buf/null.py:44-54 | nothing is popped exactly when every entry is embargoed, and then the queue is unchanged; otherwise the first due entry's message is returned and exactly that entry leaves the queue, the rest in order |
| BufNull.Transferred | aorta/buf/base.py:107-117 | the two pops of `transfer` as written, at `now` and `later`: None exactly when nothing is due at `now`, and then the queue is unchanged; otherwise the queue loses one entry per message popped |
| BufNull.NullBuffer.constructor | aorta/buf/null.py:18-22 | empty queue, deliveries and errors |
| BufNull.NullBuffer.Length | aorta/buf/null.py:87-88 | `__len__`: the number of queued entries |
| BufNull.NullBuffer.Queued | aorta/buf/null.py:14-16 | the `queued` property: the same count as `__len__` |
| BufNull.NullBuffer.Failed | aorta/buf/null.py:10-12 | the `failed` property: the number of failed delivery tags |
| BufNull.NullBuffer.Enqueue | aorta/buf/null.py:37 | the entry is appended; all else unchanged |
| BufNull.NullBuffer.Put | aorta/buf/base.py:62-64 | exactly one enqueue with the window of `Delay`, or AssertionError with the queue unchanged |
| BufNull.NullBuffer.Pop | aorta/buf/null.py:44-54 | the for-else scan returns and removes what `Popped` states; the dicts are unchanged |
| BufNull.NullBuffer.Track | aorta/buf/null.py:71 | deliveries[tag] := message; queue and errors unchanged |
| BufNull.NullBuffer.Error | aorta/buf/null.py:85 | errors[tag] := message; `failed` grows by one unless the tag had already failed |
| BufNull.NullBuffer.Transfer | aorta/buf/base.py:105-117 | as written: fails on a bad host with nothing changed; otherwise the first pop reads the clock as `now` and the second as `later`, and the queue, deliveries and sent log follow `Transferred` (track the first pop, send the second) |
| BufNull.NullBuffer.TransferFixed | aorta/buf/base.py:105-117 | corrected: the popped message is both sent and tracked under the tag, and exactly that entry leaves the queue |
| BufNull.EnqueueThenPop | aorta/buf/null.py:37-54 | a due message enqueued behind embargoed ones is the next popped, and the rest stay as they were |
| BufNull.TransferIdle | aorta/buf/base.py:107-110 | nothing eligible: nothing sent, tracked or removed |
| BufNull.TransferOneDue | aorta/buf/base.py:108-117 | one entry due at the first reading and no other due by the second: it is tracked and removed, and None is sent in its place |
| BufNull.TransferTwoDue | aorta/buf/base.py:113 | one entry due at the first reading and another due by the second: both leave the queue, only the first is tracked, and the second is sent under the first one's tag |
| BufSpooled.Record | aorta/buf/spooled.py:74-79 | a record can be built exactly when nbf fits in eight bytes, else OverflowError |
| BufSpooled.Header | aorta/buf/spooled.py:94 | `int.from_bytes(f.read(8), 'big')`: the not-before time read from a record's first eight bytes |
| BufSpooled.Payload | aorta/buf/spooled.py:96 | the rest of the record after the header: the encoded message |
| BufSpooled.RecordRoundTrip | aorta/buf/spooled.py:94-98 | reading a record back gives its not-before time and its message |
| BufSpooled.SpoolPopped | aorta/buf/spooled.py:83-103 | nothing is popped exactly when every queued record is embargoed, and the spool is unchanged; otherwise the first queued record in mtime order whose header time has passed is the one taken: DecodeError exactly when its payload does not decode, else its decoded message is returned and that record unlinked |
| BufSpooled.Retrieve | aorta/buf/spooled.py:47-59 | LookupError exactly when no `<tag>.dstate` exists; DecodeError exactly when it exists and its contents do not decode; otherwise the message its contents decode to |
| BufSpooled.SpoolTransferred | aorta/buf/base.py:107-117 | the two pops of `transfer` as written on the spool, at `now` and `later`: errors are DecodeError; nothing is handed over exactly when every record is embargoed at `now`, and then the spool is unchanged |
| BufSpooled.SpooledBuffer.constructor | aorta/buf/spooled.py:34-41 | opens the given spool and folders, which keep their contents |
| BufSpooled.SpooledBuffer.Queued | aorta/buf/spooled.py:22-24 | `queued` and `__len__` (aorta/buf/spooled.py:179-180): the number of `.amqp` records in the spool |
| BufSpooled.SpooledBuffer.DeliveryCount | aorta/buf/spooled.py:26-28 | the `deliveries` property: the number of `.dstate` files |
| BufSpooled.SpooledBuffer.Failed | aorta/buf/spooled.py:30-32 | the `failed` property: every `.amqp` file one folder down, in `rejected/`, `undeliverable/` and also `deliveries/` |
| BufSpooled.SpooledBuffer.Get | aorta/buf/spooled.py:47-59 | `get`: `Retrieve` on the deliveries folder |
| BufSpooled.SpooledBuffer.Enqueue | aorta/buf/spooled.py:61-81 | stages `<id>.amqp` holding header and encoded message; an nbf that does not fit raises OverflowError and leaves an empty `<id>.tmp` |
| BufSpooled.SpooledBuffer.Put | aorta/buf/base.py:62-64 | exactly one enqueue with the window of `Delay`, or AssertionError with the spool unchanged |
| BufSpooled.SpooledBuffer.FindDue | aorta/buf/spooled.py:90-96 | the scan stops at the first record whose header time has passed, or at the end |
| BufSpooled.SpooledBuffer.Pop | aorta/buf/spooled.py:83-103 | returns a fresh message with the value `SpoolPopped` states and leaves that spool; on DecodeError the spool is unchanged |
| BufSpooled.SpooledBuffer.Track | aorta/buf/spooled.py:105-126 | stages `deliveries/<tag>.dstate` holding the encoded message without a header |
| BufSpooled.SpooledBuffer.OnAccepted | aorta/buf/spooled.py:128-142 | unlinks exactly `<tag>.dstate`, so `deliveries` drops by one; FileNotFoundError when it is missing |
| BufSpooled.SpooledBuffer.Error | aorta/buf/spooled.py:144-167 | stages `<id>.amqp` with a zero header in `undeliverable/` or `rejected/` by the flag; `failed` grows by one unless a record of that id was there; the queue is unchanged |
| BufSpooled.SpooledBuffer.Deliver | aorta/buf/base.py:113-117 | sends under the tag and tracks the message under the delivery's tag |
| BufSpooled.SpooledBuffer.SendNext | aorta/buf/base.py:113-117 | as written: the second pop gives the message that is sent; its DecodeError aborts after the first record was already unlinked |
| BufSpooled.SpooledBuffer.Transfer | aorta/buf/base.py:105-117 | as written: a bad host changes nothing; otherwise the two pops read the clock as `now` and `later`, and spool, deliveries and sent log follow `SpoolTransferred` |
| BufSpooled.SpooledBuffer.PopThenSend | aorta/buf/base.py:107-117 | after the host check: the first pop at `now`, then `SendNext` at `later`, with the outcome `SpoolTransferred` states |
| BufSpooled.SpooledBuffer.TransferFixed | aorta/buf/base.py:105-117 | corrected: the popped message is both sent and tracked, and exactly its record leaves the spool |
| BufSpooled.TransferOneDue | aorta/buf/base.py:108-117 | one record due and decodable at the first reading and no other due by the second: its message is tracked, None is sent, and the queue loses exactly that record |
| BufSpooled.EnqueueThenPop | aorta/buf/spooled.py:61-103 | a due message enqueued behind embargoed records is the next one popped, decoded intact |
| BufSpooled.DueAfterEmbargoed | aorta/buf/spooled.py:90-96 | behind embargoed records, a due record is the one taken |
| BufSpooled.PopShortensQueue | aorta/buf/tests/base.py:36-43 | popping a record shortens the queue by exactly one |
| BufSpooled.TrackThenGet | aorta/buf/spooled.py:47-59 | `get` of a tracked tag returns the tracked message; after acceptance the tag gives LookupError |
| BufSpooled.AcceptSettlesOne | aorta/buf/spooled.py:26-28 | accepting a tracked delivery lowers `deliveries` by exactly one |
| BufSpooled.OverflowKeepsQueue | aorta/buf/spooled.py:74-76 | the empty `.tmp` an overflowing enqueue leaves does not change the queue |
| PublisherBase.FirstDelay | aorta/publisher/base.py:27-31 | the first retransmission waits five seconds |
| PublisherBase.DelayGrows | aorta/publisher/base.py:27-31 | the back-off never shrinks from one attempt to the next |
| PublisherBase.DelayAtLeastBase | aorta/publisher/base.py:19 | no retransmission waits less than the five-second base |
| PublisherBase.RetransmissionDelay | aorta/publisher/base.py:27-31 | `int(5.0 * 1.25**n)` computed exactly as 5·5^n / 4^n rounded down |
| PublisherBase.Trunc | aorta/publisher/base.py:94 | `int()` on a float rounds toward zero: it is within one of x, on the zero side |
| PublisherBase.CreationTime | aorta/publisher/base.py:92-94 | an unset (zero) creation time becomes `now`; a set one becomes `int()` of it, truncated toward zero, a whole number within one unit of it |
| PublisherBase.Stamped | aorta/publisher/base.py:86-100 | the fields set before the assertions: durable, delivery count 0, the `CreationTime`; a missing id or correlation id becomes the fresh UUID and a supplied one, UUID or text, is kept; properties and body unchanged |
| PublisherBase.Published | aorta/publisher/base.py:86-111 | AssertionError exactly when a caller-supplied id or correlation id is not a UUID; otherwise durable, delivery count 0, creation time `now` when unset or else `int()` of it (toward zero), 32-digit hex ids that parse back to the supplied or fresh UUIDs, properties and body kept |
| PublisherBase.Stamp | aorta/publisher/base.py:86-111 | the in-place stamping leaves the message at `Published`, or at the partly stamped fields on AssertionError |
| PublisherBase.RepublishFails | aorta/publisher/base.py:106 | publishing an already published message fails: its id is no longer a UUID |
| PublisherBase.DistinctIdsDistinctNames | aorta/buf/spooled.py:74 | messages with different UUIDs get different spool names, so neither replaces the other's record |
| PublisherBase.BasePublisher.constructor | aorta/publisher/base.py:21-25 | the given backend, or a fresh empty NullBuffer |
| PublisherBase.BasePublisher.Publish | aorta/publisher/base.py:58-120 | stamps the message as `Published`, then puts it once with no delay: one entry (now, now) on a NullBuffer, or one staged record on a SpooledBuffer (OverflowError when now does not fit); an assertion failure puts nothing |
| PublisherBase.BasePublisher.OnSettled | aorta/publisher/base.py:160-167 | as written: no terminal state reaches a handler; ACCEPTED on a SpooledBuffer raises NameError and every other terminal state raises AttributeError |
| PublisherBase.BasePublisher.Settle | aorta/publisher/base.py:160-167 | corrected: ACCEPTED on a SpooledBuffer fetches the delivery, then unlinks exactly its record (LookupError when the tag is unknown); the handlers no buffer defines still raise AttributeError; a non-terminal state does nothing |

## Left out

- I/O: `open`, `fsync`, `glob`, `os.makedirs` and `abspath` are not modelled. A folder is its list of files in mtime order, and fsync durability is not modelled.
- `dst.replace('.tmp', ...)` rewrites every `.tmp` in the full path, which matters if the spool path or a name contains `.tmp`. The model renames `<stem>.tmp` to `<stem>.<ext>` only.
- `proton.Message.encode`/`decode` are only modelled as a `Codec` whose round trip is a hypothesis.
- The buffers assume delivery tags are globally unique (aorta/buf/base.py:27-36). The model takes the tag as a parameter and does not enforce uniqueness; tracking a reused tag overwrites.
- `BaseBuffer` is not a class of its own: without traits, its abstract methods and their NotImplementedError are not modelled. `transaction` is an empty context manager and has no model. `generate_tag` and `now` are parameters.
- `BufBase.IsDigits`: does not model `str.isdigit`'s acceptance of non-ASCII digits, because the ports in use are ASCII.
- `PublisherBase.RetransmissionDelay`: equals `int(5.0 * 1.25**n)` only while the float product is exact. That holds up to n = 21. Float rounding is not modelled.
- `PublisherBase.BasePublisher.Publish`: uses one clock reading both for the creation time and for the queue window, which in the program are two reads. It also does not model `clean_properties`, which returns the properties unchanged, or the logger.
- `BufSpooled.SpooledBuffer.Get`: returns the decoded message value rather than a new `proton.Message` object.
- `BufNull.NullBuffer.Track`, `BufSpooled.SpooledBuffer.Track`: drop the host, port, source, target and link parameters, which neither buffer uses. `on_accepted` keeps only the delivery tag, the one part it reads.
- `proton.Message` fields the core never touches are left out.
- `BufBase.Sender.Send`: the sender is modelled as the test suite's mock sender (aorta/buf/tests/base.py). It records each `send` and returns a delivery carrying the given tag for any message, `None` included. What a real `proton.Sender` does with `send(None, tag)` is not part of this model. `BufNull.TransferOneDue`, `BufSpooled.TransferOneDue` and the "None is sent" case rest on that mock behaviour.
- The source's own test mixin expects behaviour the shown code does not implement:
  - `on_rejected`, `on_released` and `on_modified`;
  - a credit check in `transfer`;
  - `buf.on_settled`;
  - `BaseBuffer.error`.

  None of these is modelled as a promise.
- The router and publisher `__main__` event loops are not modelled, nor anything that belongs to them:
  - threads, signals, the beat and reconnects.
- Also not modelled:
  - the marshmallow schema of `aorta/router/schema.py`;
  - `aorta/publisher/__init__.py`, whose `on_settled` argument `publish` does not accept;
  - `setup.py`.
- `aorta/const.py` and `aorta/lib/timezone.py` are not part of this model. The property keys are symbolic, and the clock is the `now` parameter.

## Findings

| source | as written | input that shows it | evidently intended | confidence | as-written member | corrected member |
|---|---|---|---|---|---|---|
| aorta/buf/base.py:113 | the message sent is the result of a second `pop()`, while the first popped message is tracked under the delivery's tag | a queue [a, b] with a due at the first pop's clock reading and b due by the second: both leave the queue, only a is tracked, and b goes out under a's tag | send the popped message itself, so what is sent is what is tracked and exactly one message leaves the queue | high, not executed | BufNull.TransferTwoDue | BufNull.NullBuffer.TransferFixed |
| aorta/publisher/base.py:161 | the handler call passes `delivery`, a name that is never defined | state ACCEPTED with a SpooledBuffer backend: NameError before `on_accepted` runs, so the accepted delivery stays in `deliveries/` | pass the settled delivery and its disposition, the arguments `on_accepted(delivery, message, disposition)` takes (aorta/buf/spooled.py:128), so that the accepted record is unlinked; defining `delivery` alone would still leave `disposition` missing and raise TypeError | high, not executed | PublisherBase.BasePublisher.OnSettled | PublisherBase.BasePublisher.Settle |
