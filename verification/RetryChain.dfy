/** The chain of retries of a message whose handler keeps failing, with the broker's answer to every publication. */
module RetryChain {
  import opened Wrappers
  import opened Bytes
  import opened Utf8
  import opened RecordCodec
  import opened Fields
  import opened Responses
  import opened LeadershipText
  import opened LogModel
  import opened Retry

  /**
   One failure of the handler: its error and time, and the partition that the publication goes to, with the records that it
   holds by then and the time at which the broker gets it.
   */
  datatype Incident = Incident(error: bytes, now: u64, partition: u32, log: seq<Record>, timestamp: u64)

  /** The record a publication becomes at the broker. */
  function Produced(p: Publication, timestamp: u64): Record {
    Record(Some(p.key), p.value, timestamp, Some(p.producer))
  }

  /** The storage engine's answer. */
  function Answer(p: Publication, i: Incident): Verdict {
    Judge(Table(i.log), Produced(p, i.timestamp))
  }

  /** The record at the offset that the broker acknowledges: the publication, or what a duplicate was taken for. */
  function Landed(p: Publication, i: Incident): Result<Fetched, RetryError> {
    if |i.log| >= Bytes.U64_MAX then Failure(NotStored)
    else
      match Answer(p, i)
      case Accepted => Success(Fetched(|i.log|, i.timestamp, Some(p.key), p.value))
      case Duplicate(o) =>
        if o < |i.log| then Success(Fetched(o, i.log[o].timestamp, i.log[o].key, i.log[o].value)) else Failure(NotStored)
      case Refused(_) => Failure(NotStored)
  }

  /** How a consumer publishes a failure, and what the consumer of that publication then finds. */
  datatype Consumer = Consumer(publish: (Context, Incident) -> Result<Publication, RetryError>,
                               receive: (Publication, Incident) -> Result<Context, RetryError>)

  function Publish(crc: Checksum, group: bytes, delays: seq<u64>, c: Context, i: Incident): Result<Publication, RetryError> {
    var p :- PublishFailure(crc, group, c, i.error, delays, i.now);
    var _ :- Landed(p, i);
    Success(p)
  }

  function Receive(p: Publication, i: Incident): Result<Context, RetryError> {
    var record :- Landed(p, i);
    ContextOf(p.to.topic, i.partition, record)
  }

  function ConsumerOf(crc: Checksum, group: bytes, delays: seq<u64>): Consumer {
    Consumer((c: Context, i: Incident) => Publish(crc, group, delays, c, i), (p: Publication, i: Incident) => Receive(p, i))
  }

  /** What is published for a message whose handler keeps failing, until it is dead or the incidents end. */
  function Chain(consumer: Consumer, delays: seq<u64>, c: Context, incidents: seq<Incident>)
    : Result<seq<Publication>, RetryError>
    decreases |incidents|
  {
    if incidents == [] then Success([])
    else
      var p :- consumer.publish(c, incidents[0]);
      if c.attempt >= |delays| then Success([p])
      else
        var next :- consumer.receive(p, incidents[0]);
        var rest :- Chain(consumer, delays, next, incidents[1..]);
        Success([p] + rest)
  }

  /** Every destination of the message is acceptable, whatever the errors. */
  predicate Retryable(c: Context, delays: seq<u64>) {
    && ValidUtf8(c.topic) && |delays| <= U32_MAX
    && |c.topic| < 0x1_0000 && HEADER_SIZE + |c.topic| + MAX_ERROR_BYTES + |c.key| + |c.payload| <= MAX_MESSAGE_SIZE
    && |c.key| <= MAX_KEY_SIZE
    && ValidateTopic(DeadLetterTopic(c.topic)).Success?
    && forall d :: d in delays ==> ValidateTopic(RetryTopic(c.topic, d)).Success?
  }

  /** `p` goes to `topic` as attempt `attempt`, not before `time`, and what it opens to is the message `c`. */
  predicate Carries(open: bytes -> Parsed<Context>, p: Publication, c: Context, topic: bytes, attempt: nat, time: u64) {
    && p.to.topic == topic && p.to.attempt == attempt && p.to.availableAt == time && MAGIC <= p.value
    && p.key == (if c.key == [] then p.producer.id else c.key) && p.producer.sequence == 0
    && open(p.value) == Success((c.(attempt := p.to.attempt, availableAt := p.to.availableAt), []))
  }

  /** The producer id under which the next failure of the message is published. */
  function RetryId(crc: Checksum, group: bytes, delays: seq<u64>, c: Context): bytes {
    if c.attempt < |delays| && c.attempt < U32_MAX
    then ProducerIdOf(crc, group, c, c.attempt + 1, RetryTopic(c.topic, delays[c.attempt]))
    else ProducerIdOf(crc, group, c, c.attempt, DeadLetterTopic(c.topic))
  }

  /** The partition has room and no record under the id of the publication. */
  predicate Fresh(crc: Checksum, group: bytes, delays: seq<u64>, c: Context, i: Incident) {
    |i.log| < Bytes.U64_MAX && RetryId(crc, group, delays, c) !in Table(i.log)
  }

  lemma PublicationFits(crc: Checksum, group: bytes, c: Context, error: bytes, delays: seq<u64>, now: u64, timestamp: u64)
    requires PublishFailure(crc, group, c, error, delays, now).Success?
    ensures var p := PublishFailure(crc, group, c, error, delays, now).value;
            && p.producer == Producer(RetryId(crc, group, delays, c), 0) && ValidProducerId(p.producer.id)
            && FitsLimit(Produced(p, timestamp))
  {
    var to := Route(c, delays, now).value;
    ProducerIdIsValid(crc, group, c, to.attempt, to.topic);
  }

  /** A publication is stored exactly if its producer id is unused; otherwise it is answered or refused, but not stored. */
  lemma StoredIffUnused(p: Publication, i: Incident)
    requires ValidProducerId(p.producer.id) && p.producer.sequence == 0 && FitsLimit(Produced(p, i.timestamp))
    ensures Answer(p, i) == Accepted <==> p.producer.id !in Table(i.log)
    ensures p.producer.id in Table(i.log) && Table(i.log)[p.producer.id].0 == 0 ==>
              Answer(p, i) == Duplicate(Table(i.log)[p.producer.id].1)
  {
  }

  /** A consumer that failed after publishing may publish the same failure again: it is answered with the stored record. */
  lemma RepublishIsAnswered(crc: Checksum, group: bytes, delays: seq<u64>, c: Context, first: Incident, again: Incident, o: nat)
    requires PublishFailure(crc, group, c, first.error, delays, first.now).Success?
    requires PublishFailure(crc, group, c, again.error, delays, again.now).Success?
    requires ExactlyOnce(again.log) && o < |again.log| < Bytes.U64_MAX
    requires var p := PublishFailure(crc, group, c, first.error, delays, first.now).value;
             again.log[o] == Produced(p, first.timestamp)
             && p.producer.id in Table(again.log) && Table(again.log)[p.producer.id].0 == 0
    ensures var p := PublishFailure(crc, group, c, first.error, delays, first.now).value;
            var q := PublishFailure(crc, group, c, again.error, delays, again.now).value;
            && Answer(q, again) == Duplicate(o)
            && Landed(q, again) == Success(Fetched(o, first.timestamp, Some(p.key), p.value))
  {
    PublicationFits(crc, group, c, first.error, delays, first.now, first.timestamp);
    PublicationFits(crc, group, c, again.error, delays, again.now, again.timestamp);
    var p := PublishFailure(crc, group, c, first.error, delays, first.now).value;
    TableFinds(again.log, o, p.producer);
    StoredIffUnused(PublishFailure(crc, group, c, again.error, delays, again.now).value, again);
  }

  /**
   Two publications for one partition are both kept exactly if their generated ids differ; otherwise the second is
   acknowledged with the offset of the first and lost.
   */
  lemma BothKeptIffIdsDiffer(p: Publication, q: Publication, i: Incident, next: Incident)
    requires ValidProducerId(p.producer.id) && p.producer.sequence == 0 && FitsLimit(Produced(p, i.timestamp))
    requires ValidProducerId(q.producer.id) && q.producer.sequence == 0 && FitsLimit(Produced(q, next.timestamp))
    requires p.producer.id !in Table(i.log) && q.producer.id !in Table(i.log)
    requires next.log == i.log + [Produced(p, i.timestamp)]
    ensures Answer(p, i) == Accepted
    ensures Answer(q, next) == if p.producer.id != q.producer.id then Accepted else Duplicate(|i.log|)
  {
    assert next.log[..|i.log|] == i.log;
    StoredIffUnused(p, i);
    StoredIffUnused(q, next);
  }

  /** What the ids of two failures are made of. */
  function IdSource(group: bytes, delays: seq<u64>, c: Context): (bytes, u32) {
    var last := !(c.attempt < |delays| && c.attempt < U32_MAX);
    var attempt := if last then c.attempt else c.attempt + 1;
    var topic := if last then DeadLetterTopic(c.topic) else RetryTopic(c.topic, delays[c.attempt]);
    (group + c.topic + U32(c.partition) + U64(c.offset) + U32(attempt) + topic, attempt)
  }

  /** The ids of two failures, of whatever groups, are the same exactly if the attempts are and the checksums collide. */
  lemma SameIdIff(crc: Checksum, group: bytes, delays: seq<u64>, a: Context, group': bytes, delays': seq<u64>, b: Context)
    ensures RetryId(crc, group, delays, a) == RetryId(crc, group', delays', b)
            <==> IdSource(group, delays, a).1 == IdSource(group', delays', b).1
                 && crc(IdSource(group, delays, a).0) == crc(IdSource(group', delays', b).0)
  {
    var (x, m) := IdSource(group, delays, a);
    var (y, n) := IdSource(group', delays', b);
    SameNameIff(crc(x), m, crc(y), n);
    if RetryId(crc, group, delays, a) == RetryId(crc, group', delays', b) {
      AsciiIsInjective(ProducerName(crc(x), m), ProducerName(crc(y), n));
    }
  }

  /** Of more arguments than values two have the same value. */
  lemma {:induction false} Pigeonhole(f: nat -> nat, n: nat) returns (i: nat, j: nat)
    requires forall x :: 0 <= x <= n ==> f(x) < n
    ensures i < j <= n && f(i) == f(j)
  {
    assert f(n) < n;
    if k: nat :| k < n && f(k) == f(n) {
      i, j := k, n;
    } else {
      i, j := Pigeonhole((x: nat) => if f(x) == n - 1 then f(n) else f(x), n - 1);
    }
  }

  const CHECKSUMS: nat := 0x1_0000_0000

  /** The checksum in the id of the message at offset `x`. */
  function ChecksumAt(crc: Checksum, group: bytes, delays: seq<u64>, c: Context, x: nat): (n: nat)
    ensures n < CHECKSUMS
  {
    if x <= CHECKSUMS then crc(IdSource(group, delays, c.(offset := x)).0) else 0
  }

  /** Whatever the checksum function, of more failures than checksums, at offsets of one partition, two share an id. */
  lemma SomeIdsCollide(crc: Checksum, group: bytes, delays: seq<u64>, c: Context) returns (a: Context, b: Context)
    ensures a == c.(offset := a.offset) && b == c.(offset := b.offset) && a.offset < b.offset <= CHECKSUMS
    ensures RetryId(crc, group, delays, a) == RetryId(crc, group, delays, b)
  {
    var i, j := Pigeonhole((x: nat) => ChecksumAt(crc, group, delays, c, x), CHECKSUMS);
    a, b := c.(offset := i), c.(offset := j);
    SameIdIff(crc, group, delays, a, group, delays, b);
  }

  /**
   So there is always a failure that is acknowledged but lost: two messages whose failures are published one after the other
   to a partition, and the second, acknowledged, finds the first message in its place.
   */
  lemma SomeFailureIsLost(crc: Checksum, group: bytes, delays: seq<u64>, c: Context, i: Incident)
    returns (a: Context, b: Context, next: Incident)
    requires Retryable(c, delays) && i.log == []
    ensures a == c.(offset := a.offset) && b == c.(offset := b.offset) && a.offset < b.offset
    ensures Publish(crc, group, delays, a, i).Success?
    ensures next == i.(log := [Produced(Publish(crc, group, delays, a, i).value, i.timestamp)])
    ensures Publish(crc, group, delays, b, next).Success?
    ensures Answer(Publish(crc, group, delays, b, next).value, next) == Duplicate(0)
    ensures var p := Publish(crc, group, delays, a, i).value;
            Receive(Publish(crc, group, delays, b, next).value, next)
            == Success(a.(attempt := p.to.attempt, availableAt := p.to.availableAt))
  {
    a, b := SomeIdsCollide(crc, group, delays, c);
    next := SecondIsLost(crc, group, delays, a, b, i);
  }

  lemma SecondIsLost(crc: Checksum, group: bytes, delays: seq<u64>, a: Context, b: Context, i: Incident)
    returns (next: Incident)
    requires Retryable(a, delays) && Retryable(b, delays) && a.(offset := b.offset) == b && i.log == []
    requires RetryId(crc, group, delays, a) == RetryId(crc, group, delays, b)
    ensures Publish(crc, group, delays, a, i).Success?
    ensures next == i.(log := [Produced(Publish(crc, group, delays, a, i).value, i.timestamp)])
    ensures Publish(crc, group, delays, b, next).Success?
    ensures Answer(Publish(crc, group, delays, b, next).value, next) == Duplicate(0)
    ensures var p := Publish(crc, group, delays, a, i).value;
            Receive(Publish(crc, group, delays, b, next).value, next)
            == Success(a.(attempt := p.to.attempt, availableAt := p.to.availableAt))
  {
    FreshStep(crc, group, delays, a, i);
    var p := Publish(crc, group, delays, a, i).value;
    next := i.(log := [Produced(p, i.timestamp)]);
    OneStep(crc, group, a, delays, i);
    OneStep(crc, group, b, delays, next);
    var q := PublishFailure(crc, group, b, next.error, delays, next.now).value;
    PublicationFits(crc, group, a, i.error, delays, i.now, i.timestamp);
    PublicationFits(crc, group, b, next.error, delays, next.now, next.timestamp);
    assert next.log == i.log + [Produced(p, i.timestamp)];
    BothKeptIffIdsDiffer(p, q, i, next);
    assert p.to.topic == q.to.topic;
    LandsOnFirst(p, q, i, next);
  }

  lemma LandsOnFirst(p: Publication, q: Publication, i: Incident, next: Incident)
    requires next == i.(log := [Produced(p, i.timestamp)]) && Answer(q, next) == Duplicate(0) && p.to.topic == q.to.topic
    ensures Landed(q, next) == Success(Fetched(0, i.timestamp, Some(p.key), p.value))
    ensures Receive(q, next) == ContextOf(p.to.topic, i.partition, Fetched(0, i.timestamp, Some(p.key), p.value))
  {
  }

  lemma OneStep(crc: Checksum, group: bytes, c: Context, delays: seq<u64>, i: Incident)
    requires Retryable(c, delays)
    ensures var r := PublishFailure(crc, group, c, i.error, delays, i.now);
            && r.Success?
            && Belongs(GetContext, delays, c, r.value, c.attempt, i)
            && forall offset: u64 ::
                 ContextOf(r.value.to.topic, i.partition, Fetched(offset, i.timestamp, Some(r.value.key), r.value.value))
                 == Success(c.(attempt := r.value.to.attempt, availableAt := r.value.to.availableAt))
  {
    PublishesIff(crc, group, c, i.error, delays, i.now);
    RoutesTo(c, delays, i.now);
    var to := Route(c, delays, i.now).value;
    var p := PublishFailure(crc, group, c, i.error, delays, i.now).value;
    EnvelopeRoundTrip(c, to.attempt, to.availableAt, i.error, GetContext);
    forall offset: u64
      ensures ContextOf(to.topic, i.partition, Fetched(offset, i.timestamp, Some(p.key), p.value))
              == Success(c.(attempt := to.attempt, availableAt := to.availableAt))
    {
      SealedContext(c, to.attempt, to.availableAt, i.error, to.topic, i.partition,
                    Fetched(offset, i.timestamp, Some(p.key), p.value));
    }
  }

  /** What a publication that is stored leads to. */
  lemma FreshStep(crc: Checksum, group: bytes, delays: seq<u64>, c: Context, i: Incident)
    requires Retryable(c, delays) && Fresh(crc, group, delays, c, i)
    ensures var r := Publish(crc, group, delays, c, i);
            && r == PublishFailure(crc, group, c, i.error, delays, i.now) && r.Success?
            && Answer(r.value, i) == Accepted
            && Receive(r.value, i) == Success(c.(attempt := r.value.to.attempt, availableAt := r.value.to.availableAt))
  {
    OneStep(crc, group, c, delays, i);
    PublicationFits(crc, group, c, i.error, delays, i.now, i.timestamp);
    var p := PublishFailure(crc, group, c, i.error, delays, i.now).value;
    StoredIffUnused(p, i);
    AcceptedIsReceived(p, i, c.(attempt := p.to.attempt, availableAt := p.to.availableAt));
  }

  lemma AcceptedIsReceived(p: Publication, i: Incident, c: Context)
    requires |i.log| < Bytes.U64_MAX && Answer(p, i) == Accepted
    requires forall offset: u64 ::
               ContextOf(p.to.topic, i.partition, Fetched(offset, i.timestamp, Some(p.key), p.value)) == Success(c)
    ensures Landed(p, i).Success? && Receive(p, i) == Success(c)
  {
  }

  predicate SameMessage(a: Context, b: Context) {
    a.(attempt := 0, availableAt := 0) == b.(attempt := 0, availableAt := 0)
  }

  /** What is to hold of a publication, given the attempt that failed and the incident. */
  type Link = (Publication, nat, Incident) -> bool

  /** The publication is where the failure of an attempt belongs, and it carries the message. */
  predicate Belongs(open: bytes -> Parsed<Context>, delays: seq<u64>, message: Context, p: Publication, attempt: nat, i: Incident) {
    if attempt < |delays|
    then
      var due := i.now + delays[attempt];
      Carries(open, p, message, RetryTopic(message.topic, delays[attempt]), attempt + 1,
              if due < 0x1_0000_0000_0000_0000 then due else 0xFFFF_FFFF_FFFF_FFFF)
    else Carries(open, p, message, DeadLetterTopic(message.topic), attempt, i.now)
  }

  /** It is also stored. */
  function LinkOf(delays: seq<u64>, message: Context): Link {
    (p: Publication, attempt: nat, i: Incident) =>
      Belongs(GetContext, delays, message, p, attempt, i) && Answer(p, i) == Accepted
  }

  ghost predicate Links(link: Link, ps: seq<Publication>, attempt: nat, incidents: seq<Incident>) {
    |ps| <= |incidents| && forall k :: 0 <= k < |ps| ==> link(ps[k], attempt + k, incidents[k])
  }

  /** One publication to the retry topic of each delay from `attempt` on, and a last one to the dead-letter topic, all stored. */
  ghost predicate Complete(ps: seq<Publication>, message: Context, delays: seq<u64>, attempt: nat, incidents: seq<Incident>)
    requires attempt <= |delays|
  {
    |ps| == |delays| - attempt + 1 && Links(LinkOf(delays, message), ps, attempt, incidents)
  }

  /** A failure is published as it should be, and found again with its attempt counted. */
  ghost predicate ReliableAt(consumer: Consumer, link: Link, delays: seq<u64>, message: Context, c: Context, i: Incident) {
    && consumer.publish(c, i).Success?
    && var p := consumer.publish(c, i).value;
       && link(p, c.attempt, i)
       && (c.attempt < |delays| ==>
             && consumer.receive(p, i).Success?
             && SameMessage(consumer.receive(p, i).value, message) && consumer.receive(p, i).value.attempt == c.attempt + 1)
  }

  /** This holds for each failure of the message for which the generated id is unused. */
  ghost predicate Reliable(consumer: Consumer, unused: (Context, Incident) -> bool, link: Link, delays: seq<u64>, message: Context) {
    forall c, i {:trigger ReliableAt(consumer, link, delays, message, c, i)} ::
      SameMessage(c, message) && unused(c, i) ==> ReliableAt(consumer, link, delays, message, c, i)
  }

  function FreshFor(crc: Checksum, group: bytes, delays: seq<u64>): (Context, Incident) -> bool {
    (c: Context, i: Incident) => Fresh(crc, group, delays, c, i)
  }

  lemma FreshIsReliable(crc: Checksum, group: bytes, delays: seq<u64>, message: Context, c: Context, i: Incident)
    requires Retryable(c, delays) && Fresh(crc, group, delays, c, i) && SameMessage(c, message)
    ensures ReliableAt(ConsumerOf(crc, group, delays), LinkOf(delays, message), delays, message, c, i)
  {
    var consumer := ConsumerOf(crc, group, delays);
    var p := FreshPublication(crc, group, delays, message, c, i);
    ReliableFrom(consumer, LinkOf(delays, message), delays, message, c, i, p,
                 c.(attempt := p.to.attempt, availableAt := p.to.availableAt));
  }

  lemma FreshPublication(crc: Checksum, group: bytes, delays: seq<u64>, message: Context, c: Context, i: Incident)
    returns (p: Publication)
    requires Retryable(c, delays) && Fresh(crc, group, delays, c, i) && SameMessage(c, message)
    ensures ConsumerOf(crc, group, delays).publish(c, i) == Success(p)
    ensures ConsumerOf(crc, group, delays).receive(p, i)
            == Success(c.(attempt := p.to.attempt, availableAt := p.to.availableAt))
    ensures LinkOf(delays, message)(p, c.attempt, i)
    ensures c.attempt < |delays| ==> p.to.attempt == c.attempt + 1
  {
    OneStep(crc, group, c, delays, i);
    FreshStep(crc, group, delays, c, i);
    p := PublishFailure(crc, group, c, i.error, delays, i.now).value;
    SameBelongs(GetContext, delays, message, c, p, i);
  }

  lemma SameBelongs(open: bytes -> Parsed<Context>, delays: seq<u64>, message: Context, c: Context, p: Publication, i: Incident)
    requires SameMessage(c, message) && Belongs(open, delays, c, p, c.attempt, i)
    ensures Belongs(open, delays, message, p, c.attempt, i)
  {
    assert c.topic == message.topic;
    assert c.(attempt := p.to.attempt, availableAt := p.to.availableAt)
        == message.(attempt := p.to.attempt, availableAt := p.to.availableAt);
  }

  lemma ReliableFrom(consumer: Consumer, link: Link, delays: seq<u64>, message: Context, c: Context, i: Incident, p: Publication,
                     next: Context)
    requires consumer.publish(c, i) == Success(p) && link(p, c.attempt, i) && consumer.receive(p, i) == Success(next)
    requires SameMessage(next, message) && (c.attempt < |delays| ==> next.attempt == c.attempt + 1)
    ensures ReliableAt(consumer, link, delays, message, c, i)
  {
  }

  lemma RetryIsReliable(crc: Checksum, group: bytes, delays: seq<u64>, message: Context)
    requires Retryable(message, delays)
    ensures Reliable(ConsumerOf(crc, group, delays), FreshFor(crc, group, delays), LinkOf(delays, message), delays, message)
  {
    forall c, i | SameMessage(c, message) && Fresh(crc, group, delays, c, i)
      ensures ReliableAt(ConsumerOf(crc, group, delays), LinkOf(delays, message), delays, message, c, i)
    {
      FreshIsReliable(crc, group, delays, message, c, i);
    }
  }

  /** Each incident is fresh for the message at the attempt it then has. */
  ghost predicate FreshAlong(unused: (Context, Incident) -> bool, message: Context, attempt: nat, incidents: seq<Incident>, n: nat)
    requires n < |incidents|
  {
    forall c, k :: 0 <= k <= n && SameMessage(c, message) && c.attempt == attempt + k ==> unused(c, incidents[k])
  }

  lemma NextFresh(unused: (Context, Incident) -> bool, message: Context, attempt: nat, incidents: seq<Incident>, n: nat)
    requires 0 < n < |incidents| && FreshAlong(unused, message, attempt, incidents, n)
    ensures FreshAlong(unused, message, attempt + 1, incidents[1..], n - 1)
  {
    forall c, k | 0 <= k <= n - 1 && SameMessage(c, message) && c.attempt == attempt + 1 + k
      ensures unused(c, incidents[1..][k])
    {
      assert incidents[1..][k] == incidents[k + 1];
    }
  }

  lemma OneMoreLink(link: Link, p: Publication, rest: seq<Publication>, attempt: nat, incidents: seq<Incident>)
    requires incidents != [] && link(p, attempt, incidents[0]) && Links(link, rest, attempt + 1, incidents[1..])
    ensures Links(link, [p] + rest, attempt, incidents)
  {
    forall k | 0 <= k < |[p] + rest|
      ensures link(([p] + rest)[k], attempt + k, incidents[k])
    {
      if k > 0 {
        assert incidents[k] == incidents[1..][k - 1] && attempt + k == attempt + 1 + (k - 1);
      }
    }
  }

  lemma {:induction false} ReliableChain(consumer: Consumer, unused: (Context, Incident) -> bool, link: Link, delays: seq<u64>,
                                         message: Context, c: Context, incidents: seq<Incident>)
    requires Reliable(consumer, unused, link, delays, message) && SameMessage(c, message)
    requires c.attempt <= |delays| && |incidents| > |delays| - c.attempt
    requires FreshAlong(unused, message, c.attempt, incidents, |delays| - c.attempt)
    ensures var r := Chain(consumer, delays, c, incidents);
            r.Success? && |r.value| == |delays| - c.attempt + 1 && Links(link, r.value, c.attempt, incidents)
    decreases |delays| - c.attempt
  {
    assert unused(c, incidents[0]) && ReliableAt(consumer, link, delays, message, c, incidents[0]);
    var p := consumer.publish(c, incidents[0]).value;
    if c.attempt < |delays| {
      var next := consumer.receive(p, incidents[0]).value;
      NextFresh(unused, message, c.attempt, incidents, |delays| - c.attempt);
      ReliableChain(consumer, unused, link, delays, message, next, incidents[1..]);
      OneMoreLink(link, p, Chain(consumer, delays, next, incidents[1..]).value, c.attempt, incidents);
    }
  }

  /** No partition that the message is published to has a record under the id generated for it. */
  predicate Uncontested(crc: Checksum, group: bytes, delays: seq<u64>, c: Context, incidents: seq<Incident>)
    requires c.attempt <= |delays| <= U32_MAX && |incidents| > |delays| - c.attempt
  {
    forall k :: 0 <= k <= |delays| - c.attempt ==> Fresh(crc, group, delays, c.(attempt := c.attempt + k), incidents[k])
  }

  lemma UncontestedIsFresh(crc: Checksum, group: bytes, delays: seq<u64>, c: Context, incidents: seq<Incident>)
    requires c.attempt <= |delays| <= U32_MAX && |incidents| > |delays| - c.attempt
    requires Uncontested(crc, group, delays, c, incidents)
    ensures FreshAlong(FreshFor(crc, group, delays), c, c.attempt, incidents, |delays| - c.attempt)
  {
    var unused := FreshFor(crc, group, delays);
    forall d, k | 0 <= k <= |delays| - c.attempt && SameMessage(d, c) && d.attempt == c.attempt + k
      ensures unused(d, incidents[k])
    {
      assert Fresh(crc, group, delays, c.(attempt := c.attempt + k), incidents[k]);
      assert RetryId(crc, group, delays, d) == RetryId(crc, group, delays, c.(attempt := c.attempt + k));
    }
  }

  /**
   A message whose handler always fails is republished once for every delay not yet used, with its attempt one higher each
   time and not to be handled before that delay has passed since the failure, and then once more to the dead-letter topic;
   topic, partition, offset, timestamp, key and payload stay those of the original throughout, and every publication is
   stored, as long as the generated producer ids are unused.
   */
  lemma ChainEndsInDeadLetters(crc: Checksum, group: bytes, delays: seq<u64>, c: Context, incidents: seq<Incident>)
    requires Retryable(c, delays) && c.attempt <= |delays| && |incidents| > |delays| - c.attempt
    requires Uncontested(crc, group, delays, c, incidents)
    ensures var r := Chain(ConsumerOf(crc, group, delays), delays, c, incidents);
            r.Success? && Complete(r.value, c, delays, c.attempt, incidents)
  {
    var consumer, link := ConsumerOf(crc, group, delays), LinkOf(delays, c);
    RetryIsReliable(crc, group, delays, c);
    UncontestedIsFresh(crc, group, delays, c, incidents);
    ReliableChain(consumer, FreshFor(crc, group, delays), link, delays, c, c, incidents);
  }

  /** From the first consumption on: a message that does not look like an envelope goes through every delay once. */
  lemma RetriedOncePerDelay(crc: Checksum, group: bytes, topic: bytes, partition: u32, record: Fetched, delays: seq<u64>,
                            incidents: seq<Incident>)
    requires !(MAGIC <= record.value) && Retryable(Original(topic, partition, record), delays) && |incidents| > |delays|
    requires Uncontested(crc, group, delays, Original(topic, partition, record), incidents)
    ensures ContextOf(topic, partition, record) == Success(Original(topic, partition, record))
    ensures var r := Chain(ConsumerOf(crc, group, delays), delays, Original(topic, partition, record), incidents);
            r.Success? && Complete(r.value, Original(topic, partition, record), delays, 0, incidents)
  {
    ChainEndsInDeadLetters(crc, group, delays, Original(topic, partition, record), incidents);
  }
}
