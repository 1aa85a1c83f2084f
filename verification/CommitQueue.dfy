/**
 * The bounded commit queue of one node (lora_bridge/core/queue.py): a rate limit in front of an
 * anyio memory object stream, whose `send_nowait` hands the item to a receiver that is already
 * waiting and otherwise buffers it up to the capacity.
 */
module CommitQueue {
  import opened Domain
  import T = TokenBucket

  // ---- The stream -----------------------------------------------------------------------------

  // waiting: the worker is blocked in `receive`; handed: what it was given while blocked.
  datatype Stream<T> = Stream(buffer: seq<T>, waiting: bool, handed: Option<T>)
  {
    predicate Valid(capacity: nat) {
      && |buffer| <= capacity
      && (waiting ==> buffer == [] && handed.None?)
    }

    // What was accepted and not yet taken, in the order it will be taken.
    function Pending(): seq<T> {
      (if handed.Some? then [handed.value] else []) + buffer
    }

    predicate HasRoom(capacity: nat) {
      waiting || |buffer| < capacity
    }

    function Sent(x: T): Stream<T> {
      if waiting then Stream(buffer, false, Some(x)) else this.(buffer := buffer + [x])
    }

    // The receiver takes the next item, or registers as waiting.
    function Received(): (Stream<T>, Option<T>) {
      if handed.Some? then (this.(handed := None), handed)
      else if buffer != [] then (this.(buffer := buffer[1..]), Some(buffer[0]))
      else (this.(waiting := true), None)
    }
  }

  // Sending appends at the back.
  lemma SendAppends<T>(s: Stream<T>, x: T, capacity: nat)
    requires s.Valid(capacity) && s.HasRoom(capacity)
    ensures s.Sent(x).Valid(capacity) && s.Sent(x).Pending() == s.Pending() + [x]
  {
  }

  // Receiving takes the oldest; it blocks exactly when nothing is pending.
  lemma ReceiveTakesOldest<T>(s: Stream<T>, capacity: nat)
    requires s.Valid(capacity)
    ensures var (s', got) := s.Received();
      && s'.Valid(capacity)
      && (s.Pending() == [] <==> got == None)
      && s.Pending() == (if got.Some? then [got.value] else []) + s'.Pending()
      && (got.None? ==> s'.waiting)
  {
  }

  // ---- A queue as a value ---------------------------------------------------------------------

  // Everything later answers depend on: the limiter's whole history and the stream.
  datatype View = View(
    capacity: nat,
    ttl: real,
    limits: Option<T.Limits>,
    birth: real,
    requests: seq<T.Request>,
    stream: Stream<QueueItem>)
  {
    // Would the limiter grant one more message now? Decided by the window specification.
    ghost predicate Allows(now: real) {
      limits.Some? ==> T.WindowAllows(limits.value, birth, requests, now, 1.0)
    }

    ghost predicate Takes(now: real) {
      Allows(now) && stream.HasRoom(capacity)
    }

    // A token is spent even when the stream turns out to be full.
    ghost function Put(item: QueueItem, now: real): View {
      this.(requests := if limits.Some? then requests + [T.Request(now, 1.0, Allows(now))] else requests,
            stream := if Takes(now) then stream.Sent(item) else stream)
    }

    // The clock is not before anything the limiter has seen.
    ghost predicate Ready(now: real) {
      limits.Some? ==> T.NotBefore(birth, requests, now)
    }
  }

  // An item that is taken goes to the back; one that is not leaves the pending items alone.
  lemma PutAppends(v: View, item: QueueItem, now: real)
    requires v.stream.Valid(v.capacity)
    ensures v.Put(item, now).stream.Valid(v.capacity)
    ensures v.Put(item, now).stream.Pending() == v.stream.Pending() + (if v.Takes(now) then [item] else [])
  {
    hide T.WindowAllows;
    if v.Takes(now) {
      SendAppends(v.stream, item, v.capacity);
    }
  }

  lemma ReadyLater(v: View, item: QueueItem, now: real, later: real)
    requires v.Ready(now) && now <= later
    ensures v.Ready(later) && v.Put(item, now).Ready(later)
  {
    hide T.WindowAllows;
  }

  // ---- The mutable queue ----------------------------------------------------------------------

  class CommitQueue {
    const capacity: nat
    const bucket: T.TokenBucket?
    const ttl: real
    var stream: Stream<QueueItem>

    ghost predicate Valid()
      reads this, bucket
    {
      stream.Valid(capacity) && (bucket != null ==> bucket.Valid())
    }

    ghost function Now(): View
      reads this, bucket
    {
      if bucket == null then View(capacity, ttl, None, 0.0, [], stream)
      else View(capacity, ttl, Some(bucket.limits), bucket.birth, bucket.history, stream)
    }

    constructor (capacity: nat, rate: Option<RateSpec>, ttlSeconds: real, now: real)
      requires rate.Some? ==> rate.value.windowSeconds > 0.0 && rate.value.msgsPerWindow >= 0
      ensures Valid() && (bucket != null ==> fresh(bucket))
      ensures bucket != null <==> rate.Some?
      ensures rate.Some? ==> bucket.spec == rate.value
      ensures Now() ==
        if rate.None? then View(capacity, ttlSeconds, None, 0.0, [], Stream([], false, None))
        else View(capacity, ttlSeconds, Some(T.LimitsOf(rate.value)), now, [], Stream([], false, None))
    {
      this.capacity := capacity;
      if rate.Some? {
        var b := new T.TokenBucket(rate.value, now);
        bucket := b;
      } else {
        bucket := null;
      }
      ttl := ttlSeconds;
      stream := Stream([], false, None);
    }

    // Whatever is asked of the queue, in any span of one configured window it accepts no more than a
    // full bucket and one window's messages.
    lemma AcceptsPerWindow(a: real)
      requires Valid() && bucket != null
      ensures var spec := bucket.spec;
        T.GrantedWithin(bucket.history, a, a + spec.windowSeconds) <=
          (if spec.burst >= spec.msgsPerWindow then spec.burst else spec.msgsPerWindow) as real
          + spec.msgsPerWindow as real
    {
      bucket.GrantsPerWindow(a);
    }

    // Accepted if and only if the limiter allows it and the stream has room.
    method PutNowait(item: QueueItem, now: real) returns (accepted: bool)
      requires Valid() && Now().Ready(now)
      modifies this`stream, bucket
      ensures Valid() && Now() == old(Now()).Put(item, now)
      ensures accepted <==> old(Now()).Takes(now)
      ensures bucket != null ==>
        bucket.history == old(bucket.history) + [T.Request(now, 1.0, old(Now()).Allows(now))]
    {
      hide T.WindowAllows, T.Run, T.Ordered, T.Answered, T.NotBefore;
      if bucket != null {
        var granted := bucket.TryConsume(1.0, now);
        if !granted {
          return false;
        }
      }
      if stream.HasRoom(capacity) {
        stream := stream.Sent(item);
        return true;
      }
      return false;
    }

    method IsStale(item: QueueItem, now: real) returns (stale: bool)
      ensures stale <==> now > item.enqueuedAt + ttl
    {
      stale := now - item.enqueuedAt > ttl;
    }

    method Receive() returns (got: Option<QueueItem>)
      requires Valid()
      modifies this`stream
      ensures Valid()
      ensures got == if old(stream).Pending() == [] then None else Some(old(stream).Pending()[0])
      ensures (stream, got) == old(stream).Received()
      ensures got.Some? ==> stream.Pending() == old(stream).Pending()[1..]
    {
      ReceiveTakesOldest(stream, capacity);
      var (s, x) := stream.Received();
      stream, got := s, x;
    }
  }
}
