/**
 * One node during one process life: its limiter, its queue and its worker, with every enqueue task
 * and every await interleaved freely (lora_bridge/core/queue.py, egress.py, bridge.py).
 *
 * The history fields record what happened; nothing in the steps reads them.
 */
module NodeLife {
  import opened Domain
  import T = TokenBucket
  import Q = CommitQueue
  import R = Routing
  import E = RadioWorker

  datatype Conf = Conf(
    capacity: nat,
    ttl: real,
    limits: Option<T.Limits>,
    rooms: R.Registry,
    messengers: set<string>)

  // An accepted item and the instant the limiter let it in.
  datatype Ticket = Ticket(item: QueueItem, putAt: real)

  // A judged item: when its `transmit` started, if it did, and its committed terminal status.
  datatype Served = Served(ticket: Ticket, startedAt: Option<real>, fate: Option<DeliveryStatus>)

  datatype Mirrored = Mirrored(to: ChannelRef, item: QueueItem)

  datatype Node = Node(
    conf: Conf,
    clock: real,
    stream: Q.Stream<QueueItem>,
    worker: E.Worker,
    birth: real,
    requests: seq<T.Request>,
    accepted: seq<Ticket>,
    served: seq<Served>,
    mirrored: seq<Mirrored>)

  function New(conf: Conf, now: real): Node {
    Node(conf, now, Q.Stream([], false, None), E.Idle, now, [], [], [], [])
  }

  // ---- Steps ----------------------------------------------------------------------------------

  predicate Granted(n: Node, now: real) {
    n.conf.limits.Some? ==> T.Grants(n.conf.limits.value, T.Run(n.conf.limits.value, n.birth, n.requests), now, 1.0)
  }

  predicate Accepts(n: Node, now: real) {
    Granted(n, now) && n.stream.HasRoom(n.conf.capacity)
  }

  // `put_nowait`
  function Put(n: Node, item: QueueItem, now: real): Node {
    var asked := n.(clock := now,
      requests := if n.conf.limits.Some? then n.requests + [T.Request(now, 1.0, Granted(n, now))] else n.requests);
    if Accepts(n, now) then asked.(stream := n.stream.Sent(item), accepted := n.accepted + [Ticket(item, now)])
    else asked
  }

  // The worker asks the stream for the next item.
  function Receive(n: Node): Node {
    var (stream, got) := n.stream.Received();
    n.(stream := stream, worker := if got.Some? then E.Holding(got.value) else E.Idle)
  }

  function Targets(n: Node, item: QueueItem): seq<ChannelRef> {
    R.MirrorTargets(n.conf.rooms, n.conf.messengers, item)
  }

  function NextOf(n: Node, now: real, heard: Outcome): (E.Worker, E.Act)
    requires !n.worker.Idle?
  {
    E.Next(n.worker, n.conf.ttl, now, heard, Targets(n, n.worker.item))
  }

  function Judged(n: Node, now: real): Served
    requires n.worker.Holding?
  {
    var ticket := if |n.served| < |n.accepted| then n.accepted[|n.served|] else Ticket(n.worker.item, now);
    Served(ticket, if E.Stale(n.worker.item, n.conf.ttl, now) then None else Some(now), None)
  }

  function Fated(served: seq<Served>, fate: DeliveryStatus): seq<Served> {
    if served == [] then [] else served[|served| - 1 := served[|served| - 1].(fate := Some(fate))]
  }

  // The worker performs its next act.
  function Work(n: Node, now: real, heard: Outcome): Node
    requires !n.worker.Idle?
  {
    var (worker, act) := NextOf(n, now, heard);
    n.(clock := now,
       worker := worker,
       served := match n.worker
                 case Holding(_) => n.served + [Judged(n, now)]
                 case Expiring(_) => Fated(n.served, REJECTED)
                 case Closing(_, ok) => Fated(n.served, E.Terminal(ok))
                 case _ => n.served,
       mirrored := if act.Mirror? then n.mirrored + [Mirrored(act.to, n.worker.item)] else n.mirrored)
  }

  datatype Event = PutNowait(item: QueueItem, at: real) | AskNext | Act(at: real, heard: Outcome)

  // `enqueued_at` is read when the item is built, just before the limiter reads the clock.
  predicate Enabled(n: Node, e: Event) {
    match e
    case PutNowait(item, at) => n.clock <= item.enqueuedAt <= at
    case AskNext => n.worker.Idle?
    case Act(at, _) => !n.worker.Idle? && n.clock <= at
  }

  function After(n: Node, e: Event): Node
    requires Enabled(n, e)
  {
    match e
    case PutNowait(item, at) => Put(n, item, at)
    case AskNext => Receive(n)
    case Act(at, heard) => Work(n, at, heard)
  }

  // ---- Invariants -----------------------------------------------------------------------------

  // What the worker took and has not judged.
  function Held(n: Node): seq<QueueItem> {
    if n.worker.Holding? then [n.worker.item] else []
  }

  function Items(tickets: seq<Ticket>): (items: seq<QueueItem>)
    ensures |items| == |tickets|
  {
    if tickets == [] then [] else [tickets[0].item] + Items(tickets[1..])
  }

  // Accepted items are, in accept order: the judged ones, the one held, the pending ones.
  ghost predicate InOrder(n: Node) {
    && n.stream.Valid(n.conf.capacity)
    && |n.served| <= |n.accepted|
    && (forall i :: 0 <= i < |n.served| ==> n.served[i].ticket == n.accepted[i])
    && Items(n.accepted[|n.served|..]) == Held(n) + n.stream.Pending()
  }

  // The status that is committed for the item in the worker's hands, if it is terminal already.
  function FateSoFar(w: E.Worker): Option<DeliveryStatus> {
    match w
    case Bouncing(_) => Some(REJECTED)
    case Closed(_, ok) => Some(E.Terminal(ok))
    case Mirroring(_, _) => Some(SENT)
    case Pruning(_) => Some(SENT)
    case _ => None
  }

  ghost predicate Settled(s: Served) {
    if s.startedAt.None? then s.fate == Some(REJECTED) else s.fate == Some(SENT) || s.fate == Some(FAILED)
  }

  // The worker's hand and the last judged item are the same; every earlier item has its fate.
  ghost predicate InHand(n: Node) {
    var k := |n.served|;
    if n.worker.Idle? || n.worker.Holding? then forall i :: 0 <= i < k ==> Settled(n.served[i])
    else
      && k > 0
      && n.served[k - 1].ticket.item == n.worker.item
      && n.served[k - 1].fate == FateSoFar(n.worker)
      && (n.served[k - 1].startedAt.None? <==> n.worker.Expiring? || n.worker.Bouncing?)
      && (forall i :: 0 <= i < k - 1 ==> Settled(n.served[i]))
  }

  lemma HeldIsNext(n: Node)
    requires InOrder(n) && n.worker.Holding?
    ensures |n.served| < |n.accepted| && n.accepted[|n.served|].item == n.worker.item
  {
    assert (Held(n) + n.stream.Pending())[0] == n.worker.item;
  }

  lemma {:induction false} ItemsAppend(tickets: seq<Ticket>, t: Ticket)
    ensures Items(tickets + [t]) == Items(tickets) + [t.item]
  {
    if tickets != [] {
      ItemsAppend(tickets[1..], t);
      assert (tickets + [t])[1..] == tickets[1..] + [t];
    }
  }

  lemma PutKeepsOrder(n: Node, item: QueueItem, now: real)
    requires InOrder(n)
    ensures InOrder(Put(n, item, now))
  {
    hide Granted, Items;
    if Accepts(n, now) {
      Q.SendAppends(n.stream, item, n.conf.capacity);
      var t, k := Ticket(item, now), |n.served|;
      ItemsAppend(n.accepted[k..], t);
      assert (n.accepted + [t])[k..] == n.accepted[k..] + [t];
      assert Held(n) + (n.stream.Pending() + [item]) == (Held(n) + n.stream.Pending()) + [item];
    }
  }

  lemma ReceiveKeepsOrder(n: Node)
    requires InOrder(n) && n.worker.Idle?
    ensures InOrder(Receive(n))
  {
    hide Items;
    Q.ReceiveTakesOldest(n.stream, n.conf.capacity);
    assert [] + n.stream.Pending() == n.stream.Pending();
    assert [] + Receive(n).stream.Pending() == Receive(n).stream.Pending();
  }

  lemma OrderSeesTicketsOnly(n: Node, m: Node)
    requires InOrder(n) && Held(m) == Held(n) && m.stream == n.stream && m.conf == n.conf && m.accepted == n.accepted
    requires |m.served| == |n.served| && forall i :: 0 <= i < |n.served| ==> m.served[i].ticket == n.served[i].ticket
    ensures InOrder(m)
  {
    hide Items;
  }

  lemma JudgeKeepsOrder(n: Node, m: Node, now: real)
    requires InOrder(n) && n.worker.Holding? && |n.served| < |n.accepted|
    requires Held(m) == [] && m.stream == n.stream && m.conf == n.conf && m.accepted == n.accepted
    requires m.served == n.served + [Judged(n, now)]
    ensures InOrder(m)
  {
    var k := |n.served|;
    assert n.accepted[k..][1..] == n.accepted[k + 1..];
    assert Items(n.accepted[k..])[1..] == Items(n.accepted[k + 1..]);
    assert (Held(n) + n.stream.Pending())[1..] == Held(m) + m.stream.Pending();
  }

  lemma WorkKeepsOrder(n: Node, now: real, heard: Outcome)
    requires InOrder(n) && !n.worker.Idle?
    ensures InOrder(Work(n, now, heard))
  {
    hide R.MirrorTargets, InOrder;
    if n.worker.Holding? {
      HeldIsNext(n);
      JudgeKeepsOrder(n, Work(n, now, heard), now);
    } else {
      OrderSeesTicketsOnly(n, Work(n, now, heard));
    }
  }

  lemma WorkKeepsHand(n: Node, now: real, heard: Outcome)
    requires InOrder(n) && InHand(n) && !n.worker.Idle?
    ensures InHand(Work(n, now, heard))
  {
    hide R.MirrorTargets;
    if n.worker.Holding? {
      HeldIsNext(n);
    }
  }

  // ---- Times ----------------------------------------------------------------------------------

  // A started transmit was let in by the limiter and was at most ttl old when it was taken; a
  // stale item never started.
  ghost predicate Timely(n: Node) {
    && (forall i :: 0 <= i < |n.accepted| ==> n.accepted[i].item.enqueuedAt <= n.accepted[i].putAt <= n.clock)
    && (forall i :: 0 <= i < |n.served| && n.served[i].startedAt.Some? ==>
          n.served[i].ticket.putAt <= n.served[i].startedAt.value <= n.served[i].ticket.item.enqueuedAt + n.conf.ttl)
  }

  lemma StepKeepsTimely(n: Node, e: Event)
    requires Timely(n) && InOrder(n) && InHand(n) && Enabled(n, e)
    ensures Timely(After(n, e))
  {
    hide R.MirrorTargets, Granted, Settled;
    if n.worker.Holding? {
      HeldIsNext(n);
    }
  }

  // ---- The limiter ----------------------------------------------------------------------------

  function AcceptedWithin(tickets: seq<Ticket>, a: real, b: real): nat {
    if tickets == [] then 0
    else
      AcceptedWithin(tickets[..|tickets| - 1], a, b) + (if a <= tickets[|tickets| - 1].putAt <= b then 1 else 0)
  }

  // Every acceptance spent a token of the node's bucket at the same instant.
  ghost predicate Paid(n: Node, l: T.Limits) {
    && l.Sensible()
    && T.Ordered(n.birth, n.requests) && T.Answered(l, n.birth, n.requests)
    && T.NotBefore(n.birth, n.requests, n.clock)
    && (forall a: real, b: real :: AcceptedWithin(n.accepted, a, b) as real <= T.GrantedWithin(n.requests, a, b))
  }

  lemma GrantedWithinStep(h: seq<T.Request>, r: T.Request, a: real, b: real)
    ensures T.GrantedWithin(h + [r], a, b) == T.GrantedWithin(h, a, b) + (if a <= r.at <= b then T.Spent(r) else 0.0)
  {
    assert (h + [r])[..|h|] == h;
  }

  lemma AcceptedWithinStep(s: seq<Ticket>, t: Ticket, a: real, b: real)
    ensures AcceptedWithin(s + [t], a, b) == AcceptedWithin(s, a, b) + (if a <= t.putAt <= b then 1 else 0)
  {
    assert (s + [t])[..|s|] == s;
  }

  lemma PutKeepsPaid(n: Node, l: T.Limits, item: QueueItem, now: real)
    requires n.conf.limits == Some(l) && Paid(n, l) && n.clock <= now
    ensures Paid(Put(n, item, now), l)
  {
    hide T.Run, T.GrantedWithin, AcceptedWithin, T.Grants, T.Ordered, T.Answered;
    var r := T.Request(now, 1.0, Granted(n, now));
    assert T.NotBefore(n.birth, n.requests, now);
    T.RunStep(l, n.birth, n.requests, r);
    var m := Put(n, item, now);
    forall a: real, b: real
      ensures AcceptedWithin(m.accepted, a, b) as real <= T.GrantedWithin(m.requests, a, b)
    {
      GrantedWithinStep(n.requests, r, a, b);
      AcceptedWithinStep(n.accepted, Ticket(item, now), a, b);
    }
  }

  // The node's limiter is the window specification over its whole life.
  lemma GrantedIsWindowAllowed(n: Node, l: T.Limits, now: real)
    requires n.conf.limits == Some(l) && Paid(n, l) && n.clock <= now
    ensures Granted(n, now) <==> T.WindowAllows(l, n.birth, n.requests, now, 1.0)
  {
    hide T.Run, T.GrantedWithin, AcceptedWithin, T.Grants, T.Ordered, T.Answered, T.WindowAllows;
    assert T.NotBefore(n.birth, n.requests, now);
    T.BucketRefinesWindow(l, n.birth, n.requests, now, 1.0);
  }

  // The queue inside a node, as the mutable queue shows itself.
  function QueueOf(n: Node): Q.View {
    if n.conf.limits.None? then Q.View(n.conf.capacity, n.conf.ttl, None, 0.0, [], n.stream)
    else Q.View(n.conf.capacity, n.conf.ttl, n.conf.limits, n.birth, n.requests, n.stream)
  }

  // What a put does to the node is what it does to the queue.
  lemma PutIsQueuePut(n: Node, item: QueueItem, now: real)
    requires n.conf.limits.Some? ==> Paid(n, n.conf.limits.value)
    requires n.clock <= now
    ensures QueueOf(Put(n, item, now)) == QueueOf(n).Put(item, now)
    ensures Accepts(n, now) <==> QueueOf(n).Takes(now)
  {
    if n.conf.limits.Some? {
      GrantedIsWindowAllowed(n, n.conf.limits.value, now);
    }
    hide T.WindowAllows, T.Grants, T.Run, Paid;
  }

  lemma StepKeepsPaid(n: Node, l: T.Limits, e: Event)
    requires n.conf.limits == Some(l) && Paid(n, l) && Enabled(n, e)
    ensures Paid(After(n, e), l)
  {
    hide R.MirrorTargets, T.GrantedWithin, AcceptedWithin, T.Ordered, T.Answered, T.Run, T.Grants;
    if e.PutNowait? {
      PutKeepsPaid(n, l, e.item, e.at);
    }
  }

  // `transmit` calls that started within [a, b].
  function StartedWithin(served: seq<Served>, a: real, b: real): nat {
    if served == [] then 0
    else
      var s := served[|served| - 1];
      StartedWithin(served[..|served| - 1], a, b) + (if s.startedAt.Some? && a <= s.startedAt.value <= b then 1 else 0)
  }

  lemma {:induction false} StartsWereAccepted(served: seq<Served>, accepted: seq<Ticket>, ttl: real, a: real, b: real)
    requires |served| <= |accepted|
    requires forall i :: 0 <= i < |served| ==> served[i].ticket == accepted[i]
    requires forall i :: 0 <= i < |accepted| ==> accepted[i].item.enqueuedAt <= accepted[i].putAt
    requires forall i :: 0 <= i < |served| && served[i].startedAt.Some? ==>
      served[i].ticket.putAt <= served[i].startedAt.value <= served[i].ticket.item.enqueuedAt + ttl
    ensures StartedWithin(served, a, b) <= AcceptedWithin(accepted, a - ttl, b)
    decreases |accepted|
  {
    var k := |accepted| - 1;
    if served != [] {
      if |served| <= k {
        StartsWereAccepted(served, accepted[..k], ttl, a, b);
      } else {
        StartsWereAccepted(served[..k], accepted[..k], ttl, a, b);
      }
    }
  }

  // Airtime, for every interval: at most C + r * (b - a + ttl) transmits start on the node.
  lemma AirtimeIsBounded(n: Node, l: T.Limits, a: real, b: real)
    requires InOrder(n) && Timely(n) && Paid(n, l) && a <= b && n.conf.ttl >= 0.0
    ensures StartedWithin(n.served, a, b) as real <= l.capacity + T.Refill(l.rate, b - a + n.conf.ttl)
  {
    hide T.Refill, T.Ordered, T.Answered;
    StartsWereAccepted(n.served, n.accepted, n.conf.ttl, a, b);
    T.GrantsAreBounded(l, n.birth, n.requests, a - n.conf.ttl, b);
    assert b - (a - n.conf.ttl) == b - a + n.conf.ttl;
    assert AcceptedWithin(n.accepted, a - n.conf.ttl, b) as real <= T.GrantedWithin(n.requests, a - n.conf.ttl, b);
  }

  // ---- Mirrors --------------------------------------------------------------------------------

  function MirrorsFor(refs: seq<ChannelRef>, item: QueueItem): seq<Mirrored> {
    if refs == [] then [] else [Mirrored(refs[0], item)] + MirrorsFor(refs[1..], item)
  }

  // The mirrors due for everything that is SENT, in accept order and per item in room order.
  function MirrorsDue(conf: Conf, served: seq<Served>): seq<Mirrored> {
    if served == [] then []
    else
      var s := served[|served| - 1];
      MirrorsDue(conf, served[..|served| - 1]) +
      (if s.fate == Some(SENT)
       then MirrorsFor(R.MirrorTargets(conf.rooms, conf.messengers, s.ticket.item), s.ticket.item) else [])
  }

  // What the worker still has to mirror for the item in its hands.
  function Owed(n: Node): seq<Mirrored> {
    match n.worker
    case Closed(x, ok) => if ok then MirrorsFor(Targets(n, x), x) else []
    case Mirroring(x, rest) => MirrorsFor(rest, x)
    case _ => []
  }

  // Mirrors follow the committed SENTs exactly: none early, none missing, none repeated.
  ghost predicate Mirrors(n: Node) {
    n.mirrored + Owed(n) == MirrorsDue(n.conf, n.served)
  }

  lemma MirrorsDueStep(conf: Conf, served: seq<Served>, s: Served)
    ensures MirrorsDue(conf, served + [s]) == MirrorsDue(conf, served) +
      (if s.fate == Some(SENT)
       then MirrorsFor(R.MirrorTargets(conf.rooms, conf.messengers, s.ticket.item), s.ticket.item) else [])
  {
    assert (served + [s])[..|served|] == served;
  }

  lemma FateIsMirrored(n: Node, fate: DeliveryStatus)
    requires n.served != [] && n.served[|n.served| - 1].fate.None?
    ensures MirrorsDue(n.conf, Fated(n.served, fate)) == MirrorsDue(n.conf, n.served) +
      (var x := n.served[|n.served| - 1].ticket.item; if fate == SENT then MirrorsFor(Targets(n, x), x) else [])
  {
    hide R.MirrorTargets;
    var k := |n.served| - 1;
    var before, s := n.served[..k], n.served[k];
    assert n.served == before + [s] && Fated(n.served, fate) == before + [s.(fate := Some(fate))];
    MirrorsDueStep(n.conf, before, s);
    MirrorsDueStep(n.conf, before, s.(fate := Some(fate)));
  }

  lemma MirrorsForStep(refs: seq<ChannelRef>, item: QueueItem)
    ensures MirrorsFor(refs, item) == if refs == [] then [] else [Mirrored(refs[0], item)] + MirrorsFor(refs[1..], item)
  {
  }

  // A fate becomes known: the mirrors it makes due are owed from here on.
  lemma FatingKeepsMirrors(n: Node, now: real, heard: Outcome)
    requires Mirrors(n) && InHand(n) && (n.worker.Expiring? || n.worker.Closing?)
    ensures Mirrors(Work(n, now, heard))
  {
    hide R.MirrorTargets, MirrorsDue, MirrorsFor, Settled, Fated, E.WillRetry, E.Stale;
    FateIsMirrored(n, if n.worker.Expiring? then REJECTED else E.Terminal(n.worker.ok));
  }

  // One mirror less is owed.
  lemma MirroringKeepsMirrors(n: Node, now: real, heard: Outcome)
    requires Mirrors(n) && n.worker.Mirroring?
    ensures Mirrors(Work(n, now, heard))
  {
    hide R.MirrorTargets, MirrorsDue, MirrorsFor, Settled, Fated, E.WillRetry, E.Stale;
    MirrorsForStep(n.worker.rest, n.worker.item);
  }

  lemma WorkKeepsMirrors(n: Node, now: real, heard: Outcome)
    requires Mirrors(n) && InHand(n) && !n.worker.Idle?
    ensures Mirrors(Work(n, now, heard))
  {
    hide R.MirrorTargets, MirrorsDue, MirrorsFor, Settled, Fated, E.WillRetry, E.Stale, InHand;
    if n.worker.Expiring? || n.worker.Closing? {
      FatingKeepsMirrors(n, now, heard);
    } else if n.worker.Mirroring? {
      MirroringKeepsMirrors(n, now, heard);
    } else if n.worker.Holding? {
      MirrorsDueStep(n.conf, n.served, Judged(n, now));
    }
  }

  lemma StepKeepsMirrors(n: Node, e: Event)
    requires Mirrors(n) && InHand(n) && Enabled(n, e)
    ensures Mirrors(After(n, e))
  {
    hide R.MirrorTargets, MirrorsDue, MirrorsFor, Granted, InHand, Work;
    if e.Act? {
      WorkKeepsMirrors(n, e.at, e.heard);
    }
  }

  // ---- Every run of a node --------------------------------------------------------------------

  ghost predicate Alive(n: Node) {
    && InOrder(n) && InHand(n) && Timely(n) && Mirrors(n)
    && (n.conf.limits.Some? ==> Paid(n, n.conf.limits.value))
  }

  lemma NewIsAlive(conf: Conf, now: real)
    requires conf.limits.Some? ==> conf.limits.value.Sensible()
    ensures Alive(New(conf, now))
  {
    hide R.MirrorTargets, T.Run, T.Grants, Paid;
    assert New(conf, now).accepted[0..] == [];
    if conf.limits.Some? {
      NewIsPaid(conf, now);
    }
  }

  lemma NewIsPaid(conf: Conf, now: real)
    requires conf.limits.Some? && conf.limits.value.Sensible()
    ensures Paid(New(conf, now), conf.limits.value)
  {
    hide T.Run, T.Grants;
  }

  lemma StepKeepsAlive(n: Node, e: Event)
    requires Alive(n) && Enabled(n, e)
    ensures Alive(After(n, e)) && After(n, e).conf == n.conf
  {
    hide InOrder, InHand, Timely, Mirrors, Paid, Granted, E.Next;
    StepKeepsTimely(n, e);
    StepKeepsMirrors(n, e);
    if n.conf.limits.Some? {
      StepKeepsPaid(n, n.conf.limits.value, e);
    }
    match e
    case PutNowait(item, at) => PutKeepsOrder(n, item, at); PutKeepsHand(n, item, at);
    case AskNext => ReceiveKeepsOrder(n); ReceiveKeepsHand(n);
    case Act(at, heard) => WorkKeepsOrder(n, at, heard); WorkKeepsHand(n, at, heard);
  }

  lemma PutKeepsHand(n: Node, item: QueueItem, now: real)
    requires InHand(n)
    ensures InHand(Put(n, item, now))
  {
    hide Granted;
  }

  lemma ReceiveKeepsHand(n: Node)
    requires InHand(n) && n.worker.Idle?
    ensures InHand(Receive(n))
  {
  }

  // A run of one process life: the node was new, and every event was enabled when it happened.
  ghost predicate Run(nodes: seq<Node>, events: seq<Event>) {
    && |nodes| == |events| + 1
    && nodes[0] == New(nodes[0].conf, nodes[0].birth)
    && (nodes[0].conf.limits.Some? ==> nodes[0].conf.limits.value.Sensible())
    && forall i :: 0 <= i < |events| ==>
         Enabled(nodes[i], events[i]) && nodes[i + 1] == After(nodes[i], events[i])
  }

  lemma {:induction false} RunIsAlive(nodes: seq<Node>, events: seq<Event>, i: nat)
    requires Run(nodes, events) && i <= |events|
    ensures Alive(nodes[i]) && nodes[i].conf == nodes[0].conf
  {
    hide After, Alive, Enabled;
    if i == 0 {
      NewIsAlive(nodes[0].conf, nodes[0].birth);
    } else {
      RunIsAlive(nodes, events, i - 1);
      StepKeepsAlive(nodes[i - 1], events[i - 1]);
    }
  }

  // ---- Every accepted item has exactly one fate ----------------------------------------------

  function Tally(served: seq<Served>, fate: Option<DeliveryStatus>): nat {
    if served == [] then 0
    else Tally(served[..|served| - 1], fate) + (if served[|served| - 1].fate == fate then 1 else 0)
  }

  // In the worker's hands with no committed terminal status.
  function InFlight(n: Node): nat {
    if !n.worker.Idle? && FateSoFar(n.worker).None? then 1 else 0
  }

  lemma {:induction false} SettledTally(served: seq<Served>)
    requires forall i :: 0 <= i < |served| ==> Settled(served[i])
    ensures Tally(served, Some(SENT)) + Tally(served, Some(FAILED)) + Tally(served, Some(REJECTED)) == |served|
  {
    if served != [] {
      SettledTally(served[..|served| - 1]);
    }
  }

  // Conservation: accepted = queued + in flight + SENT + FAILED + REJECTED, at every moment.
  lemma EveryItemHasOneFate(n: Node)
    requires Alive(n)
    ensures |n.accepted| == |n.stream.Pending()| + InFlight(n)
      + Tally(n.served, Some(SENT)) + Tally(n.served, Some(FAILED)) + Tally(n.served, Some(REJECTED))
  {
    hide Mirrors, Paid, Timely;
    var k := |n.served|;
    if n.worker.Idle? || n.worker.Holding? {
      SettledTally(n.served);
    } else {
      SettledTally(n.served[..k - 1]);
    }
  }

  // ---- Order ----------------------------------------------------------------------------------

  function Chosen(served: seq<Served>, p: Served -> bool): seq<QueueItem> {
    if served == [] then []
    else
      var k := |served| - 1;
      Chosen(served[..k], p) + (if p(served[k]) then [served[k].ticket.item] else [])
  }

  function Positions(served: seq<Served>, p: Served -> bool): seq<nat> {
    if served == [] then []
    else
      var k := |served| - 1;
      Positions(served[..k], p) + (if p(served[k]) then [k] else [])
  }

  lemma {:induction false} ItemAt(tickets: seq<Ticket>, i: nat)
    requires i < |tickets|
    ensures Items(tickets)[i] == tickets[i].item
  {
    if i > 0 {
      ItemAt(tickets[1..], i - 1);
    }
  }

  lemma {:induction false} ChosenInOrder(served: seq<Served>, p: Served -> bool, accepted: seq<Ticket>)
    requires |served| <= |accepted| && forall i :: 0 <= i < |served| ==> served[i].ticket == accepted[i]
    ensures Picks(Chosen(served, p), Items(accepted), Positions(served, p))
    ensures forall i :: 0 <= i < |Positions(served, p)| ==> Positions(served, p)[i] < |served|
  {
    if served != [] {
      var k := |served| - 1;
      ChosenInOrder(served[..k], p, accepted);
      ItemAt(accepted, k);
    }
  }

  // What the radio confirmed went out in accept order.
  lemma SentInAcceptOrder(n: Node)
    requires Alive(n)
    ensures IsSubsequence(Chosen(n.served, (s: Served) => s.fate == Some(SENT)), Items(n.accepted))
  {
    hide Mirrors, Paid, Timely, InHand;
    var p := (s: Served) => s.fate == Some(SENT);
    ChosenInOrder(n.served, p, n.accepted);
    assert Picks(Chosen(n.served, p), Items(n.accepted), Positions(n.served, p));
  }

  // The items mirrored to one chat, in the order of the mirror attempts.
  function MirroredTo(mirrored: seq<Mirrored>, chat: ChannelRef): seq<QueueItem> {
    if mirrored == [] then []
    else (if mirrored[0].to == chat then [mirrored[0].item] else []) + MirroredTo(mirrored[1..], chat)
  }

  lemma MirroredToFirst(a: seq<Mirrored>, b: seq<Mirrored>, chat: ChannelRef)
    requires a != []
    ensures var first := if a[0].to == chat then [a[0].item] else [];
      MirroredTo(a + b, chat) == first + MirroredTo(a[1..] + b, chat)
  {
    assert (a + b)[1..] == a[1..] + b;
  }

  lemma ConcatIsAssociative<T>(a: seq<T>, b: seq<T>, c: seq<T>)
    ensures a + (b + c) == (a + b) + c
  {
  }

  lemma {:induction false} MirroredToConcat(a: seq<Mirrored>, b: seq<Mirrored>, chat: ChannelRef)
    ensures MirroredTo(a + b, chat) == MirroredTo(a, chat) + MirroredTo(b, chat)
  {
    if a == [] {
      assert a + b == b;
    } else {
      MirroredToConcat(a[1..], b, chat);
      MirroredToFirst(a, b, chat);
      var first := if a[0].to == chat then [a[0].item] else [];
      ConcatIsAssociative(first, MirroredTo(a[1..], chat), MirroredTo(b, chat));
    }
  }

  lemma {:induction false} OneAttemptPerTarget(refs: seq<ChannelRef>, item: QueueItem, chat: ChannelRef)
    requires R.Count(refs, chat) <= 1
    ensures MirroredTo(MirrorsFor(refs, item), chat) == if R.Count(refs, chat) == 1 then [item] else []
  {
    if refs != [] {
      OneAttemptPerTarget(refs[1..], item, chat);
      var rest := MirrorsFor(refs[1..], item);
      assert ([Mirrored(refs[0], item)] + rest)[1..] == rest;
    }
  }

  // Rooms as the registry builds them: no two members of a room share a channel.
  ghost predicate WellWired(conf: Conf) {
    forall source :: source in conf.rooms ==> R.DistinctRefs(conf.rooms[source].members)
  }

  lemma {:induction false} TargetCounts(members: seq<R.Member>, source: ChannelRef, messengers: set<string>,
                                        chat: ChannelRef)
    requires R.DistinctRefs(members)
    ensures R.Count(R.MirrorRefs(members, source, messengers), chat) <= 1
  {
    if i :| 0 <= i < |members| && members[i].Ref() == chat {
      R.EveryOtherChatOnce(members, source, messengers, i);
    } else {
      R.MirrorRefsComeFromMembers(members, source, messengers, chat);
    }
  }

  // The item is to be mirrored to this chat.
  predicate Reaches(conf: Conf, item: QueueItem, chat: ChannelRef) {
    R.Count(R.MirrorTargets(conf.rooms, conf.messengers, item), chat) == 1
  }

  lemma {:induction false} DueTo(conf: Conf, served: seq<Served>, chat: ChannelRef)
    requires WellWired(conf)
    ensures MirroredTo(MirrorsDue(conf, served), chat) ==
      Chosen(served, (s: Served) => s.fate == Some(SENT) && Reaches(conf, s.ticket.item, chat))
  {
    if served != [] {
      var k := |served| - 1;
      var s := served[k];
      DueTo(conf, served[..k], chat);
      var targets := R.MirrorTargets(conf.rooms, conf.messengers, s.ticket.item);
      if s.ticket.item.source in conf.rooms {
        TargetCounts(conf.rooms[s.ticket.item.source].members, s.ticket.item.source, conf.messengers, chat);
      }
      OneAttemptPerTarget(targets, s.ticket.item, chat);
      MirroredToConcat(MirrorsDue(conf, served[..k]),
                       if s.fate == Some(SENT) then MirrorsFor(targets, s.ticket.item) else [], chat);
    }
  }

  // Each chat gets exactly the confirmed items meant for it, each once, in accept order; what the
  // worker has not yet mirrored is at the end.
  lemma ChatMirrorsFollowSent(n: Node, chat: ChannelRef)
    requires Alive(n) && WellWired(n.conf)
    ensures var meant := Chosen(n.served, (s: Served) => s.fate == Some(SENT) && Reaches(n.conf, s.ticket.item, chat));
      && meant == MirroredTo(n.mirrored, chat) + MirroredTo(Owed(n), chat)
      && IsSubsequence(meant, Items(n.accepted))
  {
    hide Paid, Timely, InHand, Reaches, Owed;
    var p := (s: Served) => s.fate == Some(SENT) && Reaches(n.conf, s.ticket.item, chat);
    MirroredToConcat(n.mirrored, Owed(n), chat);
    DueTo(n.conf, n.served, chat);
    ChosenInOrder(n.served, p, n.accepted);
    assert Picks(Chosen(n.served, p), Items(n.accepted), Positions(n.served, p));
  }

  // Which chats that is: for a chat's message every other configured messenger member of its room, for
  // a relay none.
  lemma EveryOtherChatIsReached(conf: Conf, item: QueueItem, i: nat)
    requires WellWired(conf) && item.source in conf.rooms
    requires i < |conf.rooms[item.source].members|
    ensures var m := conf.rooms[item.source].members[i];
      Reaches(conf, item, m.Ref()) <==>
        item.fromMessenger && m.MessengerMember? && m.Ref() != item.source && m.transportId in conf.messengers
  {
    R.EveryOtherChatOnce(conf.rooms[item.source].members, item.source, conf.messengers, i);
  }

  // And nobody else: whoever is reached is such a member of the item's room.
  lemma NobodyElseIsReached(conf: Conf, item: QueueItem, chat: ChannelRef) returns (i: nat)
    requires WellWired(conf) && Reaches(conf, item, chat)
    ensures item.fromMessenger && item.source in conf.rooms && chat != item.source
    ensures i < |conf.rooms[item.source].members| && conf.rooms[item.source].members[i].Ref() == chat
    ensures conf.rooms[item.source].members[i].MessengerMember?
    ensures conf.rooms[item.source].members[i].transportId in conf.messengers
  {
    var members := conf.rooms[item.source].members;
    if forall j :: 0 <= j < |members| ==> members[j].Ref() != chat {
      R.MirrorRefsComeFromMembers(members, item.source, conf.messengers, chat);
    }
    i :| 0 <= i < |members| && members[i].Ref() == chat;
    EveryOtherChatIsReached(conf, item, i);
  }
}
