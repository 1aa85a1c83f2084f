/**
 * What the records of the commit pipeline are worth, over every run with crashes and restarts: a
 * verdict in the journal, the fate of an item on its node and every mirror agree with the answer
 * the radio gave to the item's last call (lora_bridge/core/egress.py).
 */
module PipelineVerdicts {
  import opened Domain
  import opened Pipeline
  import S = PipelineSafety
  import O = PipelinePromises
  import J = Journal
  import E = RadioWorker
  import N = NodeLife
  import R = Routing

  // ---- What the radio said --------------------------------------------------------------------

  // The last call of an intent was answered in time, and with ok.
  predicate Confirmed(calls: seq<SendCall>) {
    calls != [] &&
    var answer := calls[|calls| - 1].answer;
    answer.Some? && answer.value.Replied? && answer.value.result.ok
  }

  // It was answered too late, or not with ok.
  predicate Unconfirmed(calls: seq<SendCall>) {
    calls != [] &&
    var answer := calls[|calls| - 1].answer;
    answer.Some? && (answer.value.TimedOut? || !answer.value.result.ok)
  }

  // A row says no more than the radio did.
  predicate RowIsTrue(row: Option<J.Row>, calls: seq<SendCall>) {
    && (HasStatus(row, SENT) ==> Confirmed(calls))
    && (HasStatus(row, FAILED) ==> Unconfirmed(calls))
    && (HasStatus(row, PENDING) || HasStatus(row, REJECTED) ==> calls == [])
  }

  predicate Honest(v: View) {
    RowIsTrue(v.working, v.calls) && RowIsTrue(v.committed, v.calls)
  }

  ghost predicate AllHonest(s: Sys) {
    forall k :: Honest(ViewOf(s, k))
  }

  // The fate of an item in its node's history.
  predicate FateFits(fate: DeliveryStatus, calls: seq<SendCall>) {
    && (fate == SENT <==> Confirmed(calls))
    && (fate == FAILED <==> Unconfirmed(calls))
    && (fate == REJECTED <==> calls == [])
  }

  // ---- The journal ----------------------------------------------------------------------------

  lemma HonestThroughAct(v: View, w: E.Worker, life: nat, n: string, turn: nat,
                         ttl: real, now: real, heard: Outcome, targets: seq<ChannelRef>)
    requires !w.Idle? && InHandOk(v, w, life, n, turn) && Honest(v)
    ensures var (w', act) := E.Next(w, ttl, now, heard, targets);
      Honest(WorkedView(v, act, CallsNext(v, w, life, n, turn, heard)))
  {
    hide Describes, E.Stale;
  }

  lemma SettledViewsAreHonest(v: View)
    requires Honest(v)
    ensures Honest(v.Published()) && Honest(S.Fallen(v))
    ensures v.working.Some? ==> Honest(v.(working := Some(v.working.value.(status := UNKNOWN))))
  {
  }

  lemma QueuedIsHonest(v: View, x: QueueItem)
    requires QueuedOk(v, x)
    ensures Honest(v)
  {
  }

  lemma OthersStayHonest(s: Sys, s': Sys, key: Option<string>)
    requires AllHonest(s) && OnlyKey(s, s', key)
    ensures forall k :: key != Some(k) ==> Honest(ViewOf(s', k))
  {
    hide ViewOf, Honest;
    forall k | key != Some(k)
      ensures Honest(ViewOf(s', k))
    {
      assert Honest(ViewOf(s, k));
      SettledViewsAreHonest(ViewOf(s, k));
    }
  }

  lemma WorkStaysHonest(s: Sys, n: string, at: real, heard: Outcome)
    requires Inv(s) && AllHonest(s) && Can(s, Work(n, at, heard))
    ensures AllHonest(After(s, Work(n, at, heard)))
  {
    hide RowsOk, RestOk, TodoOk, QuietOk, InHandOk, OnlyKey, ViewOf, Honest, N.Work, E.Next, WorkedView, CallsNext,
      N.Targets, Active, DistinctKeys, AllQueuedOk, Owned;
    var node, s' := s.nodes[n], After(s, Work(n, at, heard));
    var k := node.worker.item.MsgKey();
    WorkTouchesOwnKey(s, n, at, heard);
    OthersStayHonest(s, s', Some(k));
    assert NodeOk(s, n, node) && Honest(ViewOf(s, k));
    HonestThroughAct(ViewOf(s, k), node.worker, s.life, n, |node.served|, node.conf.ttl, at, heard,
                     N.Targets(node, node.worker.item));
  }

  lemma EnqueueStaysHonest(s: Sys, x: QueueItem, at: real)
    requires Inv(s) && AllHonest(s) && Can(s, Enqueue(x, at))
    ensures AllHonest(After(s, Enqueue(x, at)))
  {
    hide NodesOk, RestOk, TodoOk, QuietOk, ViewOf, Honest, N.Put, N.Accepts, QueuedOk, OnlyKey;
    var s' := After(s, Enqueue(x, at));
    if N.Accepts(s.nodes[x.target.transportId], at) {
      EnqueueOnlyItsKey(s, x, at);
      OthersStayHonest(s, s', Some(x.MsgKey()));
      QueuedIsHonest(ViewOf(s', x.MsgKey()), x);
    } else {
      S.SameTablesSameViews(s, s');
    }
  }

  lemma EnqueueOnlyItsKey(s: Sys, x: QueueItem, at: real)
    requires Inv(s) && Can(s, Enqueue(x, at)) && N.Accepts(s.nodes[x.target.transportId], at)
    ensures OnlyKey(s, After(s, Enqueue(x, at)), Some(x.MsgKey()))
    ensures QueuedOk(ViewOf(After(s, Enqueue(x, at)), x.MsgKey()), x)
  {
    hide NodesOk, RestOk, TodoOk, QuietOk, ViewOf, N.Put, N.Accepts, QueuedOk, OnlyKey, After, Can;
    S.EnqueueViews(s, x, at);
  }

  lemma MarkStaysHonest(s: Sys)
    requires Inv(s) && AllHonest(s) && Can(s, RecoverMark)
    ensures AllHonest(After(s, RecoverMark))
  {
    hide NodesOk, RowsOk, RestOk, TodoOk, QuietOk, ViewOf, Honest, OnlyKey;
    var s', k := After(s, RecoverMark), s.phase.todo[0].msgKey;
    S.OrphanAtRest(s);
    S.WorkingOf(s, k);
    S.MarkViews(s, s', k);
    OthersStayHonest(s, s', Some(k));
    assert Honest(ViewOf(s, k));
    SettledViewsAreHonest(ViewOf(s, k));
  }

  lemma CrashStaysHonest(s: Sys)
    requires AllHonest(s)
    ensures AllHonest(After(s, Crash))
  {
    hide Honest;
    forall k
      ensures Honest(ViewOf(After(s, Crash), k))
    {
      assert Honest(ViewOf(s, k));
      SettledViewsAreHonest(ViewOf(s, k));
      assert ViewOf(After(s, Crash), k) == S.Fallen(ViewOf(s, k));
    }
  }

  // The remaining steps leave the tables alone or publish them.
  lemma QuietStepStaysHonest(s: Sys, e: Event)
    requires AllHonest(s) && Can(s, e)
    requires e.Boot? || e.RecoverCommit? || e.RecoverPut? || e.RecoverDone? || e.InsertCommit? || e.Ask?
    ensures AllHonest(After(s, e))
  {
    hide Honest, N.Put, N.Receive, N.Enabled, Rebuilt;
    var s' := After(s, e);
    forall k
      ensures Honest(ViewOf(s', k))
    {
      assert Honest(ViewOf(s, k));
      SettledViewsAreHonest(ViewOf(s, k));
      assert ViewOf(s', k) == ViewOf(s, k) || ViewOf(s', k) == ViewOf(s, k).Published();
    }
  }

  lemma StepStaysHonest(s: Sys, e: Event)
    requires Inv(s) && AllHonest(s) && Can(s, e)
    ensures AllHonest(After(s, e))
  {
    hide Inv, AllHonest, After, Can;
    match e
    case Work(n, at, heard) => WorkStaysHonest(s, n, at, heard);
    case Enqueue(x, at) => EnqueueStaysHonest(s, x, at);
    case RecoverMark => MarkStaysHonest(s);
    case Crash => CrashStaysHonest(s);
    case _ => QuietStepStaysHonest(s, e);
  }

  lemma {:induction false} RunStaysHonest(states: seq<Sys>, events: seq<Event>, i: nat)
    requires Run(states, events) && i <= |events|
    ensures AllHonest(states[i])
  {
    hide Inv, AllHonest, After, Can;
    if i == 0 {
      NothingSaidYet(states[0]);
    } else {
      RunStaysHonest(states, events, i - 1);
      S.RunKeepsInv(states, events, i - 1);
      StepStaysHonest(states[i - 1], events[i - 1]);
    }
  }

  lemma NothingSaidYet(s: Sys)
    requires Initial(s)
    ensures AllHonest(s)
  {
  }

  // Over every run, crashes and restarts included: a row that says SENT was confirmed by the radio,
  // one that says FAILED was refused or not answered in time, and one that says PENDING or REJECTED
  // was never on the air. This holds of the committed table and of what is not committed yet.
  lemma JournalSaysWhatTheRadioSaid(states: seq<Sys>, events: seq<Event>, i: nat, k: string)
    requires Run(states, events) && i <= |events|
    ensures RowIsTrue(At(states[i].db.committed, k), CallsOf(states[i], k))
    ensures RowIsTrue(At(states[i].db.working, k), CallsOf(states[i], k))
  {
    hide After, Can, RowIsTrue;
    RunStaysHonest(states, events, i);
    assert Honest(ViewOf(states[i], k));
  }

  // A call's record is the radio's answer to it, and nothing else is touched.
  lemma AnswerIsRecorded(states: seq<Sys>, events: seq<Event>, i: nat, j: string)
    requires Run(states, events) && i < |events| && events[i].Work?
    requires states[i].nodes[events[i].node].worker.OnAir?
    ensures var k := states[i].nodes[events[i].node].worker.item.MsgKey();
      var before, after := CallsOf(states[i], j), CallsOf(states[i + 1], j);
      if j == k
      then before != [] && |after| == |before| && after[..|after| - 1] == before[..|after| - 1]
           && after[|after| - 1].answer == Some(events[i].heard)
      else after == before
  {
    hide Inv, After, N.Work, NodeOk;
    var s, n := states[i], events[i].node;
    S.RunKeepsInv(states, events, i);
    HandView(s, n);
    AnswerOfWork(s, n, events[i].at, events[i].heard, j);
  }

  lemma HandView(s: Sys, n: string)
    requires Inv(s) && n in s.nodes && !s.nodes[n].worker.Idle?
    ensures var node := s.nodes[n];
      InHandOk(ViewOf(s, node.worker.item.MsgKey()), node.worker, s.life, n, |node.served|)
  {
    hide RowsOk, RestOk, TodoOk, QuietOk, InHandOk, AllQueuedOk, DistinctKeys, Owned, ViewOf;
    assert NodeOk(s, n, s.nodes[n]);
  }

  lemma AnswerOfWork(s: Sys, n: string, at: real, heard: Outcome, j: string)
    requires Can(s, Work(n, at, heard)) && s.nodes[n].worker.OnAir?
    requires var node := s.nodes[n];
      InHandOk(ViewOf(s, node.worker.item.MsgKey()), node.worker, s.life, n, |node.served|)
    ensures var k := s.nodes[n].worker.item.MsgKey();
      var before, after := CallsOf(s, j), CallsOf(After(s, Work(n, at, heard)), j);
      if j == k
      then before != [] && |after| == |before| && after[..|after| - 1] == before[..|after| - 1]
           && after[|after| - 1].answer == Some(heard)
      else after == before
  {
    hide N.Work, N.NextOf, E.DbAfter, Describes, Underway;
  }

  // ---- The nodes ------------------------------------------------------------------------------

  function KeyAt(tickets: seq<N.Ticket>, i: nat): string
    requires i < |tickets|
  {
    tickets[i].item.MsgKey()
  }

  // No key was accepted twice in this life, all are this node's, and none still waits for recovery.
  ghost predicate KeysOnce(s: Sys, n: string, accepted: seq<N.Ticket>) {
    && (forall i, j :: 0 <= i < j < |accepted| ==> KeyAt(accepted, i) != KeyAt(accepted, j))
    && (forall i :: 0 <= i < |accepted| ==>
          KeyAt(accepted, i) in s.owner && s.owner[KeyAt(accepted, i)] == n && !Listed(s, KeyAt(accepted, i)))
  }

  ghost predicate FatesFit(s: Sys, served: seq<N.Served>) {
    forall i :: 0 <= i < |served| && served[i].fate.Some? ==>
      FateFits(served[i].fate.value, CallsOf(s, served[i].ticket.item.MsgKey()))
  }

  predicate Started(w: E.Worker) {
    w.Marking? || w.Announcing? || w.Ready? || w.OnAir? || w.Closing? || w.Closed?
  }

  // The row of a running transmit carries the instant it started.
  ghost predicate Dated(s: Sys, node: N.Node) {
    Started(node.worker) ==>
      var row := At(s.db.working, node.worker.item.MsgKey());
      node.served != [] && node.served[|node.served| - 1].startedAt.Some?
      && (row.Some? ==> row.value.txStartedAt == node.served[|node.served| - 1].startedAt)
  }

  ghost predicate NodeTrue(s: Sys, n: string, node: N.Node) {
    KeysOnce(s, n, node.accepted) && FatesFit(s, node.served) && Dated(s, node)
  }

  ghost predicate AllTrue(s: Sys) {
    forall n :: n in s.nodes ==> NodeTrue(s, n, s.nodes[n])
  }

  lemma HandWasAccepted(node: N.Node)
    requires N.InOrder(node) && N.InHand(node) && !node.worker.Idle? && !node.worker.Holding?
    ensures 0 < |node.served| <= |node.accepted|
    ensures node.served[|node.served| - 1].ticket == node.accepted[|node.served| - 1]
    ensures node.accepted[|node.served| - 1].item == node.worker.item
  {
    hide N.Items;
  }

  // A step that concerns no key of this node.
  lemma ForeignNodeTrue(s: Sys, s': Sys, key: Option<string>, n: string, node: N.Node)
    requires NodeTrue(s, n, node) && N.InOrder(node) && N.InHand(node) && OnlyKey(s, s', key)
    requires forall j :: Listed(s', j) ==> Listed(s, j)
    requires key.Some? ==> key.value !in s.owner || s.owner[key.value] != n
    ensures NodeTrue(s', n, node)
  {
    hide N.Items, FateFits, Listed;
    forall j | key != Some(j)
      ensures CallsOf(s', j) == CallsOf(s, j) && At(s'.db.working, j) == At(s.db.working, j)
    {
      assert ViewOf(s', j) == ViewOf(s, j) || ViewOf(s', j) == ViewOf(s, j).Published();
    }
    forall i | 0 <= i < |node.accepted|
      ensures KeyAt(node.accepted, i) in s'.owner && s'.owner[KeyAt(node.accepted, i)] == n
      ensures key != Some(KeyAt(node.accepted, i))
    {
    }
    forall i | 0 <= i < |node.served|
      ensures CallsOf(s', node.served[i].ticket.item.MsgKey()) == CallsOf(s, node.served[i].ticket.item.MsgKey())
    {
      assert node.served[i].ticket == node.accepted[i] && key != Some(KeyAt(node.accepted, i));
    }
    if Started(node.worker) {
      HandWasAccepted(node);
      assert key != Some(KeyAt(node.accepted, |node.served| - 1));
    }
  }

  // The same for all nodes that the step does not touch.
  lemma OthersStayTrue(s: Sys, s': Sys, key: Option<string>, n: string)
    requires AllTrue(s) && S.AllAlive(s) && OnlyKey(s, s', key)
    requires forall j :: Listed(s', j) ==> Listed(s, j)
    requires forall m :: m in s'.nodes && m != n ==> m in s.nodes && s'.nodes[m] == s.nodes[m]
    requires key.Some? ==> key.value !in s.owner || s.owner[key.value] == n
    ensures forall m :: m in s'.nodes && m != n ==> NodeTrue(s', m, s'.nodes[m])
  {
    hide NodeTrue, OnlyKey, Listed, N.InOrder, N.InHand, N.Timely, N.Mirrors, N.Paid;
    forall m | m in s'.nodes && m != n
      ensures NodeTrue(s', m, s'.nodes[m])
    {
      ForeignNodeTrue(s, s', key, m, s.nodes[m]);
    }
  }

  // A node that accepted one more item, whose key is new to it.
  lemma GrownNodeTrue(s: Sys, s': Sys, n: string, node: N.Node, node': N.Node, t: N.Ticket, moved: Option<string>)
    requires NodeTrue(s, n, node) && N.InOrder(node) && N.InHand(node)
    requires node'.served == node.served && node'.worker == node.worker
    requires node'.accepted == node.accepted + [t]
    requires OnlyKey(s, s', moved) && (moved.Some? ==> moved.value !in s.owner)
    requires forall j :: Listed(s', j) ==> Listed(s, j)
    requires t.item.MsgKey() in s'.owner && s'.owner[t.item.MsgKey()] == n && !Listed(s', t.item.MsgKey())
    requires t.item.MsgKey() !in s.owner || Listed(s, t.item.MsgKey())
    ensures NodeTrue(s', n, node')
  {
    ForeignNodeTrue(s, s', moved, n, node);
    hide FatesFit, Dated, Listed, ViewOf, N.InOrder, N.InHand;
    forall i | 0 <= i < |node.accepted|
      ensures KeyAt(node.accepted, i) != t.item.MsgKey() && KeyAt(node'.accepted, i) == KeyAt(node.accepted, i)
    {
    }
    assert Dated(s', node') by { SameDates(s', node, node'); }
  }

  lemma SameDates(s: Sys, node: N.Node, node': N.Node)
    requires Dated(s, node) && node'.served == node.served && node'.worker == node.worker
    ensures Dated(s, node')
  {
  }

  // The worker of node n performs an act on the item with key k.
  lemma FatesThroughWork(s: Sys, s': Sys, n: string, node: N.Node, at: real, heard: Outcome)
    requires !node.worker.Idle? && N.InOrder(node) && N.InHand(node)
    requires KeysOnce(s, n, node.accepted) && FatesFit(s, node.served)
    requires var k := node.worker.item.MsgKey();
      && InHandOk(ViewOf(s, k), node.worker, s.life, n, |node.served|) && Honest(ViewOf(s, k))
      && (node.worker.Ready? || node.worker.OnAir? || CallsOf(s', k) == CallsOf(s, k))
      && forall j :: j != k ==> CallsOf(s', j) == CallsOf(s, j)
    ensures FatesFit(s', N.Work(node, at, heard).served)
  {
    hide N.Targets, N.Items, E.Stale, FateFits, CallsOf, Listed, RowIsTrue, OneTransmit, Describes;
    var w, k, served := node.worker, node.worker.item.MsgKey(), N.Work(node, at, heard).served;
    forall i | 0 <= i < |served| && served[i].fate.Some?
      ensures FateFits(served[i].fate.value, CallsOf(s', served[i].ticket.item.MsgKey()))
    {
      assert !w.Holding? ==> |served| == |node.served|;
      assert i < |node.served|;
      if !w.Holding? {
        HandWasAccepted(node);
        assert i < |served| - 1 ==> KeyAt(node.accepted, i) != KeyAt(node.accepted, |served| - 1);
      }
      if (w.Expiring? || w.Closing?) && i == |served| - 1 {
        ClosedFits(ViewOf(s, k), w, s.life, n, |node.served|);
        assert ViewOf(s, k).calls == CallsOf(s, k);
      } else {
        assert served[i] == node.served[i];
      }
    }
  }

  lemma ClosedFits(v: View, w: E.Worker, life: nat, n: string, turn: nat)
    requires (w.Expiring? || w.Closing?) && InHandOk(v, w, life, n, turn) && Honest(v)
    ensures FateFits(if w.Expiring? then REJECTED else E.Terminal(w.ok), v.calls)
  {
    hide Describes;
  }

  lemma DatesThroughWork(s: Sys, s': Sys, node: N.Node, at: real, heard: Outcome)
    requires !node.worker.Idle? && N.InHand(node) && Dated(s, node)
    requires var k := node.worker.item.MsgKey();
      At(s'.db.working, k) == WorkedRow(At(s.db.working, k), N.NextOf(node, at, heard).1)
    ensures Dated(s', N.Work(node, at, heard))
  {
    hide N.Targets, At;
  }

  lemma WorkStaysTrue(s: Sys, n: string, at: real, heard: Outcome)
    requires Inv(s) && S.AllAlive(s) && AllHonest(s) && AllTrue(s) && Can(s, Work(n, at, heard))
    ensures AllTrue(After(s, Work(n, at, heard)))
  {
    hide Inv, NodeOk, InHandOk, OnlyKey, Honest, N.Work, N.NextOf, FatesFit, Dated, N.InOrder, N.InHand,
      N.Timely, N.Mirrors, N.Paid, WorkedRow, E.DbAfter, CallsAfter;
    var node, s' := s.nodes[n], After(s, Work(n, at, heard));
    var k := node.worker.item.MsgKey();
    assert NodeTrue(s, n, node);
    HandView(s, n);
    assert Honest(ViewOf(s, k));
    WorkTouchesOwnKey(s, n, at, heard);
    WorkTouches(s, n, at, heard);
    assert ViewOf(s', k).working == At(s'.db.working, k) && ViewOf(s, k).working == At(s.db.working, k);
    FatesThroughWork(s, s', n, node, at, heard);
    DatesThroughWork(s, s', node, at, heard);
    assert s.owner == s'.owner && node.accepted == s'.nodes[n].accepted;
    OwnerOfHand(s, n);
    OthersStayTrue(s, s', Some(k), n);
  }

  lemma WorkTouches(s: Sys, n: string, at: real, heard: Outcome)
    requires Can(s, Work(n, at, heard))
    ensures var s', w := After(s, Work(n, at, heard)), s.nodes[n].worker;
      && (forall j :: j != w.item.MsgKey() ==> CallsOf(s', j) == CallsOf(s, j))
      && (w.Ready? || w.OnAir? || CallsOf(s', w.item.MsgKey()) == CallsOf(s, w.item.MsgKey()))
      && s'.nodes[n].accepted == s.nodes[n].accepted && s'.owner == s.owner
      && s'.nodes == s.nodes[n := N.Work(s.nodes[n], at, heard)]
      && (forall j :: !Listed(s', j) && !Listed(s, j))
  {
    hide N.NextOf, E.DbAfter, CallsAfter;
  }

  lemma OwnerOfHand(s: Sys, n: string)
    requires Inv(s) && n in s.nodes && !s.nodes[n].worker.Idle?
    ensures s.nodes[n].worker.item.MsgKey() in s.owner && s.owner[s.nodes[n].worker.item.MsgKey()] == n
  {
    hide RowsOk, RestOk, TodoOk, QuietOk, NodeOk;
    assert NodeOk(s, n, s.nodes[n]);
    InHandIsOwned(s, n);
  }

  // Same history, and the worker not in a transmit or just where it was.
  lemma SameHistoryStaysTrue(s: Sys, n: string, node: N.Node, node': N.Node)
    requires NodeTrue(s, n, node) && node'.accepted == node.accepted && node'.served == node.served
    requires node'.worker == node.worker || !Started(node'.worker)
    ensures NodeTrue(s, n, node')
  {
    hide KeysOnce, FatesFit;
  }

  lemma PutHistory(node: N.Node, x: QueueItem, at: real)
    ensures var node' := N.Put(node, x, at);
      && node'.served == node.served && node'.worker == node.worker
      && node'.accepted == node.accepted + (if N.Accepts(node, at) then [N.Ticket(x, at)] else [])
  {
    hide N.Granted;
  }

  // One more put on node n, accepted or not, of an intent that is new or listed and no longer so.
  lemma PutStaysTrue(s: Sys, s': Sys, n: string, x: QueueItem, at: real, moved: Option<string>)
    requires S.AllAlive(s) && AllTrue(s) && OnlyKey(s, s', moved) && n in s.nodes
    requires s'.nodes == s.nodes[n := N.Put(s.nodes[n], x, at)]
    requires moved.Some? ==> moved.value !in s.owner
    requires forall j :: Listed(s', j) ==> Listed(s, j)
    requires N.Accepts(s.nodes[n], at) ==>
      && x.MsgKey() in s'.owner && s'.owner[x.MsgKey()] == n && !Listed(s', x.MsgKey())
      && (x.MsgKey() !in s.owner || Listed(s, x.MsgKey()))
    ensures AllTrue(s')
  {
    hide NodeTrue, OnlyKey, Listed, N.InOrder, N.InHand, N.Timely, N.Mirrors, N.Paid, N.Put, N.Accepts;
    var node := s.nodes[n];
    PutHistory(node, x, at);
    if N.Accepts(node, at) {
      GrownNodeTrue(s, s', n, node, s'.nodes[n], N.Ticket(x, at), moved);
    } else {
      ForeignNodeTrue(s, s', moved, n, node);
      SameHistoryStaysTrue(s', n, node, s'.nodes[n]);
    }
    OthersStayTrue(s, s', moved, n);
  }

  lemma EnqueueStaysTrue(s: Sys, x: QueueItem, at: real)
    requires Inv(s) && S.AllAlive(s) && AllTrue(s) && Can(s, Enqueue(x, at))
    ensures AllTrue(After(s, Enqueue(x, at)))
  {
    hide Inv, AllTrue, S.AllAlive, N.Put, N.Accepts, N.Enabled, OnlyKey, QueuedOk;
    var s', n := After(s, Enqueue(x, at)), x.target.transportId;
    assert forall j :: !Listed(s', j);
    if N.Accepts(s.nodes[n], at) {
      EnqueueOnlyItsKey(s, x, at);
      PutStaysTrue(s, s', n, x, at, Some(x.MsgKey()));
    } else {
      NothingButNodes(s, s');
      PutStaysTrue(s, s', n, x, at, None);
    }
  }

  lemma NothingButNodes(s: Sys, s': Sys)
    requires s'.db == s.db || s'.db == s.db.Published()
    requires s'.air == s.air && s'.owner == s.owner && s'.life == s.life
    ensures OnlyKey(s, s', None)
  {
  }

  lemma RecoverPutStaysTrue(s: Sys, enqueuedAt: real, at: real)
    requires Inv(s) && S.AllAlive(s) && AllTrue(s) && Can(s, RecoverPut(enqueuedAt, at))
    ensures AllTrue(After(s, RecoverPut(enqueuedAt, at)))
  {
    hide NodesOk, RowsOk, RestOk, QuietOk, NodeTrue, S.AllAlive, N.Put, N.Accepts, N.Enabled, OnlyKey, QueuedOk,
      Rebuilt, IsActive, AtRest, ViewOf, MarkedOk, At;
    var s', e := After(s, RecoverPut(enqueuedAt, at)), s.phase.todo[0];
    var n := e.row.targetNode;
    NothingButNodes(s, s');
    HeadIsListed(s, s');
    if n in s.nodes {
      S.PendingOrphanIsQueueable(s, s.nodes[n].conf.messengers, enqueuedAt);
      PutStaysTrue(s, s', n, Rebuilt(e, s.nodes[n].conf.messengers, enqueuedAt), at, None);
    } else {
      OthersStayTrue(s, s', None, n);
    }
  }

  lemma HeadIsListed(s: Sys, s': Sys)
    requires TodoOk(s) && s.phase.Recovering? && s.phase.todo != []
    requires s'.phase == Recovering(s.phase.todo[1..], false)
    ensures Listed(s, s.phase.todo[0].msgKey) && !Listed(s', s.phase.todo[0].msgKey)
    ensures forall j :: Listed(s', j) ==> Listed(s, j)
  {
    var todo, rest := s.phase.todo, s'.phase.todo;
    assert forall i :: 0 <= i < |rest| ==> rest[i] == todo[i + 1];
  }

  // Steps that put nothing on a queue and let no worker act.
  lemma QuietStepStaysTrue(s: Sys, e: Event)
    requires Inv(s) && S.AllAlive(s) && AllTrue(s) && Can(s, e)
    requires e.RecoverCommit? || e.RecoverDone? || e.InsertCommit?
    ensures AllTrue(After(s, e))
  {
    hide NodesOk, RowsOk, RestOk, QuietOk, N.InOrder, N.InHand, N.Timely, N.Mirrors, N.Paid, NodeTrue, OnlyKey, Listed;
    var s' := After(s, e);
    NothingButNodes(s, s');
    forall j
      ensures Listed(s', j) ==> Listed(s, j)
    {
      if e.RecoverCommit? {
        HeadIsListed(s, s');
      } else {
        NotListed(s', j);
      }
    }
    forall n | n in s'.nodes
      ensures NodeTrue(s', n, s'.nodes[n])
    {
      ForeignNodeTrue(s, s', None, n, s.nodes[n]);
    }
  }

  lemma NotListed(s: Sys, k: string)
    requires s.phase.Up? || s.phase.Down?
    ensures !Listed(s, k)
  {
  }

  lemma MarkStaysTrue(s: Sys)
    requires Inv(s) && S.AllAlive(s) && AllTrue(s) && Can(s, RecoverMark)
    ensures AllTrue(After(s, RecoverMark))
  {
    hide RowsOk, RestOk, NodesOk, At, IsActive, MarkedOk, FatesFit, KeysOnce, N.Alive, OneTransmittingPerNode;
    var s' := After(s, RecoverMark);
    forall n | n in s'.nodes
      ensures NodeTrue(s', n, s'.nodes[n])
    {
      assert NodeTrue(s, n, s.nodes[n]);
      MarkKeepsHistory(s, n, s.nodes[n].accepted, s.nodes[n].served);
    }
  }

  lemma MarkKeepsHistory(s: Sys, n: string, accepted: seq<N.Ticket>, served: seq<N.Served>)
    requires Can(s, RecoverMark)
    ensures var s' := After(s, RecoverMark);
      (KeysOnce(s, n, accepted) ==> KeysOnce(s', n, accepted)) && (FatesFit(s, served) ==> FatesFit(s', served))
  {
    hide FateFits;
    var s' := After(s, RecoverMark);
    assert forall j :: Listed(s', j) <==> Listed(s, j);
    assert forall j :: CallsOf(s', j) == CallsOf(s, j);
  }

  lemma AskStaysTrue(s: Sys, n: string)
    requires AllTrue(s) && Can(s, Ask(n))
    ensures AllTrue(After(s, Ask(n)))
  {
    hide KeysOnce, FatesFit, Dated;
    var s' := After(s, Ask(n));
    forall m | m in s'.nodes
      ensures NodeTrue(s', m, s'.nodes[m])
    {
      assert NodeTrue(s, m, s.nodes[m]);
      SameHistoryStaysTrue(s, m, s.nodes[m], s'.nodes[m]);
      SameButNodes(s, s', m, s'.nodes[m]);
    }
  }

  lemma SameButNodes(s: Sys, s': Sys, n: string, node: N.Node)
    requires s' == s.(nodes := s'.nodes) && NodeTrue(s, n, node)
    ensures NodeTrue(s', n, node)
  {
  }

  // No node at all, or only new ones.
  lemma FreshNodesAreTrue(s: Sys, e: Event)
    requires Can(s, e) && (e.Boot? || e.Crash?)
    ensures AllTrue(After(s, e))
  {
  }

  lemma StepStaysTrue(s: Sys, e: Event)
    requires Inv(s) && S.AllAlive(s) && AllHonest(s) && AllTrue(s) && Can(s, e)
    ensures AllTrue(After(s, e))
  {
    hide Inv, S.AllAlive, AllHonest, AllTrue, After, Can;
    match e
    case Work(n, at, heard) => WorkStaysTrue(s, n, at, heard);
    case Enqueue(x, at) => EnqueueStaysTrue(s, x, at);
    case RecoverPut(enqueuedAt, at) => RecoverPutStaysTrue(s, enqueuedAt, at);
    case RecoverMark => MarkStaysTrue(s);
    case Ask(n) => AskStaysTrue(s, n);
    case Boot(_, _, _) => FreshNodesAreTrue(s, e);
    case Crash => FreshNodesAreTrue(s, e);
    case _ => QuietStepStaysTrue(s, e);
  }

  lemma {:induction false} RunStaysTrue(states: seq<Sys>, events: seq<Event>, i: nat)
    requires Run(states, events) && i <= |events|
    ensures AllTrue(states[i])
  {
    hide Inv, S.AllAlive, AllHonest, NodeTrue, After, Can;
    if i > 0 {
      RunStaysTrue(states, events, i - 1);
      RunStaysHonest(states, events, i - 1);
      S.RunKeepsInv(states, events, i - 1);
      StepStaysTrue(states[i - 1], events[i - 1]);
    }
  }

  // Over every run: a finished item of a node is SENT if and only if the answer recorded for the last
  // call of its intent came in time with ok, FAILED if and only if it came too late or without ok, and
  // REJECTED if and only if there was no call. All its calls belong to one transmit.
  lemma FateIsTheRadios(states: seq<Sys>, events: seq<Event>, i: nat, n: string, j: nat)
    requires Run(states, events) && i <= |events| && n in states[i].nodes
    requires j < |states[i].nodes[n].served| && states[i].nodes[n].served[j].fate.Some?
    ensures var x := states[i].nodes[n].served[j];
      var calls := CallsOf(states[i], x.ticket.item.MsgKey());
      && (x.fate == Some(SENT) <==> Confirmed(calls))
      && (x.fate == Some(FAILED) <==> Unconfirmed(calls))
      && (x.fate == Some(REJECTED) <==> calls == [])
      && (calls != [] ==> OneTransmit(calls))
  {
    hide Inv, S.AllAlive, After, Can, KeysOnce, Dated, Confirmed, Unconfirmed, OneTransmit;
    RunStaysTrue(states, events, i);
    S.RunKeepsInv(states, events, i);
    assert NodeTrue(states[i], n, states[i].nodes[n]);
    var k := states[i].nodes[n].served[j].ticket.item.MsgKey();
    if CallsOf(states[i], k) != [] {
      O.SendsAreOneTransmit(states[i], k);
    }
  }

  // Whoever is told of a delivery is told the truth: while the sender is told SENT and the other chats
  // are mirrored to, the radio had confirmed the item.
  lemma MirrorFollowsConfirmation(states: seq<Sys>, events: seq<Event>, i: nat, n: string)
    requires Run(states, events) && i <= |events| && n in states[i].nodes
    requires var w := states[i].nodes[n].worker; w.Mirroring? || (w.Closed? && w.ok)
    ensures Confirmed(CallsOf(states[i], states[i].nodes[n].worker.item.MsgKey()))
  {
    hide Inv, After, Can, Confirmed, OneTransmit;
    S.RunKeepsInv(states, events, i);
    HandView(states[i], n);
    JournalSaysWhatTheRadioSaid(states, events, i, states[i].nodes[n].worker.item.MsgKey());
  }

  // While a send is running the committed row also carries the instant the transmit started.
  lemma StartIsOnRecord(states: seq<Sys>, events: seq<Event>, i: nat, n: string)
    requires Run(states, events) && i <= |events| && n in states[i].nodes && states[i].nodes[n].worker.OnAir?
    ensures var node := states[i].nodes[n]; var row := At(states[i].db.committed, node.worker.item.MsgKey());
      && node.served != [] && node.served[|node.served| - 1].ticket.item == node.worker.item
      && row.Some? && row.value.txStartedAt.Some?
      && row.value.txStartedAt == node.served[|node.served| - 1].startedAt
  {
    hide Inv, After, Can, KeysOnce, FatesFit, N.InOrder, N.Timely, N.Mirrors, N.Paid, Underway, Describes;
    RunStaysTrue(states, events, i);
    S.RunKeepsInv(states, events, i);
    assert NodeTrue(states[i], n, states[i].nodes[n]);
    HandView(states[i], n);
  }

  lemma {:induction false} DueIsSent(conf: N.Conf, served: seq<N.Served>, m: N.Mirrored) returns (j: nat)
    requires m in N.MirrorsDue(conf, served)
    ensures j < |served| && served[j].fate == Some(SENT) && served[j].ticket.item == m.item
  {
    hide R.MirrorTargets;
    var k := |served| - 1;
    var x := served[k].ticket.item;
    if m in N.MirrorsDue(conf, served[..k]) {
      j := DueIsSent(conf, served[..k], m);
    } else {
      MirrorsForOneItem(R.MirrorTargets(conf.rooms, conf.messengers, x), x, m);
      j := k;
    }
  }

  lemma {:induction false} MirrorsForOneItem(refs: seq<ChannelRef>, x: QueueItem, m: N.Mirrored)
    requires m in N.MirrorsFor(refs, x)
    ensures m.item == x
  {
    if m in N.MirrorsFor(refs[1..], x) {
      MirrorsForOneItem(refs[1..], x, m);
    }
  }

  // No chat is ever shown a message the radio did not confirm: at every moment of every run, every
  // mirror attempted so far in this life was of an item whose last call came back with ok.
  lemma EveryMirrorWasConfirmed(states: seq<Sys>, events: seq<Event>, i: nat, n: string, t: nat)
    requires Run(states, events) && i <= |events| && n in states[i].nodes && t < |states[i].nodes[n].mirrored|
    ensures Confirmed(CallsOf(states[i], states[i].nodes[n].mirrored[t].item.MsgKey()))
  {
    hide Inv, After, Can, N.InOrder, N.Timely, N.InHand, N.Paid, N.Owed, N.MirrorsDue, Confirmed;
    S.RunKeepsInv(states, events, i);
    var node := states[i].nodes[n];
    var m := node.mirrored[t];
    assert N.Alive(node);
    assert (node.mirrored + N.Owed(node))[t] == m;
    var j := DueIsSent(node.conf, node.served, m);
    FateIsTheRadios(states, events, i, n, j);
  }
}
