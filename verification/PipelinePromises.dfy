/**
 * What the commit pipeline promises over every run with any number of crashes and restarts:
 * at most once on the air, persist before act, sound recovery, forward-only journal rows, bounded
 * airtime (docs/ARCHITECTURE.md section 11.1, lora_bridge/core/egress.py, journal.py, app.py).
 */
module PipelinePromises {
  import opened Domain
  import opened Pipeline
  import S = PipelineSafety
  import J = Journal
  import E = RadioWorker
  import N = NodeLife
  import T = TokenBucket

  // ---- At most once on the air ----------------------------------------------------------------

  // Event e, in state s, starts a `lora.send` for intent k.
  ghost predicate StartsSend(s: Sys, e: Event, k: string) {
    && Can(s, e) && e.Work?
    && s.nodes[e.node].worker.Ready? && s.nodes[e.node].worker.item.MsgKey() == k
  }

  // How many sends the first n events of a run started for intent k.
  ghost function Sends(states: seq<Sys>, events: seq<Event>, k: string, n: nat): nat
    requires Run(states, events) && n <= |events|
  {
    if n == 0 then 0
    else Sends(states, events, k, n - 1) + (if StartsSend(states[n - 1], events[n - 1], k) then 1 else 0)
  }

  // One step: the history of an intent's sends grows by exactly the send that started.
  lemma HistoryRecordsSends(s: Sys, e: Event, k: string)
    requires Inv(s) && Can(s, e)
    ensures |CallsOf(After(s, e), k)| == |CallsOf(s, k)| + (if StartsSend(s, e, k) then 1 else 0)
  {
    hide Inv, N.Put, N.Receive, N.Work, N.Enabled, Rebuilt, E.DbAfter, N.Accepts, N.NextOf;
  }

  lemma {:induction false} HistoryCountsSends(states: seq<Sys>, events: seq<Event>, k: string, n: nat)
    requires Run(states, events) && n <= |events|
    ensures |CallsOf(states[n], k)| == Sends(states, events, k, n)
  {
    hide Inv, Can, After, StartsSend;
    if n == 0 {
      NothingSentYet(states[0], k);
    } else {
      HistoryCountsSends(states, events, k, n - 1);
      S.RunKeepsInv(states, events, n - 1);
      HistoryRecordsSends(states[n - 1], events[n - 1], k);
    }
  }

  lemma NothingSentYet(s: Sys, k: string)
    requires Initial(s)
    ensures CallsOf(s, k) == []
  {
  }

  lemma InHandIsOneTransmit(v: View, w: E.Worker, life: nat, n: string, turn: nat)
    requires !w.Idle? && InHandOk(v, w, life, n, turn) && v.calls != []
    ensures OneTransmit(v.calls)
  {
  }

  lemma SendsAreOneTransmit(s: Sys, k: string)
    requires Inv(s) && CallsOf(s, k) != []
    ensures OneTransmit(CallsOf(s, k))
  {
    hide QueuedOk, InHandOk, DistinctKeys, Owned, OneTransmit, TableOk;
    var v := ViewOf(s, k);
    if IsActive(s, k) {
      var n := s.owner[k];
      var x :| x in Active(s.nodes[n]) && x.MsgKey() == k;
      assert NodeOk(s, n, s.nodes[n]);
      if x in s.nodes[n].stream.Pending() {
        NeverSentWhileQueued(v, x);
      }
      InHandIsOneTransmit(v, s.nodes[n].worker, s.life, n, |s.nodes[n].served|);
    }
  }

  lemma NeverSentWhileQueued(v: View, x: QueueItem)
    requires QueuedOk(v, x)
    ensures v.calls == []
  {
  }

  // Over every run, with any crashes in between: all sends of one intent fall inside a single
  // `transmit` of a single life, there are at most BUSY_RETRIES of them, and every one but the
  // last came back busy.
  lemma {:induction false} AtMostOnceOnAir(states: seq<Sys>, events: seq<Event>, k: string, n: nat)
    requires Run(states, events) && n <= |events|
    ensures Sends(states, events, k, n) <= E.BUSY_RETRIES
    ensures |CallsOf(states[n], k)| == Sends(states, events, k, n)
    ensures Sends(states, events, k, n) > 0 ==> OneTransmit(CallsOf(states[n], k))
  {
    hide Inv, Can, After, Sends;
    HistoryCountsSends(states, events, k, n);
    S.RunKeepsInv(states, events, n);
    if CallsOf(states[n], k) != [] {
      SendsAreOneTransmit(states[n], k);
    }
  }

  // ---- Persist before act ---------------------------------------------------------------------

  // Whenever a send is running, the committed row of its intent says TRANSMITTING and describes
  // exactly what is being sent, where to, and for whom.
  lemma PersistBeforeAct(states: seq<Sys>, events: seq<Event>, i: nat, n: string)
    requires Run(states, events) && i <= |events|
    requires n in states[i].nodes && states[i].nodes[n].worker.OnAir?
    ensures var x := states[i].nodes[n].worker.item;
      var row := At(states[i].db.committed, x.MsgKey());
      HasStatus(row, TRANSMITTING) && Describes(row.value, x) && x.target.transportId == n
  {
    hide RowsOk, RestOk, TodoOk, QuietOk, After, Can, NodeOk;
    S.RunKeepsInv(states, events, i);
    assert NodeOk(states[i], n, states[i].nodes[n]);
    OnAirIsPersisted(states[i], n, states[i].nodes[n]);
  }

  lemma OnAirIsPersisted(s: Sys, n: string, node: N.Node)
    requires NodeOk(s, n, node) && node.worker.OnAir?
    ensures var x := node.worker.item;
      var row := At(s.db.committed, x.MsgKey());
      HasStatus(row, TRANSMITTING) && Describes(row.value, x) && x.target.transportId == n
  {
    hide AllQueuedOk, DistinctKeys, Underway;
    assert Active(node)[0] == node.worker.item;
  }

  // At every moment of a run, at most one committed row per target node says TRANSMITTING.
  lemma OneAmbiguousOrphanPerNode(states: seq<Sys>, events: seq<Event>, i: nat)
    requires Run(states, events) && i <= |events|
    ensures OneTransmittingPerNode(states[i].db.committed)
  {
    hide Inv, After, Can, OneTransmittingPerNode;
    S.RunKeepsInv(states, events, i);
    S.TransmittingIsUnique(states[i]);
  }

  // ---- Sound recovery -------------------------------------------------------------------------

  // An intent that `recover` re-queues was never sent before, in any life, and what is re-queued
  // has its row's key, target and payload.
  lemma {:induction false} RecoveredWasNeverSent(states: seq<Sys>, events: seq<Event>, i: nat,
                                                 messengers: set<string>, now: real)
    requires Run(states, events) && i < |events| && events[i].RecoverPut?
    ensures var e := states[i].phase.todo[0]; var x := Rebuilt(e, messengers, now);
      && Sends(states, events, e.msgKey, i) == 0
      && e.row.status == PENDING && At(states[i].db.committed, e.msgKey) == Some(e.row)
      && x.MsgKey() == e.msgKey
      && x.target == ChannelRef(e.row.targetNode, e.row.targetEndpoint)
      && x.payload.text == e.row.payload
      && (x.fromMessenger <==> x.source.transportId in messengers)
  {
    hide Inv, After, Sends, AtRest, Rebuilt, N.Enabled;
    var s := states[i];
    S.RunKeepsInv(states, events, i);
    S.OrphanAtRest(s);
    S.PendingOrphanIsQueueable(s, messengers, now);
    NeverSentWhileQueued(ViewOf(s, s.phase.todo[0].msgKey), Rebuilt(s.phase.todo[0], messengers, now));
    HistoryCountsSends(states, events, s.phase.todo[0].msgKey, i);
    assert J.Orphan(s.phase.todo[0].row);
    RebuiltFields(s.phase.todo[0], messengers, now);
  }

  lemma RebuiltFields(e: J.Entry, messengers: set<string>, now: real)
    ensures var x := Rebuilt(e, messengers, now);
      && x.target == ChannelRef(e.row.targetNode, e.row.targetEndpoint) && x.payload.text == e.row.payload
      && (x.fromMessenger <==> x.source.transportId in messengers)
  {
  }

  // And exactly these are queued: an orphan that recovery handles waits in a queue afterwards if and
  // only if its node is configured and takes one more message at that moment.
  lemma OrphanIsQueuedIff(states: seq<Sys>, events: seq<Event>, i: nat)
    requires Run(states, events) && i < |events| && events[i].RecoverPut?
    ensures var e := states[i].phase.todo[0]; var n := e.row.targetNode;
      IsActive(states[i + 1], e.msgKey) <==> n in states[i].nodes && N.Accepts(states[i].nodes[n], events[i].at)
  {
    hide Inv, After, N.Accepts, IsActive, N.Enabled, S.AllAlive;
    S.RunKeepsInv(states, events, i);
    S.RecoverPutQueuesIff(states[i], events[i].enqueuedAt, events[i].at);
  }

  // When the bridge comes up, no row is left TRANSMITTING: every ambiguous orphan became UNKNOWN.
  lemma NoAmbiguityAfterRecovery(states: seq<Sys>, events: seq<Event>, i: nat, k: string)
    requires Run(states, events) && i < |events| && events[i].RecoverDone?
    ensures !HasStatus(At(states[i].db.committed, k), TRANSMITTING)
  {
    hide Inv, After, S.HoldsTransmitting;
    S.RunKeepsInv(states, events, i + 1);
    var s := states[i + 1];
    DoneOnlyComesUp(states[i]);
    if HasStatus(At(s.db.committed, k), TRANSMITTING) {
      S.TransmittingIsInHand(s, k);
      S.RunKeepsInv(states, events, i);
      IdleWhileRecovering(states[i], s.owner[k]);
      IdleHoldsNothing(s.nodes[s.owner[k]].worker, k);
    }
  }

  lemma DoneOnlyComesUp(s: Sys)
    requires Can(s, RecoverDone)
    ensures After(s, RecoverDone) == s.(phase := Up)
  {
  }

  lemma IdleWhileRecovering(s: Sys, n: string)
    requires Inv(s) && s.phase.Recovering? && n in s.nodes
    ensures s.nodes[n].worker.Idle?
  {
  }

  lemma IdleHoldsNothing(w: E.Worker, k: string)
    requires w.Idle?
    ensures !S.HoldsTransmitting(w, k)
  {
  }

  // ---- Rows only move forward -----------------------------------------------------------------

  function StatusIn(row: Option<J.Row>): Option<DeliveryStatus> {
    if row.Some? then Some(row.value.status) else None
  }

  // The moves a committed row may make in one step; TRANSMITTING can be skipped to only from
  // nothing or PENDING, and only SENT rows disappear.
  predicate Forward(before: Option<DeliveryStatus>, after: Option<DeliveryStatus>) {
    || after == before
    || (before == None && after in {Some(PENDING), Some(TRANSMITTING), Some(REJECTED)})
    || (before == Some(PENDING) && after in {Some(TRANSMITTING), Some(REJECTED)})
    || (before == Some(TRANSMITTING) && after in {Some(SENT), Some(FAILED), Some(UNKNOWN)})
    || (before == Some(SENT) && after == None)
  }

  lemma InHandMovesForward(v: View, w: E.Worker, life: nat, n: string, turn: nat)
    requires !w.Idle? && InHandOk(v, w, life, n, turn)
    ensures Forward(StatusIn(v.committed), StatusIn(v.working))
  {
  }

  lemma QueuedMovesForward(v: View, x: QueueItem)
    requires QueuedOk(v, x)
    ensures Forward(StatusIn(v.committed), StatusIn(v.working))
  {
  }

  lemma MarkedMovesForward(v: View, row: J.Row)
    requires MarkedOk(v, row)
    ensures Forward(StatusIn(v.committed), StatusIn(v.working))
  {
  }

  // What is executed but not committed is one legal move ahead of what is committed.
  lemma WorkingIsAhead(s: Sys, k: string)
    requires Inv(s)
    ensures Forward(StatusIn(At(s.db.committed, k)), StatusIn(At(s.db.working, k)))
  {
    hide QueuedOk, InHandOk, DistinctKeys, Owned, AtRest, MarkedOk, Forward;
    var v := ViewOf(s, k);
    Stays(StatusIn(v.committed));
    if IsActive(s, k) {
      var n := s.owner[k];
      var x :| x in Active(s.nodes[n]) && x.MsgKey() == k;
      assert NodeOk(s, n, s.nodes[n]);
      if x in s.nodes[n].stream.Pending() {
        QueuedMovesForward(v, x);
      } else {
        InHandMovesForward(v, s.nodes[n].worker, s.life, n, |s.nodes[n].served|);
      }
    } else if BeingMarked(s, k) {
      MarkedMovesForward(v, s.phase.todo[0].row);
    } else if k in s.owner {
      S.AtRestAgrees(v);
    }
  }

  lemma Stays(status: Option<DeliveryStatus>)
    ensures Forward(status, status)
  {
  }

  lemma CommitTakesWorking(s: Sys, e: Event, k: string)
    requires Can(s, e)
    ensures At(After(s, e).db.committed, k) == At(s.db.committed, k)
         || At(After(s, e).db.committed, k) == At(s.db.working, k)
  {
    hide N.Put, N.Receive, N.Work, N.Enabled, Rebuilt, N.Accepts, N.NextOf;
  }

  // Over every run, crashes included: a committed row only ever moves from PENDING to TRANSMITTING
  // to SENT, FAILED or UNKNOWN, or from PENDING to REJECTED; a SENT row may be pruned.
  lemma RowsMoveForward(states: seq<Sys>, events: seq<Event>, i: nat, k: string)
    requires Run(states, events) && i < |events|
    ensures Forward(StatusIn(At(states[i].db.committed, k)), StatusIn(At(states[i + 1].db.committed, k)))
  {
    hide Inv, After, Can, Forward;
    S.RunKeepsInv(states, events, i);
    CommitTakesWorking(states[i], events[i], k);
    WorkingIsAhead(states[i], k);
    Stays(StatusIn(At(states[i].db.committed, k)));
  }

  // Not finished yet: a row that may still lead to a send.
  predicate Open(row: Option<J.Row>) {
    HasStatus(row, PENDING) || HasStatus(row, TRANSMITTING)
  }

  // Both tables are past it, and the key was given out.
  ghost predicate Over(s: Sys, k: string) {
    k in s.owner && !Open(At(s.db.working, k)) && !Open(At(s.db.committed, k))
  }

  predicate Terminal(row: Option<J.Row>) {
    HasStatus(row, SENT) || HasStatus(row, FAILED) || HasStatus(row, REJECTED) || HasStatus(row, UNKNOWN)
  }

  lemma TerminalIsOver(s: Sys, k: string)
    requires Inv(s) && Terminal(At(s.db.committed, k))
    ensures Over(s, k)
  {
    hide Inv;
    WorkingIsAhead(s, k);
    RowHasOwner(s, k);
  }

  lemma RowHasOwner(s: Sys, k: string)
    requires Inv(s) && k in s.db.committed
    ensures k in s.owner
  {
    hide NodesOk, RestOk, TodoOk, QuietOk;
  }

  // The worker of a finished item only tidies up.
  lemma OverInHand(v: View, w: E.Worker, life: nat, n: string, turn: nat,
                   ttl: real, now: real, heard: Outcome, targets: seq<ChannelRef>, calls: seq<SendCall>)
    requires !w.Idle? && InHandOk(v, w, life, n, turn) && !Open(v.working) && !Open(v.committed)
    ensures var v' := WorkedView(v, E.Next(w, ttl, now, heard, targets).1, calls);
      !Open(v'.working) && !Open(v'.committed) && !w.Ready?
  {
  }

  lemma OverThroughWork(s: Sys, n: string, at: real, heard: Outcome, k: string)
    requires Inv(s) && Can(s, Work(n, at, heard)) && Over(s, k)
    ensures Over(After(s, Work(n, at, heard)), k) && !StartsSend(s, Work(n, at, heard), k)
  {
    hide RowsOk, RestOk, TodoOk, QuietOk, InHandOk, E.Next, N.Work, N.Targets, Open, WorkedView,
      DistinctKeys, Owned, AllQueuedOk;
    var w, v' := s.nodes[n].worker, ViewOf(After(s, Work(n, at, heard)), k);
    assert NodeOk(s, n, s.nodes[n]);
    WorkTouchesOwnKey(s, n, at, heard);
    assert v'.working == At(After(s, Work(n, at, heard)).db.working, k);
    if w.item.MsgKey() == k {
      OverInHand(ViewOf(s, k), w, s.life, n, |s.nodes[n].served|, s.nodes[n].conf.ttl, at, heard,
                 N.Targets(s.nodes[n], w.item), CallsNext(ViewOf(s, k), w, s.life, n, |s.nodes[n].served|, heard));
    }
  }

  lemma OverElsewhere(s: Sys, e: Event, k: string)
    requires Can(s, e) && Over(s, k) && !e.Work?
    ensures Over(After(s, e), k)
  {
    hide N.Put, N.Receive, N.Work, N.Enabled, Rebuilt, N.Accepts, N.NextOf;
  }

  lemma OverStays(s: Sys, e: Event, k: string)
    requires Inv(s) && Can(s, e) && Over(s, k)
    ensures Over(After(s, e), k) && !StartsSend(s, e, k)
  {
    hide Inv, Over, After;
    if e.Work? {
      OverThroughWork(s, e.node, e.at, e.heard, k);
    } else {
      OverElsewhere(s, e, k);
    }
  }

  lemma {:induction false} OverForGood(states: seq<Sys>, events: seq<Event>, i: nat, j: nat, k: string)
    requires Run(states, events) && i <= j <= |events| && Over(states[i], k)
    ensures Over(states[j], k) && Sends(states, events, k, j) == Sends(states, events, k, i)
  {
    hide Inv, Over, After, Can, StartsSend;
    if i < j {
      OverForGood(states, events, i, j - 1, k);
      S.RunKeepsInv(states, events, j - 1);
      OverStays(states[j - 1], events[j - 1], k);
    }
  }

  // Over every run, crashes and restarts included: once an intent's terminal status is committed,
  // its row never says PENDING or TRANSMITTING again, pruned or not, and it is never sent again.
  lemma TerminalIsForGood(states: seq<Sys>, events: seq<Event>, i: nat, j: nat, k: string)
    requires Run(states, events) && i <= j <= |events| && Terminal(At(states[i].db.committed, k))
    ensures !Open(At(states[j].db.committed, k)) && Sends(states, events, k, j) == Sends(states, events, k, i)
  {
    hide Inv, Open, After, Can, StartsSend, Sends;
    S.RunKeepsInv(states, events, i);
    TerminalIsOver(states[i], k);
    OverForGood(states, events, i, j, k);
  }

  // ---- The node theorems, inside the whole system ---------------------------------------------

  // Airtime: at every moment of a run, the transmits a node started within [a, b] in its current
  // life number at most C + r * (b - a + ttl).
  lemma AirtimeOverRuns(states: seq<Sys>, events: seq<Event>, i: nat, n: string, a: real, b: real)
    requires Run(states, events) && i <= |events| && n in states[i].nodes
    requires states[i].nodes[n].conf.limits.Some? && states[i].nodes[n].conf.ttl >= 0.0 && a <= b
    ensures var node := states[i].nodes[n]; var l := node.conf.limits.value;
      N.StartedWithin(node.served, a, b) as real <= l.capacity + T.Refill(l.rate, b - a + node.conf.ttl)
  {
    hide Inv, After, Can, N.InOrder, N.InHand, N.Timely, N.Mirrors, N.Paid, T.Refill, N.StartedWithin;
    S.RunKeepsInv(states, events, i);
    N.AirtimeIsBounded(states[i].nodes[n], states[i].nodes[n].conf.limits.value, a, b);
  }

  // The same in the terms of the configuration, for a span of one configured window: a full bucket,
  // one window's messages, and what the rate lets in over one ttl.
  lemma AirtimePerWindow(states: seq<Sys>, events: seq<Event>, i: nat, n: string, spec: RateSpec, a: real)
    requires Run(states, events) && i <= |events| && n in states[i].nodes
    requires spec.windowSeconds > 0.0 && spec.msgsPerWindow >= 0
    requires states[i].nodes[n].conf.limits == Some(T.LimitsOf(spec)) && states[i].nodes[n].conf.ttl >= 0.0
    ensures var node := states[i].nodes[n];
      var full := if spec.burst >= spec.msgsPerWindow then spec.burst else spec.msgsPerWindow;
      (N.StartedWithin(node.served, a, a + spec.windowSeconds) - full - spec.msgsPerWindow) as real * spec.windowSeconds
        <= node.conf.ttl * spec.msgsPerWindow as real
  {
    hide After, Can, T.Refill, N.StartedWithin;
    var node, l, w := states[i].nodes[n], T.LimitsOf(spec), spec.windowSeconds;
    AirtimeOverRuns(states, events, i, n, a, a + w);
    assert a + w - a + node.conf.ttl == w + node.conf.ttl;
    T.RefillAdds(l.rate, w, node.conf.ttl);
    T.RefillInWindows(spec, w);
    T.RefillInWindows(spec, node.conf.ttl);
    var started := N.StartedWithin(node.served, a, a + w);
    T.Scaled(started as real, l.capacity + T.Refill(l.rate, w) + T.Refill(l.rate, node.conf.ttl), w);
  }

  // Conservation at every moment of a run.
  lemma FatesOverRuns(states: seq<Sys>, events: seq<Event>, i: nat, n: string)
    requires Run(states, events) && i <= |events| && n in states[i].nodes
    ensures var node := states[i].nodes[n];
      |node.accepted| == |node.stream.Pending()| + N.InFlight(node) + N.Tally(node.served, Some(SENT))
        + N.Tally(node.served, Some(FAILED)) + N.Tally(node.served, Some(REJECTED))
  {
    hide Inv, After, Can, N.Alive, N.Tally, N.InFlight;
    S.RunKeepsInv(states, events, i);
    N.EveryItemHasOneFate(states[i].nodes[n]);
  }

  // What was confirmed on the air is in accept order, at every moment of a run.
  lemma SentOrderOverRuns(states: seq<Sys>, events: seq<Event>, i: nat, n: string)
    requires Run(states, events) && i <= |events| && n in states[i].nodes
    ensures var node := states[i].nodes[n];
      IsSubsequence(N.Chosen(node.served, (s: N.Served) => s.fate == Some(SENT)), N.Items(node.accepted))
  {
    hide Inv, After, Can, N.Alive, IsSubsequence, N.Items;
    S.RunKeepsInv(states, events, i);
    N.SentInAcceptOrder(states[i].nodes[n]);
  }

  // Mirrors at every moment of a run: a chat was sent exactly the confirmed items meant for it, each
  // once, in accept order; what its node still owes it comes last.
  lemma MirrorsOverRuns(states: seq<Sys>, events: seq<Event>, i: nat, n: string, chat: ChannelRef)
    requires Run(states, events) && i <= |events| && n in states[i].nodes && N.WellWired(states[i].nodes[n].conf)
    ensures var node := states[i].nodes[n];
      var meant := N.Chosen(node.served,
        (s: N.Served) => s.fate == Some(SENT) && N.Reaches(node.conf, s.ticket.item, chat));
      && meant == N.MirroredTo(node.mirrored, chat) + N.MirroredTo(N.Owed(node), chat)
      && IsSubsequence(meant, N.Items(node.accepted))
  {
    hide Inv, After, Can, N.Alive, IsSubsequence, N.Items, N.Chosen, N.MirroredTo, N.Owed, N.WellWired, N.Reaches;
    S.RunKeepsInv(states, events, i);
    N.ChatMirrorsFollowSent(states[i].nodes[n], chat);
  }

  // A chat that was mirrored to got an item whose SENT was committed first: when a mirror of x is
  // attempted, the committed row of x says SENT.
  lemma MirrorFollowsCommittedSent(states: seq<Sys>, events: seq<Event>, i: nat, n: string)
    requires Run(states, events) && i <= |events|
    requires n in states[i].nodes && states[i].nodes[n].worker.Mirroring?
    ensures HasStatus(At(states[i].db.committed, states[i].nodes[n].worker.item.MsgKey()), SENT)
  {
    hide RowsOk, RestOk, TodoOk, QuietOk, After, Can, AllQueuedOk, DistinctKeys, Owned, OneTransmit;
    S.RunKeepsInv(states, events, i);
    assert NodeOk(states[i], n, states[i].nodes[n]);
  }
}
