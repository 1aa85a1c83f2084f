/**
 * Safety of the commit pipeline over every run: every step keeps the invariant of Pipeline, and
 * the promises of the journal follow from it.
 */
module PipelineSafety {
  import opened Domain
  import opened Pipeline
  import J = Journal
  import Q = CommitQueue
  import E = RadioWorker
  import N = NodeLife

  // ---- Commits by enqueue tasks ---------------------------------------------------------------

  lemma PublishIsOnlyPublishing(s: Sys, s': Sys)
    requires s'.db == s.db.Published() && s'.owner == s.owner && s'.air == s.air && s'.life == s.life
    ensures OnlyKey(s, s', None) && forall k :: ViewOf(s', k) == ViewOf(s, k).Published()
  {
  }

  // No key is concerned, no node changes.
  lemma SameNodesStayOk(s: Sys, s': Sys)
    requires NodesOk(s) && s'.nodes == s.nodes && OnlyKey(s, s', None)
    ensures NodesOk(s')
  {
    hide NodeOk, OnlyKey;
    forall m | m in s'.nodes
      ensures NodeOk(s', m, s'.nodes[m])
    {
      ForeignNodeOk(s, s', None, m, s.nodes[m]);
    }
  }

  lemma InsertCommitKeepsInv(s: Sys)
    requires Inv(s) && Can(s, InsertCommit)
    ensures Inv(After(s, InsertCommit))
  {
    hide NodeOk, TableOk, OnlyKey, IsActive, AtRest, ViewOf;
    var s' := After(s, InsertCommit);
    PublishIsOnlyPublishing(s, s');
    SameNodesStayOk(s, s');
    SameNodesSameActive(s, s');
    NoMarkingWhenUp(s);
    NoMarkingWhenUp(s');
    forall k | k in s'.owner && !IsActive(s', k)
      ensures AtRest(ViewOf(s', k))
    {
      PublishKeepsViews(ViewOf(s, k));
    }
  }

  lemma SameNodesSameActive(s: Sys, s': Sys)
    requires s'.nodes == s.nodes && s'.owner == s.owner
    ensures forall k :: IsActive(s', k) <==> IsActive(s, k)
  {
  }

  // ---- The worker asks for the next item ------------------------------------------------------

  lemma ReceiveKeepsActive(node: N.Node)
    requires N.Alive(node) && node.worker.Idle?
    ensures Active(N.Receive(node)) == Active(node)
    ensures var node' := N.Receive(node);
      && (!node'.worker.Idle? ==> node'.worker.Holding? && node'.worker.item in node.stream.Pending())
      && (forall x :: x in node'.stream.Pending() ==> x in node.stream.Pending())
      && node'.served == node.served
  {
    hide N.InHand, N.Timely, N.Mirrors, N.Paid, N.Items;
    Q.ReceiveTakesOldest(node.stream, node.conf.capacity);
    assert [] + node.stream.Pending() == node.stream.Pending();
    assert [] + N.Receive(node).stream.Pending() == N.Receive(node).stream.Pending();
  }

  lemma AskKeepsInv(s: Sys, n: string)
    requires Inv(s) && Can(s, Ask(n)) && N.Alive(s.nodes[n])
    ensures Inv(After(s, Ask(n)))
  {
    hide TableOk, AtRest, ViewOf, N.Alive, N.Receive, Active, HasKey, HasStatus, InHandOk, QueuedOk;
    var s' := After(s, Ask(n));
    ReceiveKeepsActive(s.nodes[n]);
    forall k
      ensures ViewOf(s', k) == ViewOf(s, k) && (IsActive(s', k) <==> IsActive(s, k))
    {
      SameViews(s, s', k);
    }
    assert NodeOk(s', n, s'.nodes[n]) by { HeldWasQueued(s, s', n); }
    forall m | m in s'.nodes && m != n
      ensures NodeOk(s', m, s'.nodes[m])
    {
      assert NodeOk(s, m, s.nodes[m]);
    }
    NoMarkingWhenUp(s);
    NoMarkingWhenUp(s');
  }

  lemma SameViews(s: Sys, s': Sys, k: string)
    requires s'.db == s.db && s'.air == s.air
    ensures ViewOf(s', k) == ViewOf(s, k)
  {
  }

  lemma HeldWasQueued(s: Sys, s': Sys, n: string)
    requires n in s.nodes && n in s'.nodes && NodeOk(s, n, s.nodes[n]) && s'.owner == s.owner && s'.life == s.life
    requires forall k :: ViewOf(s', k) == ViewOf(s, k)
    requires Active(s'.nodes[n]) == Active(s.nodes[n])
    requires !s'.nodes[n].worker.Idle? ==> (s'.nodes[n].worker.Holding?
      && s'.nodes[n].worker.item in s.nodes[n].stream.Pending())
    requires forall x :: x in s'.nodes[n].stream.Pending() ==> x in s.nodes[n].stream.Pending()
    ensures NodeOk(s', n, s'.nodes[n])
  {
    hide ViewOf, QueuedOk, Active;
    if !s'.nodes[n].worker.Idle? {
      var x := s'.nodes[n].worker.item;
      assert QueuedOk(ViewOf(s', x.MsgKey()), x);
      QueuedIsHolding(ViewOf(s', x.MsgKey()), x, s'.life, n, |s'.nodes[n].served|);
    }
  }

  lemma QueuedIsHolding(v: View, x: QueueItem, life: nat, n: string, turn: nat)
    requires QueuedOk(v, x)
    ensures InHandOk(v, E.Holding(x), life, n, turn)
  {
  }

  // ---- Enqueueing -----------------------------------------------------------------------------

  lemma PutActive(node: N.Node, x: QueueItem, at: real)
    requires N.Alive(node)
    ensures var node' := N.Put(node, x, at);
      && node'.worker == node.worker && node'.served == node.served
      && node'.stream.Pending() == node.stream.Pending() + (if N.Accepts(node, at) then [x] else [])
      && Active(node') == Active(node) + (if N.Accepts(node, at) then [x] else [])
  {
    hide N.InHand, N.Timely, N.Mirrors, N.Paid, N.Items, N.Granted;
    if N.Accepts(node, at) {
      Q.SendAppends(node.stream, x, node.conf.capacity);
      assert Hand(node.worker) + (node.stream.Pending() + [x]) == Active(node) + [x];
    } else {
      assert node.stream.Pending() + [] == node.stream.Pending() && Active(node) + [] == Active(node);
    }
  }

  // A node that got one more item whose view is that of a queued item.
  lemma GrownNodeOk(s: Sys, s': Sys, n: string, node: N.Node, node': N.Node, x: QueueItem)
    requires NodeOk(s, n, node) && OnlyKey(s, s', Some(x.MsgKey())) && !HasKey(Active(node), x.MsgKey())
    requires node'.worker == node.worker && node'.served == node.served
    requires node'.stream.Pending() == node.stream.Pending() + [x] && Active(node') == Active(node) + [x]
    requires x.target.transportId == n && x.MsgKey() in s'.owner && s'.owner[x.MsgKey()] == n
    requires QueuedOk(ViewOf(s', x.MsgKey()), x)
    ensures NodeOk(s', n, node')
  {
    hide ViewOf, QueuedOk, InHandOk, OnlyKey;
    ForeignNodeOk(s, s', Some(x.MsgKey()), n, node);
    assert forall y :: y in Active(node) ==> y.MsgKey() != x.MsgKey();
  }

  lemma FreshKeyIsInactive(s: Sys, n: string, k: string)
    requires NodesOk(s) && n in s.nodes && k !in s.owner
    ensures !HasKey(Active(s.nodes[n]), k)
  {
    hide DistinctKeys, AllQueuedOk, WorkerOk, Active;
    assert Owned(s, n, Active(s.nodes[n]));
  }

  lemma EnqueueViews(s: Sys, x: QueueItem, at: real)
    requires RowsOk(s) && Can(s, Enqueue(x, at)) && N.Accepts(s.nodes[x.target.transportId], at)
    ensures var s', k := After(s, Enqueue(x, at)), x.MsgKey();
      && OnlyKey(s, s', Some(k)) && QueuedOk(ViewOf(s', k), x) && RowsOk(s')
  {
    var s', k := After(s, Enqueue(x, at)), x.MsgKey();
    assert s'.db == s.db.Executed(J.Insert(k, RowOf(x))) && s'.air == s.air && s'.life == s.life by {
      hide N.Put, N.Accepts, RowOf, J.Exec, RowsOk, N.Enabled;
    }
    assert s'.owner == s.owner[k := x.target.transportId] && k !in s.owner by {
      hide N.Put, N.Accepts, RowOf, J.Exec, RowsOk, N.Enabled;
    }
    hide After, Can, N.Accepts;
    InsertedRows(s, s', k, x);
  }

  lemma InsertedRows(s: Sys, s': Sys, k: string, x: QueueItem)
    requires RowsOk(s) && k == x.MsgKey() && k !in s.owner
    requires s'.db == s.db.Executed(J.Insert(k, RowOf(x))) && s'.air == s.air && s'.life == s.life
    requires s'.owner == s.owner[k := x.target.transportId]
    ensures OnlyKey(s, s', Some(k)) && QueuedOk(ViewOf(s', k), x) && RowsOk(s')
  {
  }

  lemma EnqueueKeepsInv(s: Sys, x: QueueItem, at: real)
    requires Inv(s) && Can(s, Enqueue(x, at)) && N.Alive(s.nodes[x.target.transportId])
    ensures Inv(After(s, Enqueue(x, at)))
  {
    hide RowsOk, NodeOk, OnlyKey, AtRest, QueuedOk, ViewOf, N.Put, N.Alive, N.Accepts, Active, BeingMarked, Listed;
    var n, k, s' := x.target.transportId, x.MsgKey(), After(s, Enqueue(x, at));
    PutActive(s.nodes[n], x, at);
    NoMarkingWhenUp(s);
    NoMarkingWhenUp(s');
    if N.Accepts(s.nodes[n], at) {
      EnqueueViews(s, x, at);
      FreshKeyIsInactive(s, n, k);
      GrownNodeOk(s, s', n, s.nodes[n], s'.nodes[n], x);
      NodesStayOk(s, s', n, k);
      assert x in Active(s'.nodes[n]);
      forall j | j != k && IsActive(s, j)
        ensures IsActive(s', j)
      {
        var y :| y in Active(s.nodes[s.owner[j]]) && y.MsgKey() == j;
        assert y in Active(s'.nodes[s'.owner[j]]);
      }
      RestStaysOk(s, s', k);
    } else {
      assert Active(s'.nodes[n]) == Active(s.nodes[n]);
      UnchangedButNode(s, s', n);
    }
  }

  // The same tables, owners and history give the same views.
  lemma SameTablesSameViews(s: Sys, s': Sys)
    requires s'.db == s.db && s'.air == s.air
    ensures forall k :: ViewOf(s', k) == ViewOf(s, k)
  {
  }

  // Only bookkeeping of one node changed: its limiter and its clock.
  lemma UnchangedButNode(s: Sys, s': Sys, n: string)
    requires Inv(s) && n in s.nodes && n in s'.nodes && s' == s.(nodes := s.nodes[n := s'.nodes[n]], phase := s'.phase)
    requires s'.nodes[n].worker == s.nodes[n].worker && s'.nodes[n].served == s.nodes[n].served
    requires s'.nodes[n].stream.Pending() == s.nodes[n].stream.Pending()
    ensures RowsOk(s') && NodesOk(s')
    ensures forall k :: ViewOf(s', k) == ViewOf(s, k) && (IsActive(s', k) <==> IsActive(s, k))
    ensures s'.phase == s.phase ==> RestOk(s') && TodoOk(s') && QuietOk(s')
  {
    SameTablesSameViews(s, s');
    UnchangedNodes(s, s', n);
    UnchangedActive(s, s', n);
    hide QueuedOk, InHandOk, DistinctKeys, HasKey, TableOk, AtRest, ViewOf, NodeOk, IsActive, At,
      MarkedOk, Listed, OneTransmittingPerNode;
    if s'.phase == s.phase {
      UnchangedTodo(s, s');
      UnchangedRest(s, s');
      assert QuietOk(s') by {
        assert s'.db == s.db;
      }
    }
  }

  lemma UnchangedActive(s: Sys, s': Sys, n: string)
    requires n in s.nodes && n in s'.nodes && s' == s.(nodes := s.nodes[n := s'.nodes[n]], phase := s'.phase)
    requires s'.nodes[n].worker == s.nodes[n].worker && s'.nodes[n].stream.Pending() == s.nodes[n].stream.Pending()
    ensures forall k :: IsActive(s', k) <==> IsActive(s, k)
  {
    hide HasKey;
    assert Active(s'.nodes[n]) == Active(s.nodes[n]);
  }

  lemma UnchangedNodes(s: Sys, s': Sys, n: string)
    requires NodesOk(s) && n in s.nodes && n in s'.nodes
    requires s' == s.(nodes := s.nodes[n := s'.nodes[n]], phase := s'.phase)
    requires s'.nodes[n].worker == s.nodes[n].worker && s'.nodes[n].served == s.nodes[n].served
    requires s'.nodes[n].stream.Pending() == s.nodes[n].stream.Pending()
    ensures NodesOk(s')
  {
    SameTablesSameViews(s, s');
    hide QueuedOk, InHandOk, DistinctKeys, ViewOf;
    forall m | m in s'.nodes
      ensures NodeOk(s', m, s'.nodes[m])
    {
      assert NodeOk(s, m, s.nodes[m]);
      assert Active(s'.nodes[m]) == Active(s.nodes[m]);
    }
  }

  lemma UnchangedTodo(s: Sys, s': Sys)
    requires TodoOk(s) && s'.phase == s.phase && s'.db == s.db && s'.owner == s.owner
    requires forall k :: ViewOf(s', k) == ViewOf(s, k) && (IsActive(s', k) <==> IsActive(s, k))
    ensures TodoOk(s')
  {
    hide ViewOf, IsActive, MarkedOk, At;
  }

  lemma UnchangedRest(s: Sys, s': Sys)
    requires RestOk(s) && s'.phase == s.phase && s'.db == s.db && s'.owner == s.owner
    requires forall k :: ViewOf(s', k) == ViewOf(s, k) && (IsActive(s', k) <==> IsActive(s, k))
    ensures RestOk(s')
  {
    hide ViewOf, IsActive, AtRest, At;
  }

  // ---- At most one TRANSMITTING row per node --------------------------------------------------

  ghost predicate HoldsTransmitting(w: E.Worker, k: string) {
    && (w.Marking? || w.Announcing? || w.Ready? || w.OnAir? || w.Closing?)
    && w.item.MsgKey() == k
  }

  lemma QueuedIsNotTransmitting(v: View, x: QueueItem)
    requires QueuedOk(v, x)
    ensures !HasStatus(v.committed, TRANSMITTING)
  {
  }

  lemma TransmittingInHand(v: View, w: E.Worker, life: nat, n: string, turn: nat)
    requires !w.Idle? && InHandOk(v, w, life, n, turn) && HasStatus(v.committed, TRANSMITTING)
    ensures HoldsTransmitting(w, w.item.MsgKey())
  {
  }

  // While the bridge is up, a committed TRANSMITTING row is in the hands of its node's worker.
  lemma {:induction false} TransmittingIsInHand(s: Sys, k: string)
    requires Inv(s) && s.phase.Up? && HasStatus(At(s.db.committed, k), TRANSMITTING)
    ensures k in s.owner && s.owner[k] == s.db.committed[k].targetNode
    ensures s.owner[k] in s.nodes && HoldsTransmitting(s.nodes[s.owner[k]].worker, k)
  {
    hide QueuedOk, InHandOk, AtRest, DistinctKeys, Owned, HoldsTransmitting;
    NoMarkingWhenUp(s);
    if !IsActive(s, k) {
      AtRestAgrees(ViewOf(s, k));
      assert false;
    }
    var n := s.owner[k];
    var x :| x in Active(s.nodes[n]) && x.MsgKey() == k;
    assert NodeOk(s, n, s.nodes[n]);
    if x in s.nodes[n].stream.Pending() {
      QueuedIsNotTransmitting(ViewOf(s, k), x);
    }
    TransmittingInHand(ViewOf(s, k), s.nodes[n].worker, s.life, n, |s.nodes[n].served|);
  }

  lemma AtRestAgrees(v: View)
    requires AtRest(v)
    ensures v.committed == v.working
  {
  }

  // At every moment of every life, also while down and while recovering.
  lemma TransmittingIsUnique(s: Sys)
    requires Inv(s)
    ensures OneTransmittingPerNode(s.db.committed)
  {
    if s.phase.Up? {
      hide Inv, HoldsTransmitting;
      forall j, k | j in s.db.committed && k in s.db.committed
        && s.db.committed[j].status == TRANSMITTING == s.db.committed[k].status
        && s.db.committed[j].targetNode == s.db.committed[k].targetNode
        ensures j == k
      {
        TransmittingIsInHand(s, j);
        TransmittingIsInHand(s, k);
        HoldsOneKey(s.nodes[s.owner[j]].worker, j, k);
      }
    }
  }

  lemma HoldsOneKey(w: E.Worker, j: string, k: string)
    requires HoldsTransmitting(w, j) && HoldsTransmitting(w, k)
    ensures j == k
  {
  }

  // ---- Crash ----------------------------------------------------------------------------------

  // What is left of a view after a crash.
  function Fallen(v: View): View {
    View(v.committed, v.committed, v.calls)
  }

  lemma CrashInHand(v: View, w: E.Worker, life: nat, n: string, turn: nat)
    requires !w.Idle? && InHandOk(v, w, life, n, turn)
    ensures AtRest(Fallen(v))
  {
  }

  lemma CrashElsewhere(v: View)
    ensures forall x :: QueuedOk(v, x) ==> AtRest(Fallen(v))
    ensures forall row :: MarkedOk(v, row) ==> AtRest(Fallen(v))
    ensures AtRest(v) ==> AtRest(Fallen(v))
  {
  }

  lemma CrashKeepsKey(s: Sys, k: string)
    requires Inv(s) && k in s.owner
    ensures AtRest(Fallen(ViewOf(s, k)))
  {
    hide QueuedOk, InHandOk, AtRest, DistinctKeys, Owned, MarkedOk, ViewOf, RowsOk, QuietOk;
    CrashElsewhere(ViewOf(s, k));
    if IsActive(s, k) {
      var n := s.owner[k];
      var x :| x in Active(s.nodes[n]) && x.MsgKey() == k;
      assert NodeOk(s, n, s.nodes[n]);
      if x !in s.nodes[n].stream.Pending() {
        CrashInHand(ViewOf(s, k), s.nodes[n].worker, s.life, n, |s.nodes[n].served|);
      }
    } else if BeingMarked(s, k) {
      assert MarkedOk(ViewOf(s, k), s.phase.todo[0].row);
    }
  }

  lemma DownRestOk(s: Sys)
    requires s.phase.Down? && forall k :: k in s.owner ==> AtRest(ViewOf(s, k))
    ensures RestOk(s) && TodoOk(s)
  {
  }

  lemma {:induction false} CrashKeepsInv(s: Sys)
    requires Inv(s)
    ensures Inv(After(s, Crash))
  {
    hide NodeOk, AtRest, TableOk, OneTransmittingPerNode, RestOk, TodoOk;
    var s' := After(s, Crash);
    TransmittingIsUnique(s);
    forall k | k in s'.owner
      ensures AtRest(ViewOf(s', k))
    {
      CrashKeepsKey(s, k);
      assert ViewOf(s', k) == Fallen(ViewOf(s, k));
    }
    DownRestOk(s');
  }

  // ---- Recovery -------------------------------------------------------------------------------

  lemma BootKeepsInv(s: Sys, confs: map<string, N.Conf>, now: real, orphans: seq<J.Entry>)
    requires Inv(s) && Can(s, Boot(confs, now, orphans))
    ensures Inv(After(s, Boot(confs, now, orphans)))
  {
    hide AtRest, OneTransmittingPerNode, NodeOk, IsActive, MarkedOk;
    var s' := After(s, Boot(confs, now, orphans));
    NothingActiveWhenDown(s);
    NewNodesAreEmpty(s', confs, now);
    forall k | k in s'.owner && HasStatus(At(s'.db.working, k), TRANSMITTING)
      ensures Listed(s', k)
    {
      assert J.Entry(k, s.db.working[k]) in orphans;
    }
  }

  lemma NothingActiveWhenDown(s: Sys)
    requires s.nodes == map[]
    ensures forall k :: !IsActive(s, k)
  {
  }

  lemma NewNodesAreEmpty(s: Sys, confs: map<string, N.Conf>, now: real)
    requires s.nodes == map n | n in confs :: N.New(confs[n], now)
    ensures NodesOk(s) && forall k :: !IsActive(s, k)
  {
    assert forall n :: n in s.nodes ==> Active(s.nodes[n]) == [];
  }

  // An orphan still to be handled is at rest under its row.
  lemma OrphanAtRest(s: Sys)
    requires Inv(s) && s.phase.Recovering? && s.phase.todo != [] && !s.phase.marking
    ensures var e := s.phase.todo[0]; var v := ViewOf(s, e.msgKey);
      && e.msgKey in s.owner && !IsActive(s, e.msgKey) && J.Orphan(e.row)
      && v.working == Some(e.row) && v.committed == Some(e.row)
      && (v.calls != [] ==> OneTransmit(v.calls) && e.row.status == TRANSMITTING)
  {
    hide NodesOk, RowsOk, IsActive, QuietOk;
    assert s.phase.todo[0].msgKey in s.owner;
  }

  lemma MarkViews(s: Sys, s': Sys, k: string)
    requires s' == s.(db := s.db.Executed(J.SetStatus(k, UNKNOWN)), phase := s'.phase) && k in s.db.working
    ensures OnlyKey(s, s', Some(k))
    ensures ViewOf(s', k) == ViewOf(s, k).(working := Some(s.db.working[k].(status := UNKNOWN)))
    ensures RowsOk(s) ==> RowsOk(s')
  {
  }

  lemma RecoverMarkKeepsInv(s: Sys)
    requires Inv(s) && Can(s, RecoverMark)
    ensures Inv(After(s, RecoverMark))
  {
    hide NodeOk, AtRest, RowsOk, OneTransmittingPerNode, OnlyKey, ViewOf, IsActive, OneTransmit;
    var s', e := After(s, RecoverMark), s.phase.todo[0];
    OrphanAtRest(s);
    WorkingOf(s, e.msgKey);
    MarkViews(s, s', e.msgKey);
    SameNodesSameActive(s, s');
    OtherNodesStayOk(s, s', e.msgKey);
    assert forall j :: Listed(s, j) ==> Listed(s', j);
    RestStaysOk(s, s', e.msgKey);
    MarkKeepsTodo(s, s');
  }

  lemma WorkingOf(s: Sys, k: string)
    ensures ViewOf(s, k).working == At(s.db.working, k) && ViewOf(s, k).committed == At(s.db.committed, k)
    ensures ViewOf(s, k).working.Some? ==> k in s.db.working && s.db.working[k] == ViewOf(s, k).working.value
  {
  }

  lemma MarkKeepsTodo(s: Sys, s': Sys)
    requires Inv(s) && Can(s, RecoverMark) && s' == After(s, RecoverMark)
    requires OnlyKey(s, s', Some(s.phase.todo[0].msgKey)) && forall k :: IsActive(s', k) <==> IsActive(s, k)
    requires MarkedOk(ViewOf(s', s.phase.todo[0].msgKey), s.phase.todo[0].row)
    ensures TodoOk(s')
  {
    hide NodesOk, RowsOk, IsActive, QuietOk, RestOk, MarkedOk;
    forall i | 1 <= i < |s'.phase.todo|
      ensures At(s'.db.working, s'.phase.todo[i].msgKey) == Some(s'.phase.todo[i].row)
    {
      var k := s.phase.todo[i].msgKey;
      assert k != s.phase.todo[0].msgKey;
      WorkingOf(s, k);
      WorkingOf(s', k);
    }
  }

  // Nothing but key k changed, and k belongs to no live item.
  lemma OtherNodesStayOk(s: Sys, s': Sys, k: string)
    requires NodesOk(s) && s'.nodes == s.nodes && OnlyKey(s, s', Some(k)) && k in s.owner && !IsActive(s, k)
    ensures NodesOk(s')
  {
    hide NodeOk, OnlyKey, Active, HasKey;
    forall m | m in s'.nodes
      ensures NodeOk(s', m, s'.nodes[m])
    {
      if s.owner[k] != m {
        OwnersAgree(s, s', k);
        ForeignKey(s, s', m, s.nodes[m], k);
      }
      ForeignNodeOk(s, s', Some(k), m, s.nodes[m]);
    }
  }

  lemma OwnersAgree(s: Sys, s': Sys, k: string)
    requires OnlyKey(s, s', Some(k)) && k in s.owner
    ensures k in s'.owner && s'.owner[k] == s.owner[k]
  {
  }

  lemma RecoverCommitKeepsInv(s: Sys)
    requires Inv(s) && Can(s, RecoverCommit)
    ensures Inv(After(s, RecoverCommit))
  {
    hide NodeOk, AtRest, TableOk, OneTransmittingPerNode, OnlyKey, IsActive, ViewOf;
    var s', k := After(s, RecoverCommit), s.phase.todo[0].msgKey;
    PublishIsOnlyPublishing(s, s');
    SameNodesStayOk(s, s');
    SameNodesSameActive(s, s');
    MarkedComesToRest(ViewOf(s, k), s.phase.todo[0].row);
    TailOfTodo(s, s');
    forall j | j in s'.owner && !IsActive(s', j)
      ensures AtRest(ViewOf(s', j)) && (HasStatus(At(s'.db.working, j), TRANSMITTING) ==> Listed(s', j))
    {
      PublishKeepsViews(ViewOf(s, j));
      WorkingOf(s', j);
      WorkingOf(s, j);
    }
    PublishKeepsUnique(s);
  }

  lemma MarkedComesToRest(v: View, row: J.Row)
    requires MarkedOk(v, row)
    ensures AtRest(v.Published()) && !HasStatus(v.working, TRANSMITTING)
  {
  }

  lemma TailOfTodo(s: Sys, s': Sys)
    requires TodoOk(s) && s.phase.Recovering? && s.phase.todo != []
    requires s'.phase == Recovering(s.phase.todo[1..], false) && s'.db.working == s.db.working && s'.owner == s.owner
    requires forall i :: 1 <= i < |s.phase.todo| ==> !IsActive(s', s.phase.todo[i].msgKey)
    ensures TodoOk(s')
    ensures forall j :: j != s.phase.todo[0].msgKey && Listed(s, j) ==> Listed(s', j)
  {
    hide IsActive, MarkedOk;
    var todo, rest := s.phase.todo, s.phase.todo[1..];
    assert forall i :: 0 <= i < |rest| ==> rest[i] == todo[i + 1];
    forall j | j != todo[0].msgKey && Listed(s, j)
      ensures Listed(s', j)
    {
      var i :| 0 <= i < |todo| && todo[i].msgKey == j;
      assert rest[i - 1].msgKey == j;
    }
  }

  lemma PublishKeepsUnique(s: Sys)
    requires Inv(s) && s.phase.Recovering?
    ensures OneTransmittingPerNode(s.db.working)
  {
    hide QueuedOk, AtRest, MarkedOk, ViewOf, DistinctKeys, Owned;
    forall k | k in s.db.working && s.db.working[k].status == TRANSMITTING
      ensures k in s.db.committed && s.db.committed[k] == s.db.working[k]
    {
      WorkingOf(s, k);
      if IsActive(s, k) {
        var n := s.owner[k];
        var x :| x in Active(s.nodes[n]) && x.MsgKey() == k;
        assert NodeOk(s, n, s.nodes[n]) && x in s.nodes[n].stream.Pending();
        QueuedIsPending(ViewOf(s, k), x);
      } else if BeingMarked(s, k) {
        MarkedComesToRest(ViewOf(s, k), s.phase.todo[0].row);
      } else {
        AtRestAgrees(ViewOf(s, k));
      }
    }
  }

  lemma QueuedIsPending(v: View, x: QueueItem)
    requires QueuedOk(v, x)
    ensures HasStatus(v.working, PENDING)
  {
  }

  // What `recover` puts back is the row's intent: same key, same source, same target, same payload,
  // and its row describes it. It counts as a chat's message exactly when its source is a configured
  // messenger, and its text is signed by the bridge, so mirrors of it get no second label.
  lemma {:induction false} RebuiltIsTheRow(e: J.Entry, messengers: set<string>, now: real)
    requires KeyOf(e.row.originTransport, e.row.originMsgId) == e.msgKey
    ensures var x := Rebuilt(e, messengers, now);
      && x.MsgKey() == e.msgKey
      && x.source == ChannelRef(e.row.originTransport, e.row.originChat)
      && x.target == ChannelRef(e.row.targetNode, e.row.targetEndpoint)
      && x.payload.text == e.row.payload
      && Describes(e.row, x)
      && (x.fromMessenger <==> x.source.transportId in messengers)
      && x.payload.id == x.sourceMsgId && x.payload.source == x.source
      && x.payload.sender == Identity("bridge", "__bridge__") && x.payload.originTag.None?
      && x.enqueuedAt == now && x.original == x.payload   // its TTL starts over; mirrors carry the wire text
  {
  }

  lemma {:induction false} PendingOrphanIsQueueable(s: Sys, messengers: set<string>, now: real)
    requires Inv(s) && s.phase.Recovering? && s.phase.todo != [] && !s.phase.marking
    requires s.phase.todo[0].row.status != TRANSMITTING
    ensures var e := s.phase.todo[0]; var x := Rebuilt(e, messengers, now);
      && x.MsgKey() == e.msgKey && e.msgKey in s.owner && s.owner[e.msgKey] == e.row.targetNode
      && x.target.transportId == e.row.targetNode
      && QueuedOk(ViewOf(s, e.msgKey), x)
      && AtRest(ViewOf(s, e.msgKey)) && HasStatus(At(s.db.working, e.msgKey), PENDING)
  {
    hide NodesOk, RestOk, QuietOk, IsActive, OneTransmit;
    var e := s.phase.todo[0];
    OrphanAtRest(s);
    WorkingOf(s, e.msgKey);
    assert e.msgKey in s.db.working && s.db.working[e.msgKey] == e.row;
    RebuiltIsTheRow(e, messengers, now);
  }

  lemma RecoverPutKeepsInv(s: Sys, enqueuedAt: real, at: real)
    requires Inv(s) && Can(s, RecoverPut(enqueuedAt, at))
    requires forall n :: n in s.nodes ==> N.Alive(s.nodes[n])
    ensures Inv(After(s, RecoverPut(enqueuedAt, at)))
  {
    hide RowsOk, NodeOk, OnlyKey, AtRest, QueuedOk, ViewOf, N.Put, N.Alive, N.Accepts, Active, MarkedOk,
      OneTransmittingPerNode, Rebuilt, N.Enabled;
    var s', e := After(s, RecoverPut(enqueuedAt, at)), s.phase.todo[0];
    var k, n := e.msgKey, e.row.targetNode;
    assert !IsActive(s, k) by { OrphanAtRest(s); }
    RecoverPutViews(s, enqueuedAt, at);
    if n in s.nodes {
      var x := Rebuilt(e, s.nodes[n].conf.messengers, enqueuedAt);
      PendingOrphanIsQueueable(s, s.nodes[n].conf.messengers, enqueuedAt);
      PutActive(s.nodes[n], x, at);
      if N.Accepts(s.nodes[n], at) {
        OrphanPutNodes(s, s', n, x);
      } else {
        assert Active(s'.nodes[n]) == Active(s.nodes[n]);
        UnchangedButNode(s, s', n);
      }
    } else {
      PendingOrphanIsQueueable(s, {}, enqueuedAt);
      SameNodesStayOk(s, s');
      SameNodesSameActive(s, s');
    }
    forall j | j != k
      ensures IsActive(s', j) <==> IsActive(s, j)
    {
    }
    assert forall i :: 1 <= i < |s.phase.todo| ==> s.phase.todo[i].msgKey != k;
    TailOfTodo(s, s');
    WorkingOf(s, k);
    RestStaysOk(s, s', k);
  }

  // The orphan is queued exactly when its node is configured and its queue accepts.
  lemma RecoverPutQueuesIff(s: Sys, enqueuedAt: real, at: real)
    requires Inv(s) && Can(s, RecoverPut(enqueuedAt, at)) && AllAlive(s)
    ensures var e := s.phase.todo[0]; var n := e.row.targetNode;
      IsActive(After(s, RecoverPut(enqueuedAt, at)), e.msgKey) <==> n in s.nodes && N.Accepts(s.nodes[n], at)
    ensures forall j :: j != s.phase.todo[0].msgKey ==>
      (IsActive(After(s, RecoverPut(enqueuedAt, at)), j) <==> IsActive(s, j))
  {
    hide RowsOk, NodeOk, OnlyKey, AtRest, QueuedOk, ViewOf, N.Put, N.Alive, N.Accepts, Active, MarkedOk,
      OneTransmittingPerNode, Rebuilt, N.Enabled;
    var s', e := After(s, RecoverPut(enqueuedAt, at)), s.phase.todo[0];
    var n := e.row.targetNode;
    assert !IsActive(s, e.msgKey) by { OrphanAtRest(s); }
    RecoverPutViews(s, enqueuedAt, at);
    if n in s.nodes {
      PendingOrphanIsQueueable(s, s.nodes[n].conf.messengers, enqueuedAt);
      PutActive(s.nodes[n], Rebuilt(e, s.nodes[n].conf.messengers, enqueuedAt), at);
      if N.Accepts(s.nodes[n], at) {
        OrphanPutNodes(s, s', n, Rebuilt(e, s.nodes[n].conf.messengers, enqueuedAt));
      } else {
        UnchangedButNode(s, s', n);
      }
    } else {
      SameNodesSameActive(s, s');
    }
  }

  lemma RecoverPutViews(s: Sys, enqueuedAt: real, at: real)
    requires Inv(s) && Can(s, RecoverPut(enqueuedAt, at))
    ensures var s' := After(s, RecoverPut(enqueuedAt, at));
      && OnlyKey(s, s', None) && OnlyKey(s, s', Some(s.phase.todo[0].msgKey))
      && (forall j :: ViewOf(s', j) == ViewOf(s, j)) && RowsOk(s')
  {
    var s' := After(s, RecoverPut(enqueuedAt, at));
    assert s'.db == s.db && s'.air == s.air && s'.owner == s.owner && s'.life == s.life by {
      hide Inv, N.Put, Rebuilt, N.Enabled;
    }
    hide After, Can, NodesOk, RestOk, TodoOk, QuietOk, TableOk;
    SameTablesSameViews(s, s');
    hide ViewOf;
  }

  lemma OrphanPutNodes(s: Sys, s': Sys, n: string, x: QueueItem)
    requires NodesOk(s) && n in s.nodes && n in s'.nodes
      && s' == s.(phase := s'.phase, nodes := s.nodes[n := s'.nodes[n]])
    requires var node, node' := s.nodes[n], s'.nodes[n];
      && node'.worker == node.worker && node'.served == node.served
      && node'.stream.Pending() == node.stream.Pending() + [x] && Active(node') == Active(node) + [x]
    requires OnlyKey(s, s', Some(x.MsgKey())) && ViewOf(s', x.MsgKey()) == ViewOf(s, x.MsgKey())
    requires QueuedOk(ViewOf(s, x.MsgKey()), x) && x.target.transportId == n
    requires x.MsgKey() in s.owner && s.owner[x.MsgKey()] == n && !IsActive(s, x.MsgKey())
    ensures NodesOk(s')
    ensures IsActive(s', x.MsgKey()) && forall j :: j != x.MsgKey() ==> (IsActive(s', j) <==> IsActive(s, j))
  {
    hide NodeOk, OnlyKey, ViewOf, QueuedOk, Active;
    GrownNodeOk(s, s', n, s.nodes[n], s'.nodes[n], x);
    NodesStayOk(s, s', n, x.MsgKey());
    GrownActive(s, s', n, x);
  }

  lemma GrownActive(s: Sys, s': Sys, n: string, x: QueueItem)
    requires n in s.nodes && n in s'.nodes && s' == s.(phase := s'.phase, nodes := s.nodes[n := s'.nodes[n]])
    requires Active(s'.nodes[n]) == Active(s.nodes[n]) + [x]
    requires x.MsgKey() in s.owner && s.owner[x.MsgKey()] == n
    ensures IsActive(s', x.MsgKey()) && forall j :: j != x.MsgKey() ==> (IsActive(s', j) <==> IsActive(s, j))
  {
    hide Active;
    assert x in Active(s'.nodes[n]);
    forall j | j != x.MsgKey()
      ensures IsActive(s', j) <==> IsActive(s, j)
    {
      if IsActive(s, j) {
        var y :| y in Active(s.nodes[s.owner[j]]) && y.MsgKey() == j;
        assert y in Active(s'.nodes[s'.owner[j]]);
      }
      if IsActive(s', j) {
        var y :| y in Active(s'.nodes[s'.owner[j]]) && y.MsgKey() == j;
        assert y in Active(s.nodes[s.owner[j]]);
      }
    }
  }

  lemma RecoverDoneKeepsInv(s: Sys)
    requires Inv(s) && Can(s, RecoverDone)
    ensures Inv(After(s, RecoverDone))
  {
    hide NodeOk, AtRest, TableOk, OneTransmittingPerNode, OnlyKey, IsActive, ViewOf;
    var s' := After(s, RecoverDone);
    SameNodesSameActive(s, s');
    forall k
      ensures ViewOf(s', k) == ViewOf(s, k) && !Listed(s, k)
    {
      SameViews(s, s', k);
    }
    SameEverything(s, s');
  }

  lemma SameEverything(s: Sys, s': Sys)
    requires NodesOk(s) && s' == s.(phase := s'.phase)
    ensures NodesOk(s')
  {
    hide QueuedOk, InHandOk;
    forall m | m in s'.nodes
      ensures NodeOk(s', m, s'.nodes[m])
    {
      assert NodeOk(s, m, s.nodes[m]);
    }
  }

  // ---- Every run ------------------------------------------------------------------------------

  ghost predicate AllAlive(s: Sys) {
    forall n :: n in s.nodes ==> N.Alive(s.nodes[n])
  }

  lemma StepKeepsAllAlive(s: Sys, e: Event)
    requires AllAlive(s) && Can(s, e)
    ensures AllAlive(After(s, e))
  {
    hide N.Alive, N.Put, N.Receive, N.Work, N.Enabled, Rebuilt, E.DbAfter;
    match e
    case Boot(confs, now, orphans) =>
      forall n | n in confs
        ensures N.Alive(N.New(confs[n], now))
      {
        N.NewIsAlive(confs[n], now);
      }
    case RecoverPut(enqueuedAt, at) =>
      var n := s.phase.todo[0].row.targetNode;
      if n in s.nodes {
        N.StepKeepsAlive(s.nodes[n], N.PutNowait(Rebuilt(s.phase.todo[0], s.nodes[n].conf.messengers, enqueuedAt), at));
      }
    case Enqueue(x, at) => N.StepKeepsAlive(s.nodes[x.target.transportId], N.PutNowait(x, at));
    case Ask(n) => N.StepKeepsAlive(s.nodes[n], N.AskNext);
    case Work(n, at, heard) => N.StepKeepsAlive(s.nodes[n], N.Act(at, heard));
    case _ =>
  }

  lemma StepKeepsInv(s: Sys, e: Event)
    requires Inv(s) && AllAlive(s) && Can(s, e)
    ensures Inv(After(s, e))
  {
    hide Inv, N.Alive, After;
    match e
    case Boot(confs, now, orphans) => BootKeepsInv(s, confs, now, orphans);
    case RecoverMark => RecoverMarkKeepsInv(s);
    case RecoverCommit => RecoverCommitKeepsInv(s);
    case RecoverPut(enqueuedAt, at) => RecoverPutKeepsInv(s, enqueuedAt, at);
    case RecoverDone => RecoverDoneKeepsInv(s);
    case Enqueue(x, at) => EnqueueKeepsInv(s, x, at);
    case InsertCommit => InsertCommitKeepsInv(s);
    case Ask(n) => AskKeepsInv(s, n);
    case Work(n, at, heard) => WorkKeepsInv(s, n, at, heard);
    case Crash => CrashKeepsInv(s);
  }

  lemma {:induction false} RunKeepsInv(states: seq<Sys>, events: seq<Event>, i: nat)
    requires Run(states, events) && i <= |events|
    ensures Inv(states[i]) && AllAlive(states[i])
  {
    hide Inv, AllAlive, Can, After;
    if i == 0 {
      InitialIsOk(states[0]);
    } else {
      RunKeepsInv(states, events, i - 1);
      StepKeepsInv(states[i - 1], events[i - 1]);
      StepKeepsAllAlive(states[i - 1], events[i - 1]);
    }
  }

  lemma InitialIsOk(s: Sys)
    requires Initial(s)
    ensures Inv(s) && AllAlive(s)
  {
  }
}
