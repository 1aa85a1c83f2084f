/**
 * How much of the hypothesis on keys persist-before-act needs. A key may be given out again as soon
 * as no intent that is queued or in a worker's hands has it: a messenger that numbers its messages
 * anew, or two chats of one messenger whose equal numbers never meet, do no harm. The run in
 * SharedKeys.dfy is one in which they do meet.
 */
module KeyReuse {
  import opened Domain
  import opened Pipeline
  import A = SharedKeys
  import E = RadioWorker
  import J = Journal
  import N = NodeLife
  import S = PipelineSafety

  // No intent on its way to the air has this key.
  ghost predicate Free(s: Sys, k: string) {
    forall n :: n in s.nodes ==> !HasKey(Active(s.nodes[n]), k)
  }

  // A run in which an enqueue uses only keys that are free at that moment, new or not.
  ghost predicate RunReusing(states: seq<Sys>, events: seq<Event>) {
    && A.RunAnyway(states, events)
    && forall i :: 0 <= i < |events| && events[i].Enqueue? ==> Free(states[i], events[i].item.MsgKey())
  }

  // ---- The invariant --------------------------------------------------------------------------

  predicate RowFor(t: J.Table, x: QueueItem, status: DeliveryStatus) {
    HasStatus(At(t, x.MsgKey()), status) && Describes(At(t, x.MsgKey()).value, x)
  }

  // What is persisted about the item in the worker's hands, up to the end of its send.
  predicate Persisted(db: J.Db, w: E.Worker) {
    && (w.Holding? ==> RowFor(db.working, w.item, PENDING))
    && (w.Marking? ==> RowFor(db.working, w.item, TRANSMITTING))
    && (w.Announcing? || w.Ready? || w.OnAir? ==>
          && RowFor(db.working, w.item, TRANSMITTING)
          && At(db.committed, w.item.MsgKey()) == At(db.working, w.item.MsgKey()))
  }

  ghost predicate NodeKept(db: J.Db, n: string, node: N.Node) {
    && (forall x :: x in Active(node) ==> x.target.transportId == n)
    && DistinctKeys(Active(node))
    && (forall x :: x in node.stream.Pending() ==> RowFor(db.working, x, PENDING))
    && Persisted(db, node.worker)
  }

  ghost predicate NodesKept(s: Sys) {
    forall n :: n in s.nodes ==> NodeKept(s.db, n, s.nodes[n])
  }

  // No two nodes have intents under one key.
  ghost predicate Apart(s: Sys) {
    forall m, n, k :: m in s.nodes && n in s.nodes && m != n && HasKey(Active(s.nodes[m]), k) ==>
      !HasKey(Active(s.nodes[n]), k)
  }

  ghost predicate KeysFit(t: J.Table) {
    forall k :: k in t ==> KeyOf(t[k].originTransport, t[k].originMsgId) == k
  }

  ghost predicate TodoKept(s: Sys) {
    s.phase.Recovering? ==>
      var todo := s.phase.todo;
      && (forall i, j :: 0 <= i < j < |todo| ==> todo[i].msgKey != todo[j].msgKey)
      && (forall i :: 0 <= i < |todo| ==> J.Orphan(todo[i].row) && Free(s, todo[i].msgKey))
      && (forall i :: (if s.phase.marking then 1 else 0) <= i < |todo| ==>
            At(s.db.working, todo[i].msgKey) == Some(todo[i].row))
      && (s.phase.marking ==> todo != [])
      && (forall n :: n in s.nodes ==> s.nodes[n].worker.Idle?)
  }

  ghost predicate Kept(s: Sys) {
    && NodesKept(s) && Apart(s) && TodoKept(s)
    && KeysFit(s.db.working) && KeysFit(s.db.committed)
    && (s.phase.Down? ==> s.nodes == map[])
  }

  // ---- A step that concerns one key at most ---------------------------------------------------

  ghost predicate Spares(db: J.Db, db': J.Db, key: Option<string>) {
    forall j :: key != Some(j) ==>
      && At(db'.working, j) == At(db.working, j)
      && (At(db'.committed, j) == At(db.committed, j) || At(db'.committed, j) == At(db.working, j))
  }

  lemma ForeignKept(db: J.Db, db': J.Db, key: Option<string>, n: string, node: N.Node)
    requires NodeKept(db, n, node) && Spares(db, db', key)
    requires key.Some? ==> !HasKey(Active(node), key.value)
    ensures NodeKept(db', n, node)
  {
    hide DistinctKeys;
    forall x | x in node.stream.Pending()
      ensures RowFor(db'.working, x, PENDING)
    {
      assert x in Active(node);
    }
    if !node.worker.Idle? {
      assert Active(node)[0] == node.worker.item;
    }
  }

  // Only node n's part changed, and it stayed among its own items or gained one that is free.
  lemma OneNodeKeepsApart(s: Sys, s': Sys, n: string, gained: Option<string>)
    requires Apart(s) && n in s.nodes && n in s'.nodes && s'.nodes == s.nodes[n := s'.nodes[n]]
    requires forall k :: HasKey(Active(s'.nodes[n]), k) ==> HasKey(Active(s.nodes[n]), k) || gained == Some(k)
    requires gained.Some? ==> Free(s, gained.value)
    ensures Apart(s')
    ensures forall k :: Free(s, k) && gained != Some(k) ==> Free(s', k)
  {
    hide HasKey, Active;
  }

  lemma OneNodeKeepsOthers(s: Sys, s': Sys, n: string, key: Option<string>)
    requires NodesKept(s) && n in s.nodes && n in s'.nodes && s'.nodes == s.nodes[n := s'.nodes[n]]
    requires Spares(s.db, s'.db, key) && NodeKept(s'.db, n, s'.nodes[n])
    requires key.Some? ==> forall m :: m in s.nodes && m != n ==> !HasKey(Active(s.nodes[m]), key.value)
    ensures NodesKept(s')
  {
    hide NodeKept, Spares, HasKey, Active;
    forall m | m in s'.nodes && m != n
      ensures NodeKept(s'.db, m, s'.nodes[m])
    {
      ForeignKept(s.db, s'.db, key, m, s.nodes[m]);
    }
  }

  // ---- The worker's acts ----------------------------------------------------------------------

  // On its own key an act of the worker keeps what must be persisted for the next one.
  lemma ActKeepsPersisted(db: J.Db, w: E.Worker, ttl: real, now: real, heard: Outcome, targets: seq<ChannelRef>)
    requires !w.Idle? && Persisted(db, w)
    ensures var (w', act) := E.Next(w, ttl, now, heard, targets);
      Persisted(E.DbAfter(db, act), w')
  {
  }

  lemma ActSpares(db: J.Db, w: E.Worker, ttl: real, now: real, heard: Outcome, targets: seq<ChannelRef>)
    requires !w.Idle?
    ensures var act := E.Next(w, ttl, now, heard, targets).1;
      && (act.Execute? ==> act.stmt.msgKey == w.item.MsgKey() && !act.stmt.Insert?)
      && Spares(db, E.DbAfter(db, act), Some(w.item.MsgKey()))
  {
    var act := E.Next(w, ttl, now, heard, targets).1;
    assert act.Execute? ==> act.stmt.msgKey == w.item.MsgKey() && !act.stmt.Insert?;
    hide E.Next;
    DbViews(db, act, w.item.MsgKey());
  }

  lemma ActKeepsFit(t: J.Table, act: E.Act)
    requires KeysFit(t) && (act.Execute? ==> !act.stmt.Insert?)
    ensures KeysFit(E.DbAfter(J.Db(t, t), act).working)
  {
  }

  lemma WorkKeepsNode(s: Sys, n: string, at: real, heard: Outcome)
    requires Can(s, Work(n, at, heard)) && NodeKept(s.db, n, s.nodes[n])
    ensures var s' := After(s, Work(n, at, heard)); var k := s.nodes[n].worker.item.MsgKey();
      && NodeKept(s'.db, n, s'.nodes[n]) && Spares(s.db, s'.db, Some(k)) && HasKey(Active(s.nodes[n]), k)
      && (forall j :: HasKey(Active(s'.nodes[n]), j) ==> HasKey(Active(s.nodes[n]), j))
      && s'.nodes == s.nodes[n := s'.nodes[n]] && s'.phase == s.phase
  {
    hide N.Work, E.Next, E.DbAfter, Persisted, RowFor, DistinctKeys, N.Targets;
    var node, s' := s.nodes[n], After(s, Work(n, at, heard));
    var w, node' := node.worker, s'.nodes[n];
    WorkActive(node, at, heard);
    ActSpares(s.db, w, node.conf.ttl, at, heard, N.Targets(node, w.item));
    ActKeepsPersisted(s.db, w, node.conf.ttl, at, heard, N.Targets(node, w.item));
    PendingKeys(node);
    ActiveShrinks(node, node');
    assert Active(node)[0] == w.item;
    forall x | x in node'.stream.Pending()
      ensures RowFor(s'.db.working, x, PENDING)
    {
      assert x.MsgKey() != w.item.MsgKey();
      SameRow(s.db.working, s'.db.working, x);
    }
  }

  lemma SameRow(t: J.Table, t': J.Table, x: QueueItem)
    requires RowFor(t, x, PENDING) && At(t', x.MsgKey()) == At(t, x.MsgKey())
    ensures RowFor(t', x, PENDING)
  {
  }

  lemma WorkKeeps(s: Sys, n: string, at: real, heard: Outcome)
    requires Kept(s) && Can(s, Work(n, at, heard))
    ensures Kept(After(s, Work(n, at, heard)))
  {
    hide NodeKept, HasKey, Active, N.Work, E.Next, E.DbAfter, KeysFit, Spares;
    var s', k := After(s, Work(n, at, heard)), s.nodes[n].worker.item.MsgKey();
    assert NodeKept(s.db, n, s.nodes[n]);
    WorkKeepsNode(s, n, at, heard);
    OneNodeKeepsOthers(s, s', n, Some(k));
    OneNodeKeepsApart(s, s', n, None);
    WorkKeepsFit(s, n, at, heard);
  }

  lemma WorkKeepsFit(s: Sys, n: string, at: real, heard: Outcome)
    requires KeysFit(s.db.working) && KeysFit(s.db.committed) && Can(s, Work(n, at, heard))
    ensures var s' := After(s, Work(n, at, heard)); KeysFit(s'.db.working) && KeysFit(s'.db.committed)
  {
    hide KeysFit, N.Work, N.Targets, E.Next, Spares;
    var node := s.nodes[n];
    ActSpares(s.db, node.worker, node.conf.ttl, at, heard, N.Targets(node, node.worker.item));
    ActKeepsFit(s.db.working, N.NextOf(node, at, heard).1);
  }

  // ---- The other steps ------------------------------------------------------------------------

  lemma EnqueueKeeps(s: Sys, x: QueueItem, at: real)
    requires Kept(s) && S.AllAlive(s) && A.CanAnyway(s, Enqueue(x, at)) && Free(s, x.MsgKey())
    ensures Kept(Admitted(s, x, at))
  {
    hide HasKey, N.Put, N.Accepts, N.Alive, KeysFit, Spares, NodeKept, J.Exec, RowOf;
    var n, s' := x.target.transportId, Admitted(s, x, at);
    var node, node' := s.nodes[n], s'.nodes[n];
    assert NodeKept(s.db, n, node);
    S.PutActive(node, x, at);
    if N.Accepts(node, at) {
      InsertSpares(s.db, x);
      GrownKept(s.db, s'.db, n, node, node', x);
      OneNodeKeepsOthers(s, s', n, Some(x.MsgKey()));
      OneNodeKeepsApart(s, s', n, Some(x.MsgKey()));
    } else {
      SameActiveKept(s.db, n, node, node');
      NothingSpared(s.db);
      OneNodeKeepsOthers(s, s', n, None);
      OneNodeKeepsApart(s, s', n, None);
    }
  }

  lemma NothingSpared(db: J.Db)
    ensures Spares(db, db, None)
  {
  }

  lemma InsertSpares(db: J.Db, x: QueueItem)
    requires KeysFit(db.working)
    ensures var db' := db.Executed(J.Insert(x.MsgKey(), RowOf(x)));
      && Spares(db, db', Some(x.MsgKey())) && RowFor(db'.working, x, PENDING) && KeysFit(db'.working)
  {
  }

  // A node that took a free item, whose row is there.
  lemma GrownKept(db: J.Db, db': J.Db, n: string, node: N.Node, node': N.Node, x: QueueItem)
    requires NodeKept(db, n, node) && Spares(db, db', Some(x.MsgKey())) && RowFor(db'.working, x, PENDING)
    requires node'.worker == node.worker && node'.stream.Pending() == node.stream.Pending() + [x]
    requires Active(node') == Active(node) + [x] && x.target.transportId == n && !HasKey(Active(node), x.MsgKey())
    ensures NodeKept(db', n, node')
    ensures forall k :: HasKey(Active(node'), k) ==> HasKey(Active(node), k) || x.MsgKey() == k
  {
    ForeignKept(db, db', Some(x.MsgKey()), n, node);
    hide Active, RowFor, Spares;
    assert DistinctKeys(Active(node) + [x]) by {
      forall i | 0 <= i < |Active(node)|
        ensures Active(node)[i].MsgKey() != x.MsgKey()
      {
        assert Active(node)[i] in Active(node);
      }
    }
  }

  lemma SameActiveKept(db: J.Db, n: string, node: N.Node, node': N.Node)
    requires NodeKept(db, n, node) && node'.worker == node.worker
    requires node'.stream.Pending() == node.stream.Pending() + []
    ensures NodeKept(db, n, node') && Active(node') == Active(node)
  {
    assert node'.stream.Pending() == node.stream.Pending();
  }

  lemma AskKeeps(s: Sys, n: string)
    requires Kept(s) && S.AllAlive(s) && Can(s, Ask(n))
    ensures Kept(After(s, Ask(n)))
  {
    hide HasKey, Active, N.Receive, N.Alive, KeysFit, Spares, NodeKept;
    var s' := After(s, Ask(n));
    assert NodeKept(s.db, n, s.nodes[n]) && N.Alive(s.nodes[n]);
    S.ReceiveKeepsActive(s.nodes[n]);
    ReceivedKept(s.db, n, s.nodes[n]);
    NothingSpared(s.db);
    OneNodeKeepsOthers(s, s', n, None);
    OneNodeKeepsApart(s, s', n, None);
  }

  lemma ReceivedKept(db: J.Db, n: string, node: N.Node)
    requires NodeKept(db, n, node) && N.Alive(node) && node.worker.Idle?
    ensures NodeKept(db, n, N.Receive(node))
  {
    hide RowFor, N.Alive, N.Receive, DistinctKeys, Active;
    S.ReceiveKeepsActive(node);
  }

  // A commit, by whichever task: every row moves or stays as it was.
  lemma PublishKeeps(s: Sys, s': Sys)
    requires Kept(s) && s'.nodes == s.nodes && s'.db == s.db.Published() && !s'.phase.Down?
    ensures NodesKept(s') && Apart(s') && KeysFit(s'.db.working) && KeysFit(s'.db.committed)
    ensures forall k :: Free(s, k) ==> Free(s', k)
  {
    hide NodeKept, HasKey, Active;
    forall n | n in s'.nodes
      ensures NodeKept(s'.db, n, s'.nodes[n])
    {
      ForeignKept(s.db, s'.db, None, n, s.nodes[n]);
    }
  }

  lemma InsertCommitKeeps(s: Sys)
    requires Kept(s) && Can(s, InsertCommit)
    ensures Kept(After(s, InsertCommit))
  {
    hide NodeKept, HasKey, Active, KeysFit, Free;
    PublishKeeps(s, After(s, InsertCommit));
  }

  lemma RecoverCommitKeeps(s: Sys)
    requires Kept(s) && Can(s, RecoverCommit)
    ensures Kept(After(s, RecoverCommit))
  {
    hide NodeKept, HasKey, Active, KeysFit, Free;
    PublishKeeps(s, After(s, RecoverCommit));
  }

  lemma RecoverMarkKeeps(s: Sys)
    requires Kept(s) && Can(s, RecoverMark)
    ensures Kept(After(s, RecoverMark))
  {
    hide NodeKept, HasKey, Active;
    var s', k := After(s, RecoverMark), s.phase.todo[0].msgKey;
    forall n | n in s'.nodes
      ensures NodeKept(s'.db, n, s'.nodes[n])
    {
      ForeignKept(s.db, s'.db, Some(k), n, s.nodes[n]);
    }
  }

  lemma RecoverPutKeeps(s: Sys, enqueuedAt: real, at: real)
    requires Kept(s) && S.AllAlive(s) && Can(s, RecoverPut(enqueuedAt, at))
    ensures Kept(After(s, RecoverPut(enqueuedAt, at)))
  {
    hide HasKey, N.Put, N.Accepts, N.Alive, KeysFit, Spares, NodeKept, Rebuilt, Free, RowFor;
    var s', e := After(s, RecoverPut(enqueuedAt, at)), s.phase.todo[0];
    var n := e.row.targetNode;
    NothingSpared(s.db);
    if n in s.nodes {
      var node, x := s.nodes[n], Rebuilt(e, s.nodes[n].conf.messengers, enqueuedAt);
      assert NodeKept(s.db, n, node);
      RebuiltHasRow(s, s.nodes[n].conf.messengers, enqueuedAt);
      S.PutActive(node, x, at);
      if N.Accepts(node, at) {
        FreeOnNode(s, n, x.MsgKey());
        SparesMore(s.db, s.db, x.MsgKey());
        GrownKept(s.db, s'.db, n, node, s'.nodes[n], x);
        OneNodeKeepsOthers(s, s', n, None);
        OneNodeKeepsApart(s, s', n, Some(x.MsgKey()));
      } else {
        SameActiveKept(s.db, n, node, s'.nodes[n]);
        OneNodeKeepsOthers(s, s', n, None);
        OneNodeKeepsApart(s, s', n, None);
      }
      assert s'.nodes[n].worker == node.worker;
    } else {
      SameNodesSameFree(s, s');
    }
  }

  lemma SameNodesSameFree(s: Sys, s': Sys)
    requires s'.nodes == s.nodes
    ensures forall k :: Free(s', k) <==> Free(s, k)
  {
    hide HasKey;
  }

  lemma SparesMore(db: J.Db, db': J.Db, k: string)
    requires Spares(db, db', None)
    ensures Spares(db, db', Some(k))
  {
  }

  lemma FreeOnNode(s: Sys, n: string, k: string)
    requires Free(s, k) && n in s.nodes
    ensures !HasKey(Active(s.nodes[n]), k)
  {
    hide HasKey;
  }

  lemma RebuiltHasRow(s: Sys, messengers: set<string>, now: real)
    requires Kept(s) && s.phase.Recovering? && !s.phase.marking && s.phase.todo != []
    requires s.phase.todo[0].row.status != TRANSMITTING
    ensures var e := s.phase.todo[0]; var x := Rebuilt(e, messengers, now);
      && x.MsgKey() == e.msgKey && x.target.transportId == e.row.targetNode
      && RowFor(s.db.working, x, PENDING) && Free(s, x.MsgKey())
  {
    hide NodesKept, Apart, Free;
    var e := s.phase.todo[0];
    assert At(s.db.working, e.msgKey) == Some(e.row);
    S.RebuiltIsTheRow(e, messengers, now);
  }

  lemma BootKeeps(s: Sys, confs: map<string, N.Conf>, now: real, orphans: seq<J.Entry>)
    requires Kept(s) && Can(s, Boot(confs, now, orphans))
    ensures Kept(After(s, Boot(confs, now, orphans)))
  {
    var s' := After(s, Boot(confs, now, orphans));
    assert forall n :: n in s'.nodes ==> Active(s'.nodes[n]) == [];
    assert s'.db == s.db;
  }

  lemma CrashKeeps(s: Sys)
    requires Kept(s)
    ensures Kept(After(s, Crash))
  {
    hide NodeKept, HasKey, Active;
  }

  lemma RecoverDoneKeeps(s: Sys)
    requires Kept(s) && Can(s, RecoverDone)
    ensures Kept(After(s, RecoverDone))
  {
    hide NodeKept, HasKey, Active, KeysFit;
  }

  lemma StepKeeps(s: Sys, e: Event)
    requires Kept(s) && S.AllAlive(s) && A.CanAnyway(s, e) && (e.Enqueue? ==> Free(s, e.item.MsgKey()))
    ensures Kept(A.AfterAnyway(s, e)) && S.AllAlive(A.AfterAnyway(s, e))
  {
    hide Kept, S.AllAlive, Free, After, Admitted, Can;
    if e.Enqueue? {
      EnqueueKeeps(s, e.item, e.at);
      EnqueueKeepsAlive(s, e.item, e.at);
    } else {
      S.StepKeepsAllAlive(s, e);
      match e
      case Boot(confs, now, orphans) => BootKeeps(s, confs, now, orphans);
      case RecoverMark => RecoverMarkKeeps(s);
      case RecoverCommit => RecoverCommitKeeps(s);
      case RecoverPut(enqueuedAt, at) => RecoverPutKeeps(s, enqueuedAt, at);
      case RecoverDone => RecoverDoneKeeps(s);
      case InsertCommit => InsertCommitKeeps(s);
      case Ask(n) => AskKeeps(s, n);
      case Work(n, at, heard) => WorkKeeps(s, n, at, heard);
      case Crash => CrashKeeps(s);
    }
  }

  lemma EnqueueKeepsAlive(s: Sys, x: QueueItem, at: real)
    requires S.AllAlive(s) && A.CanAnyway(s, Enqueue(x, at))
    ensures S.AllAlive(Admitted(s, x, at))
  {
    hide N.Alive, N.Put, N.Accepts, N.Enabled;
    assert N.Alive(s.nodes[x.target.transportId]);
    N.StepKeepsAlive(s.nodes[x.target.transportId], N.PutNowait(x, at));
  }

  lemma {:induction false} RunKeeps(states: seq<Sys>, events: seq<Event>, i: nat)
    requires RunReusing(states, events) && i <= |events|
    ensures Kept(states[i]) && S.AllAlive(states[i])
  {
    hide Kept, S.AllAlive, A.CanAnyway, A.AfterAnyway, Free;
    if i == 0 {
      InitialIsKept(states[0]);
    } else {
      RunKeeps(states, events, i - 1);
      StepKeeps(states[i - 1], events[i - 1]);
    }
  }

  lemma InitialIsKept(s: Sys)
    requires Initial(s)
    ensures Kept(s) && S.AllAlive(s)
  {
  }

  // Persist before act, over every run that gives out only keys free at the moment, used before or
  // not: whenever a send is running, the committed row of its intent says TRANSMITTING and describes
  // exactly what is being sent.
  lemma {:induction false} PersistBeforeActWithReuse(states: seq<Sys>, events: seq<Event>, i: nat, n: string)
    requires RunReusing(states, events) && i <= |events|
    requires n in states[i].nodes && states[i].nodes[n].worker.OnAir?
    ensures RowFor(states[i].db.committed, states[i].nodes[n].worker.item, TRANSMITTING)
  {
    hide A.CanAnyway, A.AfterAnyway, Free, Apart, TodoKept, KeysFit, NodeKept;
    RunKeeps(states, events, i);
    OnAirIsPersisted(states[i].db, n, states[i].nodes[n]);
  }

  lemma OnAirIsPersisted(db: J.Db, n: string, node: N.Node)
    requires NodeKept(db, n, node) && node.worker.OnAir?
    ensures RowFor(db.committed, node.worker.item, TRANSMITTING)
  {
    hide DistinctKeys, Active;
  }

  // Every run of the pipeline is such a run: a key never given out is free.
  lemma {:induction false} NewKeysAreFree(states: seq<Sys>, events: seq<Event>)
    requires Run(states, events)
    ensures RunReusing(states, events)
  {
    hide Inv, Can, After, A.CanAnyway, A.AfterAnyway, Free, S.AllAlive, Initial;
    forall i | 0 <= i < |events|
      ensures A.CanAnyway(states[i], events[i]) && states[i + 1] == A.AfterAnyway(states[i], events[i])
      ensures events[i].Enqueue? ==> Free(states[i], events[i].item.MsgKey())
    {
      A.FreshKeysAreTheSame(states[i], events[i]);
      S.RunKeepsInv(states, events, i);
      if events[i].Enqueue? {
        NewKeyIsFree(states[i], events[i].item, events[i].at);
      }
    }
  }

  lemma NewKeyIsFree(s: Sys, x: QueueItem, at: real)
    requires Inv(s) && Can(s, Enqueue(x, at))
    ensures Free(s, x.MsgKey())
  {
    hide RowsOk, RestOk, TodoOk, QuietOk, DistinctKeys, AllQueuedOk, WorkerOk, Active;
    forall n | n in s.nodes
      ensures !HasKey(Active(s.nodes[n]), x.MsgKey())
    {
      assert NodeOk(s, n, s.nodes[n]);
    }
  }
}
