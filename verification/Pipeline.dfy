/**
 * The commit pipeline across crashes and restarts: several nodes, one worker each, enqueue tasks
 * and workers interleaved at every await, a crash possible between any two steps, and `recover`
 * repairing the journal before the next life (lora_bridge/app.py, core/bridge.py, core/egress.py,
 * core/journal.py).
 *
 * `put_nowait` and handing over the INSERT are one step: no await lies between them, and one
 * connection executes statements in submission order. Hypotheses: a msg_key belongs to one intent
 * only, and within a life the clock never goes back.
 */
module Pipeline {
  import opened Domain
  import J = Journal
  import E = RadioWorker
  import N = NodeLife

  // One `lora.send`: the `transmit` it belongs to (life, node, turn of the worker) and its answer.
  datatype SendCall = SendCall(life: nat, node: string, turn: nat, answer: Option<Outcome>)

  datatype Phase =
    | Down
    | Recovering(todo: seq<J.Entry>, marking: bool)  // marking: UPDATE UNKNOWN executed, not committed
    | Up

  // owner and air are history: which node an intent was accepted for, and its send calls.
  datatype Sys = Sys(
    db: J.Db,
    phase: Phase,
    nodes: map<string, N.Node>,
    inserting: nat,                    // enqueue tasks between their INSERT and their commit
    life: nat,
    owner: map<string, string>,
    air: map<string, seq<SendCall>>)

  // ---- Rows and items -------------------------------------------------------------------------

  function RowOf(x: QueueItem): J.Row {
    J.Row(x.source.transportId, x.source.channel, x.sourceMsgId, x.target.transportId, x.target.channel,
          PENDING, x.enqueuedAt, None, x.payload.text)
  }

  const NOTICE_SENDER := Identity("bridge", BRIDGE_TRANSPORT_UID)

  // What `recover` puts back: the wire text stands in for the original message too.
  function Rebuilt(e: J.Entry, messengers: set<string>, now: real): QueueItem {
    var origin := ChannelRef(e.row.originTransport, e.row.originChat);
    var payload := Message(e.row.originMsgId, origin, NOTICE_SENDER, e.row.payload, None);
    QueueItem(origin, e.row.originMsgId, ChannelRef(e.row.targetNode, e.row.targetEndpoint),
              payload, payload, e.row.originTransport in messengers, now)
  }

  predicate Describes(row: J.Row, x: QueueItem) {
    && row.originTransport == x.source.transportId && row.originChat == x.source.channel
    && row.originMsgId == x.sourceMsgId
    && row.targetNode == x.target.transportId && row.targetEndpoint == x.target.channel
    && row.payload == x.payload.text
  }

  // ---- Steps ----------------------------------------------------------------------------------

  datatype Event =
    | Boot(confs: map<string, N.Conf>, now: real, orphans: seq<J.Entry>)
    | RecoverMark
    | RecoverCommit
    | RecoverPut(enqueuedAt: real, at: real)
    | RecoverDone
    | Enqueue(item: QueueItem, at: real)
    | InsertCommit
    | Ask(node: string)
    | Work(node: string, at: real, heard: Outcome)
    | Crash

  ghost predicate Can(s: Sys, e: Event) {
    match e
    case Boot(confs, _, orphans) =>
      && s.phase.Down? && J.ListsOrphans(s.db.working, orphans)
      && (forall n :: n in confs && confs[n].limits.Some? ==> confs[n].limits.value.Sensible())
    case RecoverMark =>
      s.phase.Recovering? && !s.phase.marking && s.phase.todo != [] && s.phase.todo[0].row.status == TRANSMITTING
    case RecoverCommit => s.phase.Recovering? && s.phase.marking && s.phase.todo != []
    case RecoverPut(enqueuedAt, at) =>
      && s.phase.Recovering? && !s.phase.marking && s.phase.todo != [] && s.phase.todo[0].row.status != TRANSMITTING
      && var n := s.phase.todo[0].row.targetNode;
         n in s.nodes ==>
           N.Enabled(s.nodes[n], N.PutNowait(Rebuilt(s.phase.todo[0], s.nodes[n].conf.messengers, enqueuedAt), at))
    case RecoverDone => s.phase.Recovering? && !s.phase.marking && s.phase.todo == []
    case Enqueue(x, at) =>
      && s.phase.Up? && x.target.transportId in s.nodes && x.MsgKey() !in s.owner
      && N.Enabled(s.nodes[x.target.transportId], N.PutNowait(x, at))
    case InsertCommit => s.phase.Up? && s.inserting > 0
    case Ask(n) => s.phase.Up? && n in s.nodes && N.Enabled(s.nodes[n], N.AskNext)
    case Work(n, at, heard) => s.phase.Up? && n in s.nodes && N.Enabled(s.nodes[n], N.Act(at, heard))
    case Crash => true
  }

  function CallsOf(s: Sys, k: string): seq<SendCall> {
    if k in s.air then s.air[k] else []
  }

  // The send calls of the worker's item after its next act.
  function CallsAfter(s: Sys, n: string, heard: Outcome): seq<SendCall>
    requires n in s.nodes && !s.nodes[n].worker.Idle?
  {
    var node := s.nodes[n];
    var calls := CallsOf(s, node.worker.item.MsgKey());
    if node.worker.Ready? then calls + [SendCall(s.life, n, |node.served|, None)]
    else if node.worker.OnAir? && calls != [] then calls[|calls| - 1 := calls[|calls| - 1].(answer := Some(heard))]
    else calls
  }

  // `put_nowait` and, if it accepts, the INSERT.
  function Admitted(s: Sys, x: QueueItem, at: real): Sys
    requires x.target.transportId in s.nodes
  {
    var n := x.target.transportId;
    var asked := s.(nodes := s.nodes[n := N.Put(s.nodes[n], x, at)]);
    if N.Accepts(s.nodes[n], at)
    then asked.(db := s.db.Executed(J.Insert(x.MsgKey(), RowOf(x))), inserting := s.inserting + 1,
                owner := s.owner[x.MsgKey() := n])
    else asked
  }

  function After(s: Sys, e: Event): Sys
    requires Can(s, e)
  {
    match e
    case Boot(confs, now, orphans) =>
      s.(phase := Recovering(orphans, false), nodes := map n | n in confs :: N.New(confs[n], now), life := s.life + 1)
    case RecoverMark =>
      s.(db := s.db.Executed(J.SetStatus(s.phase.todo[0].msgKey, UNKNOWN)), phase := s.phase.(marking := true))
    case RecoverCommit => s.(db := s.db.Published(), phase := Recovering(s.phase.todo[1..], false))
    case RecoverPut(enqueuedAt, at) =>
      var entry := s.phase.todo[0];
      var n := entry.row.targetNode;
      s.(phase := Recovering(s.phase.todo[1..], false),
         nodes := if n in s.nodes
                  then s.nodes[n := N.Put(s.nodes[n], Rebuilt(entry, s.nodes[n].conf.messengers, enqueuedAt), at)]
                  else s.nodes)
    case RecoverDone => s.(phase := Up)
    case Enqueue(x, at) => Admitted(s, x, at)
    case InsertCommit => s.(db := s.db.Published(), inserting := s.inserting - 1)
    case Ask(n) => s.(nodes := s.nodes[n := N.Receive(s.nodes[n])])
    case Work(n, at, heard) =>
      var node := s.nodes[n];
      s.(nodes := s.nodes[n := N.Work(node, at, heard)],
         db := E.DbAfter(s.db, N.NextOf(node, at, heard).1),
         air := if node.worker.Ready? || node.worker.OnAir?
                then s.air[node.worker.item.MsgKey() := CallsAfter(s, n, heard)] else s.air)
    case Crash => s.(db := s.db.Crashed(), phase := Down, nodes := map[], inserting := 0)
  }

  // An empty database and no history.
  ghost predicate Initial(s: Sys) {
    s.phase.Down? && s.db == J.Db(map[], map[]) && s.nodes == map[] && s.owner == map[] && s.air == map[]
  }

  ghost predicate Run(states: seq<Sys>, events: seq<Event>) {
    && |states| == |events| + 1
    && Initial(states[0])
    && forall i :: 0 <= i < |events| ==> Can(states[i], events[i]) && states[i + 1] == After(states[i], events[i])
  }

  // ---- What one key looks like ----------------------------------------------------------------

  function At(t: J.Table, k: string): Option<J.Row> {
    if k in t then Some(t[k]) else None
  }

  datatype View = View(working: Option<J.Row>, committed: Option<J.Row>, calls: seq<SendCall>) {
    function Published(): View {
      this.(committed := working)
    }
  }

  function ViewOf(s: Sys, k: string): View {
    View(At(s.db.working, k), At(s.db.committed, k), CallsOf(s, k))
  }

  predicate HasStatus(row: Option<J.Row>, status: DeliveryStatus) {
    row.Some? && row.value.status == status
  }

  predicate Busy(c: SendCall) {
    c.answer.Some? && c.answer.value.Replied? && c.answer.value.result.busy
  }

  // All calls belong to one transmit, and every call but the last returned busy.
  ghost predicate OneTransmit(calls: seq<SendCall>) {
    && 0 < |calls| <= E.BUSY_RETRIES
    && (forall i, j :: 0 <= i < |calls| && 0 <= j < |calls| ==>
          calls[i].life == calls[j].life && calls[i].node == calls[j].node && calls[i].turn == calls[j].turn)
    && (forall i :: 0 <= i < |calls| - 1 ==> Busy(calls[i]))
  }

  // Calls of the transmit that is running now.
  ghost predicate Underway(calls: seq<SendCall>, life: nat, n: string, turn: nat) {
    forall i :: 0 <= i < |calls| ==> calls[i].life == life && calls[i].node == n && calls[i].turn == turn
  }

  // Queued: PENDING in the working table, at most a PENDING row committed, never on the air.
  ghost predicate QueuedOk(v: View, x: QueueItem) {
    && HasStatus(v.working, PENDING) && Describes(v.working.value, x)
    && (v.committed.Some? ==> v.committed == v.working)
    && v.calls == []
  }

  // What the journal and the air know about the item in the worker's hands.
  ghost predicate InHandOk(v: View, w: E.Worker, life: nat, n: string, turn: nat)
    requires !w.Idle?
  {
    && (v.working.Some? ==> Describes(v.working.value, w.item))
    && match w
       case Holding(x) => QueuedOk(v, x)
       case Expiring(_) =>
         && HasStatus(v.working, REJECTED) && v.calls == []
         && (v.committed.None? || HasStatus(v.committed, PENDING) || v.committed == v.working)
       case Bouncing(_) => HasStatus(v.working, REJECTED) && v.committed == v.working && v.calls == []
       case Marking(_) =>
         && HasStatus(v.working, TRANSMITTING) && v.calls == []
         && (v.committed.None? || HasStatus(v.committed, PENDING) || v.committed == v.working)
       case Announcing(_) => HasStatus(v.working, TRANSMITTING) && v.committed == v.working && v.calls == []
       case Ready(_, k) =>
         && HasStatus(v.working, TRANSMITTING) && v.committed == v.working
         && |v.calls| == k < E.BUSY_RETRIES && Underway(v.calls, life, n, turn)
         && (forall i :: 0 <= i < |v.calls| ==> Busy(v.calls[i]))
       case OnAir(_, k) =>
         && HasStatus(v.working, TRANSMITTING) && v.committed == v.working
         && |v.calls| == k + 1 <= E.BUSY_RETRIES && Underway(v.calls, life, n, turn)
         && (forall i :: 0 <= i < k ==> Busy(v.calls[i]))
       case Closing(_, ok) =>
         && HasStatus(v.working, E.Terminal(ok)) && OneTransmit(v.calls)
         && (HasStatus(v.committed, TRANSMITTING) || v.committed == v.working)
       case Closed(_, ok) => HasStatus(v.working, E.Terminal(ok)) && v.committed == v.working && OneTransmit(v.calls)
       case Mirroring(_, _) => HasStatus(v.working, SENT) && v.committed == v.working && OneTransmit(v.calls)
       case Pruning(_) => v.working.None? && (v.committed.None? || HasStatus(v.committed, SENT)) && OneTransmit(v.calls)
  }

  // At rest: both tables agree, and an intent that was ever on the air is not PENDING.
  ghost predicate AtRest(v: View) {
    && v.committed == v.working
    && (v.calls != [] ==> OneTransmit(v.calls) && !HasStatus(v.working, PENDING))
  }

  lemma PublishKeepsViews(v: View)
    ensures forall x :: QueuedOk(v, x) ==> QueuedOk(v.Published(), x)
    ensures AtRest(v) ==> v.Published() == v
  {
  }

  lemma PublishKeepsInHand(v: View, w: E.Worker, life: nat, n: string, turn: nat)
    requires !w.Idle? && InHandOk(v, w, life, n, turn)
    ensures InHandOk(v.Published(), w, life, n, turn)
  {
  }

  // ---- What a whole state looks like ----------------------------------------------------------

  function Hand(w: E.Worker): seq<QueueItem> {
    if w.Idle? then [] else [w.item]
  }

  // The items of a node that are not finished: the one in hand, then the pending ones.
  function Active(n: N.Node): seq<QueueItem> {
    Hand(n.worker) + n.stream.Pending()
  }

  ghost predicate DistinctKeys(items: seq<QueueItem>) {
    forall i, j :: 0 <= i < j < |items| ==> items[i].MsgKey() != items[j].MsgKey()
  }

  ghost predicate HasKey(items: seq<QueueItem>, k: string) {
    exists x :: x in items && x.MsgKey() == k
  }

  ghost predicate Owned(s: Sys, n: string, items: seq<QueueItem>) {
    forall x :: x in items ==> x.target.transportId == n && x.MsgKey() in s.owner && s.owner[x.MsgKey()] == n
  }

  ghost predicate AllQueuedOk(s: Sys, items: seq<QueueItem>) {
    forall x :: x in items ==> QueuedOk(ViewOf(s, x.MsgKey()), x)
  }

  ghost predicate WorkerOk(s: Sys, n: string, node: N.Node) {
    !node.worker.Idle? ==>
      InHandOk(ViewOf(s, node.worker.item.MsgKey()), node.worker, s.life, n, |node.served|)
  }

  ghost predicate NodeOk(s: Sys, n: string, node: N.Node) {
    && Owned(s, n, Active(node))
    && DistinctKeys(Active(node))
    && AllQueuedOk(s, node.stream.Pending())
    && WorkerOk(s, n, node)
  }

  ghost predicate IsActive(s: Sys, k: string) {
    k in s.owner && s.owner[k] in s.nodes && HasKey(Active(s.nodes[s.owner[k]]), k)
  }

  ghost predicate Listed(s: Sys, k: string) {
    s.phase.Recovering? && exists i :: 0 <= i < |s.phase.todo| && s.phase.todo[i].msgKey == k
  }

  // The orphan whose UPDATE UNKNOWN is executed and not yet committed.
  ghost predicate BeingMarked(s: Sys, k: string) {
    s.phase.Recovering? && s.phase.marking && s.phase.todo != [] && s.phase.todo[0].msgKey == k
  }

  ghost predicate RestOk(s: Sys) {
    forall k :: k in s.owner && !IsActive(s, k) && !BeingMarked(s, k) ==>
      && AtRest(ViewOf(s, k))
      && (HasStatus(At(s.db.working, k), TRANSMITTING) ==> s.phase.Down? || Listed(s, k))
  }

  ghost predicate TableOk(t: J.Table, owner: map<string, string>) {
    forall k :: k in t ==>
      k in owner && owner[k] == t[k].targetNode && KeyOf(t[k].originTransport, t[k].originMsgId) == k
  }

  ghost predicate RowsOk(s: Sys) {
    && TableOk(s.db.working, s.owner)
    && TableOk(s.db.committed, s.owner)
    && (forall k :: k in s.air ==> k in s.owner)
  }

  // At most one TRANSMITTING row per target node.
  ghost predicate OneTransmittingPerNode(t: J.Table) {
    forall j, k ::
      (j in t && k in t && t[j].status == TRANSMITTING == t[k].status && t[j].targetNode == t[k].targetNode) ==> j == k
  }

  ghost predicate TodoOk(s: Sys) {
    s.phase.Recovering? ==>
      var todo := s.phase.todo;
      && (forall i, j :: 0 <= i < j < |todo| ==> todo[i].msgKey != todo[j].msgKey)
      && (forall i :: 0 <= i < |todo| ==>
            todo[i].msgKey in s.owner && !IsActive(s, todo[i].msgKey) && J.Orphan(todo[i].row))
      && (forall i :: (if s.phase.marking then 1 else 0) <= i < |todo| ==>
            At(s.db.working, todo[i].msgKey) == Some(todo[i].row))
      && (s.phase.marking ==> todo != [] && MarkedOk(ViewOf(s, todo[0].msgKey), todo[0].row))
  }

  ghost predicate MarkedOk(v: View, row: J.Row) {
    && v.working == Some(row.(status := UNKNOWN))
    && v.committed == Some(row) && row.status == TRANSMITTING
    && (v.calls != [] ==> OneTransmit(v.calls))
  }

  ghost predicate QuietOk(s: Sys) {
    && (s.phase.Down? ==> s.nodes == map[] && s.db.working == s.db.committed)
    && (!s.phase.Up? ==> OneTransmittingPerNode(s.db.committed))
    && (s.phase.Recovering? ==> forall n :: n in s.nodes ==> s.nodes[n].worker.Idle?)
  }

  ghost predicate NodesOk(s: Sys) {
    forall n :: n in s.nodes ==> NodeOk(s, n, s.nodes[n])
  }

  ghost predicate Inv(s: Sys) {
    RowsOk(s) && NodesOk(s) && RestOk(s) && TodoOk(s) && QuietOk(s)
  }

  // ---- A step on one node leaves everything of the other nodes alone ---------------------------

  // Every view except that of `key`, if one is named, is unchanged or published as it was.
  ghost predicate OnlyKey(s: Sys, s': Sys, key: Option<string>) {
    && (forall j :: j in s.owner ==> j in s'.owner && s'.owner[j] == s.owner[j])
    && s'.life == s.life
    && (forall j :: key != Some(j) ==> ViewOf(s', j) == ViewOf(s, j) || ViewOf(s', j) == ViewOf(s, j).Published())
  }

  lemma ForeignNodeOk(s: Sys, s': Sys, key: Option<string>, m: string, node: N.Node)
    requires OnlyKey(s, s', key) && NodeOk(s, m, node) && (key.Some? ==> !HasKey(Active(node), key.value))
    ensures NodeOk(s', m, node)
  {
    hide InHandOk, ViewOf, QueuedOk, DistinctKeys;
    forall x | x in node.stream.Pending()
      ensures QueuedOk(ViewOf(s', x.MsgKey()), x)
    {
      assert x in Active(node);
      PublishKeepsViews(ViewOf(s, x.MsgKey()));
    }
    if !node.worker.Idle? {
      assert node.worker.item in Active(node);
      PublishKeepsInHand(ViewOf(s, node.worker.item.MsgKey()), node.worker, s.life, m, |node.served|);
    }
  }

  // All nodes keep their invariant when one node takes a step that concerns key k only.
  lemma NodesStayOk(s: Sys, s': Sys, n: string, k: string)
    requires NodesOk(s) && OnlyKey(s, s', Some(k))
    requires forall m :: m in s'.nodes && m != n ==> m in s.nodes && s'.nodes[m] == s.nodes[m]
    requires k in s'.owner && s'.owner[k] == n
    requires n in s'.nodes ==> NodeOk(s', n, s'.nodes[n])
    ensures NodesOk(s')
  {
    hide NodeOk, OnlyKey;
    forall m | m in s'.nodes && m != n
      ensures NodeOk(s', m, s'.nodes[m])
    {
      ForeignKey(s, s', m, s.nodes[m], k);
      ForeignNodeOk(s, s', Some(k), m, s.nodes[m]);
    }
  }

  lemma ForeignKey(s: Sys, s': Sys, m: string, node: N.Node, k: string)
    requires NodeOk(s, m, node) && OnlyKey(s, s', Some(k)) && k in s'.owner && s'.owner[k] != m
    ensures !HasKey(Active(node), k)
  {
    hide DistinctKeys, AllQueuedOk, WorkerOk, ViewOf, Active;
  }

  // Keys at rest stay at rest when a step concerns key k only.
  lemma RestStaysOk(s: Sys, s': Sys, k: string)
    requires RestOk(s) && OnlyKey(s, s', Some(k))
    requires forall j :: j in s'.owner && j != k ==> j in s.owner
    requires forall j :: j != k && IsActive(s, j) ==> IsActive(s', j)
    requires forall j :: j != k && BeingMarked(s, j) ==> BeingMarked(s', j)
    requires forall j :: j != k && (s.phase.Down? || Listed(s, j)) ==> s'.phase.Down? || Listed(s', j)
    requires k in s'.owner && !IsActive(s', k) && !BeingMarked(s', k) ==>
      && AtRest(ViewOf(s', k))
      && (HasStatus(At(s'.db.working, k), TRANSMITTING) ==> s'.phase.Down? || Listed(s', k))
    ensures RestOk(s')
  {
    hide IsActive, BeingMarked, Listed, AtRest;
    forall j | j in s'.owner && !IsActive(s', j) && !BeingMarked(s', j)
      ensures AtRest(ViewOf(s', j))
      ensures HasStatus(At(s'.db.working, j), TRANSMITTING) ==> s'.phase.Down? || Listed(s', j)
    {
      if j != k {
        PublishKeepsViews(ViewOf(s, j));
        assert ViewOf(s', j) == ViewOf(s, j);
      }
    }
  }

  // ---- The worker's step ----------------------------------------------------------------------

  // The view of the worker's own key after its act.
  function WorkedRow(row: Option<J.Row>, act: E.Act): Option<J.Row> {
    match act
    case Execute(SetTransmitting(_, at)) =>
      if row.Some? then Some(row.value.(status := TRANSMITTING, txStartedAt := Some(at))) else None
    case Execute(SetStatus(_, status)) => if row.Some? then Some(row.value.(status := status)) else None
    case Execute(Delete(_)) => None
    case _ => row
  }

  function WorkedView(v: View, act: E.Act, calls: seq<SendCall>): View {
    var working := WorkedRow(v.working, act);
    View(working, if act.Commit? then working else v.committed, calls)
  }

  function CallsNext(v: View, w: E.Worker, life: nat, n: string, turn: nat, heard: Outcome): seq<SendCall> {
    if w.Ready? then v.calls + [SendCall(life, n, turn, None)]
    else if w.OnAir? && v.calls != [] then v.calls[|v.calls| - 1 := v.calls[|v.calls| - 1].(answer := Some(heard))]
    else v.calls
  }

  // One act keeps the item's view right, for the next suspension point or for rest.
  ghost predicate ViewKept(v': View, w': E.Worker, life: nat, n: string, turn: nat) {
    && (w'.Idle? ==> AtRest(v') && !HasStatus(v'.working, TRANSMITTING))
    && (!w'.Idle? ==> InHandOk(v', w', life, n, turn))
  }

  predicate BeforeAir(w: E.Worker) {
    w.Holding? || w.Expiring? || w.Bouncing? || w.Marking? || w.Announcing?
  }

  // Up to the first send.
  lemma ViewKeptBeforeAir(v: View, w: E.Worker, life: nat, n: string, turn: nat, turn': nat,
                          ttl: real, now: real, heard: Outcome, targets: seq<ChannelRef>)
    requires BeforeAir(w) && InHandOk(v, w, life, n, turn) && (turn' == turn || w.Holding?)
    ensures var (w', act) := E.Next(w, ttl, now, heard, targets);
      ViewKept(WorkedView(v, act, v.calls), w', life, n, turn')
  {
    hide OneTransmit;
  }

  // From the first send on.
  lemma ViewKeptFromAir(v: View, w: E.Worker, life: nat, n: string, turn: nat,
                        ttl: real, now: real, heard: Outcome, targets: seq<ChannelRef>)
    requires !w.Idle? && !BeforeAir(w) && InHandOk(v, w, life, n, turn)
    ensures var (w', act) := E.Next(w, ttl, now, heard, targets);
      ViewKept(WorkedView(v, act, CallsNext(v, w, life, n, turn, heard)), w', life, n, turn)
  {
    hide E.Stale;
  }

  lemma WorkKeepsView(v: View, w: E.Worker, life: nat, n: string, turn: nat, turn': nat,
                      ttl: real, now: real, heard: Outcome, targets: seq<ChannelRef>)
    requires !w.Idle? && InHandOk(v, w, life, n, turn)
    requires turn' == turn || w.Holding?
    ensures var (w', act) := E.Next(w, ttl, now, heard, targets);
      ViewKept(WorkedView(v, act, CallsNext(v, w, life, n, turn, heard)), w', life, n, turn')
  {
    hide InHandOk, ViewKept, E.Next, WorkedView;
    if BeforeAir(w) {
      ViewKeptBeforeAir(v, w, life, n, turn, turn', ttl, now, heard, targets);
    } else {
      ViewKeptFromAir(v, w, life, n, turn, ttl, now, heard, targets);
    }
  }

  lemma WorkTouchesOwnKey(s: Sys, n: string, at: real, heard: Outcome)
    requires Can(s, Work(n, at, heard))
    ensures var w := s.nodes[n].worker;
      var k, s' := w.item.MsgKey(), After(s, Work(n, at, heard));
      && OnlyKey(s, s', Some(k))
      && ViewOf(s', k) == WorkedView(ViewOf(s, k), N.NextOf(s.nodes[n], at, heard).1,
                                     CallsNext(ViewOf(s, k), w, s.life, n, |s.nodes[n].served|, heard))
  {
    hide N.Work, E.WillRetry, E.Stale, E.Succeeded, N.Targets;
    var w := s.nodes[n].worker;
    var k, s' := w.item.MsgKey(), After(s, Work(n, at, heard));
    var act := N.NextOf(s.nodes[n], at, heard).1;
    assert act.Execute? ==> act.stmt.msgKey == k;
    assert !act.Execute? || !act.stmt.Insert?;
    DbViews(s.db, act, k);
    assert s'.db == E.DbAfter(s.db, act);
  }

  lemma DbViews(db: J.Db, act: E.Act, k: string)
    requires act.Execute? ==> act.stmt.msgKey == k && !act.stmt.Insert?
    ensures var db' := E.DbAfter(db, act);
      && At(db'.working, k) == WorkedRow(At(db.working, k), act)
      && At(db'.committed, k) == (if act.Commit? then At(db.working, k) else At(db.committed, k))
      && (forall j :: j != k ==> At(db'.working, j) == At(db.working, j))
      && (act.Commit? ==> forall j :: At(db'.committed, j) == At(db.working, j))
      && (!act.Commit? ==> forall j :: At(db'.committed, j) == At(db.committed, j))
  {
  }

  // What `Work` does to the items a node is not finished with.
  lemma WorkActive(node: N.Node, at: real, heard: Outcome)
    requires !node.worker.Idle?
    ensures var node' := N.Work(node, at, heard);
      && node'.stream == node.stream
      && node'.worker == N.NextOf(node, at, heard).0
      && (!node'.worker.Idle? ==> node'.worker.item == node.worker.item)
      && |node'.served| == |node.served| + (if node.worker.Holding? then 1 else 0)
  {
    hide N.Targets;
  }

  lemma PendingKeys(node: N.Node)
    requires !node.worker.Idle? && DistinctKeys(Active(node))
    ensures DistinctKeys(node.stream.Pending()) && !HasKey(node.stream.Pending(), node.worker.item.MsgKey())
  {
    var pending := node.stream.Pending();
    assert Active(node)[0] == node.worker.item;
    assert forall i :: 0 <= i < |pending| ==> Active(node)[i + 1] == pending[i];
  }

  lemma WorkKeepsNodeOk(s: Sys, n: string, at: real, heard: Outcome)
    requires Can(s, Work(n, at, heard)) && NodeOk(s, n, s.nodes[n])
    ensures var s' := After(s, Work(n, at, heard));
      var k := s.nodes[n].worker.item.MsgKey();
      && NodeOk(s', n, s'.nodes[n])
      && (s'.nodes[n].worker.Idle? ==> AtRest(ViewOf(s', k)) && !HasStatus(ViewOf(s', k).working, TRANSMITTING))
  {
    hide N.Work, E.Next, InHandOk, ViewOf, QueuedOk, HasKey, WorkedView, CallsNext, AtRest, HasStatus;
    var node, s' := s.nodes[n], After(s, Work(n, at, heard));
    var k, node' := node.worker.item.MsgKey(), s'.nodes[n];
    WorkTouchesOwnKey(s, n, at, heard);
    WorkActive(node, at, heard);
    PendingKeys(node);
    WorkKeepsView(ViewOf(s, k), node.worker, s.life, n, |node.served|, |node'.served|,
                  node.conf.ttl, at, heard, N.Targets(node, node.worker.item));
    WorkKeepsPending(s, s', n, node, node', k);
  }

  lemma WorkKeepsPending(s: Sys, s': Sys, n: string, node: N.Node, node': N.Node, k: string)
    requires !node.worker.Idle? && NodeOk(s, n, node) && OnlyKey(s, s', Some(k)) && k == node.worker.item.MsgKey()
    requires node'.stream == node.stream && (!node'.worker.Idle? ==> node'.worker.item == node.worker.item)
    ensures Owned(s', n, Active(node')) && DistinctKeys(Active(node')) && AllQueuedOk(s', node'.stream.Pending())
  {
    hide InHandOk, ViewOf, QueuedOk, Active, DistinctKeys;
    PendingKeys(node);
    ActiveShrinks(node, node');
    forall x | x in node.stream.Pending()
      ensures QueuedOk(ViewOf(s', x.MsgKey()), x)
    {
      assert x.MsgKey() != k;
      PublishKeepsViews(ViewOf(s, x.MsgKey()));
    }
  }

  // The worker lets go of its item or keeps it; the pending ones stay as they are.
  lemma ActiveShrinks(node: N.Node, node': N.Node)
    requires !node.worker.Idle? && DistinctKeys(Active(node))
    requires node'.stream == node.stream && (!node'.worker.Idle? ==> node'.worker.item == node.worker.item)
    ensures DistinctKeys(Active(node')) && forall x :: x in Active(node') ==> x in Active(node)
  {
    if node'.worker.Idle? {
      assert Active(node') == Active(node)[1..];
    } else {
      assert Active(node') == Active(node);
    }
  }

  lemma WorkKeepsActive(s: Sys, n: string, at: real, heard: Outcome, j: string)
    requires Can(s, Work(n, at, heard)) && IsActive(s, j) && j != s.nodes[n].worker.item.MsgKey()
    ensures IsActive(After(s, Work(n, at, heard)), j)
  {
    hide N.Work, N.NextOf, E.DbAfter;
    var s' := After(s, Work(n, at, heard));
    WorkActive(s.nodes[n], at, heard);
    var m := s.owner[j];
    var x :| x in Active(s.nodes[m]) && x.MsgKey() == j;
    assert x in Active(s'.nodes[m]);
  }

  lemma TableAfterWork(t: J.Table, owner: map<string, string>, act: E.Act)
    requires TableOk(t, owner) && (act.Execute? ==> !act.stmt.Insert?)
    ensures TableOk(E.DbAfter(J.Db(t, t), act).working, owner)
  {
  }

  lemma WorkKeepsRows(s: Sys, n: string, at: real, heard: Outcome)
    requires Can(s, Work(n, at, heard)) && RowsOk(s) && s.nodes[n].worker.item.MsgKey() in s.owner
    ensures RowsOk(After(s, Work(n, at, heard)))
  {
    hide N.Work, TableOk, N.Targets, E.Stale, E.WillRetry;
    TableAfterWork(s.db.working, s.owner, N.NextOf(s.nodes[n], at, heard).1);
  }

  lemma {:induction false} WorkKeepsInv(s: Sys, n: string, at: real, heard: Outcome)
    requires Inv(s) && Can(s, Work(n, at, heard))
    ensures Inv(After(s, Work(n, at, heard)))
  {
    hide RowsOk, NodeOk, OnlyKey, IsActive, AtRest, Listed, BeingMarked, N.Work, E.Next, E.DbAfter;
    var s', k := After(s, Work(n, at, heard)), s.nodes[n].worker.item.MsgKey();
    InHandIsOwned(s, n);
    WorkKeepsRows(s, n, at, heard);
    WorkTouchesOwnKey(s, n, at, heard);
    WorkKeepsNodeOk(s, n, at, heard);
    NodesStayOk(s, s', n, k);
    forall j | j != k && IsActive(s, j)
      ensures IsActive(s', j)
    {
      WorkKeepsActive(s, n, at, heard, j);
    }
    NoMarkingWhenUp(s');
    NoMarkingWhenUp(s);
    if !s'.nodes[n].worker.Idle? {
      InHandIsActive(s', n);
    }
    WorkActive(s.nodes[n], at, heard);
    RestStaysOk(s, s', k);
  }

  lemma InHandIsOwned(s: Sys, n: string)
    requires n in s.nodes && NodeOk(s, n, s.nodes[n]) && !s.nodes[n].worker.Idle?
    ensures s.nodes[n].worker.item.MsgKey() in s.owner && s.owner[s.nodes[n].worker.item.MsgKey()] == n
  {
    assert Active(s.nodes[n])[0] == s.nodes[n].worker.item;
  }

  lemma InHandIsActive(s: Sys, n: string)
    requires n in s.nodes && NodeOk(s, n, s.nodes[n]) && !s.nodes[n].worker.Idle?
    ensures IsActive(s, s.nodes[n].worker.item.MsgKey())
  {
    InHandIsOwned(s, n);
    assert Active(s.nodes[n])[0] == s.nodes[n].worker.item;
  }

  lemma NoMarkingWhenUp(s: Sys)
    ensures s.phase.Up? ==> forall k {:trigger Listed(s, k)}{:trigger BeingMarked(s, k)} ::
      !BeingMarked(s, k) && !Listed(s, k)
  {
  }
}
