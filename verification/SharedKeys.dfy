/**
 * Why a msg_key must belong to one intent. The key leaves the chat out
 * (lora_bridge/core/queue.py:33-35), so two chats of one messenger that number their messages alike
 * share keys. On the pipeline machine without that hypothesis, a send goes on the air with no row.
 */
module SharedKeys {
  import opened Domain
  import opened Pipeline
  import E = RadioWorker
  import J = Journal
  import N = NodeLife
  import Q = CommitQueue

  // The machine of the pipeline, its enqueue open to keys that were given out before.
  ghost predicate CanAnyway(s: Sys, e: Event) {
    if e.Enqueue? then
      && s.phase.Up? && e.item.target.transportId in s.nodes
      && N.Enabled(s.nodes[e.item.target.transportId], N.PutNowait(e.item, e.at))
    else Can(s, e)
  }

  ghost function AfterAnyway(s: Sys, e: Event): Sys
    requires CanAnyway(s, e)
  {
    if e.Enqueue? then Admitted(s, e.item, e.at) else After(s, e)
  }

  ghost predicate RunAnyway(states: seq<Sys>, events: seq<Event>) {
    && |states| == |events| + 1 && Initial(states[0])
    && forall i :: 0 <= i < |events| ==>
         CanAnyway(states[i], events[i]) && states[i + 1] == AfterAnyway(states[i], events[i])
  }

  // With fresh keys it is the machine of the pipeline.
  lemma FreshKeysAreTheSame(s: Sys, e: Event)
    ensures Can(s, e) <==> CanAnyway(s, e) && (e.Enqueue? ==> e.item.MsgKey() !in s.owner)
    ensures Can(s, e) ==> AfterAnyway(s, e) == After(s, e)
  {
    hide N.Put, N.Enabled, N.Accepts, N.Work, N.Receive, J.ListsOrphans, Rebuilt;
  }

  // Two intents share a key exactly when messenger and message number agree, whatever the chats, as
  // long as the messenger's id holds no colon.
  lemma KeysAgreeIff(x: QueueItem, y: QueueItem)
    requires ':' !in x.source.transportId && ':' !in y.source.transportId
    ensures x.MsgKey() == y.MsgKey() <==>
      x.source.transportId == y.source.transportId && x.sourceMsgId == y.sourceMsgId
  {
    var a, b, key := x.source.transportId, y.source.transportId, x.MsgKey();
    if key == y.MsgKey() {
      assert key[|a|] == ':' && key[|b|] == ':';
      assert forall i :: 0 <= i < |a| ==> key[i] == a[i];
      assert forall i :: 0 <= i < |b| ==> key[i] == b[i];
      assert |a| == |b|;
      assert key[..|a|] == a && key[..|b|] == b;
      assert key[|a| + 1..] == x.sourceMsgId && key[|b| + 1..] == y.sourceMsgId;
    }
  }

  // ---- Two chats, one message number ----------------------------------------------------------

  const NODE := "node"
  const CONF := N.Conf(8, 60.0, None, map[], {"tg"})
  const SUCCESS := Replied(SendResult(true, false))

  function Post(chat: string): QueueItem {
    var source := ChannelRef("tg", chat);
    var msg := Message("1", source, Identity("Alex", "7"), chat, None);
    QueueItem(source, "1", ChannelRef(NODE, "public"), msg, msg, true, 0.0)
  }

  // What the steps below depend on: where the worker stands, what waits, where the row is.
  ghost predicate Here(s: Sys, w: E.Worker, waiting: seq<QueueItem>, working: bool, committed: bool, inserting: nat) {
    && s.phase.Up? && NODE in s.nodes && s.inserting == inserting
    && s.nodes[NODE].conf == CONF && s.nodes[NODE].clock <= 0.0
    && s.nodes[NODE].worker == w && s.nodes[NODE].stream == Q.Stream(waiting, false, None)
    && (Post("a").MsgKey() in s.db.working <==> working)
    && (Post("a").MsgKey() in s.db.committed <==> committed)
  }

  ghost predicate Goes(s: Sys, e: Event, t: Sys) {
    CanAnyway(s, e) && AfterAnyway(s, e) == t
  }

  lemma BootStep(s: Sys) returns (t: Sys, u: Sys)
    requires Initial(s)
    ensures Goes(s, Boot(map[NODE := CONF], 0.0, []), t) && Goes(t, RecoverDone, u)
    ensures Here(u, E.Idle, [], false, false, u.inserting) && u.inserting == s.inserting
  {
    t := After(s, Boot(map[NODE := CONF], 0.0, []));
    u := After(t, RecoverDone);
  }

  lemma PostStep(s: Sys, chat: string, w: E.Worker, waiting: seq<QueueItem>, working: bool, committed: bool, n: nat)
    returns (t: Sys, u: Sys)
    requires Here(s, w, waiting, working, committed, n) && |waiting| < 8
    ensures Goes(s, Enqueue(Post(chat), 0.0), t) && Goes(t, InsertCommit, u)
    ensures Here(u, w, waiting + [Post(chat)], true, true, n)
  {
    t := Admitted(s, Post(chat), 0.0);
    assert Post(chat).MsgKey() == Post("a").MsgKey();
    u := After(t, InsertCommit);
  }

  lemma AskStep(s: Sys, waiting: seq<QueueItem>, working: bool, committed: bool, n: nat) returns (t: Sys)
    requires Here(s, E.Idle, waiting, working, committed, n) && waiting != []
    ensures Goes(s, Ask(NODE), t) && Here(t, E.Holding(waiting[0]), waiting[1..], working, committed, n)
  {
    t := After(s, Ask(NODE));
  }

  // One act of the worker on a post: what it does to the row.
  lemma WorkStep(s: Sys, chat: string, w: E.Worker, waiting: seq<QueueItem>, working: bool, committed: bool, n: nat)
    returns (t: Sys)
    requires Here(s, w, waiting, working, committed, n) && !w.Idle? && w.item == Post(chat)
    ensures Goes(s, Work(NODE, 0.0, SUCCESS), t)
    ensures var (w', act) := E.Next(w, 60.0, 0.0, SUCCESS, []);
      var kept := working && !(act.Execute? && act.stmt.Delete?);
      Here(t, w', waiting, kept, if act.Commit? then kept else committed, n)
  {
    assert Post(chat).MsgKey() == Post("a").MsgKey();
    assert N.Targets(s.nodes[NODE], Post(chat)) == [];
    t := After(s, Work(NODE, 0.0, SUCCESS));
  }

  ghost predicate Follows(states: seq<Sys>, events: seq<Event>, t: Sys) {
    RunAnyway(states, events) && states[|events|] == t
  }

  lemma Extend(states: seq<Sys>, events: seq<Event>, s: Sys, e: Event, t: Sys)
    requires Follows(states, events, s) && Goes(s, e, t)
    ensures Follows(states + [t], events + [e], t)
  {
    hide CanAnyway, AfterAnyway;
    var states', events' := states + [t], events + [e];
    forall i | 0 <= i < |events'|
      ensures CanAnyway(states'[i], events'[i]) && states'[i + 1] == AfterAnyway(states'[i], events'[i])
    {
      if i < |events| {
        assert events'[i] == events[i] && states'[i] == states[i] && states'[i + 1] == states[i + 1];
      }
    }
  }

  // From the queue to the air, the row being there or not.
  lemma ToTheAir(states: seq<Sys>, events: seq<Event>, s: Sys, chat: string, waiting: seq<QueueItem>, row: bool, n: nat)
    returns (states': seq<Sys>, events': seq<Event>, t: Sys)
    requires Follows(states, events, s) && Here(s, E.Idle, [Post(chat)] + waiting, row, row, n)
    ensures Follows(states', events', t) && Here(t, E.OnAir(Post(chat), 0), waiting, row, row, n)
  {
    hide Here, Follows, Goes;
    var x, work := Post(chat), Work(NODE, 0.0, SUCCESS);
    var t1 := AskStep(s, [x] + waiting, row, row, n);
    assert ([x] + waiting)[1..] == waiting;
    Extend(states, events, s, Ask(NODE), t1);
    var t2 := WorkStep(t1, chat, E.Holding(x), waiting, row, row, n);
    Extend(states + [t1], events + [Ask(NODE)], t1, work, t2);
    var t3 := WorkStep(t2, chat, E.Marking(x), waiting, row, row, n);
    Extend(states + [t1] + [t2], events + [Ask(NODE)] + [work], t2, work, t3);
    var t4 := WorkStep(t3, chat, E.Announcing(x), waiting, row, row, n);
    Extend(states + [t1] + [t2] + [t3], events + [Ask(NODE)] + [work] + [work], t3, work, t4);
    t := WorkStep(t4, chat, E.Ready(x, 0), waiting, row, row, n);
    Extend(states + [t1] + [t2] + [t3] + [t4], events + [Ask(NODE)] + [work] + [work] + [work], t4, work, t);
    states' := states + [t1] + [t2] + [t3] + [t4] + [t];
    events' := events + [Ask(NODE)] + [work] + [work] + [work] + [work];
  }

  // From the air back to rest: SENT, no mirrors, and the row is pruned.
  lemma BackToRest(states: seq<Sys>, events: seq<Event>, s: Sys, chat: string, waiting: seq<QueueItem>, n: nat)
    returns (states': seq<Sys>, events': seq<Event>, t: Sys)
    requires Follows(states, events, s) && Here(s, E.OnAir(Post(chat), 0), waiting, true, true, n)
    ensures Follows(states', events', t) && Here(t, E.Idle, waiting, false, false, n)
  {
    hide Here, Follows, Goes;
    var x, work := Post(chat), Work(NODE, 0.0, SUCCESS);
    var t1 := WorkStep(s, chat, E.OnAir(x, 0), waiting, true, true, n);
    Extend(states, events, s, work, t1);
    var t2 := WorkStep(t1, chat, E.Closing(x, true), waiting, true, true, n);
    Extend(states + [t1], events + [work], t1, work, t2);
    var t3 := WorkStep(t2, chat, E.Closed(x, true), waiting, true, true, n);
    Extend(states + [t1] + [t2], events + [work] + [work], t2, work, t3);
    var t4 := WorkStep(t3, chat, E.Mirroring(x, []), waiting, true, true, n);
    Extend(states + [t1] + [t2] + [t3], events + [work] + [work] + [work], t3, work, t4);
    t := WorkStep(t4, chat, E.Pruning(x), waiting, false, true, n);
    Extend(states + [t1] + [t2] + [t3] + [t4], events + [work] + [work] + [work] + [work], t4, work, t);
    states' := states + [t1] + [t2] + [t3] + [t4] + [t];
    events' := events + [work] + [work] + [work] + [work] + [work];
  }

  // The post of chat a is on the air when chat b posts under the same number: the INSERT replaces
  // the row, the SENT and the prune of a remove it, and b is sent with nothing persisted.
  lemma SharedKeyBreaksPersistence() returns (states: seq<Sys>, events: seq<Event>)
    ensures RunAnyway(states, events)
    ensures var end := states[|events|];
      && NODE in end.nodes && end.nodes[NODE].worker == E.OnAir(Post("b"), 0)
      && Post("b").MsgKey() !in end.db.committed
  {
    hide CanAnyway, AfterAnyway, Goes, Here;
    var s := Sys(J.Db(map[], map[]), Down, map[], 0, 0, map[], map[]);
    var boot := Boot(map[NODE := CONF], 0.0, []);
    var t1, t2 := BootStep(s);
    var t3, t4 := PostStep(t2, "a", E.Idle, [], false, false, t2.inserting);
    Start(s);
    Extend([s], [], s, boot, t1);
    Extend([s] + [t1], [] + [boot], t1, RecoverDone, t2);
    Extend([s] + [t1] + [t2], [] + [boot] + [RecoverDone], t2, Enqueue(Post("a"), 0.0), t3);
    Extend([s] + [t1] + [t2] + [t3], [] + [boot] + [RecoverDone] + [Enqueue(Post("a"), 0.0)], t3, InsertCommit, t4);
    states := [s] + [t1] + [t2] + [t3] + [t4];
    events := [] + [boot] + [RecoverDone] + [Enqueue(Post("a"), 0.0)] + [InsertCommit];
    var t: Sys;
    var none, a, b: seq<QueueItem> := [], [Post("a")], [Post("b")];
    assert none + a == a + none && none + b == b && b + none == b;
    states, events, t := ToTheAir(states, events, t4, "a", [], true, t2.inserting);
    var u1, u2 := PostStep(t, "b", E.OnAir(Post("a"), 0), [], true, true, t2.inserting);
    Extend(states, events, t, Enqueue(Post("b"), 0.0), u1);
    Extend(states + [u1], events + [Enqueue(Post("b"), 0.0)], u1, InsertCommit, u2);
    states, events := states + [u1] + [u2], events + [Enqueue(Post("b"), 0.0)] + [InsertCommit];
    states, events, t := BackToRest(states, events, u2, "a", [Post("b")], t2.inserting);
    states, events, t := ToTheAir(states, events, t, "b", [], false, t2.inserting);
    OnAirWithoutRow(t, t2.inserting);
  }

  lemma OnAirWithoutRow(s: Sys, n: nat)
    requires Here(s, E.OnAir(Post("b"), 0), [], false, false, n)
    ensures NODE in s.nodes && s.nodes[NODE].worker == E.OnAir(Post("b"), 0) && Post("b").MsgKey() !in s.db.committed
  {
    assert Post("a").MsgKey() == Post("b").MsgKey();
  }

  lemma Start(s: Sys)
    requires Initial(s)
    ensures Follows([s], [], s)
  {
  }
}
