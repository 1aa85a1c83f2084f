/**
 * What becomes of accepted intents over crashes and restarts: none is forgotten, and an orphan that
 * goes out after a restart still reaches the chats of its room (lora_bridge/core/bridge.py, app.py).
 */
module PipelineDurability {
  import opened Domain
  import opened Pipeline
  import opened PipelineVerdicts
  import S = PipelineSafety
  import O = PipelinePromises
  import J = Journal
  import E = RadioWorker
  import N = NodeLife

  // ---- No accepted intent is forgotten --------------------------------------------------------

  // The intent has a committed row, or it is finished and the radio confirmed it.
  ghost predicate Remembered(s: Sys, k: string) {
    At(s.db.committed, k).Some? || (O.Over(s, k) && Confirmed(CallsOf(s, k)))
  }

  lemma SentIsOver(s: Sys, k: string)
    requires Inv(s) && AllHonest(s) && HasStatus(At(s.db.committed, k), SENT)
    ensures O.Over(s, k) && Confirmed(CallsOf(s, k))
  {
    hide Inv, O.Over, Confirmed;
    O.TerminalIsOver(s, k);
    assert Honest(ViewOf(s, k));
  }

  lemma OverKeepsCalls(s: Sys, e: Event, k: string)
    requires Inv(s) && Can(s, e) && O.Over(s, k)
    ensures CallsOf(After(s, e), k) == CallsOf(s, k)
  {
    hide Inv, N.Put, N.Receive, N.Work, N.NextOf, Rebuilt, E.DbAfter, N.Accepts, InHandOk, CallsAfter;
    if e.Work? && s.nodes[e.node].worker.item.MsgKey() == k {
      HandView(s, e.node);
      OverIsNotOnAir(ViewOf(s, k), s.nodes[e.node].worker, s.life, e.node, |s.nodes[e.node].served|);
    }
  }

  lemma OverIsNotOnAir(v: View, w: E.Worker, life: nat, n: string, turn: nat)
    requires !w.Idle? && InHandOk(v, w, life, n, turn) && !O.Open(v.working)
    ensures !w.Ready? && !w.OnAir?
  {
  }

  lemma StepRemembers(states: seq<Sys>, events: seq<Event>, i: nat, k: string)
    requires Run(states, events) && i < |events| && Remembered(states[i], k)
    ensures Remembered(states[i + 1], k)
  {
    hide Inv, After, Can, O.Over, Confirmed, AllHonest;
    S.RunKeepsInv(states, events, i);
    RunStaysHonest(states, events, i);
    O.RowsMoveForward(states, events, i, k);
    if At(states[i + 1].db.committed, k).None? {
      if At(states[i].db.committed, k).Some? {
        SentIsOver(states[i], k);
      }
      O.OverStays(states[i], events[i], k);
      OverKeepsCalls(states[i], events[i], k);
    }
  }

  // Over every run, crashes and restarts included: once an intent's row is committed, the journal
  // keeps a row of it for good, unless the radio confirmed the intent and it was pruned.
  lemma {:induction false} NoIntentIsForgotten(states: seq<Sys>, events: seq<Event>, i: nat, j: nat, k: string)
    requires Run(states, events) && i <= j <= |events| && At(states[i].db.committed, k).Some?
    ensures At(states[j].db.committed, k).Some? || Confirmed(CallsOf(states[j], k))
    ensures Remembered(states[j], k)
  {
    hide After, Can, O.Over, Confirmed;
    if i < j {
      NoIntentIsForgotten(states, events, i, j - 1, k);
      StepRemembers(states, events, j - 1, k);
    }
  }

  // Without a crash a row leaves the working table only when its SENT is committed.
  lemma RowStaysUnlessCommitted(s: Sys, e: Event, k: string)
    requires Inv(s) && Can(s, e) && !e.Crash? && At(s.db.working, k).Some?
    ensures At(After(s, e).db.working, k).Some? || At(s.db.committed, k).Some?
  {
    hide Inv, N.Put, N.Receive, N.Work, Rebuilt, N.Accepts, InHandOk, N.Targets, E.Stale, E.WillRetry, CallsAfter;
    if e.Work? && s.nodes[e.node].worker.item.MsgKey() == k && s.nodes[e.node].worker.Mirroring? {
      HandView(s, e.node);
      MirroredIsCommitted(ViewOf(s, k), s.nodes[e.node].worker, s.life, e.node, |s.nodes[e.node].served|);
    }
  }

  lemma MirroredIsCommitted(v: View, w: E.Worker, life: nat, n: string, turn: nat)
    requires w.Mirroring? && InHandOk(v, w, life, n, turn)
    ensures v.committed.Some?
  {
  }

  lemma {:induction false} RowUntilCommit(states: seq<Sys>, events: seq<Event>, p: nat, i: nat, k: string)
    requires Run(states, events) && p <= i <= |events| && At(states[p].db.working, k).Some?
    requires forall q :: p <= q < i ==> !events[q].Crash?
    ensures At(states[i].db.working, k).Some? || Remembered(states[i], k)
  {
    hide After, Can, Inv, Remembered;
    if p < i {
      RowUntilCommit(states, events, p, i - 1, k);
      if Remembered(states[i - 1], k) {
        StepRemembers(states, events, i - 1, k);
      } else {
        S.RunKeepsInv(states, events, i - 1);
        assert At(states[i - 1].db.committed, k).None? by { NotRemembered(states[i - 1], k); }
        RowStaysUnlessCommitted(states[i - 1], events[i - 1], k);
      }
    }
  }

  lemma NotRemembered(s: Sys, k: string)
    requires !Remembered(s, k)
    ensures At(s.db.committed, k).None?
  {
  }

  lemma AcceptedIsInserted(s: Sys, x: QueueItem, at: real)
    requires Can(s, Enqueue(x, at)) && N.Accepts(s.nodes[x.target.transportId], at)
    ensures At(After(s, Enqueue(x, at)).db.working, x.MsgKey()) == Some(RowOf(x))
  {
    hide N.Put, N.Accepts;
  }

  lemma CommitPublishes(s: Sys, k: string)
    requires Can(s, InsertCommit) && At(s.db.working, k).Some?
    ensures At(After(s, InsertCommit).db.committed, k).Some?
  {
  }

  // An accepted message is durable: once any enqueue task has committed after its INSERT, no crash
  // loses it. From then on there is a row of it, or the radio confirmed it.
  lemma AcceptedIsDurable(states: seq<Sys>, events: seq<Event>, p: nat, i: nat, j: nat)
    requires Run(states, events) && p < i < j <= |events|
    requires events[p].Enqueue? && events[i].InsertCommit? && forall q :: p < q < i ==> !events[q].Crash?
    requires N.Accepts(states[p].nodes[events[p].item.target.transportId], events[p].at)
    ensures var k := events[p].item.MsgKey();
      At(states[j].db.committed, k).Some? || Confirmed(CallsOf(states[j], k))
  {
    hide After, Can, O.Over, Confirmed, N.Accepts;
    var k := events[p].item.MsgKey();
    AcceptedIsInserted(states[p], events[p].item, events[p].at);
    RowUntilCommit(states, events, p + 1, i, k);
    if At(states[i].db.working, k).Some? {
      CommitPublishes(states[i], k);
    } else {
      StepRemembers(states, events, i, k);
    }
    RemembersFrom(states, events, i + 1, j, k);
  }

  lemma {:induction false} RemembersFrom(states: seq<Sys>, events: seq<Event>, i: nat, j: nat, k: string)
    requires Run(states, events) && i <= j <= |events| && Remembered(states[i], k)
    ensures Remembered(states[j], k)
  {
    hide After, Can, Remembered;
    if i < j {
      RemembersFrom(states, events, i, j - 1, k);
      StepRemembers(states, events, j - 1, k);
    }
  }

  // ---- An orphan that goes out after a restart reaches its room --------------------------------

  lemma StepKeepsLife(s: Sys, e: Event)
    requires Can(s, e)
    ensures After(s, e).life == s.life + (if e.Boot? then 1 else 0)
    ensures e.Crash? ==> After(s, e).nodes == map[]
  {
    hide N.Put, N.Receive, N.Work, N.Enabled, Rebuilt, E.DbAfter, N.Accepts, N.NextOf;
  }

  lemma {:induction false} LifeGrows(states: seq<Sys>, events: seq<Event>, p: nat, i: nat)
    requires Run(states, events) && p <= i <= |events|
    ensures states[p].life <= states[i].life
  {
    hide After, Can;
    if p < i {
      LifeGrows(states, events, p, i - 1);
      StepKeepsLife(states[i - 1], events[i - 1]);
    }
  }

  // Within a life a node keeps its configuration and all it ever accepted.
  lemma StepKeepsNode(s: Sys, e: Event, n: string)
    requires Can(s, e) && !e.Boot? && !e.Crash? && n in After(s, e).nodes
    ensures n in s.nodes && After(s, e).nodes[n].conf == s.nodes[n].conf
    ensures s.nodes[n].accepted <= After(s, e).nodes[n].accepted
  {
    hide N.Accepts, N.NextOf, Rebuilt, E.DbAfter, N.Judged, N.Fated;
  }

  lemma {:induction false} SameLife(states: seq<Sys>, events: seq<Event>, p: nat, i: nat, n: string)
    requires Run(states, events) && p <= i <= |events|
    requires states[p].life == states[i].life && n in states[i].nodes
    ensures n in states[p].nodes && states[i].nodes[n].conf == states[p].nodes[n].conf
    ensures states[p].nodes[n].accepted <= states[i].nodes[n].accepted
  {
    hide After, Can;
    if p < i {
      LifeGrows(states, events, p, i - 1);
      StepKeepsLife(states[i - 1], events[i - 1]);
      StepKeepsNode(states[i - 1], events[i - 1], n);
      SameLife(states, events, p, i - 1, n);
    }
  }

  lemma PutAddsTicket(s: Sys, enqueuedAt: real, at: real)
    requires Can(s, RecoverPut(enqueuedAt, at))
    ensures var e := s.phase.todo[0]; var n := e.row.targetNode;
      n in s.nodes && N.Accepts(s.nodes[n], at) ==>
        var s' := After(s, RecoverPut(enqueuedAt, at));
        && n in s'.nodes && s'.life == s.life && s'.nodes[n].conf == s.nodes[n].conf
        && s'.nodes[n].accepted == s.nodes[n].accepted +
             [N.Ticket(Rebuilt(e, s.nodes[n].conf.messengers, enqueuedAt), at)]
  {
    hide N.Accepts, Rebuilt;
  }

  lemma {:induction false} ChosenHas(served: seq<N.Served>, p: N.Served -> bool, j: nat)
    requires j < |served| && p(served[j])
    ensures served[j].ticket.item in N.Chosen(served, p)
  {
    if j < |served| - 1 {
      ChosenHas(served[..|served| - 1], p, j);
    }
  }

  // A PENDING orphan that came from a chat and was queued again at step p: once it is SENT, every
  // other configured chat of its room has been mirrored its wire text, or is still owed it by the
  // worker that is just doing so.
  lemma RecoveredIsMirrored(states: seq<Sys>, events: seq<Event>, p: nat, i: nat, n: string, c: nat)
    requires Run(states, events) && p < i <= |events| && events[p].RecoverPut?
    requires n == states[p].phase.todo[0].row.targetNode && n in states[p].nodes
    requires N.Accepts(states[p].nodes[n], events[p].at)
    requires states[i].life == states[p].life && n in states[i].nodes
    requires var at, node := |states[p].nodes[n].accepted|, states[i].nodes[n];
      at < |node.served| && node.served[at].fate == Some(SENT)
    requires var row, conf := states[p].phase.todo[0].row, states[p].nodes[n].conf;
      var origin := ChannelRef(row.originTransport, row.originChat);
      && N.WellWired(conf) && row.originTransport in conf.messengers && origin in conf.rooms
      && c < |conf.rooms[origin].members|
      && var m := conf.rooms[origin].members[c];
         m.MessengerMember? && m.Ref() != origin && m.transportId in conf.messengers
    ensures var e, node := states[p].phase.todo[0], states[i].nodes[n];
      var origin := ChannelRef(e.row.originTransport, e.row.originChat);
      var chat := states[p].nodes[n].conf.rooms[origin].members[c].Ref();
      var x := node.served[|states[p].nodes[n].accepted|].ticket.item;
      && x.MsgKey() == e.msgKey && x.original.text == e.row.payload
      && x in N.MirroredTo(node.mirrored, chat) + N.MirroredTo(N.Owed(node), chat)
  {
    hide Inv, After, N.Accepts, N.Timely, N.Mirrors, N.Paid, N.InHand, N.Reaches, N.WellWired, N.Owed, Rebuilt,
      N.Enabled, N.Items;
    var s, e, node, at := states[p], states[p].phase.todo[0], states[i].nodes[n], |states[p].nodes[n].accepted|;
    var conf, origin := s.nodes[n].conf, ChannelRef(e.row.originTransport, e.row.originChat);
    var x := Rebuilt(e, conf.messengers, events[p].enqueuedAt);
    S.RunKeepsInv(states, events, p);
    S.RunKeepsInv(states, events, i);
    S.PendingOrphanIsQueueable(s, conf.messengers, events[p].enqueuedAt);
    PutAddsTicket(s, events[p].enqueuedAt, events[p].at);
    SameLife(states, events, p + 1, i, n);
    assert node.conf == conf && N.Alive(node);
    assert node.accepted[at].item == x && node.served[at].ticket == node.accepted[at];
    OrphanOfAChat(e, conf.messengers, events[p].enqueuedAt);
    var chat := conf.rooms[origin].members[c].Ref();
    N.EveryOtherChatIsReached(conf, x, c);
    ChosenHas(node.served, (s: N.Served) => s.fate == Some(SENT) && N.Reaches(node.conf, s.ticket.item, chat), at);
    O.MirrorsOverRuns(states, events, i, n, chat);
  }

  lemma OrphanOfAChat(e: J.Entry, messengers: set<string>, now: real)
    requires e.row.originTransport in messengers
    ensures var x := Rebuilt(e, messengers, now);
      x.fromMessenger && x.source == ChannelRef(e.row.originTransport, e.row.originChat)
      && x.original.text == e.row.payload
  {
  }
}
