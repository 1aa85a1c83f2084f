/**
 * Repairing orphans after a restart (`recover` in lora_bridge/app.py), before any worker runs:
 * TRANSMITTING becomes UNKNOWN, PENDING goes back to its node's queue if that takes it.
 */
module Recovery {
  import opened Domain
  import J = Journal
  import N = NodeLife
  import P = Pipeline
  import Q = CommitQueue
  import S = PipelineSafety
  import T = TokenBucket

  type Views = map<string, Q.View>

  // The clock when the rebuilt item is made, and when the limiter is asked.
  datatype Reading = Reading(enqueuedAt: real, at: real)

  ghost predicate Monotone(clock: nat -> Reading) {
    forall i: nat :: clock(i).enqueuedAt <= clock(i).at <= clock(i + 1).enqueuedAt
  }

  // ---- The journal ----------------------------------------------------------------------------

  // The table once every TRANSMITTING row among the listed orphans is UNKNOWN.
  function Repaired(t: J.Table, orphans: seq<J.Entry>): J.Table {
    if orphans == [] then t
    else
      var e, before := orphans[|orphans| - 1], Repaired(t, orphans[..|orphans| - 1]);
      if e.row.status == TRANSMITTING then J.Exec(before, J.SetStatus(e.msgKey, UNKNOWN)) else before
  }

  // Repair is complete: every ambiguous row is UNKNOWN, every other row is untouched.
  lemma RepairedTable(t: J.Table, orphans: seq<J.Entry>)
    requires J.ListsOrphans(t, orphans)
    ensures var r := Repaired(t, orphans);
      && r.Keys == t.Keys
      && forall k :: k in t ==> r[k] == if t[k].status == TRANSMITTING then t[k].(status := UNKNOWN) else t[k]
  {
    RepairedPrefix(t, orphans, |orphans|);
    assert orphans[..|orphans|] == orphans;
    forall k | k in t && t[k].status == TRANSMITTING
      ensures exists i :: 0 <= i < |orphans| && orphans[i].msgKey == k
    {
      assert J.Entry(k, t[k]) in orphans;
    }
  }

  lemma {:induction false} RepairedPrefix(t: J.Table, orphans: seq<J.Entry>, n: nat)
    requires n <= |orphans|
    requires forall i :: 0 <= i < |orphans| ==> orphans[i].msgKey in t && t[orphans[i].msgKey] == orphans[i].row
    requires forall i, j :: 0 <= i < j < |orphans| ==> orphans[i].msgKey != orphans[j].msgKey
    ensures var r := Repaired(t, orphans[..n]);
      && r.Keys == t.Keys
      && (forall k :: k in t && (forall i :: 0 <= i < n ==> orphans[i].msgKey != k) ==> r[k] == t[k])
      && (forall i :: 0 <= i < n ==> r[orphans[i].msgKey] == RepairedRow(orphans[i].row))
  {
    hide J.Exec, RepairedRow;
    if n > 0 {
      RepairedPrefix(t, orphans, n - 1);
      assert orphans[..n][..n - 1] == orphans[..n - 1];
      RepairedOne(Repaired(t, orphans[..n - 1]), orphans[n - 1]);
    }
  }

  function RepairedRow(row: J.Row): J.Row {
    if row.status == TRANSMITTING then row.(status := UNKNOWN) else row
  }

  lemma RepairedOne(t: J.Table, e: J.Entry)
    requires e.msgKey in t && t[e.msgKey] == e.row
    ensures (if e.row.status == TRANSMITTING then J.Exec(t, J.SetStatus(e.msgKey, UNKNOWN)) else t)
      == t[e.msgKey := RepairedRow(e.row)]
  {
  }

  // ---- The queues -----------------------------------------------------------------------------

  // The queue of a PENDING orphan's node, if there is one, is asked to take the rebuilt item.
  ghost predicate Taken(v: Views, e: J.Entry, now: Reading) {
    e.row.status != TRANSMITTING && e.row.targetNode in v && v[e.row.targetNode].Takes(now.at)
  }

  ghost function Turned(v: Views, e: J.Entry, messengers: set<string>, now: Reading): Views {
    var n := e.row.targetNode;
    if e.row.status != TRANSMITTING && n in v
    then v[n := v[n].Put(P.Rebuilt(e, messengers, now.enqueuedAt), now.at)]
    else v
  }

  // All queues after the listed orphans were handled, one reading each.
  ghost function Handled(v: Views, orphans: seq<J.Entry>, messengers: set<string>, clock: nat -> Reading): Views {
    if orphans == [] then v
    else
      var k := |orphans| - 1;
      Turned(Handled(v, orphans[..k], messengers, clock), orphans[k], messengers, clock(k))
  }

  ghost predicate TakenAt(v: Views, orphans: seq<J.Entry>, messengers: set<string>, clock: nat -> Reading, i: nat)
    requires i < |orphans|
  {
    Taken(Handled(v, orphans[..i], messengers, clock), orphans[i], clock(i))
  }

  lemma HandledStep(v: Views, orphans: seq<J.Entry>, messengers: set<string>, clock: nat -> Reading, i: nat)
    requires i < |orphans|
    ensures Handled(v, orphans[..i + 1], messengers, clock) ==
      Turned(Handled(v, orphans[..i], messengers, clock), orphans[i], messengers, clock(i))
  {
    assert orphans[..i + 1][..i] == orphans[..i];
  }

  // The items put back on node n's queue, in the order of the listing.
  ghost function Requeued(v: Views, orphans: seq<J.Entry>, n: string, messengers: set<string>,
                          clock: nat -> Reading): seq<QueueItem>
  {
    if orphans == [] then []
    else
      var k := |orphans| - 1;
      Requeued(v, orphans[..k], n, messengers, clock) +
      (if orphans[k].row.targetNode == n && Taken(Handled(v, orphans[..k], messengers, clock), orphans[k], clock(k))
       then [P.Rebuilt(orphans[k], messengers, clock(k).enqueuedAt)] else [])
  }

  // Node by node: what was pending stays in front, the node's own orphans that its queue took
  // follow in listing order.
  lemma {:induction false} RefilledByNode(v: Views, orphans: seq<J.Entry>, messengers: set<string>,
                                          clock: nat -> Reading, n: string)
    requires n in v && v[n].stream.Valid(v[n].capacity)
    ensures var after := Handled(v, orphans, messengers, clock);
      && after.Keys == v.Keys && after[n].capacity == v[n].capacity && after[n].stream.Valid(v[n].capacity)
      && after[n].stream.Pending() == v[n].stream.Pending() + Requeued(v, orphans, n, messengers, clock)
  {
    hide P.Rebuilt, T.WindowAllows;
    if orphans != [] {
      var k := |orphans| - 1;
      RefilledByNode(v, orphans[..k], messengers, clock, n);
      var before := Handled(v, orphans[..k], messengers, clock);
      Q.PutAppends(before[n], P.Rebuilt(orphans[k], messengers, clock(k).enqueuedAt), clock(k).at);
    }
  }

  // ---- When nothing is left behind ------------------------------------------------------------

  // The PENDING orphans of one node.
  function PendingOf(orphans: seq<J.Entry>, n: string): nat {
    if orphans == [] then 0
    else
      var e := orphans[|orphans| - 1];
      PendingOf(orphans[..|orphans| - 1], n) + (if e.row.status != TRANSMITTING && e.row.targetNode == n then 1 else 0)
  }

  // A queue no one has used: what every node has when `recover` runs.
  ghost predicate Unused(v: Q.View, now: real) {
    && v.stream == Q.Stream([], false, None) && v.requests == []
    && (v.limits.Some? ==> v.limits.value.Sensible() && v.birth <= now)
  }

  // Room for m items in the buffer and in the bucket.
  ghost predicate Roomy(v: Q.View, m: nat) {
    m <= v.capacity && (v.limits.Some? ==> m as real <= v.limits.value.capacity)
  }

  // A queue that was only ever asked for m single messages, all of which it took.
  ghost predicate Holds(v: Q.View, start: Q.View, m: nat, now: real) {
    && v == start.(requests := v.requests, stream := v.stream)
    && !v.stream.waiting && v.stream.handed.None? && |v.stream.buffer| == m
    && (v.limits.Some? ==>
          && |v.requests| == m && v.limits.value.Sensible() && T.NotBefore(v.birth, v.requests, now)
          && forall i :: 0 <= i < m ==> v.requests[i].amount == 1.0)
  }

  lemma HoldsTakes(v: Q.View, start: Q.View, m: nat, now: real, item: QueueItem, at: real)
    requires Holds(v, start, m, now) && Roomy(start, m + 1) && now <= at
    ensures v.Takes(at) && Holds(v.Put(item, at), start, m + 1, at)
  {
    if v.limits.Some? {
      T.FewUnitsAreAllowed(v.limits.value, v.birth, v.requests, at);
    }
    hide T.WindowAllows;
  }

  lemma HoldsLater(v: Q.View, start: Q.View, m: nat, now: real, later: real)
    requires Holds(v, start, m, now) && now <= later
    ensures Holds(v, start, m, later)
  {
  }

  lemma {:induction false} PendingOfGrows(orphans: seq<J.Entry>, i: nat, n: string)
    requires i <= |orphans|
    ensures PendingOf(orphans[..i], n) <= PendingOf(orphans, n)
    decreases |orphans| - i
  {
    if i < |orphans| {
      PendingOfGrows(orphans, i + 1, n);
      assert orphans[..i + 1][..i] == orphans[..i];
    } else {
      assert orphans[..i] == orphans;
    }
  }

  lemma {:induction false} RoomySoFar(v: Views, orphans: seq<J.Entry>, messengers: set<string>, clock: nat -> Reading,
                                      i: nat, n: string)
    requires i <= |orphans| && Monotone(clock) && n in v
    requires Unused(v[n], clock(0).enqueuedAt) && Roomy(v[n], PendingOf(orphans, n))
    ensures var after := Handled(v, orphans[..i], messengers, clock);
      n in after && Holds(after[n], v[n], PendingOf(orphans[..i], n), clock(i).enqueuedAt)
    ensures i < |orphans| && orphans[i].row.status != TRANSMITTING && orphans[i].row.targetNode == n ==>
      TakenAt(v, orphans, messengers, clock, i)
  {
    hide Q.View.Put, Q.View.Takes, P.Rebuilt, Roomy, Holds, Unused, Handled;
    if i == 0 {
      NothingHandled(map[], v, messengers, clock);
      UnusedHoldsNothing(v[n], clock(0).enqueuedAt);
      assert orphans[..0] == [];
    } else {
      RoomySoFar(v, orphans, messengers, clock, i - 1, n);
      HandledStep(v, orphans, messengers, clock, i - 1);
      assert orphans[..i][..i - 1] == orphans[..i - 1];
      var before, m := Handled(v, orphans[..i - 1], messengers, clock), PendingOf(orphans[..i - 1], n);
      var e, now := orphans[i - 1], clock(i - 1);
      if e.row.status != TRANSMITTING && e.row.targetNode == n {
        PendingOfGrows(orphans, i, n);
        RoomyForFewer(v[n], PendingOf(orphans, n), m + 1);
        HoldsTakes(before[n], v[n], m, now.enqueuedAt, P.Rebuilt(e, messengers, now.enqueuedAt), now.at);
        HoldsLater(before[n].Put(P.Rebuilt(e, messengers, now.enqueuedAt), now.at),
                  v[n], m + 1, now.at, clock(i).enqueuedAt);
      } else {
        HoldsLater(before[n], v[n], m, now.enqueuedAt, clock(i).enqueuedAt);
      }
    }
    if i < |orphans| && orphans[i].row.status != TRANSMITTING && orphans[i].row.targetNode == n {
      var after, m := Handled(v, orphans[..i], messengers, clock), PendingOf(orphans[..i], n);
      PendingOfGrows(orphans, i + 1, n);
      assert orphans[..i + 1][..i] == orphans[..i];
      RoomyForFewer(v[n], PendingOf(orphans, n), m + 1);
      HoldsTakes(after[n], v[n], m, clock(i).enqueuedAt,
                 P.Rebuilt(orphans[i], messengers, clock(i).enqueuedAt), clock(i).at);
    }
  }

  lemma UnusedHoldsNothing(v: Q.View, now: real)
    requires Unused(v, now)
    ensures Holds(v, v, 0, now)
  {
  }

  lemma RoomyForFewer(v: Q.View, m: nat, k: nat)
    requires Roomy(v, m) && k <= m
    ensures Roomy(v, k)
  {
  }

  // A guard to check before the restart: with unused queues, when no node has more PENDING orphans
  // than its buffer and its bucket hold, every one on a known node is queued.
  lemma {:induction false} EveryPendingOrphanIsQueued(v: Views, orphans: seq<J.Entry>, messengers: set<string>,
                                                      clock: nat -> Reading)
    requires Monotone(clock)
    requires forall n :: n in v ==> Unused(v[n], clock(0).enqueuedAt) && Roomy(v[n], PendingOf(orphans, n))
    ensures forall i :: 0 <= i < |orphans| ==>
      (TakenAt(v, orphans, messengers, clock, i) <==>
       orphans[i].row.status != TRANSMITTING && orphans[i].row.targetNode in v)
  {
    hide Handled, Unused, Roomy, PendingOf, Q.View.Takes;
    forall i | 0 <= i < |orphans| && orphans[i].row.status != TRANSMITTING && orphans[i].row.targetNode in v
      ensures TakenAt(v, orphans, messengers, clock, i)
    {
      RoomySoFar(v, orphans, messengers, clock, i, orphans[i].row.targetNode);
    }
    forall i | 0 <= i < |orphans| && TakenAt(v, orphans, messengers, clock, i)
      ensures orphans[i].row.targetNode in v
    {
      HandledKeepsNodes(v, orphans[..i], messengers, clock);
    }
  }

  lemma {:induction false} HandledKeepsNodes(v: Views, orphans: seq<J.Entry>, messengers: set<string>,
                                            clock: nat -> Reading)
    ensures Handled(v, orphans, messengers, clock).Keys == v.Keys
  {
    hide Q.View.Put, P.Rebuilt;
    if orphans != [] {
      HandledKeepsNodes(v, orphans[..|orphans| - 1], messengers, clock);
    }
  }

  // A queue that was unused, with m of our items in its buffer: the limiter granted at least as many.
  ghost predicate Carries(v: Q.View, start: Q.View, m: nat) {
    && v == start.(requests := v.requests, stream := v.stream)
    && !v.stream.waiting && v.stream.handed.None? && |v.stream.buffer| == m
    && (v.limits.Some? ==> T.Granted(v.requests) >= m as real)
  }

  lemma CarriesPut(v: Q.View, start: Q.View, m: nat, item: QueueItem, at: real)
    requires Carries(v, start, m)
    ensures Carries(v.Put(item, at), start, m + (if v.Takes(at) then 1 else 0))
    ensures v.Takes(at) ==> m < start.capacity
    ensures v.Takes(at) && v.limits.Some? ==>
      (m + 1) as real <= v.limits.value.capacity + T.Refill(v.limits.value.rate, at - v.birth)
  {
    hide T.Refill;
    var r := T.Request(at, 1.0, v.Allows(at));
    assert (v.requests + [r])[..|v.requests|] == v.requests;
  }

  lemma {:induction false} CarriesSoFar(v: Views, orphans: seq<J.Entry>, messengers: set<string>, clock: nat -> Reading,
                                        n: string)
    requires n in v && Unused(v[n], clock(0).enqueuedAt)
    ensures var after := Handled(v, orphans, messengers, clock);
      n in after && Carries(after[n], v[n], |Requeued(v, orphans, n, messengers, clock)|)
  {
    hide Q.View.Put, Q.View.Takes, P.Rebuilt, Carries;
    if orphans == [] {
      UnusedCarriesNothing(v[n], clock(0).enqueuedAt);
    } else {
      var k := |orphans| - 1;
      CarriesSoFar(v, orphans[..k], messengers, clock, n);
      var before, m := Handled(v, orphans[..k], messengers, clock), |Requeued(v, orphans[..k], n, messengers, clock)|;
      CarriesPut(before[n], v[n], m, P.Rebuilt(orphans[k], messengers, clock(k).enqueuedAt), clock(k).at);
    }
  }

  lemma UnusedCarriesNothing(v: Q.View, now: real)
    requires Unused(v, now)
    ensures Carries(v, v, 0)
  {
  }

  // Both bounds of the guard are sharp: the orphan that finds the buffer full, or the bucket and all
  // it took in since its birth given out, is not queued.
  lemma {:induction false} OneTooManyIsLeft(v: Views, orphans: seq<J.Entry>, messengers: set<string>,
                                            clock: nat -> Reading, i: nat, n: string)
    requires n in v && i < |orphans| && orphans[i].row.targetNode == n && Unused(v[n], clock(0).enqueuedAt)
    requires var taken := |Requeued(v, orphans[..i], n, messengers, clock)|;
      || taken == v[n].capacity
      || (v[n].limits.Some? && (taken + 1) as real >
            v[n].limits.value.capacity + T.Refill(v[n].limits.value.rate, clock(i).at - v[n].birth))
    ensures !TakenAt(v, orphans, messengers, clock, i)
  {
    hide Q.View.Put, Q.View.Takes, P.Rebuilt, T.Refill, Handled, Requeued;
    var taken := |Requeued(v, orphans[..i], n, messengers, clock)|;
    CarriesSoFar(v, orphans[..i], messengers, clock, n);
    CarriesPut(Handled(v, orphans[..i], messengers, clock)[n], v[n], taken,
               P.Rebuilt(orphans[i], messengers, clock(i).enqueuedAt), clock(i).at);
  }

  // ---- The same, step by step, on the machine of the whole pipeline -----------------------------

  ghost predicate Agrees(s: P.Sys, db: J.Db, v: Views, messengers: set<string>) {
    && s.db == db && s.nodes.Keys == v.Keys
    && forall n :: n in v ==> N.QueueOf(s.nodes[n]) == v[n] && s.nodes[n].conf.messengers == messengers
  }

  ghost predicate NoLater(s: P.Sys, now: real) {
    forall n :: n in s.nodes ==> s.nodes[n].clock <= now
  }

  ghost predicate AtOrphan(s: P.Sys, e: J.Entry) {
    s.phase.Recovering? && !s.phase.marking && s.phase.todo != [] && s.phase.todo[0] == e
  }

  // An ambiguous orphan: the statement, then its commit.
  lemma MarkIsTwoSteps(s: P.Sys, e: J.Entry, db: J.Db, v: Views, messengers: set<string>)
    requires Agrees(s, db, v, messengers) && AtOrphan(s, e) && e.row.status == TRANSMITTING
    ensures P.Can(s, P.RecoverMark) && P.Can(P.After(s, P.RecoverMark), P.RecoverCommit)
    ensures var t := P.After(P.After(s, P.RecoverMark), P.RecoverCommit);
      && Agrees(t, db.Executed(J.SetStatus(e.msgKey, UNKNOWN)).Published(), v, messengers)
      && t.phase == P.Recovering(s.phase.todo[1..], false) && t.nodes == s.nodes
  {
  }

  lemma RecoverPutIsPut(s: P.Sys, e: J.Entry, messengers: set<string>, now: Reading)
    requires AtOrphan(s, e) && e.row.status != TRANSMITTING && NoLater(s, now.enqueuedAt) && now.enqueuedAt <= now.at
    requires forall n :: n in s.nodes ==> s.nodes[n].conf.messengers == messengers
    ensures P.Can(s, P.RecoverPut(now.enqueuedAt, now.at))
    ensures var n := e.row.targetNode;
      P.After(s, P.RecoverPut(now.enqueuedAt, now.at)) ==
        s.(phase := P.Recovering(s.phase.todo[1..], false),
           nodes := if n in s.nodes
                    then s.nodes[n := N.Put(s.nodes[n], P.Rebuilt(e, messengers, now.enqueuedAt), now.at)]
                    else s.nodes)
  {
    hide N.Put;
  }

  // A PENDING orphan: one put, on its node's queue if there is one.
  lemma {:induction false} PutIsOneStep(s: P.Sys, e: J.Entry, db: J.Db, v: Views, messengers: set<string>, now: Reading)
    requires Agrees(s, db, v, messengers) && S.AllAlive(s) && AtOrphan(s, e) && e.row.status != TRANSMITTING
    requires NoLater(s, now.enqueuedAt) && now.enqueuedAt <= now.at
    ensures P.Can(s, P.RecoverPut(now.enqueuedAt, now.at))
    ensures var t := P.After(s, P.RecoverPut(now.enqueuedAt, now.at));
      && Agrees(t, db, Turned(v, e, messengers, now), messengers) && NoLater(t, now.at)
      && t.phase == P.Recovering(s.phase.todo[1..], false)
    ensures Taken(v, e, now) <==> e.row.targetNode in s.nodes && N.Accepts(s.nodes[e.row.targetNode], now.at)
  {
    hide P.Can, P.After, N.Put, N.Accepts, N.Alive, N.QueueOf, Q.View.Put, Q.View.Takes, P.Rebuilt;
    RecoverPutIsPut(s, e, messengers, now);
    var n := e.row.targetNode;
    if n in s.nodes {
      AlivePut(s.nodes[n], P.Rebuilt(e, messengers, now.enqueuedAt), now.at);
    }
  }

  lemma AlivePut(n: N.Node, item: QueueItem, now: real)
    requires N.Alive(n) && n.clock <= now
    ensures N.QueueOf(N.Put(n, item, now)) == N.QueueOf(n).Put(item, now)
    ensures N.Accepts(n, now) <==> N.QueueOf(n).Takes(now)
    ensures N.Put(n, item, now).conf == n.conf && N.Put(n, item, now).clock == now
  {
    N.PutIsQueuePut(n, item, now);
    PutKeepsConf(n, item, now);
  }

  lemma PutKeepsConf(n: N.Node, item: QueueItem, now: real)
    ensures N.Put(n, item, now).conf == n.conf && N.Put(n, item, now).clock == now
  {
    hide N.Granted;
  }

  ghost predicate Steps(states: seq<P.Sys>, events: seq<P.Event>) {
    && |states| == |events| + 1
    && forall i :: 0 <= i < |events| ==> P.Can(states[i], events[i]) && states[i + 1] == P.After(states[i], events[i])
  }

  lemma StepOn(states: seq<P.Sys>, events: seq<P.Event>, e: P.Event)
    requires Steps(states, events) && P.Can(states[|events|], e)
    ensures Steps(states + [P.After(states[|events|], e)], events + [e])
  {
    hide P.Can, P.After;
    var states', events' := states + [P.After(states[|events|], e)], events + [e];
    forall i | 0 <= i < |events'|
      ensures P.Can(states'[i], events'[i]) && states'[i + 1] == P.After(states'[i], events'[i])
    {
      if i < |events| {
        assert events'[i] == events[i] && states'[i] == states[i] && states'[i + 1] == states[i + 1];
      }
    }
  }

  // What `Recover` computes below is what the machine reaches in recovery steps: the same journal,
  // the same queues, orphan after orphan.
  lemma {:induction false} RecoverIsTheMachine(s: P.Sys, t: J.Table, v: Views, messengers: set<string>,
                                               clock: nat -> Reading, orphans: seq<J.Entry>, i: nat)
    returns (states: seq<P.Sys>, events: seq<P.Event>)
    requires Agrees(s, J.Db(t, t), v, messengers) && S.AllAlive(s) && NoLater(s, clock(0).enqueuedAt)
    requires s.phase == P.Recovering(orphans, false) && i <= |orphans| && Monotone(clock)
    ensures Steps(states, events) && states[0] == s
    ensures var end := states[|events|];
      && end.phase == P.Recovering(orphans[i..], false) && S.AllAlive(end) && NoLater(end, clock(i).enqueuedAt)
      && Agrees(end, J.Db(Repaired(t, orphans[..i]), Repaired(t, orphans[..i])),
                Handled(v, orphans[..i], messengers, clock), messengers)
  {
    hide P.Can, P.After, Agrees, S.AllAlive, Turned, J.Exec, Handled, Repaired, Taken, N.Accepts;
    if i == 0 {
      NothingHandled(t, v, messengers, clock);
      states, events := [s], [];
      assert orphans[..0] == [] && orphans[0..] == orphans;
    } else {
      states, events := RecoverIsTheMachine(s, t, v, messengers, clock, orphans, i - 1);
      var here, e := states[|events|], orphans[i - 1];
      var done, after := Repaired(t, orphans[..i - 1]), Handled(v, orphans[..i - 1], messengers, clock);
      HandledStep(v, orphans, messengers, clock, i - 1);
      RepairedStep(t, orphans, i - 1);
      assert orphans[i - 1..][1..] == orphans[i..] && orphans[i - 1..][0] == e;
      if e.row.status == TRANSMITTING {
        MarkIsTwoSteps(here, e, J.Db(done, done), after, messengers);
        S.StepKeepsAllAlive(here, P.RecoverMark);
        var marked := P.After(here, P.RecoverMark);
        S.StepKeepsAllAlive(marked, P.RecoverCommit);
        StepOn(states, events, P.RecoverMark);
        StepOn(states + [marked], events + [P.RecoverMark], P.RecoverCommit);
        states := states + [marked] + [P.After(marked, P.RecoverCommit)];
        events := events + [P.RecoverMark] + [P.RecoverCommit];
        MarkLeavesQueues(after, e, messengers, clock(i - 1));
      } else {
        var put := P.RecoverPut(clock(i - 1).enqueuedAt, clock(i - 1).at);
        PutIsOneStep(here, e, J.Db(done, done), after, messengers, clock(i - 1));
        S.StepKeepsAllAlive(here, put);
        StepOn(states, events, put);
        states, events := states + [P.After(here, put)], events + [put];
      }
    }
  }

  lemma MarkLeavesQueues(v: Views, e: J.Entry, messengers: set<string>, now: Reading)
    requires e.row.status == TRANSMITTING
    ensures Turned(v, e, messengers, now) == v
  {
  }

  // ---- Nothing is left behind, over every run ----------------------------------------------------

  // The guard, for the nodes a start configures: no node has more PENDING orphans than its buffer and
  // its bucket hold.
  ghost predicate HasRoomFor(confs: map<string, N.Conf>, birth: real, orphans: seq<J.Entry>) {
    forall n :: n in confs ==> Roomy(N.QueueOf(N.New(confs[n], birth)), PendingOf(orphans, n))
  }

  predicate Queueable(e: J.Entry, confs: map<string, N.Conf>) {
    e.row.status != TRANSMITTING && e.row.targetNode in confs
  }

  // The first p orphans are dealt with: all that can be queued are.
  ghost predicate Restored(s: P.Sys, confs: map<string, N.Conf>, birth: real, orphans: seq<J.Entry>, p: nat) {
    && s.phase.Recovering? && p <= |orphans| && s.phase.todo == orphans[p..] && s.nodes.Keys == confs.Keys
    && (forall n :: n in confs ==>
          Holds(N.QueueOf(s.nodes[n]), N.QueueOf(N.New(confs[n], birth)), PendingOf(orphans[..p], n), s.nodes[n].clock))
    && (forall i :: 0 <= i < p && Queueable(orphans[i], confs) ==> P.IsActive(s, orphans[i].msgKey))
  }

  lemma BootRestoresNothing(s: P.Sys, confs: map<string, N.Conf>, birth: real, orphans: seq<J.Entry>)
    requires P.Can(s, P.Boot(confs, birth, orphans))
    ensures Restored(P.After(s, P.Boot(confs, birth, orphans)), confs, birth, orphans, 0)
  {
    assert orphans[0..] == orphans && orphans[..0] == [];
  }

  lemma PrefixGrows(orphans: seq<J.Entry>, p: nat, n: string)
    requires p < |orphans|
    ensures orphans[p..][0] == orphans[p] && orphans[p..][1..] == orphans[p + 1..]
    ensures PendingOf(orphans[..p + 1], n) ==
      PendingOf(orphans[..p], n) +
      (if orphans[p].row.status != TRANSMITTING && orphans[p].row.targetNode == n then 1 else 0)
  {
    assert orphans[..p + 1][..p] == orphans[..p];
  }

  // A mark or its commit: the queues and what is in them stay; a commit ends an ambiguous orphan.
  lemma MarkRestores(s: P.Sys, e: P.Event, confs: map<string, N.Conf>, birth: real, orphans: seq<J.Entry>, p: nat)
    returns (p': nat)
    requires P.Inv(s) && P.Can(s, e) && (e.RecoverMark? || e.RecoverCommit?) && Restored(s, confs, birth, orphans, p)
    ensures Restored(P.After(s, e), confs, birth, orphans, p')
  {
    hide P.Inv, P.Can, P.After, Holds, N.QueueOf, N.New, PendingOf, P.IsActive, Queueable;
    MarkEffect(s, e);
    S.SameNodesSameActive(s, P.After(s, e));
    p' := p;
    if e.RecoverCommit? {
      assert s.phase.todo[0] == orphans[p];
      p' := p + 1;
      forall n | n in confs
        ensures PendingOf(orphans[..p + 1], n) == PendingOf(orphans[..p], n)
      {
        PrefixGrows(orphans, p, n);
      }
      PrefixGrows(orphans, p, "");
      NotQueueable(orphans[p], confs);
    }
  }

  lemma NotQueueable(e: J.Entry, confs: map<string, N.Conf>)
    requires e.row.status == TRANSMITTING
    ensures !Queueable(e, confs)
  {
  }

  lemma MarkEffect(s: P.Sys, e: P.Event)
    requires P.Inv(s) && P.Can(s, e) && (e.RecoverMark? || e.RecoverCommit?)
    ensures var t := P.After(s, e);
      && t.nodes == s.nodes && t.owner == s.owner && t.phase.Recovering?
      && (e.RecoverMark? ==> t.phase.todo == s.phase.todo)
      && (e.RecoverCommit? ==>
            s.phase.todo != [] && t.phase.todo == s.phase.todo[1..] && s.phase.todo[0].row.status == TRANSMITTING)
  {
    hide P.Inv;
    if e.RecoverCommit? {
      MarkedIsTransmitting(s);
    }
  }

  lemma MarkedIsTransmitting(s: P.Sys)
    requires P.Inv(s) && P.Can(s, P.RecoverCommit)
    ensures s.phase.todo[0].row.status == TRANSMITTING
  {
    hide P.RowsOk, P.NodesOk, P.RestOk, P.QuietOk;
  }

  lemma PutRestores(s: P.Sys, enqueuedAt: real, at: real, confs: map<string, N.Conf>, birth: real,
                    orphans: seq<J.Entry>, p: nat)
    requires P.Inv(s) && S.AllAlive(s) && P.Can(s, P.RecoverPut(enqueuedAt, at))
    requires Restored(s, confs, birth, orphans, p) && HasRoomFor(confs, birth, orphans)
    ensures Restored(P.After(s, P.RecoverPut(enqueuedAt, at)), confs, birth, orphans, p + 1)
  {
    hide P.Inv, S.AllAlive, N.Put, N.Accepts, N.Alive, N.QueueOf, N.New, Q.View.Put, Q.View.Takes, P.Rebuilt, Holds,
      Roomy, P.IsActive, PendingOf;
    var t, e := P.After(s, P.RecoverPut(enqueuedAt, at)), orphans[p];
    S.RecoverPutQueuesIff(s, enqueuedAt, at);
    S.OrphanAtRest(s);
    PrefixGrows(orphans, p, e.row.targetNode);
    forall n | n in confs
      ensures Holds(N.QueueOf(t.nodes[n]), N.QueueOf(N.New(confs[n], birth)), PendingOf(orphans[..p + 1], n),
                    t.nodes[n].clock)
      ensures n == e.row.targetNode ==> N.Accepts(s.nodes[n], at)
    {
      PrefixGrows(orphans, p, n);
      if n == e.row.targetNode {
        var start, m := N.QueueOf(N.New(confs[n], birth)), PendingOf(orphans[..p], n);
        var x := P.Rebuilt(e, s.nodes[n].conf.messengers, enqueuedAt);
        PendingOfGrows(orphans, p + 1, n);
        RoomyForFewer(start, PendingOf(orphans, n), m + 1);
        AliveAt(s, n);
        AlivePut(s.nodes[n], x, at);
        HoldsTakes(N.QueueOf(s.nodes[n]), start, m, s.nodes[n].clock, x, at);
      }
    }
    forall i | 0 <= i < p + 1 && Queueable(orphans[i], confs)
      ensures P.IsActive(t, orphans[i].msgKey)
    {
      if i < p {
        assert P.IsActive(s, orphans[i].msgKey);
      }
    }
  }

  lemma AliveAt(s: P.Sys, n: string)
    requires S.AllAlive(s) && n in s.nodes
    ensures N.Alive(s.nodes[n])
  {
    hide N.Alive;
  }

  lemma {:induction false} RestoredSoFar(states: seq<P.Sys>, events: seq<P.Event>, b: nat, j: nat) returns (p: nat)
    requires P.Run(states, events) && b < j <= |events| && events[b].Boot?
    requires forall q :: b < q < j ==> !events[q].Crash? && !events[q].RecoverDone?
    requires HasRoomFor(events[b].confs, events[b].now, events[b].orphans)
    ensures Restored(states[j], events[b].confs, events[b].now, events[b].orphans, p)
  {
    hide P.Inv, P.After, S.AllAlive, Restored, HasRoomFor;
    var confs, birth, orphans := events[b].confs, events[b].now, events[b].orphans;
    if j == b + 1 {
      BootRestoresNothing(states[b], confs, birth, orphans);
      p := 0;
    } else {
      p := RestoredSoFar(states, events, b, j - 1);
      S.RunKeepsInv(states, events, j - 1);
      RestoredIsRecovering(states[j - 1], confs, birth, orphans, p);
      OnlyRecovers(states[j - 1], events[j - 1]);
      if events[j - 1].RecoverPut? {
        PutRestores(states[j - 1], events[j - 1].enqueuedAt, events[j - 1].at, confs, birth, orphans, p);
        p := p + 1;
      } else {
        p := MarkRestores(states[j - 1], events[j - 1], confs, birth, orphans, p);
      }
    }
  }

  lemma RestoredIsRecovering(s: P.Sys, confs: map<string, N.Conf>, birth: real, orphans: seq<J.Entry>, p: nat)
    requires Restored(s, confs, birth, orphans, p)
    ensures s.phase.Recovering?
  {
  }

  lemma OnlyRecovers(s: P.Sys, e: P.Event)
    requires s.phase.Recovering? && P.Can(s, e) && !e.Crash? && !e.RecoverDone?
    ensures e.RecoverMark? || e.RecoverCommit? || e.RecoverPut?
  {
  }

  // Over every run: when a start meets the guard and its recovery comes through, every PENDING orphan
  // on a configured node waits in that node's queue when the bridge comes up.
  lemma {:induction false} NoOrphanIsLeft(states: seq<P.Sys>, events: seq<P.Event>, b: nat, d: nat, i: nat)
    requires P.Run(states, events) && b < d < |events| && events[b].Boot? && events[d].RecoverDone?
    requires forall q :: b < q < d ==> !events[q].Crash? && !events[q].RecoverDone?
    requires HasRoomFor(events[b].confs, events[b].now, events[b].orphans)
    requires i < |events[b].orphans| && Queueable(events[b].orphans[i], events[b].confs)
    ensures P.IsActive(states[d + 1], events[b].orphans[i].msgKey)
  {
    hide P.Inv, HasRoomFor, Holds, N.QueueOf, Queueable;
    var p := RestoredSoFar(states, events, b, d);
    assert p == |events[b].orphans|;
    var s, t := states[d], states[d + 1];
    assert t.nodes == s.nodes && t.owner == s.owner;
  }

  // The same from the journal's side: a row that is committed PENDING when the bridge starts, for a
  // configured node, is queued again when it comes up.
  lemma PendingRowIsQueuedAgain(states: seq<P.Sys>, events: seq<P.Event>, b: nat, d: nat, k: string)
    requires P.Run(states, events) && b < d < |events| && events[b].Boot? && events[d].RecoverDone?
    requires forall q :: b < q < d ==> !events[q].Crash? && !events[q].RecoverDone?
    requires HasRoomFor(events[b].confs, events[b].now, events[b].orphans)
    requires k in states[b].db.committed && states[b].db.committed[k].status == PENDING
    requires states[b].db.committed[k].targetNode in events[b].confs
    ensures P.IsActive(states[d + 1], k)
  {
    hide HasRoomFor, P.IsActive, P.RowsOk, P.NodesOk, P.RestOk, P.TodoOk;
    S.RunKeepsInv(states, events, b);
    var t, orphans := states[b].db.working, events[b].orphans;
    J.UnfinishedAreListed(t, orphans, k);
    var i :| 0 <= i < |orphans| && orphans[i] == J.Entry(k, t[k]);
    NoOrphanIsLeft(states, events, b, d, i);
  }

  // ---- The loop of the source -----------------------------------------------------------------

  // Distinct nodes have distinct queues with limiters of their own.
  ghost predicate Separate(queues: map<string, Q.CommitQueue>) {
    forall m, n :: m in queues && n in queues && m != n ==>
      queues[m] != queues[n] && (queues[m].bucket == null || queues[m].bucket != queues[n].bucket)
  }

  ghost predicate AllReady(queues: map<string, Q.CommitQueue>, now: real)
    reads queues.Values, set q | q in queues.Values && q.bucket != null :: q.bucket
  {
    forall n :: n in queues ==> queues[n].Valid() && queues[n].Now().Ready(now)
  }

  ghost function ViewsOf(queues: map<string, Q.CommitQueue>): Views
    reads queues.Values, set q | q in queues.Values && q.bucket != null :: q.bucket
  {
    map n | n in queues :: queues[n].Now()
  }

  lemma StillReady(queues: map<string, Q.CommitQueue>, now: real, later: real)
    requires AllReady(queues, now) && now <= later
    ensures AllReady(queues, later)
  {
    hide Q.CommitQueue.Valid;
  }

  // One `put_nowait` leaves all other nodes alone.
  method PutBack(queues: map<string, Q.CommitQueue>, n: string, item: QueueItem, now: real) returns (accepted: bool)
    requires n in queues && Separate(queues) && AllReady(queues, now)
    modifies queues[n], queues[n].bucket
    ensures AllReady(queues, now)
    ensures accepted <==> old(ViewsOf(queues))[n].Takes(now)
    ensures ViewsOf(queues) == old(ViewsOf(queues))[n := old(ViewsOf(queues))[n].Put(item, now)]
  {
    hide Q.View.Put, Q.View.Takes, Q.View.Ready, Q.CommitQueue.Valid;
    ghost var before := queues[n].Now();
    Q.ReadyLater(before, item, now, now);
    accepted := queues[n].PutNowait(item, now);
  }

  lemma RepairedStep(t: J.Table, orphans: seq<J.Entry>, i: nat)
    requires i < |orphans|
    ensures var e, before := orphans[i], Repaired(t, orphans[..i]);
      Repaired(t, orphans[..i + 1]) ==
        if e.row.status == TRANSMITTING then J.Exec(before, J.SetStatus(e.msgKey, UNKNOWN)) else before
  {
    assert orphans[..i + 1][..i] == orphans[..i];
  }

  // The body of the loop, for one orphan. What `put_nowait` answers is ignored by the source.
  method Handle(journal: J.SqliteJournal, queues: map<string, Q.CommitQueue>, e: J.Entry,
                messengers: set<string>, now: Reading, ghost later: real) returns (accepted: bool)
    requires Separate(queues) && AllReady(queues, now.at) && now.at <= later
    requires journal.db.working == journal.db.committed
    modifies journal, queues.Values, set q | q in queues.Values && q.bucket != null :: q.bucket
    ensures AllReady(queues, later)
    ensures journal.db.working == journal.db.committed ==
      if e.row.status == TRANSMITTING then J.Exec(old(journal.db.working), J.SetStatus(e.msgKey, UNKNOWN))
      else old(journal.db.working)
    ensures accepted <==> Taken(old(ViewsOf(queues)), e, now)
    ensures ViewsOf(queues) == Turned(old(ViewsOf(queues)), e, messengers, now)
  {
    hide P.Rebuilt, J.Exec, AllReady, Separate, Q.View.Put, Q.View.Takes;
    var n := e.row.targetNode;
    accepted := false;
    if e.row.status == TRANSMITTING {
      journal.MarkTerminal(e.msgKey, UNKNOWN);
    } else if n in queues {
      accepted := PutBack(queues, n, P.Rebuilt(e, messengers, now.enqueuedAt), now.at);
    }
    StillReady(queues, now.at, later);
  }

  // Every orphan once: the journal is repaired, and each PENDING orphan is queued exactly when its
  // node's queue, as the orphans before it left it, takes it.
  method Recover(journal: J.SqliteJournal, queues: map<string, Q.CommitQueue>, messengers: set<string>,
                 clock: nat -> Reading)
    returns (orphans: seq<J.Entry>, taken: seq<bool>)
    requires Separate(queues) && AllReady(queues, clock(0).enqueuedAt) && Monotone(clock)
    requires journal.db.working == journal.db.committed
    modifies journal, queues.Values, set q | q in queues.Values && q.bucket != null :: q.bucket
    ensures J.ListsOrphans(old(journal.db.working), orphans) && |taken| == |orphans|
    ensures journal.db.working == journal.db.committed == Repaired(old(journal.db.working), orphans)
    ensures forall i :: 0 <= i < |orphans| ==>
      taken[i] == TakenAt(old(ViewsOf(queues)), orphans, messengers, clock, i)
    ensures AllReady(queues, clock(|orphans|).enqueuedAt)
    ensures ViewsOf(queues) == Handled(old(ViewsOf(queues)), orphans, messengers, clock)
  {
    hide P.Rebuilt, AllReady, Separate, J.ListsOrphans, J.Exec, Repaired, Handled, Turned, Taken, ViewsOf;
    orphans := journal.Recover();
    taken := [];
    ghost var before, views := journal.db.working, ViewsOf(queues);
    NothingHandled(before, views, messengers, clock);
    assert orphans[..0] == [];
    for i := 0 to |orphans|
      invariant |taken| == i && AllReady(queues, clock(i).enqueuedAt)
      invariant journal.db.working == journal.db.committed == Repaired(before, orphans[..i])
      invariant ViewsOf(queues) == Handled(views, orphans[..i], messengers, clock)
      invariant forall j :: 0 <= j < i ==> taken[j] == TakenAt(views, orphans, messengers, clock, j)
    {
      StillReady(queues, clock(i).enqueuedAt, clock(i).at);
      var accepted := Handle(journal, queues, orphans[i], messengers, clock(i), clock(i + 1).enqueuedAt);
      RepairedStep(before, orphans, i);
      HandledStep(views, orphans, messengers, clock, i);
      taken := taken + [accepted];
    }
    assert orphans[..|orphans|] == orphans;
  }

  lemma NothingHandled(t: J.Table, v: Views, messengers: set<string>, clock: nat -> Reading)
    ensures Repaired(t, []) == t && Handled(v, [], messengers, clock) == v
  {
  }
}
