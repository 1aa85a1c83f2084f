/**
 * The reaction debouncer (lora_bridge/transports/telegram/reactions.py): delayed tasks, a generation
 * counter per message, and calls of the messenger API that are still in flight when the next status
 * arrives. A task runs from one await to the next without interruption.
 *
 * Whether a cancelled task notices the cancellation when it wakes is left open: the generation check
 * alone must do. Calls that clear a reaction are taken to succeed.
 */
module Debouncer {
  import opened Domain

  datatype Key = Key(chatId: int, messageId: string)

  datatype Pc = Sleeping | Calling | Done

  // One `_delayed_apply`.
  datatype Task = Task(key: Key, gen: int, reaction: string, pc: Pc, cancelled: bool)

  // loop: every task ever created, by number; the other fields are the debouncer's own.
  datatype State = State(loop: seq<Task>, tasks: map<Key, nat>, generation: map<Key, int>, sent: set<Key>)

  datatype Event =
    | Schedule(key: Key, reaction: string)
    | ClearNow(key: Key)
    | Wake(id: nat, noticed: bool)   // the delay is over, or the cancellation arrived
    | Returned(id: nat, ok: bool)    // the API call of a task came back

  const NEW := State([], map[], map[], {})

  function Gen(s: State, k: Key): int {
    if k in s.generation then s.generation[k] else -1
  }

  function Cancelled(loop: seq<Task>, tasks: map<Key, nat>, k: Key): seq<Task> {
    if k in tasks && tasks[k] < |loop| then loop[tasks[k] := loop[tasks[k]].(cancelled := true)] else loop
  }

  predicate Can(s: State, e: Event) {
    match e
    case Schedule(_, _) => true
    case ClearNow(_) => true
    case Wake(id, noticed) => id < |s.loop| && s.loop[id].pc.Sleeping? && (noticed ==> s.loop[id].cancelled)
    case Returned(id, _) => id < |s.loop| && s.loop[id].pc.Calling?
  }

  // A wake-up that goes on to call the API.
  predicate Calls(s: State, id: nat, noticed: bool)
    requires id < |s.loop|
  {
    !noticed && Gen(s, s.loop[id].key) == s.loop[id].gen
  }

  // A clear that goes on to call the API.
  predicate Clears(s: State, k: Key) {
    k !in s.tasks && k in s.sent
  }

  function After(s: State, e: Event): State
    requires Can(s, e)
  {
    match e
    case Schedule(k, reaction) =>
      var gen := Gen(s, k) + 1;
      var loop := Cancelled(s.loop, s.tasks, k);
      State(loop + [Task(k, gen, reaction, Sleeping, false)], s.tasks[k := |loop|], s.generation[k := gen], s.sent)
    case ClearNow(k) =>
      State(Cancelled(s.loop, s.tasks, k), s.tasks - {k}, s.generation[k := Gen(s, k) + 1],
            if Clears(s, k) then s.sent - {k} else s.sent)
    case Wake(id, noticed) =>
      var t := s.loop[id];
      if Calls(s, id, noticed)
      then s.(loop := s.loop[id := t.(pc := Calling)], tasks := s.tasks - {t.key})
      else s.(loop := s.loop[id := t.(pc := Done)])
    case Returned(id, ok) =>
      var t := s.loop[id];
      s.(loop := s.loop[id := t.(pc := Done)], sent := if ok then s.sent + {t.key} else s.sent)
  }

  ghost predicate Run(events: seq<Event>, states: seq<State>) {
    && |states| == |events| + 1 && states[0] == NEW
    && forall i :: 0 <= i < |events| ==> Can(states[i], events[i]) && states[i + 1] == After(states[i], events[i])
  }

  // ---- The invariant of every run -------------------------------------------------------------

  predicate Live(t: Task) {
    t.pc.Sleeping? && !t.cancelled
  }

  // The live tasks are exactly the registered ones, and carry the current generation; a cancelled
  // task carries an old one.
  ghost predicate Inv(s: State) {
    && (forall k :: k in s.tasks ==> s.tasks[k] < |s.loop| && s.loop[s.tasks[k]].key == k && Live(s.loop[s.tasks[k]]))
    && (forall k :: k in s.generation ==> s.generation[k] >= 0)
    && (forall i :: 0 <= i < |s.loop| ==> TaskOk(s, i))
  }

  ghost predicate TaskOk(s: State, i: nat)
    requires i < |s.loop|
  {
    var t := s.loop[i];
    && 0 <= t.gen <= Gen(s, t.key)
    && (Live(t) ==> t.key in s.tasks && s.tasks[t.key] == i && t.gen == Gen(s, t.key))
    && (t.pc.Sleeping? && t.cancelled ==> t.gen < Gen(s, t.key))
  }

  lemma SupersedeKeepsInv(s: State, k: Key)
    requires Inv(s)
    ensures Inv(State(Cancelled(s.loop, s.tasks, k), s.tasks - {k}, s.generation[k := Gen(s, k) + 1], s.sent))
  {
    var t := State(Cancelled(s.loop, s.tasks, k), s.tasks - {k}, s.generation[k := Gen(s, k) + 1], s.sent);
    forall i | 0 <= i < |t.loop|
      ensures TaskOk(t, i)
    {
      assert TaskOk(s, i);
    }
  }

  lemma RegisterKeepsInv(s: State, k: Key, reaction: string)
    requires Inv(s) && k !in s.tasks && k in s.generation
    ensures Inv(s.(loop := s.loop + [Task(k, Gen(s, k), reaction, Sleeping, false)], tasks := s.tasks[k := |s.loop|]))
  {
    var t := s.(loop := s.loop + [Task(k, Gen(s, k), reaction, Sleeping, false)], tasks := s.tasks[k := |s.loop|]);
    forall i | 0 <= i < |t.loop|
      ensures TaskOk(t, i)
    {
      assert i < |s.loop| ==> TaskOk(s, i);
    }
  }

  lemma ScheduleKeepsInv(s: State, k: Key, reaction: string)
    requires Inv(s)
    ensures Inv(After(s, Schedule(k, reaction)))
  {
    SupersedeKeepsInv(s, k);
    var cleared := State(Cancelled(s.loop, s.tasks, k), s.tasks - {k}, s.generation[k := Gen(s, k) + 1], s.sent);
    RegisterKeepsInv(cleared, k, reaction);
    hide Inv, Cancelled;
    assert After(s, Schedule(k, reaction)).tasks == cleared.tasks[k := |cleared.loop|];
  }

  lemma ClearKeepsInv(s: State, k: Key)
    requires Inv(s)
    ensures Inv(After(s, ClearNow(k)))
  {
    SupersedeKeepsInv(s, k);
    var t := After(s, ClearNow(k));
    SentIsFree(State(t.loop, t.tasks, t.generation, s.sent), t.sent);
  }

  lemma LoopKeepsInv(s: State, e: Event)
    requires Inv(s) && Can(s, e) && (e.Wake? || e.Returned?)
    ensures Inv(After(s, e))
  {
    var t := After(s, e);
    assert TaskOk(s, e.id);
    forall i | 0 <= i < |t.loop|
      ensures TaskOk(t, i)
    {
      assert TaskOk(s, i);
    }
  }

  lemma StepKeepsInv(s: State, e: Event)
    requires Inv(s) && Can(s, e)
    ensures Inv(After(s, e))
  {
    hide Inv, After;
    match e
    case Schedule(k, reaction) => ScheduleKeepsInv(s, k, reaction);
    case ClearNow(k) => ClearKeepsInv(s, k);
    case Wake(_, _) => LoopKeepsInv(s, e);
    case Returned(_, _) => LoopKeepsInv(s, e);
  }

  lemma SentIsFree(s: State, sent: set<Key>)
    requires Inv(s)
    ensures Inv(s.(sent := sent))
  {
    forall i | 0 <= i < |s.loop|
      ensures TaskOk(s.(sent := sent), i)
    {
      assert TaskOk(s, i);
    }
  }

  lemma {:induction false} RunKeepsInv(events: seq<Event>, states: seq<State>, n: nat)
    requires Run(events, states) && n < |states|
    ensures Inv(states[n])
  {
    if n > 0 {
      RunKeepsInv(events, states, n - 1);
      StepKeepsInv(states[n - 1], events[n - 1]);
    }
  }

  // At most one live task per message, and it carries the current generation.
  lemma OneLiveTaskPerKey(events: seq<Event>, states: seq<State>, n: nat, i: nat, j: nat)
    requires Run(events, states) && n < |states|
    requires i < |states[n].loop| && j < |states[n].loop|
    requires Live(states[n].loop[i]) && Live(states[n].loop[j]) && states[n].loop[i].key == states[n].loop[j].key
    ensures i == j && states[n].loop[i].gen == Gen(states[n], states[n].loop[i].key)
  {
    RunKeepsInv(events, states, n);
    assert TaskOk(states[n], i) && TaskOk(states[n], j);
  }

  // ---- Superseded schedules -------------------------------------------------------------------

  predicate Touches(e: Event, k: Key) {
    (e.Schedule? || e.ClearNow?) && e.key == k
  }

  // How often a message was scheduled or cleared: one more than its generation.
  function Touched(events: seq<Event>, k: Key): nat {
    if events == [] then 0
    else Touched(events[..|events| - 1], k) + (if Touches(events[|events| - 1], k) then 1 else 0)
  }

  lemma StepCounts(s: State, e: Event, k: Key)
    requires Can(s, e)
    ensures Gen(After(s, e), k) == Gen(s, k) + (if Touches(e, k) then 1 else 0)
  {
  }

  lemma {:induction false} GenerationCounts(events: seq<Event>, states: seq<State>, n: nat, k: Key)
    requires Run(events, states) && n <= |events|
    ensures Gen(states[n], k) == Touched(events[..n], k) - 1
  {
    hide After;
    if n > 0 {
      GenerationCounts(events, states, n - 1, k);
      StepCounts(states[n - 1], events[n - 1], k);
      assert events[..n][..n - 1] == events[..n - 1];
    }
  }

  // A schedule's task gets the next free number.
  predicate Creates(events: seq<Event>, states: seq<State>, b: nat, id: nat)
    requires b < |events| && |states| == |events| + 1
  {
    events[b].Schedule? && id == |states[b].loop|
  }

  lemma StepKeepsTask(s: State, e: Event, id: nat)
    requires Can(s, e) && id < |s.loop|
    ensures var t := After(s, e).loop;
      id < |t| && t[id].key == s.loop[id].key && t[id].gen == s.loop[id].gen && t[id].reaction == s.loop[id].reaction
  {
  }

  lemma ScheduleAddsTask(s: State, k: Key, reaction: string)
    ensures var t := After(s, Schedule(k, reaction));
      && |t.loop| == |s.loop| + 1 && t.loop[|s.loop|] == Task(k, Gen(t, k), reaction, Sleeping, false)
      && k in t.tasks && t.tasks[k] == |s.loop|
  {
  }

  lemma {:induction false} TaskKeepsItsBirth(events: seq<Event>, states: seq<State>, b: nat, n: nat, id: nat)
    requires Run(events, states) && b < n <= |events| && Creates(events, states, b, id)
    ensures id < |states[n].loop|
    ensures states[n].loop[id].key == events[b].key && states[n].loop[id].reaction == events[b].reaction
    ensures states[n].loop[id].gen == Touched(events[..b + 1], events[b].key) - 1
  {
    hide Touched, After;
    if n > b + 1 {
      TaskKeepsItsBirth(events, states, b, n - 1, id);
      StepKeepsTask(states[n - 1], events[n - 1], id);
    } else {
      GenerationCounts(events, states, b + 1, events[b].key);
      ScheduleAddsTask(states[b], events[b].key, events[b].reaction);
    }
  }

  // Every task was created by a schedule of this run.
  lemma {:induction false} EveryTaskWasScheduled(events: seq<Event>, states: seq<State>, n: nat, id: nat)
    returns (b: nat)
    requires Run(events, states) && n <= |events| && id < |states[n].loop|
    ensures b < n && Creates(events, states, b, id)
  {
    if id < |states[n - 1].loop| {
      b := EveryTaskWasScheduled(events, states, n - 1, id);
    } else {
      b := n - 1;
    }
  }

  lemma {:induction false} TouchedGrows(events: seq<Event>, a: nat, b: nat, k: Key)
    requires a <= b <= |events|
    ensures Touched(events[..a], k) <= Touched(events[..b], k)
    ensures Touched(events[..a], k) == Touched(events[..b], k) <==> forall i :: a <= i < b ==> !Touches(events[i], k)
  {
    if a < b {
      TouchedGrows(events, a, b - 1, k);
      assert events[..b][..b - 1] == events[..b - 1];
    }
  }

  // A wake-up starts its reaction call exactly when no later `schedule` or `clear_now` of the same
  // message came in between, whether or not the cancellation was noticed.
  lemma CallsIffNotSuperseded(events: seq<Event>, states: seq<State>, b: nat, w: nat, id: nat)
    requires Run(events, states) && b < w < |events|
    requires Creates(events, states, b, id) && events[w].Wake? && events[w].id == id
    ensures id < |states[w].loop|
    ensures Calls(states[w], id, events[w].noticed) <==> forall i :: b < i < w ==> !Touches(events[i], events[b].key)
  {
    TaskKeepsItsBirth(events, states, b, w, id);
    GenerationCounts(events, states, w, events[b].key);
    TouchedGrows(events, b + 1, w, events[b].key);
    RunKeepsInv(events, states, w);
    assert TaskOk(states[w], id);
  }

  // ---- What a clear leaves behind -------------------------------------------------------------

  ghost predicate InFlight(s: State, k: Key) {
    exists i :: 0 <= i < |s.loop| && s.loop[i].key == k && s.loop[i].pc.Calling?
  }

  // A caller can check this before `clear_now`: no call of this message is in flight, and not both a
  // task sleeps and an older reaction is shown.
  ghost predicate ClearsForGood(s: State, k: Key) {
    !InFlight(s, k) && (k !in s.tasks || k !in s.sent)
  }

  // The steps from a state on.
  ghost predicate Continues(s: State, events: seq<Event>, states: seq<State>) {
    && |states| == |events| + 1 && states[0] == s
    && forall i :: 0 <= i < |events| ==> Can(states[i], events[i]) && states[i + 1] == After(states[i], events[i])
  }

  ghost predicate Unscheduled(events: seq<Event>, k: Key) {
    forall i :: 0 <= i < |events| ==> !(events[i].Schedule? && events[i].key == k)
  }

  // Nothing is shown, in flight, or able to wake up and call.
  ghost predicate Quiet(s: State, k: Key) {
    Inv(s) && k !in s.sent && !InFlight(s, k) && k !in s.tasks
  }

  lemma QuietStays(s: State, e: Event, k: Key)
    requires Quiet(s, k) && Can(s, e) && !(e.Schedule? && e.key == k)
    ensures Quiet(After(s, e), k)
  {
    StepKeepsInv(s, e);
    var t := After(s, e);
    if e.Wake? {
      assert TaskOk(s, e.id);
    }
    forall i | 0 <= i < |t.loop| && t.loop[i].key == k
      ensures !t.loop[i].pc.Calling?
    {
      assert i < |s.loop| ==> s.loop[i].key == k && !s.loop[i].pc.Calling?;
    }
  }

  lemma {:induction false} QuietForGood(s: State, events: seq<Event>, states: seq<State>, n: nat, k: Key)
    requires Quiet(s, k) && Continues(s, events, states) && Unscheduled(events, k) && n < |states|
    ensures Quiet(states[n], k)
  {
    if n > 0 {
      QuietForGood(s, events, states, n - 1, k);
      QuietStays(states[n - 1], events[n - 1], k);
    }
  }

  lemma ClearQuiets(s: State, k: Key)
    requires Inv(s) && ClearsForGood(s, k)
    ensures Quiet(After(s, ClearNow(k)), k)
  {
    StepKeepsInv(s, ClearNow(k));
    var t := After(s, ClearNow(k));
    forall i | 0 <= i < |t.loop| && t.loop[i].key == k
      ensures !t.loop[i].pc.Calling?
    {
      assert s.loop[i].key == k && !s.loop[i].pc.Calling?;
    }
  }

  // Clearing on SENT removes the reaction for good under the guard, and only then: without it some
  // continuation in which nothing new is scheduled shows the reaction again, or still.
  lemma ClearIsFinalIff(s: State, k: Key)
    requires Inv(s)
    ensures ClearsForGood(s, k) <==>
      forall events: seq<Event>, states: seq<State> ::
        Continues(After(s, ClearNow(k)), events, states) && Unscheduled(events, k) ==>
        k !in states[|events|].sent
  {
    var t := After(s, ClearNow(k));
    if ClearsForGood(s, k) {
      ClearQuiets(s, k);
      forall events: seq<Event>, states: seq<State> | Continues(t, events, states) && Unscheduled(events, k)
        ensures k !in states[|events|].sent
      {
        QuietForGood(t, events, states, |events|, k);
      }
    } else if InFlight(s, k) {
      var i :| 0 <= i < |s.loop| && s.loop[i].key == k && s.loop[i].pc.Calling?;
      assert k in s.tasks ==> s.tasks[k] != i;
      assert t.loop[i] == s.loop[i];
      var e := Returned(i, true);
      assert Continues(t, [e], [t, After(t, e)]) && Unscheduled([e], k);
      assert k in [t, After(t, e)][|[e]|].sent;
    } else {
      var none: seq<Event> := [];
      assert Continues(t, none, [t]) && Unscheduled(none, k);
      assert k in [t][|none|].sent;
    }
  }

  // The guard does fail in real runs: SENT arrives while the call that shows the reaction is in flight.
  lemma ClearDuringCallLeavesReaction(k: Key, reaction: string) returns (events: seq<Event>, states: seq<State>)
    ensures Run(events, states)
    ensures events == [Schedule(k, reaction), Wake(0, false), ClearNow(k), Returned(0, true)]
    ensures !Clears(states[2], k) && k in states[4].sent
  {
    events := [Schedule(k, reaction), Wake(0, false), ClearNow(k), Returned(0, true)];
    var s1 := After(NEW, events[0]);
    var s2 := After(s1, events[1]);
    var s3 := After(s2, events[2]);
    states := [NEW, s1, s2, s3, After(s3, events[3])];
  }

  // A second status is waiting while the first one's reaction is shown: the early return of
  // `clear_now` leaves the old reaction in place.
  lemma ClearOfSleepingTaskLeavesOldReaction(k: Key, first: string, second: string) returns (events: seq<Event>,
                                             states: seq<State>)
    ensures Run(events, states)
    ensures events == [Schedule(k, first), Wake(0, false), Returned(0, true), Schedule(k, second), ClearNow(k)]
    ensures !Clears(states[4], k) && k in states[5].sent && k !in states[5].tasks
  {
    events := [Schedule(k, first), Wake(0, false), Returned(0, true), Schedule(k, second), ClearNow(k)];
    var s1 := After(NEW, events[0]);
    var s2 := After(s1, events[1]);
    var s3 := After(s2, events[2]);
    var s4 := After(s3, events[3]);
    states := [NEW, s1, s2, s3, s4, After(s4, events[4])];
  }

  // ---- Statuses and reactions -----------------------------------------------------------------

  // The emoji a status shows; empty for none.
  function ReactionFor(status: DeliveryStatus, reason: Option<RejectReason>): string {
    if status == PENDING then "\U{1F440}"                  // eyes
    else
      match reason
      case Some(TOO_LONG) => "\U{1F928}"                   // raised eyebrow
      case Some(RATE_LIMIT) => "\U{1F971}"                 // yawn
      case Some(TTL_EXPIRED) => "\U{1F634}"                // asleep
      case Some(READONLY) => "\U{1F44E}"                   // thumbs down
      case None =>
        if status == FAILED then "\U{1F622}"               // sad
        else if status == UNKNOWN then "\U{1F914}"         // thinking
        else ""
  }

  // What a reported status does to the debouncer.
  function Reported(s: State, k: Key, status: DeliveryStatus, reason: Option<RejectReason>): State {
    if status == TRANSMITTING then s
    else if status == SENT then After(s, ClearNow(k))
    else if ReactionFor(status, reason) != "" then After(s, Schedule(k, ReactionFor(status, reason)))
    else s
  }

  // ---- Runs of reports ------------------------------------------------------------------------

  // What happens to `ReactionFeedback`: reports from the core, and the event loop as before.
  datatype Moment =
    | Report(key: Key, status: DeliveryStatus, reason: Option<RejectReason>)
    | Loop(event: Event)

  ghost predicate Possible(s: State, m: Moment) {
    m.Loop? ==> (m.event.Wake? || m.event.Returned?) && Can(s, m.event)
  }

  function Next(s: State, m: Moment): State
    requires Possible(s, m)
  {
    match m
    case Report(k, status, reason) => Reported(s, k, status, reason)
    case Loop(e) => After(s, e)
  }

  ghost predicate Feedback(moments: seq<Moment>, states: seq<State>) {
    && |states| == |moments| + 1 && states[0] == NEW
    && forall i :: 0 <= i < |moments| ==>
         Possible(states[i], moments[i]) && states[i + 1] == Next(states[i], moments[i])
  }

  lemma {:induction false} FeedbackKeepsInv(moments: seq<Moment>, states: seq<State>, n: nat)
    requires Feedback(moments, states) && n < |states|
    ensures Inv(states[n])
  {
    hide After, ReactionFor;
    if n == 0 {
      assert Inv(NEW);
    } else {
      FeedbackKeepsInv(moments, states, n - 1);
      NextKeepsInv(states[n - 1], moments[n - 1]);
    }
  }

  lemma NextKeepsInv(s: State, m: Moment)
    requires Inv(s) && Possible(s, m)
    ensures Inv(Next(s, m))
  {
    hide Inv, After, ReactionFor;
    match m
    case Report(k, status, reason) =>
      StepKeepsInv(s, ClearNow(k));
      StepKeepsInv(s, Schedule(k, ReactionFor(status, reason)));
    case Loop(e) => StepKeepsInv(s, e);
  }

  // A task that can never call any more: its generation is gone and its call is not running.
  ghost predicate Silenced(s: State, id: nat) {
    id < |s.loop| && s.loop[id].gen < Gen(s, s.loop[id].key) && !s.loop[id].pc.Calling?
  }

  lemma SilencedStays(s: State, e: Event, id: nat)
    requires Can(s, e) && Silenced(s, id)
    ensures Silenced(After(s, e), id)
  {
  }

  lemma {:induction false} SilencedForGood(moments: seq<Moment>, states: seq<State>, a: nat, n: nat, id: nat)
    requires Feedback(moments, states) && a <= n <= |moments| && Silenced(states[a], id)
    ensures Silenced(states[n], id)
  {
    hide Silenced, After, ReactionFor;
    if a < n {
      SilencedForGood(moments, states, a, n - 1, id);
      var s := states[n - 1];
      match moments[n - 1]
      case Report(k, status, reason) =>
        SilencedStays(s, ClearNow(k), id);
        SilencedStays(s, Schedule(k, ReactionFor(status, reason)), id);
      case Loop(e) => SilencedStays(s, e, id);
    }
  }

  lemma SentSilences(s: State, k: Key, reason: Option<RejectReason>, id: nat)
    requires Inv(s) && id < |s.loop| && s.loop[id].key == k && !s.loop[id].pc.Calling?
    ensures Silenced(Next(s, Report(k, SENT, reason)), id)
  {
    assert TaskOk(s, id);
  }

  // After SENT is reported for a message, no task scheduled for it before starts its call, at any
  // later moment, whatever is reported afterwards and whether or not its cancellation arrives.
  lemma SentSilencesEarlierTasks(moments: seq<Moment>, states: seq<State>, a: nat, n: nat, id: nat)
    requires Feedback(moments, states) && a < n <= |moments|
    requires moments[a].Report? && moments[a].status == SENT
    requires id < |states[a].loop| && states[a].loop[id].key == moments[a].key && !states[a].loop[id].pc.Calling?
    ensures id < |states[n].loop| && !states[n].loop[id].pc.Calling?
  {
    FeedbackKeepsInv(moments, states, a);
    SentSilences(states[a], moments[a].key, moments[a].reason, id);
    SilencedForGood(moments, states, a + 1, n, id);
  }

  // No later report of the message but TRANSMITTING or SENT again.
  ghost predicate NothingMore(moments: seq<Moment>, a: nat, n: nat, k: Key) {
    forall i :: a <= i < n <= |moments| && moments[i].Report? && moments[i].key == k ==>
      moments[i].status == SENT || moments[i].status == TRANSMITTING
  }

  lemma QuietMoment(s: State, m: Moment, k: Key)
    requires Quiet(s, k) && Possible(s, m)
    requires m.Report? && m.key == k ==> m.status == SENT || m.status == TRANSMITTING
    ensures Quiet(Next(s, m), k)
  {
    hide Quiet, After, ReactionFor;
    match m
    case Report(j, status, reason) =>
      QuietStays(s, ClearNow(j), k);
      if j != k {
        QuietStays(s, Schedule(j, ReactionFor(status, reason)), k);
      }
    case Loop(e) => QuietStays(s, e, k);
  }

  lemma {:induction false} QuietMoments(moments: seq<Moment>, states: seq<State>, a: nat, n: nat, k: Key)
    requires Feedback(moments, states) && a <= n <= |moments|
    requires Quiet(states[a], k) && NothingMore(moments, a, n, k)
    ensures Quiet(states[n], k)
  {
    hide Quiet, Next;
    if a < n {
      QuietMoments(moments, states, a, n - 1, k);
      QuietMoment(states[n - 1], moments[n - 1], k);
    }
  }

  // A delivered message ends without a reaction: if at its SENT no call of it is in flight and not both
  // a task sleeps and a reaction is shown, then no reaction is shown at any later moment, as long as
  // nothing but TRANSMITTING and SENT is reported for it.
  lemma SentEndsWithNone(moments: seq<Moment>, states: seq<State>, a: nat, n: nat)
    requires Feedback(moments, states) && a < n <= |moments|
    requires moments[a].Report? && moments[a].status == SENT
    requires var s, k := states[a], moments[a].key;
      && (forall id :: 0 <= id < |s.loop| && s.loop[id].key == k ==> !s.loop[id].pc.Calling?)
      && (k !in s.tasks || k !in s.sent)
    requires NothingMore(moments, a + 1, n, moments[a].key)
    ensures var k := moments[a].key;
      && k !in states[n].sent && k !in states[n].tasks
      && forall id :: 0 <= id < |states[n].loop| && states[n].loop[id].key == k ==> !states[n].loop[id].pc.Calling?
  {
    FeedbackKeepsInv(moments, states, a);
    ClearQuiets(states[a], moments[a].key);
    QuietMoments(moments, states, a + 1, n, moments[a].key);
  }

  // A running call of the message that will show its reaction when it comes back.
  ghost predicate WillShow(s: State, k: Key, id: nat) {
    && id < |s.loop| && s.loop[id].key == k
    && Possible(s, Loop(Returned(id, true))) && k in Next(s, Loop(Returned(id, true))).sent
  }

  // The guard is needed: without it the reaction stays shown, or a running call can still show it.
  lemma SentEndsWithNoneOnlyIf(s: State, k: Key, reason: Option<RejectReason>)
    requires Inv(s) && !ClearsForGood(s, k)
    ensures var t := Next(s, Report(k, SENT, reason)); k in t.sent || exists id :: WillShow(t, k, id)
  {
    var t := Next(s, Report(k, SENT, reason));
    if InFlight(s, k) {
      var i :| 0 <= i < |s.loop| && s.loop[i].key == k && s.loop[i].pc.Calling?;
      assert k in s.tasks ==> s.tasks[k] != i;
      assert t.loop[i] == s.loop[i];
      assert WillShow(t, k, i);
    }
  }

  // TRANSMITTING is passed over: no task, no generation, nothing shown changes.
  lemma TransmittingChangesNothing(s: State, k: Key, reason: Option<RejectReason>)
    ensures Next(s, Report(k, TRANSMITTING, reason)) == s
  {
  }

  // The reports a sender is meant to see.
  predicate Shown(status: DeliveryStatus, reason: Option<RejectReason>) {
    if status == REJECTED then reason.Some? else reason.None? && status in {PENDING, FAILED, UNKNOWN}
  }

  // Each of them schedules one reaction for its message, whatever was scheduled before, and each has a
  // reaction of its own.
  lemma EveryShownReportIsScheduled(s: State, k: Key, status: DeliveryStatus, reason: Option<RejectReason>,
                                    status': DeliveryStatus, reason': Option<RejectReason>)
    requires Shown(status, reason) && Shown(status', reason')
    ensures var t, t' := Next(s, Report(k, status, reason)), Next(s, Report(k, status', reason'));
      && |t.loop| == |t'.loop| == |s.loop| + 1
      && t.loop[|s.loop|].key == k && Live(t.loop[|s.loop|]) && t.loop[|s.loop|].gen == Gen(t, k)
      && k in t.tasks && t.tasks[k] == |s.loop|
      && (t.loop[|s.loop|].reaction == t'.loop[|s.loop|].reaction <==> status == status' && reason == reason')
  {
    hide ReactionFor, After, Shown;
    ReactionsDiffer(status, reason, status', reason');
    ShownIsNotPassedOver(status, reason);
    ShownIsNotPassedOver(status', reason');
    ScheduleAddsTask(s, k, ReactionFor(status, reason));
    ScheduleAddsTask(s, k, ReactionFor(status', reason'));
  }

  lemma ReactionsDiffer(status: DeliveryStatus, reason: Option<RejectReason>,
                        status': DeliveryStatus, reason': Option<RejectReason>)
    requires Shown(status, reason) && Shown(status', reason')
    ensures ReactionFor(status, reason) != "" && ReactionFor(status', reason') != ""
    ensures ReactionFor(status, reason) == ReactionFor(status', reason') <==> status == status' && reason == reason'
  {
  }

  lemma ShownIsNotPassedOver(status: DeliveryStatus, reason: Option<RejectReason>)
    requires Shown(status, reason)
    ensures status != SENT && status != TRANSMITTING
  {
  }

  // ---- The mutable objects --------------------------------------------------------------------

  class ReactionDebouncer {
    var loop: seq<Task>             // the event loop's tasks
    var tasks: map<Key, nat>
    var generation: map<Key, int>
    var sent: set<Key>

    function Now(): State
      reads this
    {
      State(loop, tasks, generation, sent)
    }

    constructor ()
      ensures Now() == NEW
    {
      loop, tasks, generation, sent := [], map[], map[], {};
    }

    method CancelPrevious(key: Key) returns (cancelled: bool)
      requires Inv(Now())
      modifies this`loop, this`tasks
      ensures cancelled <==> key in old(tasks)
      ensures loop == Cancelled(old(loop), old(tasks), key) && tasks == old(tasks) - {key}
    {
      cancelled := key in tasks;
      if cancelled {
        var prev := tasks[key];
        tasks := tasks - {key};
        loop := loop[prev := loop[prev].(cancelled := true)];
      }
    }

    method Plan(key: Key, reaction: string)
      requires Inv(Now())
      modifies this
      ensures Now() == After(old(Now()), Schedule(key, reaction)) && Inv(Now())
    {
      StepKeepsInv(Now(), Schedule(key, reaction));
      hide Inv, Cancelled;
      ghost var before := Now();
      var _ := CancelPrevious(key);
      assert (before.tasks - {key})[key := |loop|] == before.tasks[key := |loop|];
      var gen := (if key in generation then generation[key] else -1) + 1;
      generation := generation[key := gen];
      tasks := tasks[key := |loop|];
      loop := loop + [Task(key, gen, reaction, Sleeping, false)];
    }

    // True when the API is called to clear the reaction.
    method Clear(key: Key) returns (calls: bool)
      requires Inv(Now())
      modifies this
      ensures Now() == After(old(Now()), ClearNow(key)) && Inv(Now())
      ensures calls == Clears(old(Now()), key)
    {
      StepKeepsInv(Now(), ClearNow(key));
      var cancelled := CancelPrevious(key);
      generation := generation[key := (if key in generation then generation[key] else -1) + 1];
      if cancelled {
        return false;
      }
      if key !in sent {
        return false;
      }
      sent := sent - {key};
      return true;
    }

    // `_delayed_apply` up to its API call; the reaction it calls with, if it calls.
    method DelayedApply(id: nat, noticed: bool) returns (call: Option<string>)
      requires Inv(Now()) && Can(Now(), Wake(id, noticed))
      modifies this
      ensures Now() == After(old(Now()), Wake(id, noticed)) && Inv(Now())
      ensures call == if Calls(old(Now()), id, noticed) then Some(old(loop)[id].reaction) else None
    {
      StepKeepsInv(Now(), Wake(id, noticed));
      var t := loop[id];
      call := None;
      if noticed {
        loop := loop[id := t.(pc := Done)];
        return;
      }
      if t.key !in generation || generation[t.key] != t.gen {
        assert TaskOk(old(Now()), id);
        loop := loop[id := t.(pc := Done)];
        return;
      }
      tasks := tasks - {t.key};
      loop := loop[id := t.(pc := Calling)];
      call := Some(t.reaction);
    }

    method CallReturned(id: nat, ok: bool)
      requires Inv(Now()) && Can(Now(), Returned(id, ok))
      modifies this
      ensures Now() == After(old(Now()), Returned(id, ok)) && Inv(Now())
    {
      StepKeepsInv(Now(), Returned(id, ok));
      var t := loop[id];
      loop := loop[id := t.(pc := Done)];
      if ok {
        sent := sent + {t.key};
      }
    }

    // `ReactionFeedback.report`
    method Report(key: Key, status: DeliveryStatus, reason: Option<RejectReason>)
      requires Inv(Now())
      modifies this
      ensures Now() == Reported(old(Now()), key, status, reason) && Inv(Now())
      ensures status == TRANSMITTING ==> Now() == old(Now())
      ensures status == SENT ==> Now() == After(old(Now()), ClearNow(key))
    {
      if status == TRANSMITTING {
        return;
      }
      if status == SENT {
        var _ := Clear(key);
        return;
      }
      var reaction := ReactionFor(status, reason);
      if reaction != "" {
        Plan(key, reaction);
      }
    }
  }
}
