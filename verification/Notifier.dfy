/**
 * Debounced drop notices (lora_bridge/core/notifier.py). `note_reject` runs between the sink awaits
 * of a `flush_due` that works from an old snapshot of the counters and an old clock reading; one
 * flush runs at a time and the clock never goes back.
 */
module Notifier {
  import opened Domain

  datatype WindowKey = WindowKey(transportId: string, reason: RejectReason)

  datatype DropKey = DropKey(source: ChannelRef, reason: RejectReason) {
    function Window(): WindowKey {
      WindowKey(source.transportId, reason)
    }
  }

  datatype Held = Held(key: DropKey, n: nat)

  // One call of the sink: whom it tells, how many drops, and the clock reading that decided it.
  datatype Notice = Notice(key: DropKey, n: nat, at: real)

  // ---- The insertion-ordered counters ---------------------------------------------------------

  type Counts = seq<Held>

  predicate Has(c: Counts, k: DropKey) {
    exists i :: 0 <= i < |c| && c[i].key == k
  }

  function CountOf(c: Counts, k: DropKey): nat {
    if c == [] then 0 else if c[0].key == k then c[0].n else CountOf(c[1..], k)
  }

  // `counts[key] += 1` on a defaultdict: a new key goes to the back.
  function Bumped(c: Counts, k: DropKey): Counts {
    if c == [] then [Held(k, 1)]
    else if c[0].key == k then [Held(k, c[0].n + 1)] + c[1..]
    else [c[0]] + Bumped(c[1..], k)
  }

  // `del counts[key]`
  function Deleted(c: Counts, k: DropKey): Counts {
    if c == [] then [] else if c[0].key == k then c[1..] else [c[0]] + Deleted(c[1..], k)
  }

  ghost predicate WellKept(c: Counts) {
    && (forall i, j :: 0 <= i < j < |c| ==> c[i].key != c[j].key)
    && (forall i :: 0 <= i < |c| ==> c[i].n > 0)
  }

  lemma {:induction false} CountOfEntry(c: Counts, i: nat)
    requires WellKept(c) && i < |c|
    ensures CountOf(c, c[i].key) == c[i].n
  {
    if i > 0 {
      assert c[1..][i - 1] == c[i];
      CountOfEntry(c[1..], i - 1);
    }
  }

  lemma {:induction false} CountedIffHas(c: Counts, k: DropKey)
    requires WellKept(c)
    ensures CountOf(c, k) > 0 <==> Has(c, k)
  {
    if c != [] && c[0].key != k {
      CountedIffHas(c[1..], k);
      assert forall i :: 0 < i < |c| ==> c[i] == c[1..][i - 1];
    }
  }

  lemma {:induction false} BumpedCount(c: Counts, k: DropKey, j: DropKey)
    requires WellKept(c)
    ensures CountOf(Bumped(c, k), j) == CountOf(c, j) + (if j == k then 1 else 0)
  {
    var b := Bumped(c, k);
    if c != [] && c[0].key != k {
      BumpedCount(c[1..], k, j);
      assert b[1..] == Bumped(c[1..], k);
    } else if c != [] {
      assert b[1..] == c[1..];
    }
  }

  lemma {:induction false} BumpedHas(c: Counts, k: DropKey)
    ensures forall j :: Has(Bumped(c, k), j) <==> Has(c, j) || j == k
  {
    var b := Bumped(c, k);
    if c == [] {
      assert b[0].key == k;
    } else {
      HasSplits(c);
      HasSplits(b);
      if c[0].key == k {
        assert b[1..] == c[1..];
      } else {
        BumpedHas(c[1..], k);
        assert b[1..] == Bumped(c[1..], k);
      }
    }
  }

  lemma {:induction false} BumpedIsWellKept(c: Counts, k: DropKey)
    requires WellKept(c)
    ensures WellKept(Bumped(c, k))
  {
    var b := Bumped(c, k);
    if c != [] && c[0].key == k {
      assert forall i :: 0 < i < |c| ==> b[i] == c[i];
    } else if c != [] {
      BumpedIsWellKept(c[1..], k);
      BumpedHas(c[1..], k);
      HeadIsNew(c);
      var rest := Bumped(c[1..], k);
      assert forall i :: 0 <= i < |rest| ==> Has(rest, rest[i].key);
      assert forall i :: 0 < i < |b| ==> b[i] == rest[i - 1];
    }
  }

  lemma BumpedCounts(c: Counts, k: DropKey)
    requires WellKept(c)
    ensures WellKept(Bumped(c, k))
    ensures forall j :: CountOf(Bumped(c, k), j) == CountOf(c, j) + (if j == k then 1 else 0)
    ensures forall j :: Has(Bumped(c, k), j) <==> Has(c, j) || j == k
  {
    BumpedHas(c, k);
    BumpedIsWellKept(c, k);
    forall j
      ensures CountOf(Bumped(c, k), j) == CountOf(c, j) + (if j == k then 1 else 0)
    {
      BumpedCount(c, k, j);
    }
  }

  lemma HeadIsNew(c: Counts)
    requires WellKept(c) && c != []
    ensures !Has(c[1..], c[0].key)
  {
    assert forall i :: 0 < i < |c| ==> c[i] == c[1..][i - 1];
  }

  lemma HasSplits(c: Counts)
    requires c != []
    ensures forall k :: Has(c, k) <==> c[0].key == k || Has(c[1..], k)
  {
    assert forall i :: 0 < i < |c| ==> c[i] == c[1..][i - 1];
  }

  lemma {:induction false} DeletedCounts(c: Counts, k: DropKey)
    requires WellKept(c)
    ensures WellKept(Deleted(c, k))
    ensures forall j :: CountOf(Deleted(c, k), j) == if j == k then 0 else CountOf(c, j)
    ensures forall j :: Has(Deleted(c, k), j) <==> Has(c, j) && j != k
  {
    if c != [] {
      HasSplits(c);
      HeadIsNew(c);
      if c[0].key == k {
        CountedIffHas(c[1..], k);
      } else {
        DeletedCounts(c[1..], k);
        var d, rest := Deleted(c, k), Deleted(c[1..], k);
        assert d[1..] == rest;
        HasSplits(d);
        assert forall i :: 0 <= i < |rest| ==> Has(rest, rest[i].key);
        assert forall i :: 0 < i < |d| ==> d[i] == rest[i - 1];
      }
    }
  }

  // ---- Steps ----------------------------------------------------------------------------------

  datatype Event =
    | Note(source: ChannelRef, reason: RejectReason, now: real)
    | FlushStart(now: real)     // clock reading and snapshot
    | FlushStep                 // one entry of the snapshot, up to its sink await
    | SinkFails                 // the sink raises inside the flush: the rest of the snapshot is dropped

  // flushNow and todo are the locals of the running flush; clock, notices and complete are history.
  datatype State = State(
    counts: Counts,
    lastFlush: map<WindowKey, real>,
    flushNow: real,
    todo: seq<Held>,
    clock: real,
    notices: seq<Notice>,
    complete: bool)             // the latest flush was not cut short by its sink

  function New(birth: real): State {
    State([], map[], birth, [], birth, [], false)
  }

  // Is the window of this key over at reading `now`? `note_reject` asks it like this.
  predicate Opens(s: State, window: real, w: WindowKey, now: real) {
    w !in s.lastFlush || now - s.lastFlush[w] >= window
  }

  // `flush_due` asks with a default of zero for a window that was never opened.
  predicate Due(s: State, window: real, w: WindowKey, now: real) {
    now - (if w in s.lastFlush then s.lastFlush[w] else 0.0) >= window
  }

  predicate Can(s: State, e: Event) {
    match e
    case Note(_, _, now) => now >= s.clock
    case FlushStart(now) => now >= s.clock && s.todo == []
    case FlushStep => s.todo != []
    case SinkFails => true
  }

  function AfterNote(s: State, window: real, k: DropKey, now: real): State {
    if Opens(s, window, k.Window(), now)
    then s.(lastFlush := s.lastFlush[k.Window() := now], notices := s.notices + [Notice(k, 1, now)], clock := now)
    else s.(counts := Bumped(s.counts, k), clock := now)
  }

  function AfterStep(s: State, window: real): State
    requires s.todo != []
  {
    var h := s.todo[0];
    if Due(s, window, h.key.Window(), s.flushNow)
    then s.(lastFlush := s.lastFlush[h.key.Window() := s.flushNow], counts := Deleted(s.counts, h.key),
            notices := s.notices + [Notice(h.key, h.n, s.flushNow)], todo := s.todo[1..])
    else s.(todo := s.todo[1..])
  }

  function After(s: State, window: real, e: Event): State
    requires Can(s, e)
  {
    match e
    case Note(source, reason, now) => AfterNote(s, window, DropKey(source, reason), now)
    case FlushStart(now) => s.(flushNow := now, todo := s.counts, clock := now, complete := true)
    case FlushStep => AfterStep(s, window)
    case SinkFails => s.(todo := [], complete := false)
  }

  ghost predicate Run(window: real, birth: real, events: seq<Event>, states: seq<State>) {
    && |states| == |events| + 1 && states[0] == New(birth)
    && forall i :: 0 <= i < |events| ==>
         Can(states[i], events[i]) && states[i + 1] == After(states[i], window, events[i])
  }

  // ---- What the history says ------------------------------------------------------------------

  // How often a reject was noted under this key.
  function Noted(events: seq<Event>, k: DropKey): nat {
    if events == [] then 0
    else
      var e := events[|events| - 1];
      Noted(events[..|events| - 1], k) + (if e.Note? && DropKey(e.source, e.reason) == k then 1 else 0)
  }

  // How many drops the sink was told of under this key.
  function Told(notices: seq<Notice>, k: DropKey): nat {
    if notices == [] then 0
    else
      var last := notices[|notices| - 1];
      Told(notices[..|notices| - 1], k) + (if last.key == k then last.n else 0)
  }

  // ---- The invariant --------------------------------------------------------------------------

  // An entry of the old snapshot is still held, and is current unless its window is not over.
  ghost predicate Current(s: State, window: real, h: Held) {
    && h.n > 0 && Has(s.counts, h.key)
    && (CountOf(s.counts, h.key) == h.n || !Due(s, window, h.key.Window(), s.flushNow))
  }

  ghost predicate ClockOk(s: State, window: real) {
    && s.flushNow <= s.clock
    && (forall w :: w in s.lastFlush ==> s.lastFlush[w] <= s.clock)
    && (s.counts != [] ==> window > 0.0)
    && (forall k :: Has(s.counts, k) ==> k.Window() in s.lastFlush)
  }

  ghost predicate FlushOk(s: State, window: real) {
    && WellKept(s.todo)
    && (forall i :: 0 <= i < |s.todo| ==> Current(s, window, s.todo[i]))
    && (s.complete ==> forall k :: Has(s.counts, k) ==> Has(s.todo, k) || !Due(s, window, k.Window(), s.flushNow))
  }

  ghost predicate Spaced(s: State, window: real) {
    && (forall i :: 0 <= i < |s.notices| ==>
          s.notices[i].key.Window() in s.lastFlush && s.notices[i].at <= s.lastFlush[s.notices[i].key.Window()])
    && (forall i, j :: 0 <= i < j < |s.notices| && s.notices[i].key.Window() == s.notices[j].key.Window() ==>
          s.notices[j].at - s.notices[i].at >= window)
  }

  ghost predicate Inv(s: State, window: real) {
    WellKept(s.counts) && ClockOk(s, window) && FlushOk(s, window) && Spaced(s, window)
  }

  // An immediate notice: only its own window moves, and it moves forward.
  lemma NoticeKeepsInv(s: State, window: real, k: DropKey, now: real)
    requires Inv(s, window) && now >= s.clock && Opens(s, window, k.Window(), now)
    ensures Inv(AfterNote(s, window, k, now), window)
  {
    hide Has, CountOf, WellKept;
    var t := AfterNote(s, window, k, now);
    forall i | 0 <= i < |t.todo|
      ensures Current(t, window, t.todo[i])
    {
      assert Current(s, window, s.todo[i]);
      assert s.todo[i].key.Window() in s.lastFlush;
    }
    assert forall j :: Has(t.counts, j) ==> j.Window() in s.lastFlush;
  }

  // A counted reject: it may outdate the snapshot, but only inside a window that is not over.
  lemma CountKeepsInv(s: State, window: real, k: DropKey, now: real)
    requires Inv(s, window) && now >= s.clock && !Opens(s, window, k.Window(), now)
    ensures Inv(AfterNote(s, window, k, now), window)
  {
    BumpedCounts(s.counts, k);
    hide Has, CountOf, WellKept, Bumped;
    var t := AfterNote(s, window, k, now);
    assert !Due(t, window, k.Window(), t.flushNow);
    forall i | 0 <= i < |t.todo|
      ensures Current(t, window, t.todo[i])
    {
      assert Current(s, window, s.todo[i]);
    }
  }

  lemma TailIsWellKept(todo: seq<Held>)
    requires WellKept(todo) && todo != []
    ensures WellKept(todo[1..])
    ensures forall k :: Has(todo, k) <==> k == todo[0].key || Has(todo[1..], k)
    ensures forall i :: 0 <= i < |todo[1..]| ==> todo[1..][i] == todo[i + 1] && todo[i + 1].key != todo[0].key
  {
    HasSplits(todo);
  }

  // One entry of the snapshot, its window over: the deleted counter is exactly the one told.
  lemma DueStepKeepsInv(s: State, window: real)
    requires Inv(s, window) && s.todo != [] && Due(s, window, s.todo[0].key.Window(), s.flushNow)
    ensures Inv(AfterStep(s, window), window)
    ensures CountOf(s.counts, s.todo[0].key) == s.todo[0].n
  {
    var h := s.todo[0];
    assert Current(s, window, h);
    DeletedCounts(s.counts, h.key);
    TailIsWellKept(s.todo);
    assert s.counts != [] by { assert Has(s.counts, h.key); }
    assert Deleted(s.counts, h.key) != [] ==> s.counts != [];
    hide Has, CountOf, WellKept, Deleted;
    var t := AfterStep(s, window);
    forall i | 0 <= i < |t.todo|
      ensures Current(t, window, t.todo[i])
    {
      assert Current(s, window, s.todo[i + 1]);
    }
  }

  lemma IdleStepKeepsInv(s: State, window: real)
    requires Inv(s, window) && s.todo != [] && !Due(s, window, s.todo[0].key.Window(), s.flushNow)
    ensures Inv(AfterStep(s, window), window)
  {
    TailIsWellKept(s.todo);
    hide Has, CountOf, WellKept;
    var t := AfterStep(s, window);
    forall i | 0 <= i < |t.todo|
      ensures Current(t, window, t.todo[i])
    {
      assert Current(s, window, s.todo[i + 1]);
    }
  }

  lemma SnapshotKeepsInv(s: State, window: real, now: real)
    requires Inv(s, window) && now >= s.clock && s.todo == []
    ensures Inv(After(s, window, FlushStart(now)), window)
  {
    var t := After(s, window, FlushStart(now));
    forall i | 0 <= i < |t.todo|
      ensures Current(t, window, t.todo[i])
    {
      CountOfEntry(s.counts, i);
    }
  }

  lemma StepKeepsInv(s: State, window: real, e: Event)
    requires Inv(s, window) && Can(s, e)
    ensures Inv(After(s, window, e), window)
  {
    hide Inv, WellKept, Opens, Due, AfterNote, AfterStep;
    match e
    case Note(source, reason, now) =>
      var k := DropKey(source, reason);
      if Opens(s, window, k.Window(), now) {
        NoticeKeepsInv(s, window, k, now);
      } else {
        CountKeepsInv(s, window, k, now);
      }
    case FlushStart(now) =>
      SnapshotKeepsInv(s, window, now);
    case FlushStep =>
      if Due(s, window, s.todo[0].key.Window(), s.flushNow) {
        DueStepKeepsInv(s, window);
      } else {
        IdleStepKeepsInv(s, window);
      }
    case SinkFails =>
      AbandonKeepsInv(s, window);
  }

  lemma AbandonKeepsInv(s: State, window: real)
    requires Inv(s, window)
    ensures Inv(After(s, window, SinkFails), window)
  {
  }

  lemma {:induction false} RunKeepsInv(window: real, birth: real, events: seq<Event>, states: seq<State>, i: nat)
    requires Run(window, birth, events, states) && i < |states|
    ensures Inv(states[i], window)
  {
    if i > 0 {
      RunKeepsInv(window, birth, events, states, i - 1);
      StepKeepsInv(states[i - 1], window, events[i - 1]);
    }
  }

  // ---- The guarantees over whole runs ---------------------------------------------------------

  // What one step does to the books of one key.
  lemma StepConserves(s: State, window: real, e: Event, k: DropKey)
    requires Inv(s, window) && Can(s, e)
    ensures var t := After(s, window, e);
      Told(t.notices, k) + CountOf(t.counts, k) ==
        Told(s.notices, k) + CountOf(s.counts, k) + (if e.Note? && DropKey(e.source, e.reason) == k then 1 else 0)
  {
    var t := After(s, window, e);
    assert |t.notices| == |s.notices| + 1 ==> t.notices[..|t.notices| - 1] == s.notices;
    match e
    case Note(source, reason, now) =>
      BumpedCounts(s.counts, DropKey(source, reason));
    case FlushStart(now) =>
    case FlushStep =>
      if Due(s, window, s.todo[0].key.Window(), s.flushNow) {
        DueStepKeepsInv(s, window);
        DeletedCounts(s.counts, s.todo[0].key);
      }
    case SinkFails =>
  }

  // No drop is lost: at every moment of every run, the rejects noted under a key are the drops the
  // sink was told of plus those still held.
  lemma {:induction false} NoDropIsLost(window: real, birth: real, events: seq<Event>, states: seq<State>, i: nat,
                                        k: DropKey)
    requires Run(window, birth, events, states) && i < |states|
    ensures Noted(events[..i], k) == Told(states[i].notices, k) + CountOf(states[i].counts, k)
  {
    if i > 0 {
      NoDropIsLost(window, birth, events, states, i - 1, k);
      RunKeepsInv(window, birth, events, states, i - 1);
      StepConserves(states[i - 1], window, events[i - 1], k);
      assert events[..i][..i - 1] == events[..i - 1];
    }
  }

  // Notices for one (transport, reason) are decided at readings at least one window apart,
  // whichever path decided them.
  lemma NoticesAreSpaced(window: real, birth: real, events: seq<Event>, states: seq<State>, i: nat, j: nat)
    requires Run(window, birth, events, states)
    requires var notices := states[|events|].notices;
      i < j < |notices| && notices[i].key.Window() == notices[j].key.Window()
    ensures states[|events|].notices[j].at - states[|events|].notices[i].at >= window
  {
    RunKeepsInv(window, birth, events, states, |events|);
  }

  // The `del` of a flush always finds its key, and the zero default is never used.
  lemma FlushNeverTrips(window: real, birth: real, events: seq<Event>, states: seq<State>, i: nat)
    requires Run(window, birth, events, states) && i < |states| && states[i].todo != []
    ensures Has(states[i].counts, states[i].todo[0].key)
    ensures states[i].todo[0].key.Window() in states[i].lastFlush
  {
    RunKeepsInv(window, birth, events, states, i);
    assert Current(states[i], window, states[i].todo[0]);
  }

  // When a flush has run through, no counter is left whose window was over at its reading.
  lemma FlushLeavesNothingDue(window: real, birth: real, events: seq<Event>, states: seq<State>, i: nat, k: DropKey)
    requires Run(window, birth, events, states) && i < |states|
    requires states[i].complete && states[i].todo == [] && Has(states[i].counts, k)
    ensures k.Window() in states[i].lastFlush && states[i].flushNow - states[i].lastFlush[k.Window()] < window
  {
    RunKeepsInv(window, birth, events, states, i);
  }

  // ---- When a held count is told ----------------------------------------------------------------

  // The q-th event is a reject that told at once and so opened this window again.
  ghost predicate Reopens(window: real, events: seq<Event>, states: seq<State>, q: nat, w: WindowKey)
    requires q < |events| && q < |states|
  {
    events[q].Note? && WindowKey(events[q].source.transportId, events[q].reason) == w
    && Opens(states[q], window, w, events[q].now)
  }

  // The flush begun by the i-th event is still running before the j-th.
  ghost predicate Flushing(events: seq<Event>, i: nat, j: nat) {
    i < j <= |events| && events[i].FlushStart?
    && forall q :: i < q < j ==> !events[q].FlushStart? && !events[q].SinkFails?
  }

  // How an event of a running flush bears on one window: it is over afterwards exactly when it was
  // over before and neither a reject nor the flush itself told under it.
  lemma StepAndWindow(s: State, window: real, e: Event, w: WindowKey)
    requires Inv(s, window) && Can(s, e) && window > 0.0 && w in s.lastFlush
    requires e.Note? || e.FlushStep?
    ensures var t := After(s, window, e);
      var touched := if e.Note? then WindowKey(e.source.transportId, e.reason) == w && Opens(s, window, w, e.now)
                     else s.todo[0].key.Window() == w;
      && w in t.lastFlush && t.flushNow == s.flushNow
      && (Due(t, window, w, t.flushNow) <==> Due(s, window, w, s.flushNow) && !touched)
  {
    hide Has, CountOf, WellKept, Bumped, Deleted, Spaced, FlushOk;
  }

  lemma {:induction false} DueInTurn(window: real, birth: real, events: seq<Event>, states: seq<State>, i: nat, j: nat,
                                     w: WindowKey) returns (p: nat)
    requires Run(window, birth, events, states) && Flushing(events, i, j)
    requires window > 0.0 && w in states[i].lastFlush
    ensures p <= |states[i].counts| && states[j].todo == states[i].counts[p..]
    ensures states[j].flushNow == events[i].now && w in states[j].lastFlush
    ensures Due(states[j], window, w, events[i].now) <==>
      && Due(states[i], window, w, events[i].now)
      && (forall q :: 0 <= q < p ==> states[i].counts[q].key.Window() != w)
      && (forall q :: i < q < j ==> !Reopens(window, events, states, q, w))
  {
    hide Has, CountOf, WellKept, Bumped, Deleted, Inv, Opens;
    if j == i + 1 {
      p := 0;
      assert states[i].counts[0..] == states[i].counts;
    } else {
      p := DueInTurn(window, birth, events, states, i, j - 1, w);
      RunKeepsInv(window, birth, events, states, j - 1);
      StepAndWindow(states[j - 1], window, events[j - 1], w);
      assert (forall q :: i < q < j ==> !Reopens(window, events, states, q, w)) <==>
        && (forall q :: i < q < j - 1 ==> !Reopens(window, events, states, q, w))
        && !Reopens(window, events, states, j - 1, w);
      if events[j - 1].FlushStep? {
        assert states[j - 1].todo[0] == states[i].counts[p];
        assert states[i].counts[p..][1..] == states[i].counts[p + 1..];
        p := p + 1;
      }
    }
  }

  // The p-th counter of a flush's snapshot is told in its turn if and only if its window was over when
  // the flush began, no counter before it in the snapshot shares that window, and no reject opened the
  // window again meanwhile. So of two chats with one transport and one reason, a flush tells only one.
  lemma {:induction false} ToldIffFirstOfItsWindow(window: real, birth: real, events: seq<Event>, states: seq<State>,
                                                   i: nat, j: nat) returns (p: nat)
    requires Run(window, birth, events, states) && Flushing(events, i, j) && j < |events| && events[j].FlushStep?
    ensures p < |states[i].counts| && states[j].todo[0] == states[i].counts[p]
    ensures var h := states[i].counts[p];
      (states[j + 1].notices == states[j].notices + [Notice(h.key, h.n, events[i].now)]) <==>
        && Opens(states[i], window, h.key.Window(), events[i].now)
        && (forall q :: 0 <= q < p ==> states[i].counts[q].key.Window() != h.key.Window())
        && (forall q :: i < q < j ==> !Reopens(window, events, states, q, h.key.Window()))
  {
    hide CountOf, WellKept, Bumped, Deleted, Spaced, FlushOk, Reopens;
    RunKeepsInv(window, birth, events, states, i);
    var h := states[j].todo[0];
    FlushNeverTrips(window, birth, events, states, j);
    SnapshotIsHeld(window, birth, events, states, i, j);
    p := DueInTurn(window, birth, events, states, i, j, h.key.Window());
  }

  // What a running flush still has to do was held when it began.
  lemma {:induction false} SnapshotIsHeld(window: real, birth: real, events: seq<Event>, states: seq<State>,
                                          i: nat, j: nat)
    requires Run(window, birth, events, states) && Flushing(events, i, j)
    ensures forall h :: h in states[j].todo ==>
      h in states[i].counts && window > 0.0 && h.key.Window() in states[i].lastFlush
  {
    hide CountOf, Bumped, Deleted, Opens, Spaced, FlushOk;
    if j == i + 1 {
      RunKeepsInv(window, birth, events, states, i);
      forall h | h in states[i].counts
        ensures Has(states[i].counts, h.key)
      {
        var q :| 0 <= q < |states[i].counts| && states[i].counts[q] == h;
      }
    } else {
      SnapshotIsHeld(window, birth, events, states, i, j - 1);
      hide Has;
    }
  }

  // ---- A count that is held forever -------------------------------------------------------------

  const BUSY_CHAT := DropKey(ChannelRef("tg", "busy"), RATE_LIMIT)
  const QUIET_CHAT := DropKey(ChannelRef("tg", "quiet"), RATE_LIMIT)

  function Flushes(events: seq<Event>): nat {
    if events == [] then 0
    else Flushes(events[..|events| - 1]) + (if events[|events| - 1].FlushStart? then 1 else 0)
  }

  // One drop of the quiet chat is held, and nothing was ever told of it.
  ghost predicate Starved(s: State, t: real) {
    && s.counts == [Held(QUIET_CHAT, 1)] && s.lastFlush == map[QUIET_CHAT.Window() := t] && s.clock == t
    && s.todo == [] && Told(s.notices, QUIET_CHAT) == 0
  }

  lemma Extend(window: real, birth: real, events: seq<Event>, states: seq<State>, e: Event)
    requires Run(window, birth, events, states) && Can(states[|events|], e)
    ensures Run(window, birth, events + [e], states + [After(states[|events|], window, e)])
    ensures Flushes(events + [e]) == Flushes(events) + (if e.FlushStart? then 1 else 0)
  {
    hide Can, After, Flushes;
    FlushesGrow(events, e);
    var events', states' := events + [e], states + [After(states[|events|], window, e)];
    forall i | 0 <= i < |events'|
      ensures Can(states'[i], events'[i]) && states'[i + 1] == After(states'[i], window, events'[i])
    {
      if i < |events| {
        assert events'[i] == events[i] && states'[i] == states[i] && states'[i + 1] == states[i + 1];
      }
    }
  }

  lemma FlushesGrow(events: seq<Event>, e: Event)
    ensures Flushes(events + [e]) == Flushes(events) + (if e.FlushStart? then 1 else 0)
  {
    assert (events + [e])[..|events|] == events;
  }

  // A reject of the busy chat tells at once and closes the window just before the flush reads the
  // clock; the flush then leaves the quiet chat's drop where it is.
  lemma StarvingRound(s: State, window: real, t: real) returns (s1: State, s2: State, s3: State)
    requires Starved(s, t) && window > 0.0
    ensures Can(s, Note(BUSY_CHAT.source, RATE_LIMIT, t + window))
    ensures s1 == After(s, window, Note(BUSY_CHAT.source, RATE_LIMIT, t + window))
    ensures Can(s1, FlushStart(t + window)) && s2 == After(s1, window, FlushStart(t + window))
    ensures Can(s2, FlushStep) && s3 == After(s2, window, FlushStep)
    ensures Starved(s3, t + window) && s3.complete
  {
    s1 := After(s, window, Note(BUSY_CHAT.source, RATE_LIMIT, t + window));
    s2 := After(s1, window, FlushStart(t + window));
    s3 := After(s2, window, FlushStep);
    assert s1.notices[..|s.notices|] == s.notices;
    assert s1.lastFlush == map[QUIET_CHAT.Window() := t + window];
  }

  // The busy chat's first drop opens the window, the quiet chat's is held.
  lemma StarvingBegins(window: real) returns (s1: State, s2: State)
    requires window > 0.0
    ensures Can(New(0.0), Note(BUSY_CHAT.source, RATE_LIMIT, 0.0))
    ensures s1 == After(New(0.0), window, Note(BUSY_CHAT.source, RATE_LIMIT, 0.0))
    ensures Can(s1, Note(QUIET_CHAT.source, RATE_LIMIT, 0.0)) && Starved(s2, 0.0)
    ensures s2 == After(s1, window, Note(QUIET_CHAT.source, RATE_LIMIT, 0.0))
  {
    s1 := After(New(0.0), window, Note(BUSY_CHAT.source, RATE_LIMIT, 0.0));
    s2 := After(s1, window, Note(QUIET_CHAT.source, RATE_LIMIT, 0.0));
    assert s1.notices == [Notice(BUSY_CHAT, 1, 0.0)];
    assert s1.notices[..0] == [];
    assert Told(s1.notices[..0], QUIET_CHAT) == 0;
  }

  // For any number of complete flushes there is a run, its flushes a whole window apart, in which a
  // drop noted at the beginning is still held and was never told.
  lemma {:induction false} HeldThroughAnyNumberOfFlushes(window: real, n: nat)
    returns (events: seq<Event>, states: seq<State>, t: real)
    requires window > 0.0
    ensures Run(window, 0.0, events, states) && Flushes(events) == n
    ensures Starved(states[|events|], t) && (n > 0 ==> states[|events|].complete)
  {
    hide Can, After, Starved, Run;
    if n == 0 {
      var first, second := Note(BUSY_CHAT.source, RATE_LIMIT, 0.0), Note(QUIET_CHAT.source, RATE_LIMIT, 0.0);
      var s1, s2 := StarvingBegins(window);
      NothingYet(window);
      Extend(window, 0.0, [], [New(0.0)], first);
      Extend(window, 0.0, [] + [first], [New(0.0)] + [s1], second);
      events, states, t := [] + [first] + [second], [New(0.0)] + [s1] + [s2], 0.0;
    } else {
      events, states, t := HeldThroughAnyNumberOfFlushes(window, n - 1);
      LengthsAgree(window, events, states);
      var s1, s2, s3 := StarvingRound(states[|events|], window, t);
      var note, start := Note(BUSY_CHAT.source, RATE_LIMIT, t + window), FlushStart(t + window);
      Extend(window, 0.0, events, states, note);
      Extend(window, 0.0, events + [note], states + [s1], start);
      Extend(window, 0.0, events + [note] + [start], states + [s1] + [s2], FlushStep);
      events, states, t := events + [note] + [start] + [FlushStep], states + [s1] + [s2] + [s3], t + window;
    }
  }

  lemma NothingYet(window: real)
    ensures Run(window, 0.0, [], [New(0.0)])
  {
  }

  lemma LengthsAgree(window: real, events: seq<Event>, states: seq<State>)
    requires Run(window, 0.0, events, states)
    ensures |states| == |events| + 1
  {
  }

  // ---- The mutable object ---------------------------------------------------------------------

  datatype Reject = Reject(source: ChannelRef, reason: RejectReason, now: real)

  function Notes(rejects: seq<Reject>): seq<Event> {
    if rejects == [] then []
    else
      var r := rejects[|rejects| - 1];
      Notes(rejects[..|rejects| - 1]) + [Note(r.source, r.reason, r.now)]
  }

  ghost predicate Ascending(rejects: seq<Reject>, from: real) {
    && (forall i :: 0 <= i < |rejects| ==> rejects[i].now >= from)
    && (forall i, j :: 0 <= i <= j < |rejects| ==> rejects[i].now <= rejects[j].now)
  }

  // The clock readings of all interleaved rejects, stage after stage.
  ghost predicate Staged(between: seq<seq<Reject>>, from: real) {
    && (forall i :: 0 <= i < |between| ==> Ascending(between[i], from))
    && (forall i, a, j, b :: 0 <= i < j < |between| && 0 <= a < |between[i]| && 0 <= b < |between[j]| ==>
          between[i][a].now <= between[j][b].now)
  }

  // Other tasks run only where the flush awaits its sink.
  function Stage(rejects: seq<Reject>, over: bool): seq<Event> {
    [FlushStep] + (if over then Notes(rejects) else [])
  }

  function Trace(between: seq<seq<Reject>>, due: seq<bool>): seq<Event>
    requires |between| == |due|
  {
    if due == [] then []
    else
      var n := |due| - 1;
      Trace(between[..n], due[..n]) + Stage(between[n], due[n])
  }

  // due[j] says whether the window of the j-th entry was over in the state its step began in.
  ghost predicate RightFlags(states: seq<State>, base: nat, between: seq<seq<Reject>>, due: seq<bool>,
                             snapshot: Counts, window: real, now: real)
    requires |due| <= |between| && |due| <= |snapshot|
  {
    forall j :: 0 <= j < |due| ==>
      var at := base + |Trace(between[..j], due[..j])|;
      at < |states| && due[j] == Due(states[at], window, snapshot[j].key.Window(), now)
  }

  lemma FlagsGrow(states: seq<State>, states': seq<State>, base: nat, between: seq<seq<Reject>>, due: seq<bool>,
                  over: bool, snapshot: Counts, window: real, now: real)
    requires |due| < |between| && |due| < |snapshot|
    requires RightFlags(states, base, between, due, snapshot, window, now) && states <= states'
    requires var at := base + |Trace(between[..|due|], due)|;
      at < |states'| && over == Due(states'[at], window, snapshot[|due|].key.Window(), now)
    ensures RightFlags(states', base, between, due + [over], snapshot, window, now)
  {
    hide Trace, Due;
    var more, n := due + [over], |due|;
    forall j | 0 <= j < |more|
      ensures var at := base + |Trace(between[..j], more[..j])|;
        at < |states'| && more[j] == Due(states'[at], window, snapshot[j].key.Window(), now)
    {
      if j < n {
        assert more[..j] == due[..j] && more[j] == due[j];
      } else {
        assert more[..j] == due && more[j] == over;
      }
    }
  }

  // Everything still to arrive is not before the clock.
  ghost predicate Awaits(between: seq<seq<Reject>>, i: nat, clock: real) {
    forall j, b :: i <= j < |between| && 0 <= b < |between[j]| ==> clock <= between[j][b].now
  }

  lemma NextStage(between: seq<seq<Reject>>, i: nat, now: real, clock: real)
    requires Staged(between, now) && i < |between| && Awaits(between, i, clock)
    ensures Ascending(between[i], clock) && Awaits(between, i + 1, clock)
    ensures between[i] != [] ==> Awaits(between, i + 1, between[i][|between[i]| - 1].now)
  {
    assert Ascending(between[i], now);
  }

  lemma TraceGrows(between: seq<seq<Reject>>, due: seq<bool>, over: bool)
    requires |due| < |between|
    ensures Trace(between[..|due| + 1], due + [over]) ==
      Trace(between[..|due|], due) + Stage(between[|due|], over)
  {
    hide Stage;
    var n := |due|;
    assert between[..n + 1][..n] == between[..n] && (due + [over])[..n] == due;
  }

  lemma NothingTraced(between: seq<seq<Reject>>, states: seq<State>, base: nat,
                     snapshot: Counts, window: real, now: real)
    ensures Trace(between[..0], []) == [] && RightFlags(states, base, between, [], snapshot, window, now)
  {
  }

  lemma NothingArrived(between: seq<seq<Reject>>, now: real)
    requires Staged(between, now)
    ensures Awaits(between, 0, now)
  {
    forall j | 0 <= j < |between|
      ensures Ascending(between[j], now)
    {
    }
  }

  class DropNotifier {
    const window: real
    var counts: Counts
    var lastFlush: map<WindowKey, real>
    ghost var state: State
    ghost var events: seq<Event>
    ghost var states: seq<State>

    ghost predicate Valid()
      reads this
    {
      && state.counts == counts && state.lastFlush == lastFlush
      && |states| > 0 && Run(window, states[0].clock, events, states) && states[|events|] == state
    }

    // The history ends in the present state.
    ghost predicate Tracked()
      reads this
    {
      |states| == |events| + 1 && states[|events|] == state
    }

    constructor (windowSeconds: real, ghost birth: real)
      ensures Valid() && window == windowSeconds && events == [] && state == New(birth)
    {
      window := windowSeconds;
      counts, lastFlush := [], map[];
      state, events, states := New(birth), [], [New(birth)];
    }

    ghost method Record(e: Event)
      requires |states| > 0 && Run(window, states[0].clock, events, states) && states[|events|] == state
      requires Can(state, e) && counts == After(state, window, e).counts
        && lastFlush == After(state, window, e).lastFlush
      modifies this`state, this`events, this`states
      ensures Valid() && events == old(events) + [e] && state == After(old(state), window, e)
      ensures Tracked() && old(states) <= states
    {
      hide Can, After;
      state := After(state, window, e);
      events, states := events + [e], states + [state];
    }

    // One entry of the snapshot: its counter is deleted when its window is over.
    method Step(h: Held, now: real) returns (over: bool)
      requires Valid() && state.todo != [] && state.todo[0] == h && state.flushNow == now
      modifies this
      ensures Valid() && events == old(events) + [FlushStep] && state == After(old(state), window, FlushStep)
      ensures over == Due(old(state), window, h.key.Window(), now)
      ensures Tracked() && old(states) <= states
    {
      hide Run;
      var w := h.key.Window();
      over := now - (if w in lastFlush then lastFlush[w] else 0.0) >= window;
      if over {
        lastFlush := lastFlush[w := now];
        counts := Deleted(counts, h.key);
      }
      Record(FlushStep);
    }

    // The notice handed to the sink at once, if the window is over; the reject is counted otherwise.
    method NoteReject(source: ChannelRef, reason: RejectReason, now: real) returns (notice: Option<Notice>)
      requires Valid() && now >= state.clock
      modifies this
      ensures Valid() && events == old(events) + [Note(source, reason, now)] && Tracked() && old(states) <= states
      ensures state == After(old(state), window, Note(source, reason, now))
      ensures state.notices == old(state).notices + (if notice.Some? then [notice.value] else [])
      ensures notice == if Opens(old(state), window, WindowKey(source.transportId, reason), now)
        then Some(Notice(DropKey(source, reason), 1, now)) else None
    {
      hide Run;
      var w := WindowKey(source.transportId, reason);
      if w !in lastFlush || now - lastFlush[w] >= window {
        lastFlush := lastFlush[w := now];
        notice := Some(Notice(DropKey(source, reason), 1, now));
      } else {
        counts := Bumped(counts, DropKey(source, reason));
        notice := None;
      }
      Record(Note(source, reason, now));
    }

    // Rejects noted by other tasks while the flush waits for its sink.
    method NoteAll(rejects: seq<Reject>) returns (told: seq<Notice>)
      requires Valid() && Tracked() && Ascending(rejects, state.clock)
      modifies this
      ensures Valid() && events == old(events) + Notes(rejects) && state.notices == old(state).notices + told
      ensures Tracked() && old(states) <= states
      ensures state.todo == old(state).todo && state.complete == old(state).complete
      ensures state.flushNow == old(state).flushNow
      ensures state.clock == if rejects == [] then old(state).clock else rejects[|rejects| - 1].now
    {
      hide Valid, Run, Opens;
      told := [];
      for i := 0 to |rejects|
        invariant Valid() && events == old(events) + Notes(rejects[..i]) && state.notices == old(state).notices + told
        invariant Tracked() && old(states) <= states
        invariant state.todo == old(state).todo && state.complete == old(state).complete
        invariant state.flushNow == old(state).flushNow
        invariant state.clock == if i == 0 then old(state).clock else rejects[i - 1].now
      {
        var notice := NoteReject(rejects[i].source, rejects[i].reason, rejects[i].now);
        told := told + (if notice.Some? then [notice.value] else []);
        assert rejects[..i + 1][..i] == rejects[..i];
      }
      assert rejects[..|rejects|] == rejects;
    }

    // The clock reading and the copy of the counters a flush begins with.
    ghost method TakeSnapshot(now: real)
      requires Valid() && now >= state.clock && state.todo == []
      modifies this`state, this`events, this`states
      ensures Valid() && Tracked() && events == old(events) + [FlushStart(now)]
      ensures state == old(state).(flushNow := now, todo := counts, clock := now, complete := true)
    {
      hide Run;
      Record(FlushStart(now));
    }

    // One turn of the flush loop, with the rejects that arrive while its sink is awaited.
    method Turn(h: Held, now: real, rejects: seq<Reject>) returns (over: bool, told: seq<Notice>)
      requires Valid() && state.todo != [] && state.todo[0] == h && state.flushNow == now
      requires Ascending(rejects, state.clock)
      modifies this
      ensures Valid() && events == old(events) + Stage(rejects, over)
      ensures Tracked() && old(states) <= states
      ensures over == Due(old(state), window, h.key.Window(), now)
      ensures over ==> told != [] && told[0] == Notice(h.key, h.n, now)
      ensures state.notices == old(state).notices + told
      ensures state.todo == old(state).todo[1..] && state.complete == old(state).complete && state.flushNow == now
      ensures state.clock == if over && rejects != [] then rejects[|rejects| - 1].now else old(state).clock
    {
      hide Valid, Run, Notes;
      told := [];
      over := Step(h, now);
      if over {
        var more := NoteAll(rejects);
        told := [Notice(h.key, h.n, now)] + more;
      }
    }

    // One flush; between[i] arrives while the sink works on the i-th entry of the snapshot. `told`
    // is every sink call meanwhile; `due` says which entries of the snapshot were among them, namely
    // those whose window was over when their turn came.
    method FlushDue(now: real, between: seq<seq<Reject>>) returns (told: seq<Notice>, ghost due: seq<bool>)
      requires Valid() && now >= state.clock && state.todo == []
      requires |between| == |counts| && Staged(between, now)
      modifies this
      ensures Valid() && |due| == |between|
      ensures events == old(events) + [FlushStart(now)] + Trace(between, due)
      ensures state.notices == old(state).notices + told
      ensures RightFlags(states, |old(events)| + 1, between, due, old(counts), window, now)
      ensures state.todo == [] && state.complete && state.flushNow == now
    {
      hide Valid, Run, After, Can, Due, Stage, Staged, Ascending, Trace, RightFlags;
      var snapshot := counts;
      TakeSnapshot(now);
      NothingArrived(between, now);
      told, due := [], [];
      NothingTraced(between, states, |old(events)| + 1, snapshot, window, now);
      for i := 0 to |snapshot|
        invariant Valid() && Tracked() && |due| == i
        invariant RightFlags(states, |old(events)| + 1, between, due, snapshot, window, now)
        invariant events == old(events) + [FlushStart(now)] + Trace(between[..i], due)
        invariant state.notices == old(state).notices + told
        invariant state.todo == snapshot[i..] && state.complete && state.flushNow == now
        invariant Awaits(between, i, state.clock)
      {
        NextStage(between, i, now, state.clock);
        ghost var before := states;
        var over, more := Turn(snapshot[i], now, between[i]);
        TraceGrows(between, due, over);
        FlagsGrow(before, states, |old(events)| + 1, between, due, over, snapshot, window, now);
        due, told := due + [over], told + more;
        assert snapshot[i..][1..] == snapshot[i + 1..];
      }
      assert between[..|between|] == between;
    }
  }
}
