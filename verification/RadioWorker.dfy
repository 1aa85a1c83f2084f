/**
 * The one egress worker of a node (lora_bridge/core/egress.py).
 *
 * The worker is first a program: between two awaits it performs one act, and `Next` says which and
 * where it stops next. The step machine of the whole bridge runs this program interleaved with
 * everything else; the class below runs the source's loops and is proved to perform exactly the
 * same acts in the same order.
 */
module RadioWorker {
  import opened Domain
  import J = Journal
  import Q = CommitQueue
  import F = RxFilter
  import W = TtlWindow

  const BUSY_RETRIES := 3

  // Where the worker is suspended.
  datatype Worker =
    | Idle
    | Holding(item: QueueItem)                          // taken from the queue, not yet judged
    | Expiring(item: QueueItem)                         // UPDATE REJECTED executed, not committed
    | Bouncing(item: QueueItem)                         // REJECTED committed, source not yet told
    | Marking(item: QueueItem)                          // UPDATE TRANSMITTING executed, not committed
    | Announcing(item: QueueItem)                       // TRANSMITTING committed, not yet reported
    | Ready(item: QueueItem, attempt: nat)              // about to call the radio
    | OnAir(item: QueueItem, attempt: nat)              // the call is running
    | Closing(item: QueueItem, ok: bool)                // UPDATE SENT or FAILED executed, not committed
    | Closed(item: QueueItem, ok: bool)                 // committed, not yet reported
    | Mirroring(item: QueueItem, rest: seq<ChannelRef>) // chats still to be mirrored to
    | Pruning(item: QueueItem)                          // DELETE executed, not committed

  // What one step does to the world.
  datatype Act =
    | Execute(stmt: J.Stmt)
    | Commit
    | Report(status: DeliveryStatus)
    | Reject(reason: RejectReason)
    | Call(attempt: nat)            // `lora.send` starts
    | BackOff                       // the call came back busy and will be repeated
    | Confirm(text: string)         // SENT reported, text handed to the loop guard
    | Mirror(to: ChannelRef)

  // What the environment supplies to a step: the clock, the radio's answers, the room's other chats.
  datatype Script = Script(now: real, radio: seq<Outcome>, targets: seq<ChannelRef>)

  function Terminal(ok: bool): DeliveryStatus {
    if ok then SENT else FAILED
  }

  predicate WillRetry(o: Outcome, attempt: nat) {
    o.Replied? && o.result.busy && attempt < BUSY_RETRIES - 1
  }

  predicate Succeeded(o: Outcome) {
    o.Replied? && o.result.ok
  }

  predicate CameBackBusy(o: Outcome) {
    o.Replied? && o.result.busy
  }

  // The answer that decides: the first that is not busy, or the third.
  function Deciding(radio: seq<Outcome>, attempt: nat): (o: Outcome)
    requires attempt < BUSY_RETRIES <= |radio|
    ensures exists c :: attempt <= c < 3 && o == radio[c] && (c < 2 ==> !CameBackBusy(radio[c]))
                        && forall i :: attempt <= i < c ==> CameBackBusy(radio[i])
    decreases BUSY_RETRIES - attempt
  {
    if WillRetry(radio[attempt], attempt) then Deciding(radio, attempt + 1) else radio[attempt]
  }

  predicate Stale(item: QueueItem, ttl: real, now: real) {
    now - item.enqueuedAt > ttl
  }

  function Next(w: Worker, ttl: real, now: real, heard: Outcome, targets: seq<ChannelRef>): (Worker, Act)
    requires !w.Idle?
  {
    var key := w.item.MsgKey();
    match w
    case Holding(x) =>
      if Stale(x, ttl, now) then (Expiring(x), Execute(J.SetStatus(key, REJECTED)))
      else (Marking(x), Execute(J.SetTransmitting(key, now)))
    case Expiring(x) => (Bouncing(x), Commit)
    case Bouncing(x) => (Idle, Reject(TTL_EXPIRED))
    case Marking(x) => (Announcing(x), Commit)
    case Announcing(x) => (Ready(x, 0), Report(TRANSMITTING))
    case Ready(x, k) => (OnAir(x, k), Call(k))
    case OnAir(x, k) =>
      if WillRetry(heard, k) then (Ready(x, k + 1), BackOff)
      else (Closing(x, Succeeded(heard)), Execute(J.SetStatus(key, Terminal(Succeeded(heard)))))
    case Closing(x, ok) => (Closed(x, ok), Commit)
    case Closed(x, ok) => if ok then (Mirroring(x, targets), Confirm(x.payload.text)) else (Idle, Report(FAILED))
    case Mirroring(x, rest) =>
      if rest != [] then (Mirroring(x, rest[1..]), Mirror(rest[0]))
      else (Pruning(x), Execute(J.Delete(key)))
    case Pruning(x) => (Idle, Commit)
  }

  // The radio's answer to the call the worker is waiting for.
  function Heard(w: Worker, radio: seq<Outcome>): Outcome {
    if w.OnAir? && w.attempt < |radio| then radio[w.attempt] else TimedOut
  }

  // How far the worker still is from Idle.
  function Stage(w: Worker): nat {
    match w
    case Idle => 0
    case Holding(_) => 20
    case Marking(_) => 19
    case Announcing(_) => 18
    case Ready(_, k) => if k < BUSY_RETRIES then 17 - 2 * k else 11
    case OnAir(_, k) => if k < BUSY_RETRIES then 16 - 2 * k else 10
    case Closing(_, _) => 9
    case Closed(_, _) => 8
    case Mirroring(_, _) => 7
    case Pruning(_) => 6
    case Expiring(_) => 2
    case Bouncing(_) => 1
  }

  function ToMirror(w: Worker): nat {
    if w.Mirroring? then |w.rest| else 0
  }

  // Everything the worker does from here until it asks for the next item.
  function Program(w: Worker, ttl: real, s: Script): seq<Act>
    decreases Stage(w), ToMirror(w)
  {
    if w.Idle? then []
    else
      var (w', act) := Next(w, ttl, s.now, Heard(w, s.radio), s.targets);
      [act] + Program(w', ttl, s)
  }

  // The trace of `run` over a drained queue.
  function Programs(items: seq<QueueItem>, ttl: real, scripts: seq<Script>): seq<Act>
    requires |items| <= |scripts|
  {
    if items == [] then []
    else Programs(items[..|items| - 1], ttl, scripts) + Program(Holding(items[|items| - 1]), ttl, scripts[|items| - 1])
  }

  // ---- What the program amounts to ------------------------------------------------------------

  function Calls(acts: seq<Act>): nat {
    if acts == [] then 0 else (if acts[0].Call? then 1 else 0) + Calls(acts[1..])
  }

  lemma {:induction false} ProgramStep(w: Worker, ttl: real, s: Script)
    requires !w.Idle?
    ensures var (w', act) := Next(w, ttl, s.now, Heard(w, s.radio), s.targets);
      Program(w, ttl, s) == [act] + Program(w', ttl, s)
  {
  }

  // One item is put on the air at most BUSY_RETRIES times, a stale one never.
  lemma {:induction false} CallsAreBounded(w: Worker, ttl: real, s: Script)
    requires (w.Ready? || w.OnAir?) ==> w.attempt < BUSY_RETRIES
    ensures Calls(Program(w, ttl, s)) <=
      match w
      case Holding(x) => if Stale(x, ttl, s.now) then 0 else BUSY_RETRIES
      case Marking(_) => BUSY_RETRIES
      case Announcing(_) => BUSY_RETRIES
      case Ready(_, k) => BUSY_RETRIES - k
      case OnAir(_, k) => BUSY_RETRIES - 1 - k
      case _ => 0
    decreases Stage(w), ToMirror(w)
  {
    if !w.Idle? {
      ProgramStep(w, ttl, s);
      var (w', act) := Next(w, ttl, s.now, Heard(w, s.radio), s.targets);
      CallsAreBounded(w', ttl, s);
      assert ([act] + Program(w', ttl, s))[1..] == Program(w', ttl, s);
    }
  }

  // ---- The transcript of one turn -------------------------------------------------------------

  // n calls, a pause after each but the last.
  function Tries(attempt: nat, n: nat): seq<Act>
    requires attempt <= n
    decreases n - attempt
  {
    if attempt == n then []
    else [Call(attempt)] + (if attempt + 1 < n then [BackOff] else []) + Tries(attempt + 1, n)
  }

  function MirrorActs(refs: seq<ChannelRef>): seq<Act> {
    if refs == [] then [] else [Mirror(refs[0])] + MirrorActs(refs[1..])
  }

  // What a confirmed and what an unconfirmed item end with.
  function Ending(item: QueueItem, confirmed: bool, targets: seq<ChannelRef>): seq<Act> {
    var key := item.MsgKey();
    if confirmed
    then [Execute(J.SetStatus(key, SENT)), Commit, Confirm(item.payload.text)] + MirrorActs(targets)
         + [Execute(J.Delete(key)), Commit]
    else [Execute(J.SetStatus(key, FAILED)), Commit, Report(FAILED)]
  }

  lemma {:induction false} MirroringTranscript(item: QueueItem, rest: seq<ChannelRef>, ttl: real, s: Script)
    ensures Program(Mirroring(item, rest), ttl, s) ==
      MirrorActs(rest) + [Execute(J.Delete(item.MsgKey())), Commit]
    decreases |rest|
  {
    if rest == [] {
      ProgramStep(Pruning(item), ttl, s);
      ProgramStep(Mirroring(item, rest), ttl, s);
    } else {
      MirroringTranscript(item, rest[1..], ttl, s);
      ProgramStep(Mirroring(item, rest), ttl, s);
    }
  }

  lemma EndingTranscript(item: QueueItem, ok: bool, ttl: real, s: Script)
    ensures [Execute(J.SetStatus(item.MsgKey(), Terminal(ok)))] + Program(Closing(item, ok), ttl, s) ==
      Ending(item, ok, s.targets)
  {
    hide Program;
    ProgramStep(Closing(item, ok), ttl, s);
    ProgramStep(Closed(item, ok), ttl, s);
    if ok {
      MirroringTranscript(item, s.targets, ttl, s);
    } else {
      IdleHasNoProgram(ttl, s);
    }
  }

  lemma IdleHasNoProgram(ttl: real, s: Script)
    ensures Program(Idle, ttl, s) == []
  {
  }

  lemma {:induction false} SendingTranscript(item: QueueItem, attempt: nat, ttl: real, s: Script) returns (n: nat)
    requires attempt < 3 <= |s.radio|
    ensures attempt < n <= 3 && (n < 3 ==> !CameBackBusy(s.radio[n - 1]))
    ensures forall i :: attempt <= i < n - 1 ==> CameBackBusy(s.radio[i])
    ensures Program(Ready(item, attempt), ttl, s) == Tries(attempt, n) +
      Ending(item, s.radio[n - 1].Replied? && s.radio[n - 1].result.ok, s.targets)
    decreases 3 - attempt
  {
    hide Program, Ending;
    ProgramStep(Ready(item, attempt), ttl, s);
    ProgramStep(OnAir(item, attempt), ttl, s);
    if CameBackBusy(s.radio[attempt]) && attempt < 2 {
      n := SendingTranscript(item, attempt + 1, ttl, s);
    } else {
      n := attempt + 1;
      EndingTranscript(item, s.radio[attempt].Replied? && s.radio[attempt].result.ok, ttl, s);
    }
  }

  // A fresh item, act by act: TRANSMITTING is committed and reported, then come n calls, n decided by
  // the radio alone. It is SENT, taught to the loop guard, mirrored and pruned if and only if the last
  // of them was answered in time and with ok; otherwise it is FAILED and nothing else happens.
  lemma FreshTranscript(item: QueueItem, ttl: real, s: Script) returns (n: nat)
    requires |s.radio| >= 3 && s.now <= item.enqueuedAt + ttl
    ensures 0 < n <= 3 && (n < 3 ==> !CameBackBusy(s.radio[n - 1]))
    ensures forall i :: 0 <= i < n - 1 ==> CameBackBusy(s.radio[i])
    ensures Program(Holding(item), ttl, s) ==
      [Execute(J.SetTransmitting(item.MsgKey(), s.now)), Commit, Report(TRANSMITTING)] + Tries(0, n) +
      Ending(item, s.radio[n - 1].Replied? && s.radio[n - 1].result.ok, s.targets)
  {
    hide Program, Ending, Tries;
    ProgramStep(Holding(item), ttl, s);
    ProgramStep(Marking(item), ttl, s);
    ProgramStep(Announcing(item), ttl, s);
    n := SendingTranscript(item, 0, ttl, s);
  }

  // A stale item never comes near the radio.
  lemma StaleTranscript(item: QueueItem, ttl: real, s: Script)
    requires s.now > item.enqueuedAt + ttl
    ensures Program(Holding(item), ttl, s) ==
      [Execute(J.SetStatus(item.MsgKey(), REJECTED)), Commit, Reject(TTL_EXPIRED)]
  {
    hide Program;
    ProgramStep(Holding(item), ttl, s);
    ProgramStep(Expiring(item), ttl, s);
    ProgramStep(Bouncing(item), ttl, s);
    IdleHasNoProgram(ttl, s);
  }

  lemma {:induction false} TriesOnlyCall(attempt: nat, n: nat, act: Act)
    requires attempt <= n && act in Tries(attempt, n)
    ensures act.Call? || act.BackOff?
    decreases n - attempt
  {
    if act in Tries(attempt + 1, n) {
      TriesOnlyCall(attempt + 1, n, act);
    }
  }

  lemma {:induction false} MirrorActsOnlyMirror(refs: seq<ChannelRef>, act: Act)
    requires act in MirrorActs(refs)
    ensures act.Mirror?
  {
    if act in MirrorActs(refs[1..]) {
      MirrorActsOnlyMirror(refs[1..], act);
    }
  }

  // The verdict in the journal is the radio's: FAILED is written if and only if the last answer was
  // late or not ok, SENT if and only if it was in time and ok.
  lemma VerdictIsTheRadios(item: QueueItem, ttl: real, s: Script) returns (last: nat)
    requires |s.radio| >= 3 && s.now <= item.enqueuedAt + ttl
    ensures last < 3 && Call(last) in Program(Holding(item), ttl, s)
    ensures Call(last + 1) !in Program(Holding(item), ttl, s)
    ensures Execute(J.SetStatus(item.MsgKey(), FAILED)) in Program(Holding(item), ttl, s)
      <==> (s.radio[last].TimedOut? || !s.radio[last].result.ok)
    ensures Execute(J.SetStatus(item.MsgKey(), SENT)) in Program(Holding(item), ttl, s)
      <==> (s.radio[last].Replied? && s.radio[last].result.ok)
  {
    hide Program, Tries;
    var n := FreshTranscript(item, ttl, s);
    last := n - 1;
    var key, confirmed := item.MsgKey(), s.radio[last].Replied? && s.radio[last].result.ok;
    var start := [Execute(J.SetTransmitting(key, s.now)), Commit, Report(TRANSMITTING)];
    LastTry(0, n);
    forall act | act in Program(Holding(item), ttl, s)
      ensures act in start || act in Ending(item, confirmed, s.targets)
        || act.BackOff? || (act.Call? && act.attempt < n)
    {
      if act in Tries(0, n) {
        TriesOnlyCall(0, n, act);
        if act.Call? {
          TriesBelow(0, n, act);
        }
      }
    }
    EndingVerdict(item, confirmed, s.targets);
  }

  lemma {:induction false} LastTry(attempt: nat, n: nat)
    requires attempt < n
    ensures Call(n - 1) in Tries(attempt, n)
    decreases n - attempt
  {
    if attempt + 1 < n {
      LastTry(attempt + 1, n);
    }
  }

  lemma {:induction false} TriesBelow(attempt: nat, n: nat, act: Act)
    requires attempt <= n && act in Tries(attempt, n) && act.Call?
    ensures act.attempt < n
    decreases n - attempt
  {
    if act in Tries(attempt + 1, n) {
      TriesBelow(attempt + 1, n, act);
    }
  }

  lemma EndingVerdict(item: QueueItem, confirmed: bool, targets: seq<ChannelRef>)
    ensures Execute(J.SetStatus(item.MsgKey(), SENT)) in Ending(item, confirmed, targets) <==> confirmed
    ensures Execute(J.SetStatus(item.MsgKey(), FAILED)) in Ending(item, confirmed, targets) <==> !confirmed
    ensures forall act :: act in Ending(item, confirmed, targets) ==> !act.Call?
  {
    forall act | act in MirrorActs(targets)
      ensures act.Mirror?
    {
      MirrorActsOnlyMirror(targets, act);
    }
    var key := item.MsgKey();
    assert confirmed ==> Ending(item, confirmed, targets)[0] == Execute(J.SetStatus(key, SENT));
    assert !confirmed ==> Ending(item, confirmed, targets)[0] == Execute(J.SetStatus(key, FAILED));
  }

  // ---- The mutable worker ---------------------------------------------------------------------

  function DbAfter(db: J.Db, act: Act): J.Db {
    match act
    case Execute(stmt) => db.Executed(stmt)
    case Commit => db.Published()
    case _ => db
  }

  // What the journal looks like after the journal acts of a trace.
  function Journalled(db: J.Db, acts: seq<Act>): J.Db {
    if acts == [] then db else DbAfter(Journalled(db, acts[..|acts| - 1]), acts[|acts| - 1])
  }

  lemma JournalledStep(db: J.Db, acts: seq<Act>, act: Act)
    ensures Journalled(db, acts + [act]) == DbAfter(Journalled(db, acts), act)
  {
    assert (acts + [act])[..|acts|] == acts;
  }

  lemma NoPrograms(ttl: real, scripts: seq<Script>)
    ensures Programs([], ttl, scripts) == []
  {
  }

  lemma ProgramsStep(items: seq<QueueItem>, ttl: real, scripts: seq<Script>, i: nat)
    requires i < |items| && i < |scripts|
    ensures Programs(items[..i + 1], ttl, scripts) ==
            Programs(items[..i], ttl, scripts) + Program(Holding(items[i]), ttl, scripts[i])
  {
    assert items[..i + 1][..i] == items[..i];
  }

  // The readings from the i-th on are not before anything the loop guard has seen.
  ghost predicate Ahead(h: seq<W.Call>, sentAt: seq<real>, i: nat) {
    forall k :: i <= k < |sentAt| ==> W.NotBefore(h, sentAt[k])
  }

  ghost predicate Ascending(sentAt: seq<real>) {
    forall i, j :: 0 <= i <= j < |sentAt| ==> sentAt[i] <= sentAt[j]
  }

  lemma AheadStep(h: seq<W.Call>, sentAt: seq<real>, i: nat, text: string)
    requires Ascending(sentAt) && i < |sentAt| && Ahead(h, sentAt, i)
    ensures W.NotBefore(h, sentAt[i])
    ensures Ahead(h + [], sentAt, i + 1) && Ahead(h + [W.Add(text, sentAt[i])], sentAt, i + 1)
  {
    assert h + [] == h;
  }

  class RadioWorker {
    const ttl: real
    const journal: J.SqliteJournal
    const loopGuard: F.LoopGuard
    ghost const stored: J.Db   // the journal when the worker was built
    ghost var trace: seq<Act>  // every act so far

    ghost predicate Valid()
      reads this, journal, loopGuard, loopGuard.window
    {
      loopGuard.Valid() && journal.db == Journalled(stored, trace)
    }

    // The acts of the program from w on are still to come.
    ghost predicate OnCourse(start: seq<Act>, from: Worker, w: Worker, s: Script)
      reads this`trace
    {
      trace + Program(w, ttl, s) == start + Program(from, ttl, s)
    }

    constructor (journal: J.SqliteJournal, loopGuard: F.LoopGuard, ttl: real)
      requires loopGuard.Valid()
      ensures Valid() && trace == [] && this.journal == journal && this.loopGuard == loopGuard && this.ttl == ttl
    {
      this.journal, this.loopGuard, this.ttl := journal, loopGuard, ttl;
      stored, trace := journal.db, [];
    }

    // One step of the program, after its effect on the journal has been brought about.
    ghost method Note(start: seq<Act>, from: Worker, w: Worker, s: Script) returns (w': Worker)
      requires !w.Idle? && OnCourse(start, from, w, s)
      modifies this`trace
      ensures var (v, act) := Next(w, ttl, s.now, Heard(w, s.radio), s.targets);
        w' == v && trace == old(trace) + [act]
      ensures OnCourse(start, from, w', s)
      ensures Journalled(stored, trace) ==
        DbAfter(Journalled(stored, old(trace)), Next(w, ttl, s.now, Heard(w, s.radio), s.targets).1)
    {
      hide Program, Journalled;
      ProgramStep(w, ttl, s);
      var (v, act) := Next(w, ttl, s.now, Heard(w, s.radio), s.targets);
      JournalledStep(stored, trace, act);
      assert trace + ([act] + Program(v, ttl, s)) == (trace + [act]) + Program(v, ttl, s);
      w' := v;
      trace := trace + [act];
    }

    // A journal method just executed its statement and committed: two steps of the program.
    ghost method NotePersisted(start: seq<Act>, from: Worker, w: Worker, s: Script, stmt: J.Stmt) returns (w': Worker)
      requires w.Holding? || w.OnAir? || (w.Mirroring? && w.rest == [])
      requires Next(w, ttl, s.now, Heard(w, s.radio), s.targets).1 == Execute(stmt)
      requires OnCourse(start, from, w, s)
      requires journal.db == Journalled(stored, trace).Executed(stmt).Published()
      modifies this`trace
      ensures var v := Next(w, ttl, s.now, Heard(w, s.radio), s.targets).0;
        w' == Next(v, ttl, s.now, Heard(v, s.radio), s.targets).0
      ensures OnCourse(start, from, w', s) && journal.db == Journalled(stored, trace)
    {
      hide Program, Journalled, OnCourse;
      var v := Note(start, from, w, s);
      w' := Note(start, from, v, s);
    }

    // The retry loop: busy answers are repeated, everything else ends it; None is a timeout.
    method SendWithRetry(item: QueueItem, radio: seq<Outcome>,
                         ghost start: seq<Act>, ghost from: Worker, ghost s: Script)
      returns (res: Option<SendResult>, ghost w: Worker)
      requires |radio| >= BUSY_RETRIES && s.radio == radio
      requires OnCourse(start, from, Ready(item, 0), s)
      modifies this`trace
      ensures w.OnAir? && w.item == item && w.attempt < BUSY_RETRIES && OnCourse(start, from, w, s)
      ensures radio[w.attempt] == Deciding(radio, 0) && !WillRetry(radio[w.attempt], w.attempt)
      ensures res == if Deciding(radio, 0).TimedOut? then None else Some(Deciding(radio, 0).result)
      ensures Journalled(stored, trace) == Journalled(stored, old(trace))
    {
      hide Program, Journalled, OnCourse;
      w := Ready(item, 0);
      res := None;
      for attempt := 0 to BUSY_RETRIES
        invariant attempt < BUSY_RETRIES ==> w == Ready(item, attempt)
        invariant attempt < BUSY_RETRIES && OnCourse(start, from, w, s)
        invariant attempt < BUSY_RETRIES ==> Deciding(radio, 0) == Deciding(radio, attempt)
        invariant Journalled(stored, trace) == Journalled(stored, old(trace))
      {
        w := Note(start, from, w, s);
        var answer := radio[attempt];
        if answer.TimedOut? {
          return None, w;
        }
        res := Some(answer.result);
        if !answer.result.busy {
          return res, w;
        }
        if attempt < BUSY_RETRIES - 1 {
          w := Note(start, from, w, s);
        } else {
          return res, w;
        }
      }
      assert false;
    }

    // `run` over a queue whose input has been closed: the items in queue order, each served by its
    // program. One script per turn stands for the clock and the radio; the loop ends when either
    // the queue or the scripts run out.
    method Run(queue: Q.CommitQueue, scripts: seq<Script>, sentAt: seq<real>)
      requires Valid() && queue.Valid() && queue.ttl == ttl
      requires |sentAt| == |scripts| && forall i :: 0 <= i < |scripts| ==> |scripts[i].radio| >= BUSY_RETRIES
      requires Ascending(sentAt) && Ahead(loopGuard.window.history, sentAt, 0)
      modifies this`trace, journal, loopGuard.window, queue`stream
      ensures Valid() && queue.Valid()
      ensures var waiting, n := old(queue.stream.Pending()), |old(queue.stream.Pending())| - |queue.stream.Pending()|;
        && 0 <= n <= |waiting| && n <= |scripts| && (n == |waiting| || n == |scripts|)
        && queue.stream.Pending() == waiting[n..]
        && trace == old(trace) + Programs(waiting[..n], ttl, scripts)
    {
      hide Program, Programs, Deciding, W.Run, W.Ordered, W.NotBefore, Stage, Stale, Succeeded,
        Journalled, Ahead, Ascending;
      assert Programs([], ttl, scripts) == [] by { NoPrograms(ttl, scripts); }
      ghost var waiting := queue.stream.Pending();
      var i := 0;
      while i < |scripts|
        invariant 0 <= i <= |scripts| && i <= |waiting|
        invariant Valid() && queue.Valid()
        invariant Ahead(loopGuard.window.history, sentAt, i)
        invariant queue.stream.Pending() == waiting[i..]
        invariant trace == old(trace) + Programs(waiting[..i], ttl, scripts)
      {
        var got := queue.Receive();
        if got.None? {
          return;
        }
        AheadStep(loopGuard.window.history, sentAt, i, got.value.payload.text);
        Serve(queue, got.value, scripts[i], sentAt[i]);
        ProgramsStep(waiting, ttl, scripts, i);
        i := i + 1;
      }
    }

    // One turn of `run`: act by act the program's.
    method Serve(queue: Q.CommitQueue, item: QueueItem, s: Script, sentAt: real)
      requires queue.ttl == ttl
      requires Valid() && |s.radio| >= BUSY_RETRIES && W.NotBefore(loopGuard.window.history, sentAt)
      modifies this`trace, journal, loopGuard.window
      ensures Valid() && trace == old(trace) + Program(Holding(item), ttl, s)
      ensures loopGuard.window.history == old(loopGuard.window.history) +
        (var answer := Deciding(s.radio, 0);
         if s.now <= item.enqueuedAt + ttl && answer.Replied? && answer.result.ok
         then [W.Add(item.payload.text, sentAt)] else [])
    {
      ghost var start, from := trace, Holding(item);
      hide Program, Journalled, W.NotBefore, W.Ordered, W.Run, OnCourse, Deciding, Stage;
      assert OnCourse(start, from, from, s) by { StartsOnCourse(from, s); }
      var stale := queue.IsStale(item, s.now);
      if stale {
        journal.MarkTerminal(item.MsgKey(), REJECTED);
        ghost var w := NotePersisted(start, from, from, s, J.SetStatus(item.MsgKey(), REJECTED));
        w := Note(start, from, w, s);
      } else {
        Transmit(item, s, sentAt, start, from);
      }
      EndsOnCourse(start, from, s);
    }

    method Transmit(item: QueueItem, s: Script, sentAt: real, ghost start: seq<Act>, ghost from: Worker)
      requires Valid() && |s.radio| >= BUSY_RETRIES && W.NotBefore(loopGuard.window.history, sentAt)
      requires !Stale(item, ttl, s.now) && OnCourse(start, from, Holding(item), s)
      modifies this`trace, journal, loopGuard.window
      ensures Valid() && OnCourse(start, from, Idle, s)
      ensures loopGuard.window.history == old(loopGuard.window.history) +
        (var answer := Deciding(s.radio, 0);
         if answer.Replied? && answer.result.ok then [W.Add(item.payload.text, sentAt)] else [])
    {
      hide Program, Journalled, W.NotBefore, W.Ordered, W.Run, OnCourse, Deciding, Stage;
      var key := item.MsgKey();
      journal.MarkTransmitting(key, s.now);
      ghost var w := NotePersisted(start, from, Holding(item), s, J.SetTransmitting(key, s.now));
      w := Note(start, from, w, s);
      var res: Option<SendResult>;
      res, w := SendWithRetry(item, s.radio, start, from, s);
      if res.Some? && res.value.ok {
        CloseSent(item, s, sentAt, start, from, w);
      } else {
        CloseFailed(item, s, start, from, w);
      }
    }

    // The radio confirmed: SENT, the loop guard, the mirrors, the prune.
    method CloseSent(item: QueueItem, s: Script, sentAt: real, ghost start: seq<Act>,
                     ghost from: Worker, ghost w0: Worker)
      requires Valid() && W.NotBefore(loopGuard.window.history, sentAt)
      requires w0.OnAir? && w0.item == item && OnCourse(start, from, w0, s)
      requires !WillRetry(Heard(w0, s.radio), w0.attempt) && Succeeded(Heard(w0, s.radio))
      modifies this`trace, journal, loopGuard.window
      ensures Valid() && OnCourse(start, from, Idle, s)
      ensures loopGuard.window.history == old(loopGuard.window.history) + [W.Add(item.payload.text, sentAt)]
    {
      hide Program, Journalled, W.NotBefore, W.Ordered, W.Run, OnCourse, Deciding, Stage, WillRetry,
        Succeeded, Heard, J.Exec;
      var key := item.MsgKey();
      journal.MarkTerminal(key, SENT);
      ghost var w := NotePersisted(start, from, w0, s, J.SetStatus(key, SENT));
      loopGuard.MarkSent(item.payload.text, sentAt);
      w := Note(start, from, w, s);
      w := MirrorAll(item, s.targets, start, from, w, s);
      journal.Prune(key);
      w := NotePersisted(start, from, w, s, J.Delete(key));
    }

    method CloseFailed(item: QueueItem, s: Script, ghost start: seq<Act>, ghost from: Worker, ghost w0: Worker)
      requires Valid() && w0.OnAir? && w0.item == item && OnCourse(start, from, w0, s)
      requires !WillRetry(Heard(w0, s.radio), w0.attempt) && !Succeeded(Heard(w0, s.radio))
      modifies this`trace, journal
      ensures Valid() && OnCourse(start, from, Idle, s)
    {
      hide Program, Journalled, W.NotBefore, W.Ordered, W.Run, OnCourse, Deciding, Stage, WillRetry,
        Succeeded, Heard, J.Exec;
      var key := item.MsgKey();
      journal.MarkTerminal(key, FAILED);
      ghost var w := NotePersisted(start, from, w0, s, J.SetStatus(key, FAILED));
      w := Note(start, from, w, s);
    }

    lemma StartsOnCourse(from: Worker, s: Script)
      ensures OnCourse(trace, from, from, s)
    {
    }

    lemma EndsOnCourse(start: seq<Act>, from: Worker, s: Script)
      requires OnCourse(start, from, Idle, s)
      ensures trace == start + Program(from, ttl, s)
    {
      assert trace + [] == trace;
    }

    // `on_committed`: one attempt per chat, in room order.
    method MirrorAll(item: QueueItem, targets: seq<ChannelRef>,
                     ghost start: seq<Act>, ghost from: Worker, ghost w0: Worker, ghost s: Script)
      returns (ghost w: Worker)
      requires w0 == Mirroring(item, targets) && OnCourse(start, from, w0, s)
      modifies this`trace
      ensures w == Mirroring(item, []) && OnCourse(start, from, w, s)
      ensures Journalled(stored, trace) == Journalled(stored, old(trace))
    {
      hide Program, Journalled, OnCourse;
      w := w0;
      for i := 0 to |targets|
        invariant w == Mirroring(item, targets[i..]) && OnCourse(start, from, w, s)
        invariant Journalled(stored, trace) == Journalled(stored, old(trace))
      {
        w := Note(start, from, w, s);
      }
    }
  }
}
