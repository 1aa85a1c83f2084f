/**
 * What a LoRa node lets through to the rooms: mesh duplicates are swallowed by the dedup window
 * (lora_bridge/core/dedup.py), our own echo by the loop guard (lora_bridge/core/loopguard.py),
 * in the order of `Bridge.consume`. The worker's `mark_sent` interleaves freely with reception.
 */
module RxFilter {
  import opened Domain
  import W = TtlWindow

  // The origin tag when the transport set one, the content otherwise.
  function DedupKey(msg: Message): string {
    if msg.originTag.Some? && msg.originTag.value != "" then msg.originTag.value
    else msg.sender.transportUid + "\0" + msg.sender.displayName + "\0" + msg.text
  }

  predicate Tagged(msg: Message) {
    msg.originTag.Some? && msg.originTag.value != ""
  }

  // Without an origin tag, or with an empty one, the key tells messages apart by sender and text; the
  // name is in it because all mesh senders share one uid. A NUL inside uid or name could blur the parts.
  lemma KeyTellsSendersApart(a: Message, b: Message)
    requires !Tagged(a) && !Tagged(b)
    requires '\0' !in a.sender.transportUid && '\0' !in b.sender.transportUid
    requires '\0' !in a.sender.displayName && '\0' !in b.sender.displayName
    ensures DedupKey(a) == DedupKey(b) <==> a.sender == b.sender && a.text == b.text
  {
    if DedupKey(a) == DedupKey(b) {
      var restA, restB := a.sender.displayName + ("\0" + a.text), b.sender.displayName + ("\0" + b.text);
      assert DedupKey(a) == a.sender.transportUid + ("\0" + restA);
      assert DedupKey(b) == b.sender.transportUid + ("\0" + restB);
      SplitAtMark(a.sender.transportUid, restA, b.sender.transportUid, restB);
      SplitAtMark(a.sender.displayName, a.text, b.sender.displayName, b.text);
    }
  }

  // A tagged message is known by its tag alone, and is never taken for an untagged one as long as the
  // tag holds no NUL.
  lemma TagTellsMessagesApart(a: Message, b: Message)
    requires Tagged(a) && '\0' !in a.originTag.value
    ensures DedupKey(a) == DedupKey(b) <==> Tagged(b) && a.originTag == b.originTag
  {
    if !Tagged(b) {
      assert DedupKey(b)[|b.sender.transportUid|] == '\0';
    }
  }

  lemma SplitAtMark(a: string, restA: string, b: string, restB: string)
    requires '\0' !in a && '\0' !in b && a + ("\0" + restA) == b + ("\0" + restB)
    ensures a == b && restA == restB
  {
    var s := a + ("\0" + restA);
    assert s[|a|] == '\0' && s[|b|] == '\0';
    assert forall i :: 0 <= i < |a| ==> s[i] == a[i];
    assert forall i :: 0 <= i < |b| ==> s[i] == b[i];
    assert |a| == |b|;
    assert s[..|a|] == a && s[..|b|] == b;
    assert s[|a| + 1..] == restA && s[|b| + 1..] == restB;
  }

  // ---- Histories of one node ------------------------------------------------------------------

  // Heard carries the two clock readings of `accept` and, if reached, `is_echo`.
  datatype Event =
    | Heard(msg: Message, at: real, echoAt: real)
    | Transmitted(text: string, at: real)

  function DedupCalls(events: seq<Event>): seq<W.Call> {
    if events == [] then []
    else
      var e, before := events[|events| - 1], DedupCalls(events[..|events| - 1]);
      if e.Heard? then before + [W.AddIfAbsent(DedupKey(e.msg), e.at)] else before
  }

  predicate Fresh(before: seq<Event>, ttl: real, msg: Message, at: real) {
    W.Answer(W.Run(DedupCalls(before), ttl), ttl, W.AddIfAbsent(DedupKey(msg), at))
  }

  // `is_echo` is asked only about messages that dedup accepted.
  function GuardCalls(events: seq<Event>, ttl: real): seq<W.Call> {
    if events == [] then []
    else
      var e, prior := events[|events| - 1], events[..|events| - 1];
      match e
      case Heard(msg, at, echoAt) =>
        if Fresh(prior, ttl, msg, at) then GuardCalls(prior, ttl) + [W.Contains(msg.text, echoAt)]
        else GuardCalls(prior, ttl)
      case Transmitted(text, at) => GuardCalls(prior, ttl) + [W.Add(text, at)]
  }

  predicate Echo(before: seq<Event>, ttl: real, msg: Message, echoAt: real) {
    W.Answer(W.Run(GuardCalls(before, ttl), ttl), ttl, W.Contains(msg.text, echoAt))
  }

  // The i-th event is a message that reached `route_from_lora`.
  predicate Forwarded(events: seq<Event>, ttl: real, i: nat)
    requires i < |events|
  {
    events[i].Heard?
    && Fresh(events[..i], ttl, events[i].msg, events[i].at)
    && !Echo(events[..i], ttl, events[i].msg, events[i].echoAt)
  }

  function EndOf(e: Event): real {
    if e.Heard? then e.echoAt else e.at
  }

  ghost predicate Ordered(events: seq<Event>) {
    && (forall i :: 0 <= i < |events| ==> events[i].at <= EndOf(events[i]))
    && (forall i, j :: 0 <= i < j < |events| ==> EndOf(events[i]) <= events[j].at)
  }

  ghost predicate NotBefore(events: seq<Event>, now: real) {
    forall i :: 0 <= i < |events| ==> EndOf(events[i]) <= now
  }

  // ---- From histories of events to histories of window calls ----------------------------------

  lemma {:induction false} DedupCallsOrdered(events: seq<Event>, now: real)
    requires Ordered(events) && NotBefore(events, now)
    ensures W.Ordered(DedupCalls(events)) && W.NotBefore(DedupCalls(events), now)
  {
    if events != [] {
      var n := |events| - 1;
      DedupCallsOrdered(events[..n], events[n].at);
    }
  }

  lemma {:induction false} GuardCallsOrdered(events: seq<Event>, ttl: real, now: real)
    requires Ordered(events) && NotBefore(events, now)
    ensures W.Ordered(GuardCalls(events, ttl)) && W.NotBefore(GuardCalls(events, ttl), now)
    ensures forall i :: 0 <= i < |GuardCalls(events, ttl)| ==> !GuardCalls(events, ttl)[i].AddIfAbsent?
  {
    if events != [] {
      var n := |events| - 1;
      GuardCallsOrdered(events[..n], ttl, events[n].at);
    }
  }

  lemma {:induction false} GuardRemembersTransmissions(events: seq<Event>, ttl: real, text: string, at: real)
    ensures W.Add(text, at) in GuardCalls(events, ttl) <==> Transmitted(text, at) in events
  {
    if events != [] {
      var n := |events| - 1;
      GuardRemembersTransmissions(events[..n], ttl, text, at);
      assert events == events[..n] + [events[n]];
    }
  }

  lemma {:induction false} DedupCallAt(events: seq<Event>, i: nat)
    requires i < |events| && events[i].Heard?
    ensures var k := |DedupCalls(events[..i])|;
      && k < |DedupCalls(events)|
      && DedupCalls(events)[..k] == DedupCalls(events[..i])
      && DedupCalls(events)[k] == W.AddIfAbsent(DedupKey(events[i].msg), events[i].at)
  {
    var n := |events| - 1;
    if i < n {
      DedupCallAt(events[..n], i);
      assert events[..n][..i] == events[..i];
    }
  }

  // ---- The guarantees over whole runs ---------------------------------------------------------

  // Two forwarded messages with the same dedup key are more than ttl apart.
  lemma ForwardedAreSpaced(events: seq<Event>, ttl: real, i: nat, j: nat)
    requires Ordered(events) && i < j < |events|
    requires Forwarded(events, ttl, i) && Forwarded(events, ttl, j)
    requires DedupKey(events[i].msg) == DedupKey(events[j].msg)
    ensures events[j].at - events[i].at > ttl
  {
    var n := |events| - 1;
    DedupCallsOrdered(events, EndOf(events[n]));
    DedupCallAt(events, i);
    DedupCallAt(events, j);
    DedupCallAt(events[..j], i);
    assert events[..j][..i] == events[..i];
    W.AcceptedKeysAreSpaced(DedupCalls(events), ttl, |DedupCalls(events[..i])|, |DedupCalls(events[..j])|);
  }

  lemma EchoMeansGuardCall(before: seq<Event>, ttl: real, msg: Message, now: real)
    requires Ordered(before) && NotBefore(before, now)
    ensures Echo(before, ttl, msg, now) <==>
            exists c :: c in GuardCalls(before, ttl) && c.Add? && c.key == msg.text && c.at >= now - ttl
  {
    hide GuardCalls, Ordered, NotBefore, W.Run, W.Evicted, W.Has, W.Ordered, W.NotBefore;
    GuardCallsOrdered(before, ttl, now);
    W.AddOnlyWindowIsExact(GuardCalls(before, ttl), ttl, now, msg.text);
  }

  // `is_echo` answers true exactly when that text was marked sent within the last ttl.
  lemma EchoIsExact(before: seq<Event>, ttl: real, msg: Message, now: real)
    requires Ordered(before) && NotBefore(before, now)
    ensures Echo(before, ttl, msg, now) <==>
            exists at :: Transmitted(msg.text, at) in before && at >= now - ttl
  {
    EchoMeansGuardCall(before, ttl, msg, now);
    forall at
      ensures W.Add(msg.text, at) in GuardCalls(before, ttl) <==> Transmitted(msg.text, at) in before
    {
      GuardRemembersTransmissions(before, ttl, msg.text, at);
    }
    if c :| c in GuardCalls(before, ttl) && c.Add? && c.key == msg.text && c.at >= now - ttl {
      assert c == W.Add(msg.text, c.at);
    }
  }

  // A swallowed duplicate has a cause: an equal key heard within the last ttl.
  lemma SwallowedHasCause(before: seq<Event>, ttl: real, msg: Message, at: real) returns (j: nat)
    requires Ordered(before) && NotBefore(before, at) && !Fresh(before, ttl, msg, at)
    ensures j < |before| && before[j].Heard? && DedupKey(before[j].msg) == DedupKey(msg) && before[j].at >= at - ttl
  {
    DedupCallsOrdered(before, at);
    W.KeptKeyWasTouched(DedupCalls(before), ttl, at, DedupKey(msg));
    var k :| W.LiveTouch(DedupCalls(before), ttl, at, DedupKey(msg), k);
    j := HeardBehindCall(before, k);
  }

  // A message heard with no equal key in the last ttl and no equal text sent in the last ttl is
  // forwarded: the filter never swallows a first copy.
  lemma FirstCopyIsForwarded(events: seq<Event>, ttl: real, i: nat)
    requires Ordered(events) && i < |events| && events[i].Heard?
    requires forall j :: 0 <= j < i && events[j].Heard? && DedupKey(events[j].msg) == DedupKey(events[i].msg) ==>
      events[j].at < events[i].at - ttl
    requires forall at :: Transmitted(events[i].msg.text, at) in events[..i] ==> at < events[i].echoAt - ttl
    ensures Forwarded(events, ttl, i)
  {
    var before, e := events[..i], events[i];
    if !Fresh(before, ttl, e.msg, e.at) {
      var j := SwallowedHasCause(before, ttl, e.msg, e.at);
      assert false;
    }
    EchoIsExact(before, ttl, e.msg, e.echoAt);
  }

  // What left by this node's own radio within ttl never goes on to a room.
  lemma EchoIsNeverForwarded(events: seq<Event>, ttl: real, i: nat, at: real)
    requires Ordered(events) && i < |events| && events[i].Heard?
    requires Transmitted(events[i].msg.text, at) in events[..i] && at >= events[i].echoAt - ttl
    ensures !Forwarded(events, ttl, i)
  {
    EchoIsExact(events[..i], ttl, events[i].msg, events[i].echoAt);
  }

  lemma {:induction false} HeardBehindCall(events: seq<Event>, k: nat) returns (j: nat)
    requires k < |DedupCalls(events)|
    ensures j < |events| && events[j].Heard?
    ensures DedupCalls(events)[k] == W.AddIfAbsent(DedupKey(events[j].msg), events[j].at)
  {
    var n := |events| - 1;
    if events[n].Heard? && k == |DedupCalls(events)| - 1 {
      j := n;
    } else {
      j := HeardBehindCall(events[..n], k);
    }
  }

  // ---- One more event ------------------------------------------------------------------------

  lemma LaterCalls(calls: seq<W.Call>, now: real, later: real)
    requires W.NotBefore(calls, now) && now <= later
    ensures W.NotBefore(calls, later)
  {
  }

  lemma HeardGrows(events: seq<Event>, ttl: real, msg: Message, at: real, echoAt: real)
    requires Ordered(events) && NotBefore(events, at) && at <= echoAt
    ensures var grown := events + [Heard(msg, at, echoAt)];
      && Ordered(grown)
      && DedupCalls(grown) == DedupCalls(events) + [W.AddIfAbsent(DedupKey(msg), at)]
      && GuardCalls(grown, ttl) ==
           GuardCalls(events, ttl) + (if Fresh(events, ttl, msg, at) then [W.Contains(msg.text, echoAt)] else [])
      && (Forwarded(grown, ttl, |events|) <==> Fresh(events, ttl, msg, at) && !Echo(events, ttl, msg, echoAt))
  {
    hide Fresh, Echo;
    var grown := events + [Heard(msg, at, echoAt)];
    assert grown[..|events|] == events;
  }

  lemma TransmittedGrows(events: seq<Event>, ttl: real, text: string, at: real)
    requires Ordered(events) && NotBefore(events, at)
    ensures var grown := events + [Transmitted(text, at)];
      && Ordered(grown) && DedupCalls(grown) == DedupCalls(events)
      && GuardCalls(grown, ttl) == GuardCalls(events, ttl) + [W.Add(text, at)]
  {
    var grown := events + [Transmitted(text, at)];
    assert grown[..|events|] == events;
  }

  // ---- The mutable objects --------------------------------------------------------------------

  class TtlDedup {
    const window: W.TtlWindow

    ghost predicate Valid()
      reads this, window
    {
      window.Valid()
    }

    constructor (ttlSeconds: real)
      ensures Valid() && fresh(window) && window.ttl == ttlSeconds && window.history == []
    {
      window := new W.TtlWindow(ttlSeconds);
    }

    method Accept(msg: Message, now: real) returns (isNew: bool)
      requires Valid() && W.NotBefore(window.history, now)
      modifies window
      ensures Valid() && window.history == old(window.history) + [W.AddIfAbsent(DedupKey(msg), now)]
      ensures isNew == W.Answer(W.Run(old(window.history), window.ttl), window.ttl, W.AddIfAbsent(DedupKey(msg), now))
    {
      isNew := window.AddIfAbsent(DedupKey(msg), now);
    }
  }

  class LoopGuard {
    const window: W.TtlWindow

    ghost predicate Valid()
      reads this, window
    {
      window.Valid()
    }

    constructor (ttlSeconds: real)
      ensures Valid() && fresh(window) && window.ttl == ttlSeconds && window.history == []
    {
      window := new W.TtlWindow(ttlSeconds);
    }

    method MarkSent(text: string, now: real)
      requires Valid() && W.NotBefore(window.history, now)
      modifies window
      ensures Valid() && window.history == old(window.history) + [W.Add(text, now)]
    {
      window.Add(text, now);
    }

    method IsEcho(msg: Message, now: real) returns (echo: bool)
      requires Valid() && W.NotBefore(window.history, now)
      modifies window
      ensures Valid() && window.history == old(window.history) + [W.Contains(msg.text, now)]
      ensures echo == W.Answer(W.Run(old(window.history), window.ttl), window.ttl, W.Contains(msg.text, now))
    {
      echo := window.Contains(msg.text, now);
    }
  }

  // The two windows of one node, fed by `consume` and by the worker's `mark_sent`.
  class NodeFilter {
    const dedup: TtlDedup
    const loopGuard: LoopGuard
    const ttl: real
    ghost var events: seq<Event>

    ghost predicate Valid()
      reads this, dedup, dedup.window, loopGuard, loopGuard.window
    {
      && dedup.window != loopGuard.window
      && dedup.Valid() && loopGuard.Valid()
      && dedup.window.ttl == ttl == loopGuard.window.ttl
      && Ordered(events)
      && dedup.window.history == DedupCalls(events)
      && loopGuard.window.history == GuardCalls(events, ttl)
    }

    // `NodeRuntime` gives both windows the node's dedup ttl.
    constructor (dedupTtlSeconds: real)
      ensures Valid() && fresh(dedup) && fresh(dedup.window) && fresh(loopGuard) && fresh(loopGuard.window)
      ensures ttl == dedupTtlSeconds && events == []
    {
      dedup := new TtlDedup(dedupTtlSeconds);
      loopGuard := new LoopGuard(dedupTtlSeconds);
      ttl := dedupTtlSeconds;
      events := [];
    }

    // One turn of the LoRa branch of `consume`; true when the message goes on to its room.
    method Consume(msg: Message, now: real, echoNow: real) returns (forward: bool)
      requires Valid() && NotBefore(events, now) && now <= echoNow
      modifies this, dedup.window, loopGuard.window
      ensures Valid() && events == old(events) + [Heard(msg, now, echoNow)]
      ensures forward == Forwarded(events, ttl, |old(events)|)
    {
      hide W.Run, W.Answer, W.Ordered, W.NotBefore, W.TtlWindow.Valid, DedupKey,
        DedupCalls, GuardCalls, Forwarded, Ordered, NotBefore;
      DedupCallsOrdered(events, now);
      GuardCallsOrdered(events, ttl, now);
      LaterCalls(GuardCalls(events, ttl), now, echoNow);
      HeardGrows(events, ttl, msg, now, echoNow);
      var isNew := dedup.Accept(msg, now);
      var echo := false;
      if isNew {
        echo := loopGuard.IsEcho(msg, echoNow);
      }
      forward := isNew && !echo;
      events := events + [Heard(msg, now, echoNow)];
    }

    method MarkSent(text: string, now: real)
      requires Valid() && NotBefore(events, now)
      modifies this, loopGuard.window
      ensures Valid() && events == old(events) + [Transmitted(text, now)]
    {
      hide W.Run, W.Answer, W.Ordered, W.NotBefore, W.TtlWindow.Valid, DedupCalls, GuardCalls, Ordered, NotBefore;
      GuardCallsOrdered(events, ttl, now);
      TransmittedGrows(events, ttl, text, now);
      loopGuard.MarkSent(text, now);
      events := events + [Transmitted(text, now)];
    }
  }
}
