/**
 * The sliding TTL window under dedup and the loop guard (lora_bridge/core/ttl_window.py).
 *
 * The source's OrderedDict is a sequence of (key, stamp) entries with distinct keys, oldest
 * position first. Eviction pops from the front only and stops at the first live stamp, while a
 * duplicate moves to the back without a new stamp: stamps are therefore not sorted, and what
 * the window remembers is proved here against the history of calls alone.
 */
module TtlWindow {
  import opened Domain

  datatype Entry = Entry(key: string, stamp: real)
  type Store = seq<Entry>

  ghost predicate DistinctKeys(s: Store) {
    forall i, j :: 0 <= i < j < |s| ==> s[i].key != s[j].key
  }

  // ---- The store operations of OrderedDict ----------------------------------------------------

  // The position of `key`, or |s| when it is absent.
  function Find(s: Store, key: string): (i: nat)
    ensures i <= |s| && (i < |s| ==> s[i].key == key)
    ensures forall j :: 0 <= j < i ==> s[j].key != key
  {
    if s == [] || s[0].key == key then 0
    else
      var i := Find(s[1..], key);
      assert forall j :: 0 < j < |s| ==> s[j] == s[1..][j - 1];
      i + 1
  }

  predicate Has(s: Store, key: string) {
    exists i :: 0 <= i < |s| && s[i].key == key
  }

  function Without(s: Store, key: string): Store {
    var i := Find(s, key);
    if i < |s| then s[..i] + s[i + 1..] else s
  }

  // `store[key] = now; move_to_end(key)`
  function Stamped(s: Store, key: string, now: real): Store {
    Without(s, key) + [Entry(key, now)]
  }

  // `move_to_end(key)`: the stamp stays.
  function Moved(s: Store, key: string): Store
    requires Has(s, key)
  {
    Without(s, key) + [s[Find(s, key)]]
  }

  // What `evict` leaves: the entries from the first live stamp on.
  function Evicted(s: Store, deadline: real): Store {
    if s == [] || s[0].stamp >= deadline then s else Evicted(s[1..], deadline)
  }

  // ---- Calls, answers, runs -------------------------------------------------------------------

  datatype Call =
    | Add(key: string, at: real)
    | AddIfAbsent(key: string, at: real)
    | Contains(key: string, at: real)

  function After(s: Store, ttl: real, c: Call): Store {
    var live := Evicted(s, c.at - ttl);
    match c
    case Add(key, at) => Stamped(live, key, at)
    case AddIfAbsent(key, at) => if Has(live, key) then Moved(live, key) else Stamped(live, key, at)
    case Contains(key, at) => live
  }

  // The answer of `add_if_absent` (the key is new) and of `in` (the key is there).
  predicate Answer(s: Store, ttl: real, c: Call) {
    var live := Evicted(s, c.at - ttl);
    match c
    case Add(key, at) => true
    case AddIfAbsent(key, at) => !Has(live, key)
    case Contains(key, at) => Has(live, key)
  }

  // The store after a whole history of calls.
  function Run(calls: seq<Call>, ttl: real): Store {
    if calls == [] then [] else After(Run(calls[..|calls| - 1], ttl), ttl, calls[|calls| - 1])
  }

  // The answer the i-th call of the history got.
  predicate AnswerAt(calls: seq<Call>, ttl: real, i: nat)
    requires i < |calls|
  {
    Answer(Run(calls[..i], ttl), ttl, calls[i])
  }

  // The clock never goes back.
  ghost predicate Ordered(calls: seq<Call>) {
    forall i, j :: 0 <= i <= j < |calls| ==> calls[i].at <= calls[j].at
  }

  // ---- What the history says, without looking at the store ------------------------------------

  // When each key was last added or hit.
  function LastTouch(calls: seq<Call>): map<string, real> {
    if calls == [] then map[]
    else
      var c, before := calls[|calls| - 1], LastTouch(calls[..|calls| - 1]);
      if c.Contains? then before else before[c.key := c.at]
  }

  // Call i put a fresh stamp on its key: an `add`, or an `add_if_absent` answered "new".
  predicate Stamps(calls: seq<Call>, ttl: real, i: nat)
    requires i < |calls|
  {
    calls[i].Add? || (calls[i].AddIfAbsent? && AnswerAt(calls, ttl, i))
  }

  // When each key was last stamped.
  function LastStamp(calls: seq<Call>, ttl: real): map<string, real> {
    if calls == [] then map[]
    else
      var n := |calls| - 1;
      var before := LastStamp(calls[..n], ttl);
      if Stamps(calls, ttl, n) then before[calls[n].key := calls[n].at] else before
  }

  // ---- The invariant of every run -------------------------------------------------------------

  // Entries lie in the order they were last touched; a stamped key is missing only once it is
  // older than the ttl.
  ghost predicate Faithful(s: Store, touch: map<string, real>, stamp: map<string, real>, dead: real, now: real) {
    && DistinctKeys(s)
    && (forall i :: 0 <= i < |s| ==> s[i].key in touch && s[i].key in stamp)
    && (forall i :: 0 <= i < |s| ==> s[i].stamp == stamp[s[i].key] <= touch[s[i].key] <= now)
    && (forall i, j :: 0 <= i < j < |s| ==> touch[s[i].key] <= touch[s[j].key])
    && (forall k :: k in stamp && stamp[k] >= dead ==> Has(s, k))
  }

  lemma {:induction false} EvictedIsSuffix(s: Store, deadline: real) returns (cut: nat)
    ensures cut <= |s| && Evicted(s, deadline) == s[cut..]
    ensures forall i :: 0 <= i < cut ==> s[i].stamp < deadline
    ensures cut < |s| ==> s[cut].stamp >= deadline
  {
    if s == [] || s[0].stamp >= deadline {
      cut := 0;
    } else {
      var rest := EvictedIsSuffix(s[1..], deadline);
      cut := rest + 1;
      assert forall i :: 0 < i < cut ==> s[i] == s[1..][i - 1];
    }
  }

  // The exact survival condition, for every store: an entry outlives `evict` if and only if some
  // entry at or before its position still carries a live stamp.
  lemma SurvivesIffShielded(s: Store, deadline: real, i: nat)
    requires DistinctKeys(s) && i < |s|
    ensures Has(Evicted(s, deadline), s[i].key) <==> exists j :: 0 <= j <= i && s[j].stamp >= deadline
  {
    var cut := EvictedIsSuffix(s, deadline);
    if cut <= i {
      assert s[cut..][i - cut] == s[i];
    }
  }

  lemma EvictKeepsFaithful(s: Store, touch: map<string, real>, stamp: map<string, real>,
                           dead: real, now: real, deadline: real, later: real)
    requires Faithful(s, touch, stamp, dead, now) && dead <= deadline && now <= later
    ensures var live := Evicted(s, deadline);
      && Faithful(live, touch, stamp, deadline, later)
      && (forall i :: 0 <= i < |live| ==> touch[live[i].key] >= deadline)
  {
    var cut := EvictedIsSuffix(s, deadline);
    var live := s[cut..];
    assert forall i :: 0 <= i < |live| ==> live[i] == s[cut + i];
    forall k | k in stamp && stamp[k] >= deadline
      ensures Has(live, k)
    {
      var i :| 0 <= i < |s| && s[i].key == k;
      assert live[i - cut].key == k;
    }
  }

  // Deleting a key leaves the other entries in their order.
  lemma WithoutIsDeletion(s: Store, key: string) returns (at: nat)
    ensures at <= |s| && Without(s, key) == s[..at] + (if at < |s| then s[at + 1..] else [])
    ensures at < |s| ==> s[at].key == key
    ensures at == |s| ==> !Has(s, key)
  {
    at := Find(s, key);
    assert s[..|s|] == s;
  }

  lemma DeleteKeepsEntries(s: Store, key: string)
    requires DistinctKeys(s)
    ensures var t := Without(s, key);
      && (forall i :: 0 <= i < |t| ==> t[i] in s && t[i].key != key)
      && (forall k :: k != key && Has(s, k) ==> Has(t, k))
  {
    var at := WithoutIsDeletion(s, key);
    var t := s[..at] + (if at < |s| then s[at + 1..] else []);
    assert forall i :: 0 <= i < |t| ==> t[i] == s[if i < at then i else i + 1];
    forall k | k != key && Has(s, k)
      ensures Has(t, k)
    {
      var i :| 0 <= i < |s| && s[i].key == k;
      assert t[if i < at then i else i - 1].key == k;
    }
  }

  // Without its at-th entry a store keeps distinct keys and the order of its touches.
  lemma SkipKeepsDistinct(s: Store, at: nat)
    requires DistinctKeys(s) && at < |s|
    ensures DistinctKeys(s[..at] + s[at + 1..])
  {
    var t := s[..at] + s[at + 1..];
    assert forall i :: 0 <= i < |t| ==> t[i] == s[if i < at then i else i + 1];
  }

  lemma SkipKeepsOrder(s: Store, at: nat, touch: map<string, real>)
    requires at < |s| && TouchedInOrder(s, touch)
    ensures TouchedInOrder(s[..at] + s[at + 1..], touch)
  {
    var t := s[..at] + s[at + 1..];
    assert forall i :: 0 <= i < |t| ==> t[i] == s[if i < at then i else i + 1];
  }

  ghost predicate TouchedInOrder(s: Store, touch: map<string, real>) {
    && (forall i :: 0 <= i < |s| ==> s[i].key in touch)
    && (forall i, j :: 0 <= i < j < |s| ==> touch[s[i].key] <= touch[s[j].key])
  }

  lemma DeleteKeepsOrder(s: Store, key: string, touch: map<string, real>)
    requires DistinctKeys(s) && TouchedInOrder(s, touch)
    ensures DistinctKeys(Without(s, key)) && TouchedInOrder(Without(s, key), touch)
  {
    var at := Find(s, key);
    if at < |s| {
      SkipKeepsDistinct(s, at);
      SkipKeepsOrder(s, at, touch);
    }
    hide DistinctKeys, TouchedInOrder, Find;
  }

  lemma DeleteKeepsFaithful(s: Store, touch: map<string, real>, stamp: map<string, real>,
                            dead: real, now: real, key: string)
    requires Faithful(s, touch, stamp, dead, now)
    ensures var t := Without(s, key); !Has(t, key) && Faithful(t, touch, stamp - {key}, dead, now)
  {
    DeleteKeepsEntries(s, key);
    DeleteKeepsOrder(s, key, touch);
  }

  // A key appended last, with its new touch time and its current stamp, keeps the window faithful.
  lemma AppendKeepsFaithful(t: Store, touch: map<string, real>, stamp: map<string, real>,
                            dead: real, now: real, e: Entry)
    requires !Has(t, e.key) && Faithful(t, touch, stamp, dead, now) && e.stamp <= now
    ensures Faithful(t + [e], touch[e.key := now], stamp[e.key := e.stamp], dead, now)
  {
    AppendKeepsKeys(t, e);
    var r := t + [e];
    assert forall i :: 0 <= i < |t| ==> r[i] == t[i] && t[i].key != e.key;
    hide Has;
  }

  lemma AppendKeepsKeys(t: Store, e: Entry)
    ensures forall k :: Has(t + [e], k) <==> Has(t, k) || k == e.key
  {
    var r := t + [e];
    assert r[|t|].key == e.key;
    assert forall i :: 0 <= i < |t| ==> r[i] == t[i];
  }

  lemma StampKeepsFaithful(s: Store, touch: map<string, real>, stamp: map<string, real>,
                           dead: real, now: real, e: Entry)
    requires Faithful(s, touch, stamp, dead, now) && e.stamp <= now
    ensures Faithful(Without(s, e.key) + [e], touch[e.key := now], stamp[e.key := e.stamp], dead, now)
  {
    DeleteKeepsFaithful(s, touch, stamp, dead, now, e.key);
    AppendKeepsFaithful(Without(s, e.key), touch, stamp - {e.key}, dead, now, e);
    assert (stamp - {e.key})[e.key := e.stamp] == stamp[e.key := e.stamp];
  }

  lemma HitKeepsFaithful(s: Store, touch: map<string, real>, stamp: map<string, real>,
                         dead: real, now: real, key: string)
    requires Faithful(s, touch, stamp, dead, now) && Has(s, key)
    ensures Faithful(Moved(s, key), touch[key := now], stamp, dead, now)
  {
    var e := s[Find(s, key)];
    StampKeepsFaithful(s, touch, stamp, dead, now, e);
    assert stamp[e.key := e.stamp] == stamp;
  }

  // One call, from a faithful store to a faithful store.
  lemma CallKeepsFaithful(s: Store, touch: map<string, real>, stamp: map<string, real>,
                          dead: real, now: real, ttl: real, c: Call)
    requires Faithful(s, touch, stamp, dead, now) && now <= c.at && dead <= c.at - ttl
    ensures Faithful(After(s, ttl, c),
                     if c.Contains? then touch else touch[c.key := c.at],
                     if c.Add? || (c.AddIfAbsent? && Answer(s, ttl, c)) then stamp[c.key := c.at] else stamp,
                     c.at - ttl, c.at)
  {
    hide Faithful, Evicted, Without, Find, Has;
    var live := Evicted(s, c.at - ttl);
    EvictKeepsFaithful(s, touch, stamp, dead, now, c.at - ttl, c.at);
    if c.AddIfAbsent? && Has(live, c.key) {
      HitKeepsFaithful(live, touch, stamp, c.at - ttl, c.at, c.key);
    } else if !c.Contains? {
      StampKeepsFaithful(live, touch, stamp, c.at - ttl, c.at, Entry(c.key, c.at));
    }
  }

  lemma OrderedPrefix(calls: seq<Call>, n: nat)
    requires Ordered(calls) && n <= |calls|
    ensures Ordered(calls[..n])
  {
  }

  lemma AnswerOfPrefix(calls: seq<Call>, ttl: real, n: nat, i: nat)
    requires i < n <= |calls|
    ensures AnswerAt(calls[..n], ttl, i) == AnswerAt(calls, ttl, i)
  {
    assert calls[..n][..i] == calls[..i];
  }

  lemma NothingIsFaithful(dead: real, now: real)
    ensures Faithful([], map[], map[], dead, now)
  {
  }

  // The invariant, for every history on a clock that never goes back.
  lemma {:induction false} RunIsFaithful(calls: seq<Call>, ttl: real)
    requires Ordered(calls) && calls != []
    ensures var now := calls[|calls| - 1].at;
      Faithful(Run(calls, ttl), LastTouch(calls), LastStamp(calls, ttl), now - ttl, now)
  {
    hide Faithful, After, Evicted;
    var n := |calls| - 1;
    var before, c := calls[..n], calls[n];
    if n == 0 {
      NothingIsFaithful(c.at - ttl, c.at);
      CallKeepsFaithful([], map[], map[], c.at - ttl, c.at, ttl, c);
      assert Run(before, ttl) == [] && LastTouch(before) == map[] && LastStamp(before, ttl) == map[];
    } else {
      OrderedPrefix(calls, n);
      RunIsFaithful(before, ttl);
      CallKeepsFaithful(Run(before, ttl), LastTouch(before), LastStamp(before, ttl),
                        before[n - 1].at - ttl, before[n - 1].at, ttl, c);
    }
  }

  // ---- What the window remembers, against the history alone -----------------------------------

  lemma {:induction false} LastTouchIsWitnessed(calls: seq<Call>, key: string) returns (i: nat)
    requires key in LastTouch(calls)
    ensures i < |calls| && !calls[i].Contains? && calls[i].key == key && calls[i].at == LastTouch(calls)[key]
  {
    var n := |calls| - 1;
    if !calls[n].Contains? && calls[n].key == key {
      i := n;
    } else {
      i := LastTouchIsWitnessed(calls[..n], key);
    }
  }

  lemma {:induction false} LastStampIsLatest(calls: seq<Call>, ttl: real, i: nat)
    requires Ordered(calls) && i < |calls| && Stamps(calls, ttl, i)
    ensures calls[i].key in LastStamp(calls, ttl) && LastStamp(calls, ttl)[calls[i].key] >= calls[i].at
  {
    var n := |calls| - 1;
    if i < n {
      AnswerOfPrefix(calls, ttl, n, i);
      LastStampIsLatest(calls[..n], ttl, i);
    }
  }

  ghost predicate NotBefore(calls: seq<Call>, now: real) {
    forall i :: 0 <= i < |calls| ==> calls[i].at <= now
  }

  // Call i stamped `key` no longer than ttl before `now`.
  ghost predicate LiveStamp(calls: seq<Call>, ttl: real, now: real, key: string, i: int) {
    0 <= i < |calls| && Stamps(calls, ttl, i) && calls[i].key == key && calls[i].at >= now - ttl
  }

  // Call i added or hit `key` no longer than ttl before `now`.
  ghost predicate LiveTouch(calls: seq<Call>, ttl: real, now: real, key: string, i: int) {
    0 <= i < |calls| && !calls[i].Contains? && calls[i].key == key && calls[i].at >= now - ttl
  }

  lemma EmptyRun(ttl: real, deadline: real)
    ensures Run([], ttl) == [] && Evicted([], deadline) == []
  {
  }

  lemma EmptyHistory(ttl: real)
    ensures LastTouch([]) == map[] && LastStamp([], ttl) == map[]
  {
  }

  lemma FaithfulNow(calls: seq<Call>, ttl: real, now: real)
    requires Ordered(calls) && NotBefore(calls, now)
    ensures var live := Evicted(Run(calls, ttl), now - ttl);
      && Faithful(live, LastTouch(calls), LastStamp(calls, ttl), now - ttl, now)
      && (forall i :: 0 <= i < |live| ==> LastTouch(calls)[live[i].key] >= now - ttl)
  {
    hide Faithful, Run, LastTouch, LastStamp, Evicted;
    if calls == [] {
      EmptyRun(ttl, now - ttl);
      NothingIsFaithful(now - ttl, now);
      EmptyHistory(ttl);
    } else {
      RunIsFaithful(calls, ttl);
      var last := calls[|calls| - 1].at;
      EvictKeepsFaithful(Run(calls, ttl), LastTouch(calls), LastStamp(calls, ttl), last - ttl, last, now - ttl, now);
    }
  }

  // Bracketing from below, for every history: a key stamped within ttl is there.
  lemma LiveStampIsKept(calls: seq<Call>, ttl: real, now: real, key: string, i: int)
    requires Ordered(calls) && NotBefore(calls, now) && LiveStamp(calls, ttl, now, key, i)
    ensures Has(Evicted(Run(calls, ttl), now - ttl), key)
  {
    FaithfulNow(calls, ttl, now);
    LastStampIsLatest(calls, ttl, i);
  }

  // Bracketing from above, for every history: a key that is there was added or hit within ttl.
  lemma KeptKeyWasTouched(calls: seq<Call>, ttl: real, now: real, key: string)
    requires Ordered(calls) && NotBefore(calls, now) && Has(Evicted(Run(calls, ttl), now - ttl), key)
    ensures exists i :: LiveTouch(calls, ttl, now, key, i)
  {
    FaithfulNow(calls, ttl, now);
    var i := LastTouchIsWitnessed(calls, key);
    assert LiveTouch(calls, ttl, now, key, i);
  }

  // Two `add_if_absent` calls that both found the key new are more than ttl apart.
  lemma AcceptedKeysAreSpaced(calls: seq<Call>, ttl: real, i: nat, j: nat)
    requires Ordered(calls) && i < j < |calls|
    requires calls[i].AddIfAbsent? && calls[j].AddIfAbsent? && calls[i].key == calls[j].key
    requires AnswerAt(calls, ttl, i) && AnswerAt(calls, ttl, j)
    ensures calls[j].at - calls[i].at > ttl
  {
    var before, now := calls[..j], calls[j].at;
    OrderedPrefix(calls, j);
    AnswerOfPrefix(calls, ttl, j, i);
    if now - calls[i].at <= ttl {
      LiveStampIsKept(before, ttl, now, calls[j].key, i);
    }
  }

  // `add_if_absent` swallows a key only when the key was added or hit within the last ttl.
  lemma SwallowedKeyIsRecent(calls: seq<Call>, ttl: real, j: nat)
    requires Ordered(calls) && j < |calls| && calls[j].AddIfAbsent? && !AnswerAt(calls, ttl, j)
    ensures exists i :: LiveTouch(calls[..j], ttl, calls[j].at, calls[j].key, i)
  {
    OrderedPrefix(calls, j);
    KeptKeyWasTouched(calls[..j], ttl, calls[j].at, calls[j].key);
  }

  lemma RunStep(calls: seq<Call>, c: Call, ttl: real)
    ensures Run(calls + [c], ttl) == After(Run(calls, ttl), ttl, c)
  {
    assert (calls + [c])[..|calls|] == calls;
  }

  lemma OrderedStep(calls: seq<Call>, c: Call)
    requires Ordered(calls) && NotBefore(calls, c.at)
    ensures Ordered(calls + [c])
  {
  }

  lemma HitHidesOlderStamp(a: string, b: string)
    requires a != b
    ensures After([], 10.0, AddIfAbsent(a, 0.0)) == [Entry(a, 0.0)]
    ensures After([Entry(a, 0.0)], 10.0, AddIfAbsent(b, 8.0)) == [Entry(a, 0.0), Entry(b, 8.0)]
    ensures After([Entry(a, 0.0), Entry(b, 8.0)], 10.0, AddIfAbsent(a, 9.0)) == [Entry(b, 8.0), Entry(a, 0.0)]
    ensures Evicted([Entry(b, 8.0), Entry(a, 0.0)], 2.0) == [Entry(b, 8.0), Entry(a, 0.0)]
  {
    var s1, s2 := [Entry(a, 0.0)], [Entry(a, 0.0), Entry(b, 8.0)];
    assert s2[0].key == a && Has(s2, a) && !Has(s1, b);
    assert Without(s2, a) == s2[..0] + s2[1..] && Without(s1, b) == s1;
  }

  // The upper end of the bracket cannot be tightened to the stamp: b was stamped at 8, so the hit
  // at 9 hides a, stamped at 0, behind it, and at 12 a is still taken for a duplicate (ttl 10).
  lemma StampMayOutliveTtl(a: string, b: string)
    requires a != b
    ensures var calls := [AddIfAbsent(a, 0.0), AddIfAbsent(b, 8.0), AddIfAbsent(a, 9.0)];
      && Stamps(calls, 10.0, 0) && !AnswerAt(calls, 10.0, 2)
      && Has(Evicted(Run(calls, 10.0), 12.0 - 10.0), a)
  {
    hide After, Evicted, Find;
    HitHidesOlderStamp(a, b);
    var calls := [AddIfAbsent(a, 0.0), AddIfAbsent(b, 8.0), AddIfAbsent(a, 9.0)];
    assert Run([], 10.0) == [] && calls[..0] == [];
    assert calls[..1] == [] + [calls[0]] && calls[..2] == calls[..1] + [calls[1]] && calls == calls[..2] + [calls[2]];
    RunStep([], calls[0], 10.0);
    RunStep(calls[..1], calls[1], 10.0);
    RunStep(calls[..2], calls[2], 10.0);
    assert [Entry(b, 8.0), Entry(a, 0.0)][1].key == a && [Entry(a, 0.0), Entry(b, 8.0)][0].key == a;
    NothingEvicted(a, b);
  }

  lemma NothingEvicted(a: string, b: string)
    ensures Evicted([], -10.0) == [] && Evicted([Entry(a, 0.0), Entry(b, 8.0)], -1.0) == [Entry(a, 0.0), Entry(b, 8.0)]
  {
  }

  // A window filled by `add` alone is exact: a key is there if and only if it was added within ttl.
  lemma AddOnlyWindowIsExact(calls: seq<Call>, ttl: real, now: real, key: string)
    requires Ordered(calls) && NotBefore(calls, now)
    requires forall i :: 0 <= i < |calls| ==> !calls[i].AddIfAbsent?
    ensures Has(Evicted(Run(calls, ttl), now - ttl), key) <==>
            exists c :: c in calls && c.Add? && c.key == key && c.at >= now - ttl
  {
    if c :| c in calls && c.Add? && c.key == key && c.at >= now - ttl {
      var i :| 0 <= i < |calls| && calls[i] == c;
      LiveStampIsKept(calls, ttl, now, key, i);
    }
    if Has(Evicted(Run(calls, ttl), now - ttl), key) {
      KeptKeyWasTouched(calls, ttl, now, key);
      var i :| LiveTouch(calls, ttl, now, key, i);
      assert calls[i] in calls && calls[i].Add?;
    }
  }

  // ---- The mutable window ---------------------------------------------------------------------

  class TtlWindow {
    const ttl: real
    var store: Store
    ghost var history: seq<Call>  // every call so far

    ghost predicate Valid()
      reads this
    {
      store == Run(history, ttl) && Ordered(history)
    }

    constructor (ttlSeconds: real)
      ensures Valid() && ttl == ttlSeconds && history == []
    {
      ttl, store, history := ttlSeconds, [], [];
    }

    method Evict(now: real)
      modifies this`store
      ensures store == Evicted(old(store), now - ttl)
    {
      var deadline := now - ttl;
      while store != []
        invariant Evicted(store, deadline) == Evicted(old(store), deadline)
        decreases |store|
      {
        if store[0].stamp >= deadline {
          break;
        }
        store := store[1..];
      }
    }

    method Add(key: string, now: real)
      requires Valid() && NotBefore(history, now)
      modifies this
      ensures Valid() && history == old(history) + [Call.Add(key, now)]
    {
      hide Run, Evicted, Ordered, NotBefore, Find, Without, Has;
      Evict(now);
      store := Stamped(store, key, now);
      RunStep(history, Call.Add(key, now), ttl);
      OrderedStep(history, Call.Add(key, now));
      history := history + [Call.Add(key, now)];
    }

    method AddIfAbsent(key: string, now: real) returns (isNew: bool)
      requires Valid() && NotBefore(history, now)
      modifies this
      ensures Valid() && history == old(history) + [Call.AddIfAbsent(key, now)]
      ensures isNew == Answer(Run(old(history), ttl), ttl, Call.AddIfAbsent(key, now))
    {
      hide Run, Evicted, Ordered, NotBefore, Find, Without, Has;
      Evict(now);
      isNew := !Has(store, key);
      store := if isNew then Stamped(store, key, now) else Moved(store, key);
      RunStep(history, Call.AddIfAbsent(key, now), ttl);
      OrderedStep(history, Call.AddIfAbsent(key, now));
      history := history + [Call.AddIfAbsent(key, now)];
    }

    method Contains(key: string, now: real) returns (present: bool)
      requires Valid() && NotBefore(history, now)
      modifies this
      ensures Valid() && history == old(history) + [Call.Contains(key, now)]
      ensures present == Answer(Run(old(history), ttl), ttl, Call.Contains(key, now))
    {
      hide Run, Evicted, Ordered, NotBefore, Find, Without, Has;
      Evict(now);
      present := Has(store, key);
      RunStep(history, Call.Contains(key, now), ttl);
      OrderedStep(history, Call.Contains(key, now));
      history := history + [Call.Contains(key, now)];
    }
  }
}
