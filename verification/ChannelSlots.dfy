/**
 * The device channel-slot allocator and the RX routing that relies on it
 * (lora_bridge/transports/meshcore/mappers: channel_util.py, public.py, private.py, handler.py;
 * the start loop of lora_bridge/transports/meshcore/transport.py).
 *
 * A slot stores a channel name and the hash of its key; a written slot reads back as written. Which
 * device commands fail is arbitrary. The hash of a configured channel stands for
 * `expected_channel_hash`: SHA-256 itself is not part of this model. It is one byte of the key's digest,
 * so equal hashes do not mean equal keys.
 */
module ChannelSlots {
  import opened Domain

  datatype Slot = Slot(name: string, hash: string)

  // What the device does to one `resolve`: readable is the number of slots that can be read, up to
  // `max_channels` or the first `get_channel` that fails.
  datatype Fault = Fault(queryFails: bool, readable: nat, writeFails: bool)

  datatype Kind = Exact | Mismatched | Empty | Foreign

  predicate Is(kind: Kind, slot: Slot, want: Slot, ours: set<string>) {
    match kind
    case Exact => slot == want
    case Mismatched => slot.name == want.name && slot.hash != want.hash
    case Empty => slot.name != want.name && slot.name == ""
    case Foreign => slot.name != want.name && slot.name != "" && slot.name !in ours
  }

  // ---- What the scan chooses ------------------------------------------------------------------

  // The first slot of a kind, or |s|.
  function First(s: seq<Slot>, kind: Kind, want: Slot, ours: set<string>): (i: nat)
    ensures i <= |s| && (i < |s| ==> Is(kind, s[i], want, ours))
    ensures forall j :: 0 <= j < i ==> !Is(kind, s[j], want, ours)
  {
    if s == [] || Is(kind, s[0], want, ours) then 0
    else
      var i := First(s[1..], kind, want, ours);
      assert forall j :: 0 < j < |s| ==> s[j] == s[1..][j - 1];
      i + 1
  }

  // One past the last slot of a kind, or 0.
  function AfterLast(s: seq<Slot>, kind: Kind, want: Slot, ours: set<string>): (i: nat)
    ensures i <= |s| && (i > 0 ==> Is(kind, s[i - 1], want, ours))
    ensures forall j :: i <= j < |s| ==> !Is(kind, s[j], want, ours)
  {
    if s == [] || Is(kind, s[|s| - 1], want, ours) then |s|
    else
      var i := AfterLast(s[..|s| - 1], kind, want, ours);
      assert forall j :: 0 <= j < |s| - 1 ==> s[j] == s[..|s| - 1][j];
      i
  }

  datatype Choice = Use(at: nat) | Write(at: nat) | NoSlot

  // A slot that is right already, else the LAST one with our name and another hash, else the first
  // empty one, else, when eviction is on, the first foreign one.
  function Choose(seen: seq<Slot>, want: Slot, ours: set<string>, evict: bool): Choice {
    var exact, empty, foreign :=
      First(seen, Exact, want, ours), First(seen, Empty, want, ours), First(seen, Foreign, want, ours);
    var mismatched := AfterLast(seen, Mismatched, want, ours);
    if exact < |seen| then Use(exact)
    else if mismatched > 0 then Write(mismatched - 1)
    else if empty < |seen| then Write(empty)
    else if evict && foreign < |seen| then Write(foreign)
    else NoSlot
  }

  function Seen(slots: seq<Slot>, f: Fault): seq<Slot> {
    if f.readable < |slots| then slots[..f.readable] else slots
  }

  function Resolve(slots: seq<Slot>, want: Slot, ours: set<string>, evict: bool, f: Fault): (seq<Slot>, Option<nat>) {
    if f.queryFails then (slots, None)
    else
      match Choose(Seen(slots, f), want, ours, evict)
      case Use(i) => (slots, Some(i))
      case Write(i) => if f.writeFails then (slots, None) else (slots[i := want], Some(i))
      case NoSlot => (slots, None)
  }

  // A resolve finds no slot exactly when every readable slot is taken by something it must keep.
  lemma {:induction false} NoSlotIff(seen: seq<Slot>, want: Slot, ours: set<string>, evict: bool)
    ensures Choose(seen, want, ours, evict).NoSlot? <==>
      forall i :: 0 <= i < |seen| ==>
        seen[i].name != want.name && seen[i].name != "" && (seen[i].name in ours || !evict)
  {
    forall i | 0 <= i < |seen| && Choose(seen, want, ours, evict).NoSlot?
      ensures seen[i].name != want.name && seen[i].name != "" && (seen[i].name in ours || !evict)
    {
      assert !Is(Exact, seen[i], want, ours) && !Is(Mismatched, seen[i], want, ours);
      assert !Is(Empty, seen[i], want, ours);
      if evict {
        assert !Is(Foreign, seen[i], want, ours);
      }
    }
  }

  lemma ChoiceIsSafe(seen: seq<Slot>, want: Slot, ours: set<string>, evict: bool)
    ensures var c := Choose(seen, want, ours, evict);
      && (c.Use? ==> c.at < |seen| && seen[c.at] == want)
      && (c.Write? ==> c.at < |seen|)
      && (c.Write? ==> seen[c.at].name == want.name || seen[c.at].name == "" || seen[c.at].name !in ours)
      && (c.Use? ==> forall j :: 0 <= j < c.at ==> seen[j] != want)
      && (c.Write? ==> forall j :: 0 <= j < |seen| ==> seen[j] != want)
  {
    var exact := First(seen, Exact, want, ours);
    assert forall j :: 0 <= j < exact ==> !Is(Exact, seen[j], want, ours);
  }

  // ---- One resolve ----------------------------------------------------------------------------

  // It never overwrites another configured channel, whatever fails.
  lemma {:induction false} ResolveKeepsOurs(slots: seq<Slot>, want: Slot, ours: set<string>, evict: bool, f: Fault)
    requires "" !in ours
    ensures var s := Resolve(slots, want, ours, evict, f).0;
      && |s| == |slots|
      && forall i :: 0 <= i < |slots| && slots[i].name in ours && slots[i].name != want.name ==> s[i] == slots[i]
  {
    ChoiceIsSafe(Seen(slots, f), want, ours, evict);
  }

  // It writes one slot at most, and only with the wanted channel.
  lemma ResolveWritesOnlyWanted(slots: seq<Slot>, want: Slot, ours: set<string>, evict: bool, f: Fault)
    ensures var (s, got) := Resolve(slots, want, ours, evict, f);
      |s| == |slots| && forall i :: 0 <= i < |slots| ==> s[i] == slots[i] || (s[i] == want && got == Some(i))
  {
    ChoiceIsSafe(Seen(slots, f), want, ours, evict);
  }

  // The slot it answers is the first one that holds the wanted channel with the expected hash.
  ghost predicate FirstHolds(s: seq<Slot>, i: nat, want: Slot) {
    i < |s| && s[i] == want && forall j :: 0 <= j < i ==> s[j] != want
  }

  lemma {:induction false} ResolveOwns(slots: seq<Slot>, want: Slot, ours: set<string>, evict: bool, f: Fault)
    ensures var (s, got) := Resolve(slots, want, ours, evict, f);
      got.Some? ==> FirstHolds(s, got.value, want)
  {
    ChoiceIsSafe(Seen(slots, f), want, ours, evict);
    assert forall j :: 0 <= j < |Seen(slots, f)| ==> Seen(slots, f)[j] == slots[j];
  }

  lemma {:induction false} SettledResolve(slots: seq<Slot>, want: Slot, ours: set<string>, evict: bool,
                                         f: Fault, i: nat)
    requires FirstHolds(slots, i, want) && !f.queryFails && f.readable >= |slots|
    ensures Resolve(slots, want, ours, evict, f) == (slots, Some(i))
  {
    var exact := First(slots, Exact, want, ours);
    assert Is(Exact, slots[i], want, ours);
    assert exact == i;
  }

  // ---- The start loop -------------------------------------------------------------------------

  function Names(wants: seq<Slot>): set<string> {
    set i | 0 <= i < |wants| :: wants[i].name
  }

  // got: the slots of the handlers resolved so far.
  datatype Booting = Booting(slots: seq<Slot>, got: seq<nat>, failed: bool)

  // One turn of the start loop; a resolve that raises ends the start.
  function Next(b: Booting, want: Slot, ours: set<string>, evict: bool, f: Fault): Booting {
    if b.failed then b
    else
      var (s, got) := Resolve(b.slots, want, ours, evict, f);
      if got.Some? then Booting(s, b.got + [got.value], false) else Booting(s, b.got, true)
  }

  // After the first k handlers.
  function Start(slots: seq<Slot>, wants: seq<Slot>, evict: bool, faults: seq<Fault>, k: nat): Booting
    requires k <= |wants| == |faults|
  {
    if k == 0 then Booting(slots, [], false)
    else Next(Start(slots, wants, evict, faults, k - 1), wants[k - 1], Names(wants), evict, faults[k - 1])
  }

  ghost predicate ProperNames(wants: seq<Slot>) {
    && (forall i, j :: 0 <= i < j < |wants| ==> wants[i].name != wants[j].name)
    && (forall i :: 0 <= i < |wants| ==> wants[i].name != "")
  }

  lemma NamesHold(wants: seq<Slot>)
    requires ProperNames(wants)
    ensures "" !in Names(wants)
    ensures forall i :: 0 <= i < |wants| ==> wants[i].name in Names(wants)
  {
  }

  // A slot that holds a channel first keeps doing so while others resolve.
  lemma {:induction false} OthersLeaveItAlone(slots: seq<Slot>, want: Slot, ours: set<string>, evict: bool, f: Fault,
                                              mine: Slot, i: nat)
    requires "" !in ours && mine.name in ours && mine.name != want.name && FirstHolds(slots, i, mine)
    ensures FirstHolds(Resolve(slots, want, ours, evict, f).0, i, mine)
  {
    ResolveKeepsOurs(slots, want, ours, evict, f);
    ResolveWritesOnlyWanted(slots, want, ours, evict, f);
  }

  lemma {:induction false} ResolvedSoFarOwn(slots: seq<Slot>, wants: seq<Slot>, evict: bool, faults: seq<Fault>, k: nat)
    requires k <= |wants| == |faults| && ProperNames(wants)
    ensures var b := Start(slots, wants, evict, faults, k);
      && |b.slots| == |slots| && |b.got| <= k && (!b.failed ==> |b.got| == k)
      && forall j :: 0 <= j < |b.got| ==> FirstHolds(b.slots, b.got[j], wants[j])
  {
    hide Resolve, Names, FirstHolds;
    if k > 0 {
      ResolvedSoFarOwn(slots, wants, evict, faults, k - 1);
      var b := Start(slots, wants, evict, faults, k - 1);
      var want, ours, f := wants[k - 1], Names(wants), faults[k - 1];
      if !b.failed {
        NamesHold(wants);
        ResolveOwns(b.slots, want, ours, evict, f);
        ResolveKeepsOurs(b.slots, want, ours, evict, f);
        forall j | 0 <= j < |b.got|
          ensures FirstHolds(Resolve(b.slots, want, ours, evict, f).0, b.got[j], wants[j])
        {
          OthersLeaveItAlone(b.slots, want, ours, evict, f, wants[j], b.got[j]);
        }
      }
    }
  }

  // After the start loop every channel endpoint holds a slot of its own, with the right name and
  // the expected hash.
  lemma EveryChannelOwnsItsSlot(slots: seq<Slot>, wants: seq<Slot>, evict: bool, faults: seq<Fault>)
    requires |wants| == |faults| && ProperNames(wants)
    requires !Start(slots, wants, evict, faults, |wants|).failed
    ensures var b := Start(slots, wants, evict, faults, |wants|);
      && |b.got| == |wants| && Distinct(b.got)
      && forall i :: 0 <= i < |wants| ==> b.got[i] < |b.slots| && b.slots[b.got[i]] == wants[i]
  {
    ResolvedSoFarOwn(slots, wants, evict, faults, |wants|);
    var b := Start(slots, wants, evict, faults, |wants|);
    forall i, j | 0 <= i < j < |wants|
      ensures b.got[i] != b.got[j]
    {
      assert FirstHolds(b.slots, b.got[i], wants[i]) && FirstHolds(b.slots, b.got[j], wants[j]);
    }
  }

  // Even a start that fails half-way leaves every slot of a configured channel to that channel: it
  // is as before, or rewritten with that channel's own name and hash.
  lemma {:induction false} NothingOfOursIsOverwritten(slots: seq<Slot>, wants: seq<Slot>, evict: bool,
                                                      faults: seq<Fault>, k: nat, i: nat)
    requires k <= |wants| == |faults| && ProperNames(wants)
    requires i < |slots| && slots[i].name in Names(wants)
    ensures var b := Start(slots, wants, evict, faults, k);
      && |b.slots| == |slots|
      && b.slots[i].name == slots[i].name
      && (b.slots[i] == slots[i] || exists j :: 0 <= j < k && b.slots[i] == wants[j])
  {
    hide Resolve, Names;
    if k > 0 {
      NothingOfOursIsOverwritten(slots, wants, evict, faults, k - 1, i);
      var b := Start(slots, wants, evict, faults, k - 1);
      if !b.failed {
        NamesHold(wants);
        ResolveKeepsOurs(b.slots, wants[k - 1], Names(wants), evict, faults[k - 1]);
        ResolveWritesOnlyWanted(b.slots, wants[k - 1], Names(wants), evict, faults[k - 1]);
      }
    }
  }

  // Both hypotheses on the names are needed. Two endpoints that share a channel name: the second
  // takes the slot of the first.
  lemma SharedNameStealsTheSlot(ok: Fault)
    requires ok == Fault(false, 8, false)
    ensures var b := Start([Slot("", "")], [Slot("ops", "aa"), Slot("ops", "bb")], false, [ok, ok], 2);
      !b.failed && b.got == [0, 0] && b.slots == [Slot("ops", "bb")]
  {
    var wants, free := [Slot("ops", "aa"), Slot("ops", "bb")], [Slot("", "")];
    var first := [Slot("ops", "aa")];
    ChoiceIsSafe(free, wants[0], Names(wants), false);
    NoSlotIff(free, wants[0], Names(wants), false);
    assert Start(free, wants, false, [ok, ok], 1) == Booting(first, [0], false) by {
      assert Start(free, wants, false, [ok, ok], 0) == Booting(free, [], false);
    }
    ChoiceIsSafe(first, wants[1], Names(wants), false);
    NoSlotIff(first, wants[1], Names(wants), false);
  }

  // An endpoint whose channel name is empty takes an empty slot for its own and leaves it empty.
  lemma EmptyNameLosesTheSlot(ok: Fault)
    requires ok == Fault(false, 8, false)
    ensures var b := Start([Slot("", "")], [Slot("", "aa"), Slot("ops", "bb")], false, [ok, ok], 2);
      !b.failed && b.got == [0, 0] && b.slots == [Slot("ops", "bb")]
  {
    var wants, free := [Slot("", "aa"), Slot("ops", "bb")], [Slot("", "")];
    var first := [Slot("", "aa")];
    ChoiceIsSafe(free, wants[0], Names(wants), false);
    NoSlotIff(free, wants[0], Names(wants), false);
    assert Start(free, wants, false, [ok, ok], 1) == Booting(first, [0], false) by {
      assert Start(free, wants, false, [ok, ok], 0) == Booting(free, [], false);
    }
    ChoiceIsSafe(first, wants[1], Names(wants), false);
    NoSlotIff(first, wants[1], Names(wants), false);
  }

  // ---- Success and stability ------------------------------------------------------------------

  predicate Healthy(f: Fault, size: nat) {
    !f.queryFails && f.readable >= size && !f.writeFails
  }

  // Each configured name is in at most one slot.
  ghost predicate NoCopies(slots: seq<Slot>, ours: set<string>) {
    forall i, j :: 0 <= i < j < |slots| && slots[i].name in ours ==> slots[i].name != slots[j].name
  }

  lemma {:induction false} Pigeonhole(names: seq<string>, among: set<string>)
    requires Distinct(names) && forall i :: 0 <= i < |names| ==> names[i] in among
    ensures |names| <= |among|
  {
    if names != [] {
      var n := |names| - 1;
      assert names[n] in among;
      Pigeonhole(names[..n], among - {names[n]});
    }
  }

  lemma {:induction false} ResolveKeepsNoCopies(slots: seq<Slot>, want: Slot, ours: set<string>, evict: bool, f: Fault)
    requires NoCopies(slots, ours) && f.readable >= |slots|
    ensures NoCopies(Resolve(slots, want, ours, evict, f).0, ours)
  {
    hide First, AfterLast;
    if !f.queryFails && !f.writeFails && Choose(slots, want, ours, evict).Write? {
      var at := Choose(slots, want, ours, evict).at;
      ChoiceIsSafe(slots, want, ours, evict);
      if slots[at].name != want.name {
        forall j | 0 <= j < |slots|
          ensures slots[j].name != want.name
        {
          assert !Is(Exact, slots[j], want, ours) && !Is(Mismatched, slots[j], want, ours);
        }
      }
    }
  }

  // A resolve on a healthy device finds a slot when there are as many slots as configured names.
  lemma ResolveSucceeds(slots: seq<Slot>, want: Slot, ours: set<string>, f: Fault)
    requires NoCopies(slots, ours) && want.name in ours && |slots| >= |ours| && Healthy(f, |slots|)
    ensures Resolve(slots, want, ours, true, f).1.Some?
  {
    NoSlotIff(slots, want, ours, true);
    if Choose(slots, want, ours, true).NoSlot? {
      var names := seq(|slots|, i requires 0 <= i < |slots| => slots[i].name);
      Pigeonhole(names, ours - {want.name});
      assert false;
    }
  }

  lemma {:induction false} StartsSoFar(slots: seq<Slot>, wants: seq<Slot>, faults: seq<Fault>, k: nat)
    requires k <= |wants| == |faults| && ProperNames(wants) && NoCopies(slots, Names(wants))
      && |slots| >= |Names(wants)|
    requires forall i :: 0 <= i < |faults| ==> Healthy(faults[i], |slots|)
    ensures var b := Start(slots, wants, true, faults, k);
      !b.failed && |b.slots| == |slots| && NoCopies(b.slots, Names(wants))
  {
    hide Resolve, Names, NoCopies;
    if k > 0 {
      StartsSoFar(slots, wants, faults, k - 1);
      var b := Start(slots, wants, true, faults, k - 1);
      NamesHold(wants);
      ResolveSucceeds(b.slots, wants[k - 1], Names(wants), faults[k - 1]);
      ResolveKeepsNoCopies(b.slots, wants[k - 1], Names(wants), true, faults[k - 1]);
      ResolveWritesOnlyWanted(b.slots, wants[k - 1], Names(wants), true, faults[k - 1]);
    }
  }

  lemma NamesAreAsManyAsWants(wants: seq<Slot>)
    ensures |Names(wants)| <= |wants|
    decreases |wants|
  {
    if wants != [] {
      var n := |wants| - 1;
      NamesAreAsManyAsWants(wants[..n]);
      assert Names(wants) == Names(wants[..n]) + {wants[n].name} by {
        assert forall i :: 0 <= i < n ==> wants[..n][i] == wants[i];
      }
    }
  }

  // With eviction on, a healthy device and as many slots as endpoints, the start always succeeds.
  lemma {:induction false} StartSucceeds(slots: seq<Slot>, wants: seq<Slot>, faults: seq<Fault>)
    requires |wants| == |faults| && ProperNames(wants) && |slots| >= |wants|
    requires NoCopies(slots, Names(wants))
    requires forall i :: 0 <= i < |faults| ==> Healthy(faults[i], |slots|)
    ensures !Start(slots, wants, true, faults, |wants|).failed
  {
    NamesAreAsManyAsWants(wants);
    StartsSoFar(slots, wants, faults, |wants|);
  }

  // A full pass after a reconnect answers the same slots and writes nothing, whatever failed to
  // read or write in the first one.
  lemma SecondPassIsStable(slots: seq<Slot>, wants: seq<Slot>, evict: bool, faults: seq<Fault>, evict': bool,
                           faults': seq<Fault>)
    requires |wants| == |faults| == |faults'| && ProperNames(wants)
    requires !Start(slots, wants, evict, faults, |wants|).failed
    requires forall i :: 0 <= i < |faults'| ==> !faults'[i].queryFails && faults'[i].readable >= |slots|
    ensures var b := Start(slots, wants, evict, faults, |wants|);
      Start(b.slots, wants, evict', faults', |wants|) == b
  {
    var b := Start(slots, wants, evict, faults, |wants|);
    ResolvedSoFarOwn(slots, wants, evict, faults, |wants|);
    SecondPassSoFar(b, wants, evict', faults', |wants|);
    assert b.got[..|wants|] == b.got;
  }

  lemma {:induction false} SecondPassSoFar(b: Booting, wants: seq<Slot>, evict: bool, faults: seq<Fault>, k: nat)
    requires k <= |wants| == |faults| == |b.got|
    requires forall i :: 0 <= i < |wants| ==> FirstHolds(b.slots, b.got[i], wants[i])
    requires forall i :: 0 <= i < |faults| ==> !faults[i].queryFails && faults[i].readable >= |b.slots|
    ensures Start(b.slots, wants, evict, faults, k) == Booting(b.slots, b.got[..k], false)
  {
    hide Resolve, Names, FirstHolds;
    if k > 0 {
      SecondPassSoFar(b, wants, evict, faults, k - 1);
      SettledResolve(b.slots, wants[k - 1], Names(wants), evict, faults[k - 1], b.got[k - 1]);
      assert b.got[..k] == b.got[..k - 1] + [b.got[k - 1]];
    }
  }

  // ---- RX routing -----------------------------------------------------------------------------

  // A channel endpoint as `route_rx` sees it; room servers listen to another event type.
  datatype Endpoint = Endpoint(name: string, index: Option<nat>)

  // `try_rx` of both channel handlers: an event without `channel_idx` counts as -1.
  predicate Takes(h: Endpoint, channelIdx: Option<int>) {
    var got := if channelIdx.Some? then channelIdx.value else -1;
    h.index.Some? && got == h.index.value
  }

  // The endpoint whose handler makes the message: the first that recognises the event.
  function RouteRx(handlers: seq<Endpoint>, channelIdx: Option<int>): Option<Endpoint> {
    if handlers == [] then None
    else if Takes(handlers[0], channelIdx) then Some(handlers[0])
    else RouteRx(handlers[1..], channelIdx)
  }

  // When no two handlers share a slot, the answer does not depend on their order: it is the one
  // that holds the slot, or nobody.
  lemma {:induction false} RoutedToTheOwner(handlers: seq<Endpoint>, channelIdx: Option<int>, h: Endpoint)
    requires forall i, j :: 0 <= i < j < |handlers| && handlers[i].index.Some? ==>
      handlers[i].index != handlers[j].index
    ensures RouteRx(handlers, channelIdx) == Some(h) <==> h in handlers && Takes(h, channelIdx)
  {
    if handlers != [] {
      RoutedToTheOwner(handlers[1..], channelIdx, h);
      assert handlers == [handlers[0]] + handlers[1..];
    }
  }

  // The endpoints after a start, in the order they were resolved.
  function Started(names: seq<string>, b: Booting): seq<Endpoint>
    requires |names| == |b.got|
  {
    seq(|names|, i requires 0 <= i < |names| => Endpoint(names[i], Some(b.got[i])))
  }

  // So an event on slot idx goes to the one endpoint whose channel is in that slot, in whatever
  // order the handlers are asked.
  lemma EventGoesToItsChannel(slots: seq<Slot>, wants: seq<Slot>, names: seq<string>, evict: bool, faults: seq<Fault>,
                              asked: seq<Endpoint>, idx: int, i: nat)
    requires |wants| == |faults| == |names| && ProperNames(wants)
    requires !Start(slots, wants, evict, faults, |wants|).failed
    requires |Start(slots, wants, evict, faults, |wants|).got| == |names|
    requires multiset(asked) == multiset(Started(names, Start(slots, wants, evict, faults, |wants|)))
    requires i < |wants|
    ensures var b := Start(slots, wants, evict, faults, |wants|);
      && (idx == b.got[i] ==> RouteRx(asked, Some(idx)) == Some(Endpoint(names[i], Some(b.got[i]))))
      && (RouteRx(asked, Some(idx)).Some? ==> 0 <= idx < |b.slots| && b.slots[idx].name in Names(wants))
      && RouteRx(asked, None) == None
  {
    var b := Start(slots, wants, evict, faults, |wants|);
    var started := Started(names, b);
    EveryChannelOwnsItsSlot(slots, wants, evict, faults);
    SameElements(asked, started);
    SharedSlotsMove(asked, started);
    RoutedToTheOwner(asked, Some(idx), started[i]);
    if RouteRx(asked, Some(idx)).Some? {
      var h := RouteRx(asked, Some(idx)).value;
      RoutedToTheOwner(asked, Some(idx), h);
      var j :| 0 <= j < |started| && started[j] == h;
      assert b.slots[b.got[j]] == wants[j];
    }
    if RouteRx(asked, None).Some? {
      RoutedToTheOwner(asked, None, RouteRx(asked, None).value);
      assert false;
    }
  }

  lemma SameElements(a: seq<Endpoint>, b: seq<Endpoint>)
    requires multiset(a) == multiset(b)
    ensures forall h :: h in a <==> h in b
  {
    forall h
      ensures h in a <==> h in b
    {
      assert h in multiset(a) <==> h in multiset(b);
    }
  }

  // Reordering distinct slots keeps them distinct.
  lemma SharedSlotsMove(a: seq<Endpoint>, b: seq<Endpoint>)
    requires multiset(a) == multiset(b)
    requires forall i, j :: 0 <= i < j < |b| ==> b[i].index != b[j].index
    ensures forall i, j :: 0 <= i < j < |a| ==> a[i].index != a[j].index
  {
    forall i, j | 0 <= i < j < |a|
      ensures a[i].index != a[j].index
    {
      if a[i].index == a[j].index {
        SameElements(a, b);
        assert a[i] in b && a[j] in b;
        var k :| 0 <= k < |b| && b[k] == a[i];
        var m :| 0 <= m < |b| && b[m] == a[j];
        assert k == m;
        TwiceInSeq(a, i, j);
        OnceInSeq(b, k);
        assert false;
      }
    }
  }

  lemma TwiceInSeq(a: seq<Endpoint>, i: nat, j: nat)
    requires i < j < |a| && a[i] == a[j]
    ensures multiset(a)[a[i]] >= 2
  {
    assert a == a[..j] + [a[j]] + a[j + 1..];
    assert a[i] in a[..j];
  }

  lemma OnceInSeq(b: seq<Endpoint>, k: nat)
    requires k < |b| && forall i, j :: 0 <= i < j < |b| ==> b[i].index != b[j].index
    ensures multiset(b)[b[k]] == 1
  {
    assert b == b[..k] + [b[k]] + b[k + 1..];
    assert b[k] !in b[..k] && b[k] !in b[k + 1..];
  }

  // ---- The mutable objects --------------------------------------------------------------------

  // What the scan has noted of one kind after n slots: the first or the last of them.
  ghost predicate NotedFirst(seen: seq<Slot>, kind: Kind, want: Slot, ours: set<string>, n: nat, at: Option<nat>) {
    && n <= |seen|
    && (at.None? ==> forall j :: 0 <= j < n ==> !Is(kind, seen[j], want, ours))
    && (at.Some? ==> at.value < n && First(seen, kind, want, ours) == at.value)
  }

  ghost predicate NotedLast(seen: seq<Slot>, kind: Kind, want: Slot, ours: set<string>, n: nat, at: Option<nat>) {
    && n <= |seen|
    && (at.None? ==> forall j :: 0 <= j < n ==> !Is(kind, seen[j], want, ours))
    && (at.Some? ==> at.value < n && Is(kind, seen[at.value], want, ours))
    && (at.Some? ==> forall j :: at.value < j < n ==> !Is(kind, seen[j], want, ours))
  }

  lemma NoteOne(seen: seq<Slot>, kind: Kind, want: Slot, ours: set<string>, n: nat, at: Option<nat>)
    requires n < |seen| && NotedFirst(seen, kind, want, ours, n, at)
    ensures NotedFirst(seen, kind, want, ours, n + 1, if at.None? && Is(kind, seen[n], want, ours) then Some(n) else at)
  {
  }

  lemma NoteLatest(seen: seq<Slot>, want: Slot, ours: set<string>, n: nat, at: Option<nat>)
    requires n < |seen| && NotedLast(seen, Mismatched, want, ours, n, at)
    ensures NotedLast(seen, Mismatched, want, ours, n + 1, if Is(Mismatched, seen[n], want, ours) then Some(n) else at)
  {
  }

  // When the scan has run through, its notes decide.
  lemma ScannedAll(seen: seq<Slot>, want: Slot, ours: set<string>, evict: bool,
                   empty: Option<nat>, mismatched: Option<nat>, foreign: Option<nat>)
    requires NotedFirst(seen, Exact, want, ours, |seen|, None) && NotedFirst(seen, Empty, want, ours, |seen|, empty)
    requires NotedFirst(seen, Foreign, want, ours, |seen|, foreign)
    requires NotedLast(seen, Mismatched, want, ours, |seen|, mismatched)
    ensures Choose(seen, want, ours, evict) ==
      if mismatched.Some? then Write(mismatched.value)
      else if empty.Some? then Write(empty.value)
      else if evict && foreign.Some? then Write(foreign.value)
      else NoSlot
  {
    hide Is;
    var exact, last := First(seen, Exact, want, ours), AfterLast(seen, Mismatched, want, ours);
    assert exact == |seen|;
    if mismatched.Some? {
      assert last == mismatched.value + 1;
    } else {
      assert last == 0;
    }
  }

  // The scan of `resolve_channel`.
  method Scan(device: array<Slot>, readable: nat, want: Slot, ours: set<string>, evict: bool) returns (c: Choice)
    ensures c == Choose(Seen(device[..], Fault(false, readable, false)), want, ours, evict)
  {
    hide NotedFirst, NotedLast, Choose, First, AfterLast;
    var maxChannels := if readable < device.Length then readable else device.Length;
    var firstEmpty: Option<nat> := None;
    var mismatchIdx: Option<nat> := None;
    var foreignSlots: seq<nat> := [];
    ghost var seen := Seen(device[..], Fault(false, readable, false));
    NothingNoted(seen, want, ours);
    for idx := 0 to maxChannels
      invariant NotedFirst(seen, Exact, want, ours, idx, None) && NotedFirst(seen, Empty, want, ours, idx, firstEmpty)
      invariant NotedFirst(seen, Foreign, want, ours, idx, if foreignSlots == [] then None else Some(foreignSlots[0]))
      invariant NotedLast(seen, Mismatched, want, ours, idx, mismatchIdx)
    {
      var ch := device[idx];
      assert ch == seen[idx];
      NoteOne(seen, Exact, want, ours, idx, None);
      NoteOne(seen, Empty, want, ours, idx, firstEmpty);
      NoteOne(seen, Foreign, want, ours, idx, if foreignSlots == [] then None else Some(foreignSlots[0]));
      NoteLatest(seen, want, ours, idx, mismatchIdx);
      if ch.name == want.name {
        if ch.hash == want.hash {
          FoundExact(seen, want, ours, evict, idx);
          return Use(idx);
        }
        mismatchIdx := Some(idx);
      } else if ch.name == "" {
        if firstEmpty.None? {
          firstEmpty := Some(idx);
        }
      } else if ch.name !in ours {
        foreignSlots := foreignSlots + [idx];
      }
    }
    ScannedAll(seen, want, ours, evict, firstEmpty, mismatchIdx,
               if foreignSlots == [] then None else Some(foreignSlots[0]));
    if mismatchIdx.Some? {
      return Write(mismatchIdx.value);
    }
    if firstEmpty.None? {
      if evict && foreignSlots != [] {
        return Write(foreignSlots[0]);
      }
      return NoSlot;
    }
    return Write(firstEmpty.value);
  }

  lemma NothingNoted(seen: seq<Slot>, want: Slot, ours: set<string>)
    ensures forall kind :: NotedFirst(seen, kind, want, ours, 0, None)
    ensures NotedLast(seen, Mismatched, want, ours, 0, None)
  {
  }

  lemma FoundExact(seen: seq<Slot>, want: Slot, ours: set<string>, evict: bool, at: nat)
    requires NotedFirst(seen, Exact, want, ours, at, None) && at < |seen| && seen[at] == want
    ensures Choose(seen, want, ours, evict) == Use(at)
  {
    assert Is(Exact, seen[at], want, ours);
    assert First(seen, Exact, want, ours) == at;
  }

  // None stands for the RuntimeError of a failed query, a failed write or a full device.
  method ResolveChannel(device: array<Slot>, want: Slot, ours: set<string>, evict: bool,
                        f: Fault) returns (index: Option<nat>)
    modifies device
    ensures (device[..], index) == Resolve(old(device[..]), want, ours, evict, f)
  {
    if f.queryFails {
      return None;
    }
    var c := Scan(device, f.readable, want, ours, evict);
    ChoiceIsSafe(Seen(device[..], f), want, ours, evict);
    match c
    case Use(i) =>
      index := Some(i);
    case Write(i) =>
      index := CreateChannel(device, want, i, f.writeFails);
    case NoSlot =>
      index := None;
  }

  method CreateChannel(device: array<Slot>, want: Slot, slot: nat, writeFails: bool) returns (index: Option<nat>)
    requires slot < device.Length
    modifies device
    ensures device[..] == if writeFails then old(device[..]) else old(device[..])[slot := want]
    ensures index == if writeFails then None else Some(slot)
  {
    if writeFails {
      return None;
    }
    device[slot] := want;
    return Some(slot);
  }

  // Public and private channel handlers differ only in where the expected hash comes from.
  class ChannelHandler {
    const name: string
    const want: Slot
    var channelIndex: Option<nat>

    constructor (name: string, want: Slot)
      ensures this.name == name && this.want == want && channelIndex == None
    {
      this.name, this.want, channelIndex := name, want, None;
    }

    // The index changes only when the resolve does not raise.
    method ResolveSlot(device: array<Slot>, ours: set<string>, evict: bool, f: Fault) returns (ok: bool)
      modifies this, device
      ensures var (slots, got) := Resolve(old(device[..]), want, ours, evict, f);
        && device[..] == slots && ok == got.Some?
        && channelIndex == if ok then got else old(channelIndex)
    {
      var index := ResolveChannel(device, want, ours, evict, f);
      ok := index.Some?;
      if ok {
        channelIndex := index;
      }
    }
  }

  function Wants(handlers: seq<ChannelHandler>): seq<Slot> {
    seq(|handlers|, i requires 0 <= i < |handlers| => handlers[i].want)
  }

  // The resolve loop of `MeshCoreTransport.start`.
  method StartAll(device: array<Slot>, handlers: seq<ChannelHandler>, evict: bool, faults: seq<Fault>)
    returns (ok: bool)
    requires |handlers| == |faults| && Distinct(handlers)
    modifies device, set h | h in handlers
    ensures var b := Start(old(device[..]), Wants(handlers), evict, faults, |handlers|);
      && device[..] == b.slots && ok == !b.failed
      && |b.got| <= |handlers|
      && (forall i :: 0 <= i < |b.got| ==> handlers[i].channelIndex == Some(b.got[i]))
      && (forall i :: |b.got| <= i < |handlers| ==> handlers[i].channelIndex == old(handlers[i].channelIndex))
  {
    hide Resolve, Names, Start;
    ghost var before := device[..];
    var wants := Wants(handlers);
    var ours := Names(wants);
    NothingStarted(before, wants, evict, faults);
    for k := 0 to |handlers|
      invariant var b := Start(before, wants, evict, faults, k);
        && device[..] == b.slots && !b.failed && |b.got| == k
        && (forall i :: 0 <= i < k ==> handlers[i].channelIndex == Some(b.got[i]))
        && (forall i :: k <= i < |handlers| ==> handlers[i].channelIndex == old(handlers[i].channelIndex))
    {
      TurnOfStart(before, wants, evict, faults, k);
      ok := handlers[k].ResolveSlot(device, ours, evict, faults[k]);
      if !ok {
        FailedStaysFailed(before, wants, evict, faults, k + 1, |handlers|);
        return;
      }
    }
    ok := true;
  }

  lemma NothingStarted(slots: seq<Slot>, wants: seq<Slot>, evict: bool, faults: seq<Fault>)
    requires |wants| == |faults|
    ensures Start(slots, wants, evict, faults, 0) == Booting(slots, [], false)
  {
  }

  // One turn of the loop, in terms of the resolve it makes.
  lemma TurnOfStart(slots: seq<Slot>, wants: seq<Slot>, evict: bool, faults: seq<Fault>, k: nat)
    requires k < |wants| == |faults| && !Start(slots, wants, evict, faults, k).failed
    ensures var b := Start(slots, wants, evict, faults, k);
      var (s, got) := Resolve(b.slots, wants[k], Names(wants), evict, faults[k]);
      Start(slots, wants, evict, faults, k + 1) ==
        if got.Some? then Booting(s, b.got + [got.value], false) else Booting(s, b.got, true)
  {
    hide Resolve, Names;
  }

  lemma {:induction false} FailedStaysFailed(slots: seq<Slot>, wants: seq<Slot>, evict: bool, faults: seq<Fault>,
                                             k: nat, n: nat)
    requires k <= n <= |wants| == |faults| && Start(slots, wants, evict, faults, k).failed
    ensures Start(slots, wants, evict, faults, n) == Start(slots, wants, evict, faults, k)
  {
    hide Resolve, Names;
    if k < n {
      FailedStaysFailed(slots, wants, evict, faults, k, n - 1);
    }
  }
}
