/**
 * From the configuration to the registry of rooms (lora_bridge/config/schema/app_config.py and
 * rooms.py, `build_rooms` in lora_bridge/wiring.py, `RoomRegistry` in lora_bridge/core/routing.py):
 * what the validators must keep the registry from tripping over.
 */
module Topology {
  import opened Domain
  import opened Routing
  import C = ChannelCodec
  import N = NodeLife

  datatype LoraRef = LoraRef(node: string, endpoint: string)

  datatype Subscriber =
    | MessengerSubscriber(transport: string, chat: string, topic: Option<string>)
    | LoraSubscriber(lora: LoraRef)

  datatype RoomConfig = RoomConfig(lora: LoraRef, subscribers: seq<Subscriber>)

  datatype NodeConfig = NodeConfig(id: string, endpoints: set<string>)

  datatype AppConfig = AppConfig(lora: seq<NodeConfig>, messengers: seq<string>, rooms: seq<RoomConfig>)

  // ---- Rooms and their members ----------------------------------------------------------------

  function MemberOf(s: Subscriber): Member {
    match s
    case MessengerSubscriber(transport, chat, topic) => MessengerMember(transport, chat, topic)
    case LoraSubscriber(lora) => LoraMember(lora.node, lora.endpoint)
  }

  function Members(room: RoomConfig): (members: seq<Member>)
    ensures |members| == |room.subscribers| + 1
    ensures members[0] == LoraMember(room.lora.node, room.lora.endpoint)
    ensures forall i :: 0 <= i < |room.subscribers| ==> members[i + 1] == MemberOf(room.subscribers[i])
  {
    [LoraMember(room.lora.node, room.lora.endpoint)]
    + seq(|room.subscribers|, i requires 0 <= i < |room.subscribers| => MemberOf(room.subscribers[i]))
  }

  function RoutesOf(rooms: seq<RoomConfig>): seq<RoomRoute> {
    seq(|rooms|, i requires 0 <= i < |rooms| => RoomRoute(Members(rooms[i])))
  }

  // The members of all rooms, room after room.
  function AllMembers(routes: seq<RoomRoute>): seq<Member> {
    if routes == [] then [] else AllMembers(routes[..|routes| - 1]) + routes[|routes| - 1].members
  }

  // What both loops have gone through when they are at member k of room i.
  function Visited(routes: seq<RoomRoute>, i: nat, k: nat): seq<Member>
    requires i < |routes| && k <= |routes[i].members|
  {
    AllMembers(routes[..i]) + routes[i].members[..k]
  }

  lemma {:induction false} AllMembersGrow(routes: seq<RoomRoute>, i: nat)
    requires i <= |routes|
    ensures AllMembers(routes[..i]) <= AllMembers(routes)
  {
    if i < |routes| {
      var n := |routes| - 1;
      AllMembersGrow(routes[..n], i);
      assert routes[..n][..i] == routes[..i];
    } else {
      assert routes[..i] == routes;
    }
  }

  lemma VisitedStep(routes: seq<RoomRoute>, i: nat, k: nat)
    requires i < |routes| && k < |routes[i].members|
    ensures Visited(routes, i, k + 1) == Visited(routes, i, k) + [routes[i].members[k]]
  {
    assert routes[i].members[..k + 1] == routes[i].members[..k] + [routes[i].members[k]];
  }

  lemma VisitedRoom(routes: seq<RoomRoute>, i: nat)
    requires i < |routes|
    ensures Visited(routes, i, |routes[i].members|) == AllMembers(routes[..i + 1])
    ensures Visited(routes, i, 0) == AllMembers(routes[..i])
  {
    assert routes[..i + 1][..i] == routes[..i];
    assert routes[i].members[..|routes[i].members|] == routes[i].members;
  }

  lemma VisitedIsPrefix(routes: seq<RoomRoute>, i: nat, k: nat)
    requires i < |routes| && k <= |routes[i].members|
    ensures Visited(routes, i, k) <= AllMembers(routes)
  {
    VisitedRoom(routes, i);
    AllMembersGrow(routes, i + 1);
    assert Visited(routes, i, k) <= AllMembers(routes[..i + 1]);
  }

  lemma {:induction false} MemberIsSomewhere(routes: seq<RoomRoute>, i: nat, k: nat) returns (at: nat)
    requires i < |routes| && k < |routes[i].members|
    ensures at < |AllMembers(routes)| && AllMembers(routes)[at] == routes[i].members[k]
    ensures at == |AllMembers(routes[..i])| + k
  {
    VisitedIsPrefix(routes, i, k + 1);
    VisitedStep(routes, i, k);
    at := |AllMembers(routes[..i])| + k;
    assert Visited(routes, i, k + 1)[at] == routes[i].members[k];
  }

  // ---- The two verdicts on the members --------------------------------------------------------

  function Refs(members: seq<Member>): seq<ChannelRef> {
    seq(|members|, i requires 0 <= i < |members| => members[i].Ref())
  }

  // What `validate_unique_membership` demands: no member twice.
  ghost predicate UniqueMembers(rooms: seq<RoomConfig>) {
    Distinct(AllMembers(RoutesOf(rooms)))
  }

  // What `RoomRegistry` demands: no channel twice.
  ghost predicate UniqueChannels(routes: seq<RoomRoute>) {
    Distinct(Refs(AllMembers(routes)))
  }

  // The naming conventions the equivalence rests on.
  ghost predicate CleanNames(config: AppConfig) {
    NoHashInChats(config) && NoEmptyTopics(config) && DisjointIds(config)
  }

  ghost predicate NoHashInChats(config: AppConfig) {
    forall i, k :: 0 <= i < |config.rooms| && 0 <= k < |config.rooms[i].subscribers| ==>
      var s := config.rooms[i].subscribers[k];
      s.MessengerSubscriber? ==> '#' !in s.chat
  }

  ghost predicate NoEmptyTopics(config: AppConfig) {
    forall i, k :: 0 <= i < |config.rooms| && 0 <= k < |config.rooms[i].subscribers| ==>
      var s := config.rooms[i].subscribers[k];
      s.MessengerSubscriber? ==> s.topic != Some("")
  }

  ghost predicate DisjointIds(config: AppConfig) {
    forall i, j :: 0 <= i < |config.lora| && 0 <= j < |config.messengers| ==> config.lora[i].id != config.messengers[j]
  }

  // All references name something that is configured.
  ghost predicate KnownRefs(config: AppConfig) {
    forall i :: 0 <= i < |config.rooms| ==> KnownRoom(config, config.rooms[i])
  }

  ghost predicate KnownRoom(config: AppConfig, room: RoomConfig) {
    KnownLora(config, room.lora) &&
    forall k :: 0 <= k < |room.subscribers| ==> KnownSubscriber(config, room.subscribers[k])
  }

  ghost predicate KnownSubscriber(config: AppConfig, s: Subscriber) {
    match s
    case MessengerSubscriber(transport, _, _) => transport in config.messengers
    case LoraSubscriber(lora) => KnownLora(config, lora)
  }

  ghost predicate KnownLora(config: AppConfig, ref: LoraRef) {
    exists j :: 0 <= j < |config.lora| && config.lora[j].id == ref.node && ref.endpoint in config.lora[j].endpoints
  }

  // A member as the configuration vouches for it.
  ghost predicate Vouched(config: AppConfig, m: Member) {
    match m
    case LoraMember(node, endpoint) => exists j :: 0 <= j < |config.lora| && config.lora[j].id == node
    case MessengerMember(transport, chat, topic) => transport in config.messengers && '#' !in chat && topic != Some("")
  }

  lemma {:induction false} AllMembersCome(rooms: seq<RoomConfig>, m: Member) returns (i: nat, k: nat)
    requires m in AllMembers(RoutesOf(rooms))
    ensures i < |rooms| && k < |Members(rooms[i])| && Members(rooms[i])[k] == m
  {
    var n := |rooms| - 1;
    var routes := RoutesOf(rooms);
    assert routes[..n] == RoutesOf(rooms[..n]);
    if m in routes[n].members {
      i := n;
      k :| 0 <= k < |routes[n].members| && routes[n].members[k] == m;
    } else {
      i, k := AllMembersCome(rooms[..n], m);
    }
  }

  lemma MembersAreVouched(config: AppConfig, m: Member)
    requires CleanNames(config) && KnownRefs(config) && m in AllMembers(RoutesOf(config.rooms))
    ensures Vouched(config, m)
  {
    var i, k := AllMembersCome(config.rooms, m);
    var room := config.rooms[i];
    assert KnownRoom(config, room);
    if k > 0 {
      assert KnownSubscriber(config, room.subscribers[k - 1]);
    }
  }

  // Vouched members are told apart by their channels.
  lemma RefsTellApart(config: AppConfig, m: Member, n: Member)
    requires CleanNames(config) && Vouched(config, m) && Vouched(config, n) && m.Ref() == n.Ref()
    ensures m == n
  {
    if m.MessengerMember? && n.MessengerMember? {
      C.SameChannelIff(m.chat, m.topic, n.chat, n.topic);
    }
  }

  // The validator never lets less through than the registry, on any configuration.
  lemma RegistryImpliesValidator(rooms: seq<RoomConfig>)
    requires UniqueChannels(RoutesOf(rooms))
    ensures UniqueMembers(rooms)
  {
    var all := AllMembers(RoutesOf(rooms));
    forall i, j | 0 <= i < j < |all|
      ensures all[i] != all[j]
    {
      assert Refs(all)[i] != Refs(all)[j];
    }
  }

  // The validator and the registry agree under the naming conventions.
  lemma ValidatorAgreesWithRegistry(config: AppConfig)
    requires CleanNames(config) && KnownRefs(config)
    ensures UniqueMembers(config.rooms) <==> UniqueChannels(RoutesOf(config.rooms))
  {
    var all := AllMembers(RoutesOf(config.rooms));
    if UniqueChannels(RoutesOf(config.rooms)) {
      RegistryImpliesValidator(config.rooms);
    } else if UniqueMembers(config.rooms) {
      var i, j :| 0 <= i < j < |Refs(all)| && Refs(all)[i] == Refs(all)[j];
      MembersAreVouched(config, all[i]);
      MembersAreVouched(config, all[j]);
      RefsTellApart(config, all[i], all[j]);
      assert false;
    }
  }

  // Two rooms with one messenger subscriber each, on two endpoints of one node.
  function TwoChats(messengers: seq<string>, a: Subscriber, b: Subscriber): AppConfig {
    AppConfig([NodeConfig("node", {"x", "y"})], messengers,
              [RoomConfig(LoraRef("node", "x"), [a]), RoomConfig(LoraRef("node", "y"), [b])])
  }

  // The configuration gets through every other validator, and through the membership validator, and
  // its registry fails.
  ghost predicate TripsRegistry(config: AppConfig) {
    && Distinct(config.messengers) &&
       (forall i, j :: 0 <= i < j < |config.lora| ==> config.lora[i].id != config.lora[j].id)
    && KnownRefs(config) && (forall i :: 0 <= i < |config.rooms| ==> EnforceShape(config.rooms[i]))
    && UniqueMembers(config.rooms) && !UniqueChannels(RoutesOf(config.rooms))
  }

  lemma TwoChatsMembers(messengers: seq<string>, a: Subscriber, b: Subscriber)
    ensures AllMembers(RoutesOf(TwoChats(messengers, a, b).rooms)) ==
      [LoraMember("node", "x"), MemberOf(a), LoraMember("node", "y"), MemberOf(b)]
  {
    var rooms := TwoChats(messengers, a, b).rooms;
    var routes := RoutesOf(rooms);
    assert routes[..1] == [RoomRoute([LoraMember("node", "x"), MemberOf(a)])] by {
      assert Members(rooms[0]) == [LoraMember("node", "x"), MemberOf(a)];
    }
    assert Members(rooms[1]) == [LoraMember("node", "y"), MemberOf(b)];
    assert routes[..1][..0] == [];
    assert AllMembers(routes[..1]) == [LoraMember("node", "x"), MemberOf(a)];
  }

  // Two such rooms trip the registry when their chats differ but two of the four channels agree.
  lemma TwoChatsTrip(messengers: seq<string>, a: Subscriber, b: Subscriber, i: nat, j: nat)
    requires a.MessengerSubscriber? && b.MessengerSubscriber? && a != b
    requires Distinct(messengers) && a.transport in messengers && b.transport in messengers
    requires i < j < 4
    requires var members := [LoraMember("node", "x"), MemberOf(a), LoraMember("node", "y"), MemberOf(b)];
      members[i].Ref() == members[j].Ref()
    ensures TripsRegistry(TwoChats(messengers, a, b))
  {
    var config := TwoChats(messengers, a, b);
    TwoChatsMembers(messengers, a, b);
    assert !UniqueChannels(RoutesOf(config.rooms)) by {
      var refs := Refs(AllMembers(RoutesOf(config.rooms)));
      assert refs[i] == refs[j];
    }
    TwoChatsAreProper(messengers, a, b);
    hide KnownRefs, EnforceShape, Members;
  }

  lemma TwoChatsAreProper(messengers: seq<string>, a: Subscriber, b: Subscriber)
    requires a.MessengerSubscriber? && b.MessengerSubscriber? && a.transport in messengers && b.transport in messengers
    ensures var config := TwoChats(messengers, a, b);
      KnownRefs(config) && forall r :: 0 <= r < |config.rooms| ==> EnforceShape(config.rooms[r])
  {
    var config := TwoChats(messengers, a, b);
    forall r | 0 <= r < |config.rooms|
      ensures KnownRoom(config, config.rooms[r]) && EnforceShape(config.rooms[r])
    {
      assert config.lora[0].id == "node";
      ShapeIsOneOfTwo(config.rooms[r]);
    }
  }

  // None of the conventions can be dropped: a '#' in a chat, an empty topic, or a messenger named
  // like a node, the other two conventions kept, each get past every validator and trip the registry.
  lemma HashInChatTripsRegistry()
    ensures var config := TwoChats(["tg"], MessengerSubscriber("tg", "a#b", None),
                          MessengerSubscriber("tg", "a", Some("b")));
      TripsRegistry(config) && NoEmptyTopics(config) && DisjointIds(config)
  {
    hide TripsRegistry, MessengerChannel;
    C.EncodeMayCollide();
    TwoChatsTrip(["tg"], MessengerSubscriber("tg", "a#b", None), MessengerSubscriber("tg", "a", Some("b")), 1, 3);
  }

  lemma EmptyTopicTripsRegistry()
    ensures var config := TwoChats(["tg"], MessengerSubscriber("tg", "a", Some("")),
                          MessengerSubscriber("tg", "a", None));
      TripsRegistry(config) && NoHashInChats(config) && DisjointIds(config)
  {
    hide TripsRegistry;
    TwoChatsTrip(["tg"], MessengerSubscriber("tg", "a", Some("")), MessengerSubscriber("tg", "a", None), 1, 3);
  }

  lemma SharedIdTripsRegistry()
    ensures var config := TwoChats(["tg", "node"], MessengerSubscriber("node", "y", None),
                          MessengerSubscriber("tg", "a", None));
      TripsRegistry(config) && NoHashInChats(config) && NoEmptyTopics(config)
  {
    hide TripsRegistry;
    TwoChatsTrip(["tg", "node"], MessengerSubscriber("node", "y", None), MessengerSubscriber("tg", "a", None), 1, 2);
  }

  // ---- What a registry answers ----------------------------------------------------------------

  // The registry of these routes: each member's channel leads to the member's own room, and no
  // other channel leads anywhere.
  ghost predicate Indexes(registry: Registry, routes: seq<RoomRoute>) {
    && (forall i, k :: 0 <= i < |routes| && 0 <= k < |routes[i].members| ==>
          routes[i].members[k].Ref() in registry && registry[routes[i].members[k].Ref()] == routes[i])
    && (forall ref :: ref in registry ==> exists i :: 0 <= i < |routes| && HasRef(routes[i].members, ref))
  }

  ghost predicate HasRef(members: seq<Member>, ref: ChannelRef) {
    exists k :: 0 <= k < |members| && members[k].Ref() == ref
  }

  // ---- The shape of a room --------------------------------------------------------------------

  function Loras(subscribers: seq<Subscriber>): seq<Subscriber> {
    if subscribers == [] then []
    else (if subscribers[0].LoraSubscriber? then [subscribers[0]] else []) + Loras(subscribers[1..])
  }

  function Messengers(subscribers: seq<Subscriber>): seq<Subscriber> {
    if subscribers == [] then []
    else (if subscribers[0].MessengerSubscriber? then [subscribers[0]] else []) + Messengers(subscribers[1..])
  }

  // `enforce_shape`; true when it raises nothing.
  predicate EnforceShape(room: RoomConfig) {
    var loras, msgs := Loras(room.subscribers), Messengers(room.subscribers);
    if loras != [] then |loras| == 1 && msgs == [] && loras[0].lora != room.lora
    else msgs != []
  }

  lemma {:induction false} SortsOfSubscribers(s: seq<Subscriber>)
    ensures |Loras(s)| + |Messengers(s)| == |s|
    ensures Loras(s) == [] <==> forall i :: 0 <= i < |s| ==> s[i].MessengerSubscriber?
    ensures Messengers(s) == [] <==> forall i :: 0 <= i < |s| ==> s[i].LoraSubscriber?
    ensures Messengers(s) == [] ==> Loras(s) == s
  {
    if s != [] {
      SortsOfSubscribers(s[1..]);
      assert forall i :: 0 < i < |s| ==> s[i] == s[1..][i - 1];
    }
  }

  // The shapes that pass: one LoRa endpoint with one or more chats, or two different LoRa endpoints.
  lemma ShapeIsOneOfTwo(room: RoomConfig)
    ensures EnforceShape(room) <==>
      || (room.subscribers != [] &&
          forall i :: 0 <= i < |room.subscribers| ==> room.subscribers[i].MessengerSubscriber?)
      || (exists peer :: peer != room.lora && room.subscribers == [LoraSubscriber(peer)])
  {
    var s := room.subscribers;
    SortsOfSubscribers(s);
    if EnforceShape(room) && Loras(s) != [] {
      assert s == [LoraSubscriber(s[0].lora)];
    }
    if peer :| peer != room.lora && s == [LoraSubscriber(peer)] {
      assert s[0].LoraSubscriber?;
    }
  }

  // The LoRa targets `admit` looks at.
  function LoraTargets(members: seq<Member>, source: ChannelRef): seq<Member> {
    LorasOf(Others(members, source))
  }

  function LorasOf(members: seq<Member>): seq<Member> {
    if members == [] then [] else (if members[0].LoraMember? then [members[0]] else []) + LorasOf(members[1..])
  }

  lemma {:induction false} NoLoraAmongChats(members: seq<Member>, source: ChannelRef)
    requires forall i :: 0 <= i < |members| ==> members[i].MessengerMember?
    ensures LoraTargets(members, source) == []
  {
    if members != [] {
      NoLoraAmongChats(members[1..], source);
      var rest := Others(members[1..], source);
      assert ([members[0]] + rest)[1..] == rest;
    }
  }

  // Every chat of a well-shaped room has exactly one LoRa target: the room's own endpoint.
  lemma EveryChatHasOneTarget(room: RoomConfig, k: nat)
    requires EnforceShape(room) && DistinctRefs(Members(room))
    requires k < |Members(room)| && Members(room)[k].MessengerMember?
    ensures LoraTargets(Members(room), Members(room)[k].Ref()) == [LoraMember(room.lora.node, room.lora.endpoint)]
  {
    ShapeIsOneOfTwo(room);
    var members := Members(room);
    assert k > 0;
    forall i | 0 <= i < |members[1..]|
      ensures members[1..][i].MessengerMember?
    {
      assert members[1..][i] == MemberOf(room.subscribers[i]);
      assert members[k] == MemberOf(room.subscribers[k - 1]);
    }
    NoLoraAmongChats(members[1..], members[k].Ref());
    var rest := Others(members[1..], members[k].Ref());
    assert members[0].Ref() != members[k].Ref();
    assert ([members[0]] + rest)[1..] == rest;
  }

  lemma OthersOfOne(m: Member, source: ChannelRef)
    ensures Others([m], source) == if m.Ref() != source then [m] else []
  {
    assert [m][1..] == [];
    assert Others([m][1..], source) == [];
  }

  // In a room of two LoRa endpoints each is the other's only counterpart.
  lemma PeersFaceEachOther(room: RoomConfig, peer: LoraRef)
    requires EnforceShape(room) && room.subscribers == [LoraSubscriber(peer)]
    ensures var a, b := LoraMember(room.lora.node, room.lora.endpoint), LoraMember(peer.node, peer.endpoint);
      Others(Members(room), a.Ref()) == [b] && Others(Members(room), b.Ref()) == [a]
  {
    ShapeIsOneOfTwo(room);
    assert room.subscribers[0].LoraSubscriber?;
    var a, b := LoraMember(room.lora.node, room.lora.endpoint), LoraMember(peer.node, peer.endpoint);
    assert Members(room) == [a, b];
    assert [a, b][1..] == [b];
    OthersOfOne(b, a.Ref());
    OthersOfOne(b, b.Ref());
  }

  // So a message from any member of a well-shaped room is put on the air at most once; only the
  // endpoint of a room with chats has nobody to relay to.
  lemma {:induction false} AtMostOneLoraTarget(room: RoomConfig, k: nat)
    requires EnforceShape(room) && DistinctRefs(Members(room)) && k < |Members(room)|
    ensures |LoraTargets(Members(room), Members(room)[k].Ref())| ==
      if k == 0 && room.subscribers[0].MessengerSubscriber? then 0 else 1
  {
    ShapeIsOneOfTwo(room);
    var members := Members(room);
    var source := members[k].Ref();
    if members[k].MessengerMember? {
      EveryChatHasOneTarget(room, k);
    } else if peer :| peer != room.lora && room.subscribers == [LoraSubscriber(peer)] {
      PeersFaceEachOther(room, peer);
      assert room.subscribers[0].LoraSubscriber?;
      OneLora(LoraMember(peer.node, peer.endpoint));
      OneLora(members[0]);
    } else {
      forall i | 0 < i < |members|
        ensures members[i].MessengerMember?
      {
        assert members[i] == MemberOf(room.subscribers[i - 1]);
      }
      NoLoraAmongChats(members[1..], source);
    }
  }

  lemma OneLora(m: Member)
    requires m.LoraMember?
    ensures LorasOf([m]) == [m]
  {
    assert [m][1..] == [];
    assert LorasOf([m][1..]) == [];
  }

  // ---- The whole way --------------------------------------------------------------------------

  lemma RoomsHaveDistinctRefs(routes: seq<RoomRoute>, i: nat)
    requires UniqueChannels(routes) && i < |routes|
    ensures DistinctRefs(routes[i].members)
  {
    var all, m := AllMembers(routes), routes[i].members;
    forall j, k | 0 <= j < k < |m|
      ensures m[j].Ref() != m[k].Ref()
    {
      var a := MemberIsSomewhere(routes, i, j);
      var b := MemberIsSomewhere(routes, i, k);
      assert Refs(all)[a] != Refs(all)[b];
    }
  }

  // A registry is what the mirrors of the pipeline need it to be.
  lemma RegistryIsWellWired(routes: seq<RoomRoute>, conf: N.Conf)
    requires UniqueChannels(routes) && Indexes(conf.rooms, routes)
    ensures N.WellWired(conf)
  {
    forall source | source in conf.rooms
      ensures DistinctRefs(conf.rooms[source].members)
    {
      var i :| 0 <= i < |routes| && HasRef(routes[i].members, source);
      RoomsHaveDistinctRefs(routes, i);
    }
  }

  // A configuration that passes its validators under the naming conventions: the registry builds,
  // every chat's channel leads to its own room, the message has exactly one LoRa target there, on a
  // configured node, and the chat's messenger is configured.
  lemma {:induction false} AdmittedConfigRoutes(config: AppConfig, registry: Registry, i: nat, k: nat)
    requires CleanNames(config) && KnownRefs(config) && UniqueMembers(config.rooms)
    requires forall r :: 0 <= r < |config.rooms| ==> EnforceShape(config.rooms[r])
    requires Indexes(registry, RoutesOf(config.rooms))
    requires i < |config.rooms| && k < |Members(config.rooms[i])| && Members(config.rooms[i])[k].MessengerMember?
    ensures UniqueChannels(RoutesOf(config.rooms))
    ensures RoutedAsConfigured(config, registry, config.rooms[i], Members(config.rooms[i])[k])
  {
    hide Members, Distinct, KnownLora;
    var routes, room, m := RoutesOf(config.rooms), config.rooms[i], Members(config.rooms[i])[k];
    ValidatorAgreesWithRegistry(config);
    assert routes[i].members[k] == m;
    RoomsHaveDistinctRefs(routes, i);
    EveryChatHasOneTarget(room, k);
    assert KnownRoom(config, room);
    assert Members(room)[k] == MemberOf(room.subscribers[k - 1]);
    assert KnownSubscriber(config, room.subscribers[k - 1]);
  }

  ghost predicate RoutedAsConfigured(config: AppConfig, registry: Registry, room: RoomConfig, m: Member)
    requires m.MessengerMember?
  {
    && m.Ref() in registry && registry[m.Ref()].members == Members(room)
    && LoraTargets(Members(room), m.Ref()) == [LoraMember(room.lora.node, room.lora.endpoint)]
    && KnownLora(config, room.lora)
    && m.transportId in config.messengers
  }

  // ---- The loops of the source ----------------------------------------------------------------

  lemma DistinctGrows<T>(s: seq<T>, x: T)
    requires Distinct(s)
    ensures Distinct(s + [x]) <==> x !in s
  {
    if i :| 0 <= i < |s| && s[i] == x {
      assert (s + [x])[i] == (s + [x])[|s|];
    }
  }

  lemma PrefixRepeats<T>(s: seq<T>, t: seq<T>)
    requires s <= t && !Distinct(s)
    ensures !Distinct(t)
  {
    var i, j :| 0 <= i < j < |s| && s[i] == s[j];
    assert t[i] == t[j];
  }

  // `len(set(ids)) != len(ids)` finds exactly the lists with a repetition.
  lemma {:induction false} SetIsSmallerIffRepeats(ids: seq<string>)
    ensures |set id | id in ids| <= |ids|
    ensures |set id | id in ids| == |ids| <==> Distinct(ids)
  {
    if ids != [] {
      var n := |ids| - 1;
      var last, rest := ids[n], ids[..n];
      SetIsSmallerIffRepeats(rest);
      assert ids == rest + [last];
      assert (set id | id in ids) == (set id | id in rest) + {last};
      if Distinct(rest) {
        DistinctGrows(rest, last);
      } else {
        PrefixRepeats(rest, ids);
      }
    }
  }

  method ValidateUniqueIds(config: AppConfig) returns (ok: bool)
    ensures ok <==>
      && Distinct(seq(|config.lora|, i requires 0 <= i < |config.lora| => config.lora[i].id))
      && Distinct(config.messengers)
  {
    var nodeIds := seq(|config.lora|, i requires 0 <= i < |config.lora| => config.lora[i].id);
    SetIsSmallerIffRepeats(nodeIds);
    SetIsSmallerIffRepeats(config.messengers);
    ok := |set id | id in nodeIds| == |nodeIds| && |set id | id in config.messengers| == |config.messengers|;
  }

  datatype Verdict = Passed | Clash(first: nat, second: nat)

  // The dictionaries of `validate_unique_membership`: who was seen, and in which room first.
  ghost predicate Noted(rooms: seq<RoomConfig>, seen: seq<Member>, upTo: nat,
                        msgFirst: map<(string, string, Option<string>), nat>, loraFirst: map<LoraRef, nat>) {
    && (forall t, c, p :: MessengerMember(t, c, p) in seen <==> (t, c, p) in msgFirst)
    && (forall n, e :: LoraMember(n, e) in seen <==> LoraRef(n, e) in loraFirst)
    && (forall t, c, p :: (t, c, p) in msgFirst ==> InRoom(rooms, msgFirst[(t, c, p)], upTo, MessengerMember(t, c, p)))
    && (forall n, e :: LoraRef(n, e) in loraFirst ==> InRoom(rooms, loraFirst[LoraRef(n, e)], upTo, LoraMember(n, e)))
  }

  ghost predicate InRoom(rooms: seq<RoomConfig>, j: nat, upTo: nat, m: Member) {
    j <= upTo && j < |rooms| && m in Members(rooms[j])
  }

  // One member of room i: a clash with a member seen before, or a new entry.
  method NoteMember(rooms: seq<RoomConfig>, i: nat, m: Member, ghost seen: seq<Member>,
                    msgFirst: map<(string, string, Option<string>), nat>, loraFirst: map<LoraRef, nat>)
    returns (clash: Option<nat>, msgFirst': map<(string, string, Option<string>), nat>, loraFirst': map<LoraRef, nat>)
    requires i < |rooms| && m in Members(rooms[i]) && Noted(rooms, seen, i, msgFirst, loraFirst)
    ensures clash.Some? <==> m in seen
    ensures clash.Some? ==> InRoom(rooms, clash.value, i, m)
    ensures clash.None? ==> Noted(rooms, seen + [m], i, msgFirst', loraFirst')
  {
    clash, msgFirst', loraFirst' := None, msgFirst, loraFirst;
    match m
    case LoraMember(node, endpoint) =>
      var key := LoraRef(node, endpoint);
      if key in loraFirst {
        clash := Some(loraFirst[key]);
      } else {
        loraFirst' := loraFirst[key := i];
      }
    case MessengerMember(transport, chat, topic) =>
      var key := (transport, chat, topic);
      if key in msgFirst {
        clash := Some(msgFirst[key]);
      } else {
        msgFirst' := msgFirst[key := i];
      }
  }

  lemma NotedLater(rooms: seq<RoomConfig>, seen: seq<Member>, i: nat,
                   msgFirst: map<(string, string, Option<string>), nat>, loraFirst: map<LoraRef, nat>)
    requires Noted(rooms, seen, i, msgFirst, loraFirst)
    ensures Noted(rooms, seen, i + 1, msgFirst, loraFirst)
  {
  }

  // Passes exactly the configurations without a repeated member; a clash names two rooms (perhaps
  // one and the same) that share a member.
  method ValidateUniqueMembership(rooms: seq<RoomConfig>) returns (v: Verdict)
    ensures v.Passed? <==> UniqueMembers(rooms)
    ensures v.Clash? ==> (v.first <= v.second < |rooms| &&
      exists m :: m in Members(rooms[v.first]) && m in Members(rooms[v.second]))
  {
    hide Noted, Members, AllMembers, Visited, Distinct;
    var msgFirst: map<(string, string, Option<string>), nat> := map[];
    var loraFirst: map<LoraRef, nat> := map[];
    ghost var routes := RoutesOf(rooms);
    NothingNoted(rooms, routes);
    for i := 0 to |rooms|
      invariant Distinct(AllMembers(routes[..i]))
      invariant Noted(rooms, AllMembers(routes[..i]), i, msgFirst, loraFirst)
    {
      var members := Members(rooms[i]);
      VisitedRoom(routes, i);
      for k := 0 to |members|
        invariant Distinct(Visited(routes, i, k))
        invariant Noted(rooms, Visited(routes, i, k), i, msgFirst, loraFirst)
      {
        ghost var seen := Visited(routes, i, k);
        DistinctGrows(seen, members[k]);
        VisitedStep(routes, i, k);
        var clash: Option<nat>;
        clash, msgFirst, loraFirst := NoteMember(rooms, i, members[k], seen, msgFirst, loraFirst);
        if clash.Some? {
          VisitedIsPrefix(routes, i, k + 1);
          PrefixRepeats(Visited(routes, i, k + 1), AllMembers(routes));
          assert members[k] in Members(rooms[clash.value]) && members[k] in Members(rooms[i]);
          return Clash(clash.value, i);
        }
      }
      NotedLater(rooms, AllMembers(routes[..i + 1]), i, msgFirst, loraFirst);
    }
    assert routes[..|rooms|] == routes;
    return Passed;
  }

  lemma NothingNoted(rooms: seq<RoomConfig>, routes: seq<RoomRoute>)
    ensures AllMembers(routes[..0]) == [] && Distinct(AllMembers(routes[..0])) && Noted(rooms, [], 0, map[], map[])
  {
  }

  method BuildRooms(config: AppConfig) returns (routes: seq<RoomRoute>)
    ensures routes == RoutesOf(config.rooms)
  {
    hide Members;
    routes := [];
    for i := 0 to |config.rooms|
      invariant routes == RoutesOf(config.rooms)[..i]
    {
      var members := BuildMembers(config.rooms[i]);
      routes := routes + [RoomRoute(members)];
    }
  }

  // The inner loop of `build_rooms`: the room's own endpoint, then its subscribers in order.
  method BuildMembers(room: RoomConfig) returns (members: seq<Member>)
    ensures members == Members(room)
  {
    hide Members;
    members := [LoraMember(room.lora.node, room.lora.endpoint)];
    for k := 0 to |room.subscribers|
      invariant members == Members(room)[..k + 1]
    {
      assert Members(room)[..k + 2] == Members(room)[..k + 1] + [MemberOf(room.subscribers[k])];
      match room.subscribers[k]
      case LoraSubscriber(lora) =>
        members := members + [LoraMember(lora.node, lora.endpoint)];
      case MessengerSubscriber(transport, chat, topic) =>
        members := members + [MessengerMember(transport, chat, topic)];
    }
  }

  // The keys of the dictionary so far.
  ghost predicate IndexedSoFar(registry: Registry, routes: seq<RoomRoute>, i: nat, k: nat) {
    && (forall j, l :: 0 <= j < |routes| && 0 <= l < |routes[j].members| && (j < i || (j == i && l < k)) ==>
          routes[j].members[l].Ref() in registry && registry[routes[j].members[l].Ref()] == routes[j])
    && (forall ref :: ref in registry ==> exists j :: 0 <= j < |routes| && HasRef(routes[j].members, ref))
  }

  lemma IndexOne(registry: Registry, routes: seq<RoomRoute>, i: nat, k: nat)
    requires i < |routes| && k < |routes[i].members| && IndexedSoFar(registry, routes, i, k)
    requires routes[i].members[k].Ref() !in registry
    ensures IndexedSoFar(registry[routes[i].members[k].Ref() := routes[i]], routes, i, k + 1)
  {
    assert HasRef(routes[i].members, routes[i].members[k].Ref());
  }

  // `RoomRegistry(routes)`; None stands for its ValueError.
  method BuildRegistry(routes: seq<RoomRoute>) returns (r: Option<Registry>)
    ensures r.Some? <==> UniqueChannels(routes)
    ensures r.Some? ==> Indexes(r.value, routes)
  {
    hide IndexedSoFar, AllMembers, Visited, Distinct, Refs;
    var byRef: Registry := map[];
    NothingIndexed(routes);
    for i := 0 to |routes|
      invariant Distinct(Refs(AllMembers(routes[..i])))
      invariant KeysAre(byRef, AllMembers(routes[..i]))
      invariant IndexedSoFar(byRef, routes, i, 0)
    {
      VisitedRoom(routes, i);
      var members := routes[i].members;
      for k := 0 to |members|
        invariant Distinct(Refs(Visited(routes, i, k)))
        invariant KeysAre(byRef, Visited(routes, i, k))
        invariant IndexedSoFar(byRef, routes, i, k)
      {
        ghost var seen := Visited(routes, i, k);
        var ref := members[k].Ref();
        VisitedStep(routes, i, k);
        RefsGrow(seen, members[k]);
        DistinctGrows(Refs(seen), ref);
        if ref in byRef {
          VisitedIsPrefix(routes, i, k + 1);
          RefsOfPrefix(Visited(routes, i, k + 1), AllMembers(routes));
          PrefixRepeats(Refs(Visited(routes, i, k + 1)), Refs(AllMembers(routes)));
          return None;
        }
        IndexOne(byRef, routes, i, k);
        KeysGrow(byRef, seen, members[k], routes[i]);
        byRef := byRef[ref := routes[i]];
      }
      IndexRoom(byRef, routes, i);
    }
    assert routes[..|routes|] == routes;
    IndexedAll(byRef, routes);
    return Some(byRef);
  }

  ghost predicate KeysAre(registry: Registry, seen: seq<Member>) {
    forall ref :: ref in registry <==> ref in Refs(seen)
  }

  lemma KeysGrow(registry: Registry, seen: seq<Member>, m: Member, room: RoomRoute)
    requires KeysAre(registry, seen)
    ensures KeysAre(registry[m.Ref() := room], seen + [m])
  {
    RefsGrow(seen, m);
  }

  lemma RefsGrow(seen: seq<Member>, m: Member)
    ensures Refs(seen + [m]) == Refs(seen) + [m.Ref()]
  {
  }

  lemma RefsOfPrefix(a: seq<Member>, b: seq<Member>)
    requires a <= b
    ensures Refs(a) <= Refs(b)
  {
  }

  lemma NothingIndexed(routes: seq<RoomRoute>)
    ensures AllMembers(routes[..0]) == [] && Refs([]) == []
    ensures Distinct(Refs(AllMembers(routes[..0]))) && KeysAre(map[], AllMembers(routes[..0]))
      && IndexedSoFar(map[], routes, 0, 0)
  {
  }

  lemma IndexRoom(registry: Registry, routes: seq<RoomRoute>, i: nat)
    requires i < |routes| && IndexedSoFar(registry, routes, i, |routes[i].members|)
    ensures IndexedSoFar(registry, routes, i + 1, 0)
  {
  }

  lemma IndexedAll(registry: Registry, routes: seq<RoomRoute>)
    requires IndexedSoFar(registry, routes, |routes|, 0)
    ensures Indexes(registry, routes)
  {
  }

  // `validate_room_refs`, on a configuration whose node ids are unique.
  method ValidateRoomRefs(config: AppConfig) returns (ok: bool)
    requires forall i, j :: 0 <= i < j < |config.lora| ==> config.lora[i].id != config.lora[j].id
    ensures ok <==> KnownRefs(config)
  {
    hide KnownLora;
    var nodeEps: map<string, set<string>> :=
      map i | 0 <= i < |config.lora| :: config.lora[i].id := config.lora[i].endpoints;
    for i := 0 to |config.rooms|
      invariant forall r :: 0 <= r < i ==> KnownRoom(config, config.rooms[r])
    {
      var room := config.rooms[i];
      ok := ValidateLoraRef(config, room.lora, nodeEps);
      if !ok {
        assert !KnownRoom(config, config.rooms[i]);
        return;
      }
      for k := 0 to |room.subscribers|
        invariant forall s :: 0 <= s < k ==> KnownSubscriber(config, room.subscribers[s])
      {
        match room.subscribers[k] {
          case LoraSubscriber(lora) =>
            ok := ValidateLoraRef(config, lora, nodeEps);
          case MessengerSubscriber(transport, _, _) =>
            ok := transport in config.messengers;
        }
        if !ok {
          assert !KnownSubscriber(config, room.subscribers[k]);
          assert !KnownRoom(config, config.rooms[i]);
          return;
        }
        assert KnownSubscriber(config, room.subscribers[k]);
      }
    }
    ok := true;
  }

  method ValidateLoraRef(config: AppConfig, ref: LoraRef, nodeEps: map<string, set<string>>) returns (ok: bool)
    requires forall n :: n in nodeEps <==> exists j :: 0 <= j < |config.lora| && config.lora[j].id == n
    requires forall j :: 0 <= j < |config.lora| ==> nodeEps[config.lora[j].id] == config.lora[j].endpoints
    ensures ok <==> KnownLora(config, ref)
  {
    ok := ref.node in nodeEps && ref.endpoint in nodeEps[ref.node];
  }
}
