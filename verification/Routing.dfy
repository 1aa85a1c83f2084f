/** Rooms and the registry that finds them by source (lora_bridge/core/routing.py). */
module Routing {
  import opened Domain

  datatype Member =
    | LoraMember(nodeId: string, endpoint: string)
    | MessengerMember(transportId: string, chat: string, topic: Option<string>)
  {
    function Ref(): ChannelRef {
      match this
      case LoraMember(node, endpoint) => ChannelRef(node, endpoint)
      case MessengerMember(transport, chat, topic) => ChannelRef(transport, MessengerChannel(chat, topic))
    }
  }

  datatype RoomRoute = RoomRoute(members: seq<Member>)

  type Registry = map<ChannelRef, RoomRoute>

  // `RoomRoute.others`
  function Others(members: seq<Member>, source: ChannelRef): seq<Member> {
    if members == [] then []
    else if members[0].Ref() != source then [members[0]] + Others(members[1..], source)
    else Others(members[1..], source)
  }

  // The chats `on_committed` tries to mirror to: the messenger members of the room other than the
  // source whose messenger is configured, in room order.
  function MirrorRefs(members: seq<Member>, source: ChannelRef, messengers: set<string>): seq<ChannelRef> {
    if members == [] then []
    else
      var m, rest := members[0], MirrorRefs(members[1..], source, messengers);
      if m.MessengerMember? && m.Ref() != source && m.transportId in messengers then [m.Ref()] + rest else rest
  }

  function MirrorTargets(rooms: Registry, messengers: set<string>, item: QueueItem): seq<ChannelRef> {
    if item.fromMessenger && item.source in rooms
    then MirrorRefs(rooms[item.source].members, item.source, messengers)
    else []
  }

  ghost predicate DistinctRefs(members: seq<Member>) {
    forall i, j :: 0 <= i < j < |members| ==> members[i].Ref() != members[j].Ref()
  }

  function Count<T(==)>(s: seq<T>, x: T): nat {
    if s == [] then 0 else Count(s[1..], x) + (if s[0] == x then 1 else 0)
  }

  lemma {:induction false} MirrorRefsComeFromMembers(members: seq<Member>, source: ChannelRef,
                                                     messengers: set<string>, ref: ChannelRef)
    requires forall i :: 0 <= i < |members| ==> members[i].Ref() != ref
    ensures Count(MirrorRefs(members, source, messengers), ref) == 0
  {
    if members != [] {
      MirrorRefsComeFromMembers(members[1..], source, messengers, ref);
      var m, rest := members[0], MirrorRefs(members[1..], source, messengers);
      assert ([m.Ref()] + rest)[1..] == rest;
    }
  }

  // Every other chat of the room is on the list exactly once, the source not at all.
  lemma {:induction false} EveryOtherChatOnce(members: seq<Member>, source: ChannelRef, messengers: set<string>, i: nat)
    requires DistinctRefs(members) && i < |members|
    ensures Count(MirrorRefs(members, source, messengers), members[i].Ref()) ==
      if members[i].MessengerMember? && members[i].Ref() != source && members[i].transportId in messengers then 1 else 0
  {
    var m, rest := members[0], MirrorRefs(members[1..], source, messengers);
    assert ([m.Ref()] + rest)[1..] == rest;
    if i == 0 {
      MirrorRefsComeFromMembers(members[1..], source, messengers, m.Ref());
    } else {
      EveryOtherChatOnce(members[1..], source, messengers, i - 1);
    }
  }
}
