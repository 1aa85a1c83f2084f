/**
 * Admission and fan-out (lora_bridge/core/bridge.py): what becomes of a message from a chat or from
 * the air, and what it leaves in the queue, the journal, the drop notifier and the status log.
 */
module Bridge {
  import opened Domain
  import opened Routing
  import D = Notifier
  import J = Journal
  import N = NodeLife
  import P = Pipeline
  import Q = CommitQueue
  import U = Utf8
  import X = Transform
  import Y = Topology

  // What one node contributes to these decisions.
  datatype NodeRuntime = NodeRuntime(queue: Q.CommitQueue, notifier: D.DropNotifier,
    labelFmt: LabelFormat, maxTextBytes: int)

  // One call of the status dispatcher, and one mirror attempt.
  datatype Report = Report(source: ChannelRef, msgId: string, status: DeliveryStatus, reason: Option<RejectReason>)
  datatype Mirror = Mirror(to: ChannelRef, msg: Message)

  datatype Verdict =
    | Ignored                        // no room, or no LoRa endpoint to send to
    | Refused(reason: RejectReason)  // told to the sender and counted
    | Dropped                        // a relay nobody is told about
    | Queued(item: QueueItem)

  // ---- The decision ---------------------------------------------------------------------------

  function WritableMessengers(members: seq<Member>): nat {
    if members == [] then 0 else (if members[0].MessengerMember? then 1 else 0) + WritableMessengers(members[1..])
  }

  function WireText(src: Message, room: RoomRoute, tag: string, fmt: LabelFormat, fromMessenger: bool): string {
    if fromMessenger then X.BuildLoraText(src, WritableMessengers(room.members), tag, fmt) else X.RelayLoraText(src)
  }

  function ItemOf(src: Message, target: Member, text: string, fromMessenger: bool, enqueuedAt: real): QueueItem {
    QueueItem(src.source, src.id, target.Ref(), src.(text := text), src, fromMessenger, enqueuedAt)
  }

  // taken: the limiter allows one more message and the stream has room.
  function Judged(item: QueueItem, maxTextBytes: int, taken: bool): Verdict {
    if X.OversizeBytes(item.payload.text, maxTextBytes) > 0
    then (if item.fromMessenger then Refused(TOO_LONG) else Dropped)
    else if !taken then (if item.fromMessenger then Refused(RATE_LIMIT) else Dropped)
    else Queued(item)
  }

  // ---- What goes on the air, told without the code's own builders -------------------------------

  ghost predicate SeveralChatsWrite(members: seq<Member>) {
    exists i, j :: 0 <= i < j < |members| && members[i].MessengerMember? && members[j].MessengerMember?
  }

  // A chat's message: the clipped nick and the text at their places in brackets, and the messenger's
  // tag in front of the nick exactly when several chats write to the room and the node labels them.
  ghost predicate Labelled(p: string, src: Message, members: seq<Member>, tag: string, fmt: LabelFormat, nick: string) {
    var tagged := SeveralChatsWrite(members) && fmt.includeType;
    var at := if tagged then |tag| + 2 else 1;
    && U.LongestFit(src.sender.displayName, if fmt.maxNickBytes > 0 then fmt.maxNickBytes else 0, nick)
    && InPlace(p, at, nick, src.text)
    && p[0] == '[' && (tagged ==> p[1..at - 1] == tag && p[at - 1] == ':')
  }

  // The nick from position `at`, a closing bracket and a blank, and the text to the end.
  predicate InPlace(p: string, at: nat, nick: string, text: string) {
    && |p| == at + |nick| + 2 + |text|
    && p[at..at + |nick|] == nick && p[at + |nick|..at + |nick| + 2] == "] " && p[at + |nick| + 2..] == text
  }

  // A relay: the author in brackets in front of the text, or the text alone when nobody is named.
  predicate Relayed(p: string, src: Message) {
    p == if src.sender.displayName == "" then src.text else "[" + src.sender.displayName + "] " + src.text
  }

  // What is queued for a message: where it came from, where it goes, what goes on the air.
  ghost predicate Announces(x: QueueItem, src: Message, target: Member, members: seq<Member>, tag: string,
                            fmt: LabelFormat, fromMessenger: bool, enqueuedAt: real)
  {
    && x.source == src.source && x.sourceMsgId == src.id && x.target == target.Ref() && x.original == src
    && x.enqueuedAt == enqueuedAt
    && x.fromMessenger == fromMessenger && x.payload == src.(text := x.payload.text)
    && (fromMessenger ==> exists nick :: Labelled(x.payload.text, src, members, tag, fmt, nick))
    && (!fromMessenger ==> Relayed(x.payload.text, src))
  }

  lemma {:induction false} WritersAreCounted(members: seq<Member>)
    ensures WritableMessengers(members) > 0 <==> exists i :: 0 <= i < |members| && members[i].MessengerMember?
    ensures WritableMessengers(members) > 1 <==> SeveralChatsWrite(members)
  {
    if members != [] {
      var rest := members[1..];
      WritersAreCounted(rest);
      assert forall i :: 0 <= i < |rest| ==> rest[i] == members[i + 1];
      if SeveralChatsWrite(members) {
        var i, j :| 0 <= i < j < |members| && members[i].MessengerMember? && members[j].MessengerMember?;
        assert rest[j - 1].MessengerMember?;
        assert i > 0 ==> rest[i - 1].MessengerMember?;
      }
      if SeveralChatsWrite(rest) {
        var i, j :| 0 <= i < j < |rest| && rest[i].MessengerMember? && rest[j].MessengerMember?;
        assert members[i + 1].MessengerMember? && members[j + 1].MessengerMember?;
      }
    }
  }

  lemma LabelIsRight(src: Message, members: seq<Member>, tag: string, fmt: LabelFormat)
    ensures Labelled(X.BuildLoraText(src, WritableMessengers(members), tag, fmt), src, members, tag, fmt,
                     X.Nick(src, fmt))
  {
    hide X.ClipUtf8, U.LongestFit, SeveralChatsWrite, InPlace;
    WritersAreCounted(members);
    NickIsLongestFit(src.sender.displayName, fmt.maxNickBytes);
    TaggedInPlace(tag, X.Nick(src, fmt), src.text);
    FrontInPlace("[", X.Nick(src, fmt), src.text);
  }

  lemma TaggedInPlace(tag: string, nick: string, text: string)
    ensures var p := "[" + tag + ":" + nick + "] " + text;
      InPlace(p, |tag| + 2, nick, text) && p[0] == '[' && p[1..|tag| + 1] == tag && p[|tag| + 1] == ':'
  {
    hide InPlace;
    var front := "[" + tag + ":";
    FrontInPlace(front, nick, text);
    var p := front + nick + "] " + text;
    assert p[..|front|][1..|tag| + 1] == p[1..|tag| + 1];
    assert front[1..|tag| + 1] == tag;
  }

  lemma FrontInPlace(front: string, nick: string, text: string)
    requires front != ""
    ensures var p := front + nick + "] " + text;
      && InPlace(p, |front|, nick, text) && |front| <= |p| && p[..|front|] == front
      && p[0] == front[0] && p[|front| - 1] == front[|front| - 1]
  {
  }

  lemma NickIsLongestFit(name: string, maxBytes: int)
    ensures U.LongestFit(name, if maxBytes > 0 then maxBytes else 0, X.ClipUtf8(name, maxBytes))
  {
    X.ClipIsLongestFit(name, if maxBytes > 0 then maxBytes else 0, X.ClipUtf8(name, maxBytes));
  }

  lemma ItemAnnounces(src: Message, target: Member, room: RoomRoute, tag: string, fmt: LabelFormat,
                      fromMessenger: bool, enqueuedAt: real)
    ensures Announces(ItemOf(src, target, WireText(src, room, tag, fmt, fromMessenger), fromMessenger, enqueuedAt),
                      src, target, room.members, tag, fmt, fromMessenger, enqueuedAt)
  {
    hide Labelled, X.BuildLoraText;
    LabelIsRight(src, room.members, tag, fmt);
  }

  // The relay keeps authors apart: one text by two authors goes on the air as two texts.
  lemma RelayTellsAuthorsApart(x: QueueItem, a: Message, y: QueueItem, b: Message, target: Member,
                               members: seq<Member>, tag: string, fmt: LabelFormat, now: real, later: real)
    requires Announces(x, a, target, members, tag, fmt, false, now)
    requires Announces(y, b, target, members, tag, fmt, false, later)
    requires a.text == b.text
    ensures x.payload.text == y.payload.text <==> a.sender.displayName == b.sender.displayName
  {
    hide Labelled, Relayed;
    RelayedApart(x.payload.text, a.sender.displayName, y.payload.text, b.sender.displayName, a.text) by {
      assert Relayed(x.payload.text, a) && Relayed(y.payload.text, b);
      RelayedParts(x.payload.text, a);
      RelayedParts(y.payload.text, b);
    }
    if a.sender.displayName == b.sender.displayName {
      RelayedOnce(x.payload.text, a, y.payload.text, b);
    }
  }

  lemma RelayedOnce(p: string, a: Message, q: string, b: Message)
    requires Relayed(p, a) && Relayed(q, b) && a.text == b.text && a.sender.displayName == b.sender.displayName
    ensures p == q
  {
  }

  lemma RelayedParts(p: string, src: Message)
    requires Relayed(p, src)
    ensures var name := src.sender.displayName;
      if name == "" then |p| == |src.text|
      else |p| == |name| + |src.text| + 3 && p[1..1 + |name|] == name
    ensures src.sender.displayName == "" ==> p == src.text
  {
  }

  // Only lengths and places count.
  lemma RelayedApart(p: string, n: string, q: string, m: string, text: string)
    requires if n == "" then p == text else |p| == |n| + |text| + 3 && p[1..1 + |n|] == n
    requires if m == "" then q == text else |q| == |m| + |text| + 3 && q[1..1 + |m|] == m
    ensures p == q ==> n == m
  {
  }

  // The verdict in plain terms: too long comes before the queue is asked, a chat is told, a relay is
  // dropped.
  lemma VerdictIsRight(item: QueueItem, maxTextBytes: int, taken: bool)
    ensures var v, fits := Judged(item, maxTextBytes, taken), |U.Encode(item.payload.text)| <= maxTextBytes;
      && (fits && taken <==> v == Queued(item)) && (v.Queued? ==> v.item == item)
      && (item.fromMessenger && !fits <==> v == Refused(TOO_LONG))
      && (item.fromMessenger && fits && !taken <==> v == Refused(RATE_LIMIT))
      && (!item.fromMessenger && !(fits && taken) <==> v == Dropped)
  {
  }

  // What a verdict leaves, in plain terms: a queued item has one new committed row that describes it
  // and its sender hears PENDING; a refusal is told and counted once, with its reason; nobody hears of
  // anything else, and no other row changes.
  lemma NobodyIsLeftGuessing(b: Books, v: Verdict, source: ChannelRef, msgId: string, now: real, key: string)
    ensures var after := Left(b, v, source, msgId, now);
      && after.statuses == b.statuses +
           (if v.Queued? then [Report(source, msgId, PENDING, None)]
            else if v.Refused? then [Report(source, msgId, REJECTED, Some(v.reason))] else [])
      && after.notes == b.notes + (if v.Refused? then [D.Note(source, v.reason, now)] else [])
      && (v.Queued? ==>
            var row := P.At(after.db.committed, v.item.MsgKey());
            && row.Some? && P.Describes(row.value, v.item) && row.value.status == PENDING
            && row.value.enqueuedAt == v.item.enqueuedAt && row.value.txStartedAt.None?)
      && (v.Queued? && key != v.item.MsgKey() ==> P.At(after.db.working, key) == P.At(b.db.working, key))
      && (!v.Queued? ==> after.db == b.db)
      && after.queue == b.queue
  {
    assert b.statuses + [] == b.statuses && b.notes + [] == b.notes;
  }

  // ---- What a verdict leaves behind -----------------------------------------------------------

  // What one node's queue, the journal, the status log and the node's notifier hold.
  datatype Books = Books(queue: Q.View, db: J.Db, statuses: seq<Report>, notes: seq<D.Event>)

  // The queue is asked about every text that fits; one that is too long costs no air time.
  ghost function Asked(b: Books, item: QueueItem, maxTextBytes: int, now: real): Books {
    if X.OversizeBytes(item.payload.text, maxTextBytes) > 0 then b else b.(queue := b.queue.Put(item, now))
  }

  // A queued item is journalled and reported PENDING; a refusal is reported and counted.
  function Left(b: Books, v: Verdict, source: ChannelRef, msgId: string, now: real): Books {
    match v
    case Ignored => b
    case Dropped => b
    case Refused(reason) =>
      b.(statuses := b.statuses + [Report(source, msgId, REJECTED, Some(reason))],
         notes := b.notes + [D.Note(source, reason, now)])
    case Queued(x) =>
      b.(db := b.db.Executed(J.Insert(x.MsgKey(), P.RowOf(x))).Published(),
         statuses := b.statuses + [Report(source, msgId, PENDING, None)])
  }

  // ---- The same on the machine of the whole pipeline --------------------------------------------

  // The machine's journal and its queue of node n are those of the books.
  ghost predicate Matches(s: P.Sys, n: string, b: Books) {
    s.db == b.db && n in s.nodes && N.QueueOf(s.nodes[n]) == b.queue
  }

  // An admission is what the pipeline theorems are about: a queued item is the machine's enqueue and
  // the commit of its row, a refusal by the queue is the machine's rejected put, and a text that is
  // too long is no step at all. The other nodes see nothing of it.
  lemma EnqueueIsTheMachine(s: P.Sys, b: Books, x: QueueItem, maxTextBytes: int, now: real,
                            source: ChannelRef, msgId: string, later: real)
    requires P.Can(s, P.Enqueue(x, now)) && Matches(s, x.target.transportId, b)
    requires N.Alive(s.nodes[x.target.transportId])
    ensures var n, t := x.target.transportId, P.After(s, P.Enqueue(x, now));
      var v := Judged(x, maxTextBytes, b.queue.Takes(now));
      var after := Left(Asked(b, x, maxTextBytes, now), v, source, msgId, later);
      && (v.Queued? ==> P.Can(t, P.InsertCommit) && Matches(P.After(t, P.InsertCommit), n, after))
      && (!v.Queued? ==> Matches(if X.OversizeBytes(x.payload.text, maxTextBytes) > 0 then s else t, n, after))
      && (forall m :: m in s.nodes && m != n ==> m in t.nodes && t.nodes[m] == s.nodes[m])
  {
    var n := x.target.transportId;
    assert s.nodes[n].clock <= now by { hide N.Alive, N.Put, N.Accepts; }
    N.PutIsQueuePut(s.nodes[n], x, now);
    EnqueueStep(s, x, now);
    hide P.Can, P.After, N.Put, N.Accepts, N.Alive, N.QueueOf, Q.View.Put,
      Q.View.Takes, P.RowOf, J.Exec, X.OversizeBytes;
  }

  lemma EnqueueStep(s: P.Sys, x: QueueItem, now: real)
    requires P.Can(s, P.Enqueue(x, now))
    ensures var n, t := x.target.transportId, P.After(s, P.Enqueue(x, now));
      && t.nodes == s.nodes[n := N.Put(s.nodes[n], x, now)]
      && (!N.Accepts(s.nodes[n], now) ==> t.db == s.db)
      && (N.Accepts(s.nodes[n], now) ==>
            && P.Can(t, P.InsertCommit)
            && P.After(t, P.InsertCommit).db == s.db.Executed(J.Insert(x.MsgKey(), P.RowOf(x))).Published()
            && P.After(t, P.InsertCommit).nodes == t.nodes)
  {
    hide N.Put, N.Accepts, P.RowOf, J.Exec;
  }

  // What the journal keeps is enough to queue the item again: same key, same source and target, same
  // text on the air, and still a chat's message if it was one. The row is new and dated.
  lemma JournalCanRebuild(b: Books, x: QueueItem, source: ChannelRef, msgId: string, now: real,
                          messengers: set<string>, later: real)
    ensures var row := Left(b, Queued(x), source, msgId, now).db.committed[x.MsgKey()];
      var y := P.Rebuilt(J.Entry(x.MsgKey(), row), messengers, later);
      && y.MsgKey() == x.MsgKey() && y.target == x.target && y.payload.text == x.payload.text && y.source == x.source
      && ((x.fromMessenger <==> x.source.transportId in messengers) ==> y.fromMessenger == x.fromMessenger)
      && row.status == PENDING && row.enqueuedAt == x.enqueuedAt && row.txStartedAt.None?
  {
  }

  // A queued payload fits the air, carries the sender's text unchanged behind its label, and keeps
  // the original for the mirrors.
  lemma {:induction false} QueuedPayloadFits(src: Message, target: Member, room: RoomRoute,
                          tag: string, fmt: LabelFormat,
                          fromMessenger: bool, enqueuedAt: real, maxTextBytes: int, taken: bool)
    ensures var text := WireText(src, room, tag, fmt, fromMessenger);
      var v := Judged(ItemOf(src, target, text, fromMessenger, enqueuedAt), maxTextBytes, taken);
      v.Queued? ==>
        && X.Utf8Len(v.item.payload.text) <= maxTextBytes
        && |src.text| <= |v.item.payload.text| && v.item.payload.text[|v.item.payload.text| - |src.text|..] == src.text
        && v.item.original == src && v.item.target == target.Ref()
  {
    hide X.Label, X.Utf8Len;
    var text := WireText(src, room, tag, fmt, fromMessenger);
    assert exists front: string :: text == front + src.text by {
      if fromMessenger {
        assert text == X.Label(src, WritableMessengers(room.members), tag, fmt) + src.text;
      } else if src.sender.displayName != "" {
        assert text == "[" + src.sender.displayName + "] " + src.text;
      } else {
        assert text == "" + src.text;
      }
    }
  }

  // A text short enough for a full-length nick is refused only for want of air time.
  lemma ShortTextIsNeverTooLong(src: Message, target: Member, room: RoomRoute, tag: string, fmt: LabelFormat,
                                enqueuedAt: real, maxTextBytes: int, taken: bool)
    requires X.Utf8Len(src.text) + X.Frame(WritableMessengers(room.members), tag, fmt)
      + (if fmt.maxNickBytes > 0 then fmt.maxNickBytes else 0) <= maxTextBytes
    ensures Judged(ItemOf(src, target, WireText(src, room, tag, fmt, true), true, enqueuedAt), maxTextBytes, taken)
      != Refused(TOO_LONG)
  {
    X.ShortTextAlwaysFits(src, WritableMessengers(room.members), tag, fmt, maxTextBytes);
  }

  // ---- Mirrors --------------------------------------------------------------------------------

  function Mirrors(refs: seq<ChannelRef>, msg: Message): seq<Mirror> {
    seq(|refs|, i requires 0 <= i < |refs| => Mirror(refs[i], msg))
  }

  lemma {:induction false} MirrorRefsAppend(a: seq<Member>, b: seq<Member>, source: ChannelRef, messengers: set<string>)
    ensures MirrorRefs(a + b, source, messengers) ==
      MirrorRefs(a, source, messengers) + MirrorRefs(b, source, messengers)
  {
    if a == [] {
      assert a + b == b;
    } else {
      MirrorRefsAppend(a[1..], b, source, messengers);
      assert (a + b)[1..] == a[1..] + b && (a + b)[0] == a[0];
      var first := if a[0].MessengerMember? && a[0].Ref() != source && a[0].transportId in messengers
        then [a[0].Ref()] else [];
      ConcatAssociates(first, MirrorRefs(a[1..], source, messengers), MirrorRefs(b, source, messengers));
    }
  }

  lemma MirrorsStep(members: seq<Member>, i: nat, source: ChannelRef, messengers: set<string>)
    requires i < |members|
    ensures MirrorRefs(members[..i + 1], source, messengers) ==
      MirrorRefs(members[..i], source, messengers) +
      (if members[i].MessengerMember? && members[i].Ref() != source && members[i].transportId in messengers
       then [members[i].Ref()] else [])
  {
    assert members[..i + 1] == members[..i] + [members[i]];
    MirrorRefsAppend(members[..i], [members[i]], source, messengers);
    assert [members[i]][1..] == [];
    assert MirrorRefs([members[i]][1..], source, messengers) == [];
  }

  lemma {:induction false} OthersAreNotTheSource(members: seq<Member>, source: ChannelRef, messengers: set<string>)
    ensures MirrorRefs(Others(members, source), source, messengers) == MirrorRefs(members, source, messengers)
    ensures forall i :: 0 <= i < |Others(members, source)| ==> Others(members, source)[i].Ref() != source
  {
    if members != [] {
      OthersAreNotTheSource(members[1..], source, messengers);
      var rest := Others(members[1..], source);
      assert ([members[0]] + rest)[1..] == rest;
    }
  }

  // ---- The mutable object ---------------------------------------------------------------------

  const NOTHING := Books(Q.View(0, 0.0, None, 0.0, [], Q.Stream([], false, None)), J.Db(map[], map[]), [], [])

  class Bridge {
    const nodes: map<string, NodeRuntime>
    const messengers: map<string, string>   // messenger id to tag
    const rooms: Registry
    const readonlyEndpoints: set<ChannelRef>
    const journal: J.SqliteJournal
    var statuses: seq<Report>
    var mirrors: seq<Mirror>

    constructor (nodes: map<string, NodeRuntime>, messengers: map<string, string>, rooms: Registry,
                 readonlyEndpoints: set<ChannelRef>, journal: J.SqliteJournal)
      ensures this.nodes == nodes && this.messengers == messengers && this.rooms == rooms
      ensures this.readonlyEndpoints == readonlyEndpoints && this.journal == journal && statuses == [] && mirrors == []
    {
      this.nodes, this.messengers, this.rooms := nodes, messengers, rooms;
      this.readonlyEndpoints, this.journal, statuses, mirrors := readonlyEndpoints, journal, [], [];
    }

    // The node's queue and notifier can be used at this clock reading.
    ghost predicate NodeReady(n: string, now: real)
      requires n in nodes
      reads nodes[n].queue, nodes[n].queue.bucket, nodes[n].notifier
    {
      nodes[n].queue.Valid() && nodes[n].queue.Now().Ready(now)
      && nodes[n].notifier.Valid() && nodes[n].notifier.state.clock <= now
    }

    ghost function Footprint(n: string): set<object>
      requires n in nodes
      reads nodes[n].queue
    {
      {nodes[n].queue, nodes[n].notifier} + (if nodes[n].queue.bucket == null then {} else {nodes[n].queue.bucket})
    }

    ghost predicate NodeValid(n: string)
      requires n in nodes
      reads nodes[n].queue, nodes[n].queue.bucket, nodes[n].notifier
    {
      nodes[n].queue.Valid() && nodes[n].notifier.Valid()
    }

    ghost function BooksOf(n: string): Books
      requires n in nodes
      reads this`statuses, journal, nodes[n].queue, nodes[n].queue.bucket, nodes[n].notifier
    {
      Books(nodes[n].queue.Now(), journal.db, statuses, nodes[n].notifier.events)
    }

    // Without such a node only the status is reported.
    method Reject(source: ChannelRef, msgId: string, reason: RejectReason, nodeId: string, now: real)
      requires nodeId in nodes ==> nodes[nodeId].notifier.Valid() && nodes[nodeId].notifier.state.clock <= now
      modifies this`statuses, if nodeId in nodes then {nodes[nodeId].notifier} else {}
      ensures statuses == old(statuses) + [Report(source, msgId, REJECTED, Some(reason))]
      ensures nodeId in nodes ==>
        nodes[nodeId].notifier.Valid() &&
        BooksOf(nodeId) == Left(old(BooksOf(nodeId)), Refused(reason), source, msgId, now)
    {
      hide D.Run;
      statuses := statuses + [Report(source, msgId, REJECTED, Some(reason))];
      if nodeId in nodes {
        var _ := nodes[nodeId].notifier.NoteReject(source, reason, now);
      }
    }

    // A chat is told, a relay is only logged.
    method TurnAway(src: Message, reason: RejectReason, fromMessenger: bool, nodeId: string, now: real)
      returns (v: Verdict)
      requires nodeId in nodes && nodes[nodeId].notifier.Valid() && nodes[nodeId].notifier.state.clock <= now
      modifies this`statuses, nodes[nodeId].notifier
      ensures v == if fromMessenger then Refused(reason) else Dropped
      ensures nodes[nodeId].notifier.Valid() && BooksOf(nodeId) ==
        Left(old(BooksOf(nodeId)), v, src.source, src.id, now)
    {
      v := Dropped;
      if fromMessenger {
        Reject(src.source, src.id, reason, nodeId, now);
        v := Refused(reason);
      }
    }

    function TagOf(src: Message, fromMessenger: bool): string
      requires fromMessenger ==> src.source.transportId in messengers
    {
      if fromMessenger then messengers[src.source.transportId] else ""
    }

    lemma ItemForAnnounces(src: Message, target: Member, room: RoomRoute, fromMessenger: bool, enqueuedAt: real)
      requires target.LoraMember? && target.nodeId in nodes && (fromMessenger ==> src.source.transportId in messengers)
      ensures Announces(ItemFor(src, target, room, fromMessenger, enqueuedAt), src, target, room.members,
                        TagOf(src, fromMessenger), nodes[target.nodeId].labelFmt, fromMessenger, enqueuedAt)
    {
      hide Announces, WireText;
      ItemAnnounces(src, target, room, TagOf(src, fromMessenger), nodes[target.nodeId].labelFmt, fromMessenger,
                    enqueuedAt);
    }

    // The item this message becomes on its way to this target.
    ghost function ItemFor(src: Message, target: Member, room: RoomRoute, fromMessenger: bool,
                           enqueuedAt: real): QueueItem
      requires target.LoraMember? && target.nodeId in nodes && (fromMessenger ==> src.source.transportId in messengers)
    {
      var tag := if fromMessenger then messengers[src.source.transportId] else "";
      ItemOf(src, target, WireText(src, room, tag, nodes[target.nodeId].labelFmt, fromMessenger),
             fromMessenger, enqueuedAt)
    }

    // enqueuedAt, now and later are the readings for the item, the limiter and the notifier.
    method EnqueueToLora(src: Message, target: Member, room: RoomRoute, fromMessenger: bool,
                         enqueuedAt: real, now: real, later: real) returns (v: Verdict)
      requires target.LoraMember? && target.nodeId in nodes && NodeReady(target.nodeId, now) && now <= later
      requires fromMessenger ==> src.source.transportId in messengers
      modifies this`statuses, journal, Footprint(target.nodeId)
      ensures NodeValid(target.nodeId)
      ensures v == Judged(ItemFor(src, target, room, fromMessenger, enqueuedAt), nodes[target.nodeId].maxTextBytes,
                          old(BooksOf(target.nodeId)).queue.Takes(now))
      ensures if fromMessenger then v.Queued? || v.Refused? else v.Queued? || v.Dropped?
      ensures v.Queued? ==>
        Announces(v.item, src, target, room.members, TagOf(src, fromMessenger), nodes[target.nodeId].labelFmt,
                  fromMessenger, enqueuedAt)
      ensures BooksOf(target.nodeId) ==
        Left(Asked(old(BooksOf(target.nodeId)), ItemFor(src, target, room, fromMessenger, enqueuedAt),
                   nodes[target.nodeId].maxTextBytes, now),
             v, src.source, src.id, later)
    {
      hide X.BuildLoraText, X.RelayLoraText, X.OversizeBytes, D.Run, J.Exec, Q.View.Put, Q.View.Takes, Q.View.Ready,
        Announces;
      ItemForAnnounces(src, target, room, fromMessenger, enqueuedAt);
      var node := nodes[target.nodeId];
      var tag := if fromMessenger then messengers[src.source.transportId] else "";
      var text := if fromMessenger
        then X.BuildLoraText(src, WritableMessengers(room.members), tag, node.labelFmt)
        else X.RelayLoraText(src);
      var over := X.OversizeBytes(text, node.maxTextBytes);
      if over > 0 {
        v := TurnAway(src, TOO_LONG, fromMessenger, target.nodeId, later);
        return;
      }
      var item := QueueItem(src.source, src.id, target.Ref(), src.(text := text), src, fromMessenger, enqueuedAt);
      var accepted := node.queue.PutNowait(item, now);
      if !accepted {
        v := TurnAway(src, RATE_LIMIT, fromMessenger, target.nodeId, later);
        return;
      }
      journal.RecordPending(J.Entry(item.MsgKey(),
        J.Row(src.source.transportId, src.source.channel, src.id, target.nodeId, target.endpoint,
              PENDING, item.enqueuedAt, None, text)));
      statuses := statuses + [Report(src.source, src.id, PENDING, None)];
      v := Queued(item);
    }

    // The LoRa endpoint a chat's messages go to.
    function TargetOf(msg: Message): Option<Member> {
      if msg.source !in rooms then None
      else
        var targets := Y.LoraTargets(rooms[msg.source].members, msg.source);
        if targets == [] then None else Some(targets[0])
    }

    // The wiring `build_lora_nodes` provides: every LoRa endpoint of a room is on a known node.
    ghost predicate Wired() {
      forall ref, i :: ref in rooms && 0 <= i < |rooms[ref].members| && rooms[ref].members[i].LoraMember? ==>
        rooms[ref].members[i].nodeId in nodes
    }

    lemma TargetIsWired(msg: Message)
      requires Wired() && TargetOf(msg).Some?
      ensures TargetOf(msg).value.LoraMember? && TargetOf(msg).value.nodeId in nodes
    {
      var m := LoraTargetIsMember(rooms[msg.source].members, msg.source);
    }

    // The verdict of `admit`. policy is the answer of the admission policy, if there is one; taken
    // says whether the queue takes one more item.
    ghost function Admission(msg: Message, policy: Option<RejectReason>, enqueuedAt: real, taken: bool): Verdict
      requires TargetOf(msg).Some? ==> TargetOf(msg).value.LoraMember? && TargetOf(msg).value.nodeId in nodes
      requires msg.source.transportId in messengers
    {
      if TargetOf(msg).None? then Ignored
      else if TargetOf(msg).value.Ref() in readonlyEndpoints then Refused(READONLY)
      else if policy.Some? then Refused(policy.value)
      else
        var target := TargetOf(msg).value;
        Judged(ItemFor(msg, target, rooms[msg.source], true, enqueuedAt), nodes[target.nodeId].maxTextBytes, taken)
    }

    // A message from a chat: it is queued, or its sender is told exactly once why not. The queue is
    // asked only about a message that passed the other checks.
    method Admit(msg: Message, policy: Option<RejectReason>, enqueuedAt: real, now: real, later: real)
      returns (v: Verdict)
      requires TargetOf(msg).Some? ==>
        TargetOf(msg).value.LoraMember? && TargetOf(msg).value.nodeId in nodes
        && NodeReady(TargetOf(msg).value.nodeId, now)
      requires msg.source.transportId in messengers && now <= later
      modifies this`statuses, journal, if TargetOf(msg).Some? then Footprint(TargetOf(msg).value.nodeId) else {}
      ensures v == Admission(msg, policy, enqueuedAt,
                             TargetOf(msg).Some? && old(BooksOf(TargetOf(msg).value.nodeId)).queue.Takes(now))
      ensures !v.Dropped? && (v.Ignored? <==> TargetOf(msg).None?)
      ensures TargetOf(msg).Some? && TargetOf(msg).value.Ref() in readonlyEndpoints ==> v == Refused(READONLY)
      ensures TargetOf(msg).Some? && TargetOf(msg).value.Ref() !in readonlyEndpoints && policy.Some? ==>
        v == Refused(policy.value)
      ensures v.Queued? ==>
        && TargetOf(msg).value.Ref() !in readonlyEndpoints && policy.None?
        && Announces(v.item, msg, TargetOf(msg).value, rooms[msg.source].members, TagOf(msg, true),
                     nodes[TargetOf(msg).value.nodeId].labelFmt, true, enqueuedAt)
      ensures v.Ignored? ==> statuses == old(statuses) && journal.db == old(journal.db)
      ensures !v.Ignored? ==>
        var target := TargetOf(msg).value;
        var before := old(BooksOf(TargetOf(msg).value.nodeId));
        var asked :=
          if target.Ref() in readonlyEndpoints || policy.Some? then before
          else Asked(before, ItemFor(msg, target, rooms[msg.source], true, enqueuedAt),
                     nodes[target.nodeId].maxTextBytes, now);
        NodeValid(target.nodeId) && BooksOf(target.nodeId) == Left(asked, v, msg.source, msg.id, later)
    {
      hide D.Run, Judged, WireText, Q.View.Put, Q.View.Takes, Q.View.Ready, Asked, Announces;
      if msg.source !in rooms {
        return Ignored;
      }
      var room := rooms[msg.source];
      var targets := Y.LoraTargets(room.members, msg.source);
      if targets == [] {
        return Ignored;
      }
      var target := targets[0];
      if target.Ref() in readonlyEndpoints {
        Reject(msg.source, msg.id, READONLY, target.nodeId, later);
        return Refused(READONLY);
      }
      if policy.Some? {
        Reject(msg.source, msg.id, policy.value, target.nodeId, later);
        return Refused(policy.value);
      }
      v := EnqueueToLora(msg, target, room, true, enqueuedAt, now, later);
    }

    // `mirror_to_messenger`: an attempt when the messenger is configured.
    method MirrorToMessenger(member: Member, msg: Message)
      requires member.MessengerMember?
      modifies this`mirrors
      ensures mirrors == old(mirrors) + (if member.transportId in messengers then [Mirror(member.Ref(), msg)] else [])
    {
      if member.transportId in messengers {
        mirrors := mirrors + [Mirror(member.Ref(), msg)];
      }
    }

    // The original goes to every other chat of the room, in room order.
    method OnCommitted(item: QueueItem)
      modifies this`mirrors
      ensures mirrors == old(mirrors) + Mirrors(MirrorTargets(rooms, messengers.Keys, item), item.original)
    {
      if !item.fromMessenger || item.source !in rooms {
        return;
      }
      var members := rooms[item.source].members;
      ghost var refs := MirrorRefs(members[..0], item.source, messengers.Keys);
      for i := 0 to |members|
        invariant refs == MirrorRefs(members[..i], item.source, messengers.Keys)
        invariant mirrors == old(mirrors) + Mirrors(refs, item.original)
      {
        MirrorsStep(members, i, item.source, messengers.Keys);
        if members[i].MessengerMember? && members[i].Ref() != item.source {
          MirrorToMessenger(members[i], item.original);
        }
        refs := MirrorRefs(members[..i + 1], item.source, messengers.Keys);
      }
      assert members[..|members|] == members;
    }

    // The worker found the item stale: a chat is told, a relay is only logged.
    method OnReject(item: QueueItem, reason: RejectReason, now: real)
      requires item.target.transportId in nodes ==>
        nodes[item.target.transportId].notifier.Valid() && nodes[item.target.transportId].notifier.state.clock <= now
      modifies this`statuses, if item.target.transportId in nodes then {nodes[item.target.transportId].notifier} else {}
      ensures statuses == old(statuses) +
        (if item.fromMessenger then [Report(item.source, item.sourceMsgId, REJECTED, Some(reason))] else [])
      ensures item.target.transportId in nodes ==>
        && nodes[item.target.transportId].notifier.Valid()
        && BooksOf(item.target.transportId) ==
             Left(old(BooksOf(item.target.transportId)), if item.fromMessenger then Refused(reason) else Dropped,
                  item.source, item.sourceMsgId, now)
    {
      if item.fromMessenger {
        Reject(item.source, item.sourceMsgId, reason, item.target.transportId, now);
      }
    }

    // A message from the air: a mirror to every chat of its room, in room order, and a relay to the
    // peer endpoint of a room that has one. The shape check of the configuration leaves one at most.
    method RouteFromLora(msg: Message, enqueuedAt: real, now: real, later: real) returns (relay: Option<Verdict>)
      requires TargetOf(msg).Some? ==>
        && TargetOf(msg).value.LoraMember? && TargetOf(msg).value.nodeId in nodes
        && NodeReady(TargetOf(msg).value.nodeId, now)
        && |Y.LoraTargets(rooms[msg.source].members, msg.source)| == 1
      requires now <= later
      modifies this, journal, if TargetOf(msg).Some? then Footprint(TargetOf(msg).value.nodeId) else {}
      ensures mirrors == old(mirrors) +
        (if msg.source in rooms then Mirrors(MirrorRefs(rooms[msg.source].members, msg.source, messengers.Keys), msg)
         else [])
      ensures relay.Some? <==> TargetOf(msg).Some?
      ensures relay.None? ==> statuses == old(statuses) && journal.db == old(journal.db)
      ensures relay.Some? && relay.value.Queued? ==>
        Announces(relay.value.item, msg, TargetOf(msg).value, rooms[msg.source].members, "",
                  nodes[TargetOf(msg).value.nodeId].labelFmt, false, enqueuedAt)
      ensures relay.Some? ==>
        var target := TargetOf(msg).value;
        var before := old(BooksOf(TargetOf(msg).value.nodeId));
        var item := ItemFor(msg, target, rooms[msg.source], false, enqueuedAt);
        && NodeValid(target.nodeId) && !relay.value.Refused?
        && relay.value == Judged(item, nodes[target.nodeId].maxTextBytes, before.queue.Takes(now))
        && BooksOf(target.nodeId) ==
             Left(Asked(before, item, nodes[target.nodeId].maxTextBytes, now), relay.value, msg.source, msg.id, later)
    {
      hide Announces, D.Run, MirrorRefs, Others, Judged, ItemFor, Y.LorasOf, Left, Asked, NodeReady, NodeValid,
        Q.View.Takes, Q.View.Ready;
      relay := None;
      if msg.source !in rooms {
        return;
      }
      var members := rooms[msg.source].members;
      var others := Others(members, msg.source);
      ghost var target := TargetOf(msg);
      ghost var before := if target.Some? then BooksOf(target.value.nodeId) else NOTHING;
      ghost var verdict, after := Ignored, NOTHING;
      if target.Some? {
        var item, max := ItemFor(msg, target.value, rooms[msg.source], false, enqueuedAt),
          nodes[target.value.nodeId].maxTextBytes;
        verdict := Judged(item, max, before.queue.Takes(now));
        after := Left(Asked(before, item, max, now), verdict, msg.source, msg.id, later);
      }
      ghost var refs := [];
      OthersAreNotTheSource(members, msg.source, messengers.Keys);
      NothingRouted(others, msg.source, messengers.Keys);
      for i := 0 to |others|
        invariant refs == MirrorRefs(others[..i], msg.source, messengers.Keys)
        invariant mirrors == old(mirrors) + Mirrors(refs, msg)
        invariant |Y.LorasOf(others[..i])| == if relay.Some? then 1 else 0
        invariant relay.None? ==> statuses == old(statuses) && journal.db == old(journal.db)
        invariant relay.None? && target.Some? ==> Waiting(target.value.nodeId, now, before)
        invariant relay.Some? ==> target.Some? && !relay.value.Refused? && NodeValid(target.value.nodeId)
        invariant relay.Some? && relay.value.Queued? ==>
          Announces(relay.value.item, msg, target.value, rooms[msg.source].members, "",
                    nodes[target.value.nodeId].labelFmt, false, enqueuedAt)
        invariant relay.Some? ==> relay.value == verdict && BooksOf(target.value.nodeId) == after
      {
        MirrorsStep(others, i, msg.source, messengers.Keys);
        LorasStep(others, i);
        refs := MirrorRefs(others[..i + 1], msg.source, messengers.Keys);
        match others[i] {
          case LoraMember(_, _) =>
            var v := EnqueueToLora(msg, others[i], rooms[msg.source], false, enqueuedAt, now, later);
            relay := Some(v);
          case MessengerMember(_, _, _) =>
            MirrorToMessenger(others[i], msg);
        }
      }
      assert others[..|others|] == others;
    }

    // Nothing happened to this node's queue and notifier yet.
    ghost predicate Waiting(n: string, now: real, before: Books)
      requires n in nodes
      reads this`statuses, journal, nodes[n].queue, nodes[n].queue.bucket, nodes[n].notifier
    {
      NodeReady(n, now) && BooksOf(n) == before
    }
  }

  lemma NothingRouted(others: seq<Member>, source: ChannelRef, messengers: set<string>)
    ensures MirrorRefs(others[..0], source, messengers) == [] && Y.LorasOf(others[..0]) == []
  {
  }

  lemma {:induction false} LorasAppend(a: seq<Member>, b: seq<Member>)
    ensures Y.LorasOf(a + b) == Y.LorasOf(a) + Y.LorasOf(b)
  {
    if a == [] {
      assert a + b == b;
    } else {
      LorasAppend(a[1..], b);
      assert (a + b)[1..] == a[1..] + b && (a + b)[0] == a[0];
      ConcatAssociates(if a[0].LoraMember? then [a[0]] else [], Y.LorasOf(a[1..]), Y.LorasOf(b));
    }
  }

  // A LoRa member met on the way is the next one of the list of targets.
  lemma LorasStep(others: seq<Member>, i: nat)
    requires i < |others|
    ensures Y.LorasOf(others[..i + 1]) == Y.LorasOf(others[..i]) + (if others[i].LoraMember? then [others[i]] else [])
    ensures |Y.LorasOf(others[..i + 1])| <= |Y.LorasOf(others)|
    ensures others[i].LoraMember? ==> Y.LorasOf(others)[|Y.LorasOf(others[..i])|] == others[i]
  {
    assert others[..i + 1] == others[..i] + [others[i]];
    LorasAppend(others[..i], [others[i]]);
    assert [others[i]][1..] == [];
    assert Y.LorasOf([others[i]][1..]) == [];
    assert others == others[..i + 1] + others[i + 1..];
    LorasAppend(others[..i + 1], others[i + 1..]);
  }

  lemma {:induction false} LoraTargetIsMember(members: seq<Member>, source: ChannelRef) returns (i: nat)
    requires Y.LoraTargets(members, source) != []
    ensures i < |members| && members[i] == Y.LoraTargets(members, source)[0] && members[i].LoraMember?
  {
    var rest := Others(members[1..], source);
    assert ([members[0]] + rest)[1..] == rest;
    if members[0].Ref() != source && members[0].LoraMember? {
      i := 0;
    } else {
      var j := LoraTargetIsMember(members[1..], source);
      i := j + 1;
    }
  }
}
