/**
 * The author inside a channel frame (`split_author`, `channel_to_message` in
 * lora_bridge/transports/meshcore/mappers/channel_util.py) and what the loop guard makes of our
 * own frames when they come back.
 */
module AuthorCodec {
  import opened Domain
  import F = RxFilter
  import T = Transform

  const SEP := ": "

  predicate SepAt(s: string, i: int) {
    0 <= i < |s| - 1 && s[i] == ':' && s[i + 1] == ' '
  }

  ghost predicate HasSep(s: string) {
    exists i :: SepAt(s, i)
  }

  // The position of the first ": ", or |s|.
  function FindSep(s: string): (i: nat)
    ensures i <= |s| && (i < |s| ==> SepAt(s, i))
    ensures forall j :: 0 <= j < i ==> !SepAt(s, j)
  {
    if s == [] || SepAt(s, 0) then 0
    else
      var i := FindSep(s[1..]);
      assert forall j :: j > 0 ==> (SepAt(s, j) <==> SepAt(s[1..], j - 1));
      i + 1
  }

  // (author, body); the author is empty when the frame names none.
  function SplitAuthor(text: string): (string, string) {
    var i := FindSep(text);
    if 0 < i < |text| then (text[..i], text[i + 2..]) else ("", text)
  }

  // The frame id is made of the raw text's hash and the device's time stamp.
  function ChannelToMessage(raw: string, stamp: string, digest: string, endpoint: string, nodeId: string): Message {
    var (name, text) := SplitAuthor(raw);
    Message(endpoint + ":" + stamp + ":" + digest, ChannelRef(nodeId, endpoint),
        Identity(name, LORA_SENDER_UID), text, None)
  }

  // A split loses nothing.
  lemma SplitLosesNothing(text: string)
    ensures var (name, body) := SplitAuthor(text);
      && (name != "" ==> text == name + SEP + body && !HasSep(name))
      && (name == "" ==> text == body && (!HasSep(text) || SepAt(text, 0)))
  {
    var i := FindSep(text);
    if 0 < i < |text| {
      assert text == text[..i] + text[i..i + 2] + text[i + 2..];
      forall j
        ensures !SepAt(text[..i], j)
      {
        if SepAt(text[..i], j) {
          assert SepAt(text, j);
        }
      }
    }
  }

  // Two channel frames of one node are taken for copies of each other exactly when they carry the same
  // raw text, whatever their channels and time stamps, as long as it holds no NUL.
  lemma FramesAreCopiesIff(raw: string, stamp: string, digest: string, endpoint: string,
                           raw': string, stamp': string, digest': string, endpoint': string, nodeId: string)
    requires '\0' !in raw && '\0' !in raw'
    ensures var a := ChannelToMessage(raw, stamp, digest, endpoint, nodeId);
      var b := ChannelToMessage(raw', stamp', digest', endpoint', nodeId);
      F.DedupKey(a) == F.DedupKey(b) <==> raw == raw'
  {
    var a := ChannelToMessage(raw, stamp, digest, endpoint, nodeId);
    var b := ChannelToMessage(raw', stamp', digest', endpoint', nodeId);
    hide FindSep, F.DedupKey;
    SplitLosesNothing(raw);
    SplitLosesNothing(raw');
    F.KeyTellsSendersApart(a, b);
  }

  // Splitting what an author and a body were joined to gives them back exactly when the author is
  // not empty and holds no separator.
  lemma SplitUndoesJoin(name: string, body: string)
    ensures SplitAuthor(name + SEP + body) == (name, body) <==> name != "" && !HasSep(name)
  {
    var text := name + SEP + body;
    assert SepAt(text, |name|);
    forall j | 0 <= j < |name|
      ensures SepAt(text, j) <==> SepAt(name, j)
    {
    }
    if HasSep(name) {
      var j :| SepAt(name, j);
      assert FindSep(text) <= j;
    } else if name != "" {
      assert FindSep(text) == |name|;
      assert text[..|name|] == name && text[|name| + 2..] == body;
    } else {
      assert FindSep(text) == 0;
      assert |text| != |body|;
    }
  }

  // ---- Wire texts that come back --------------------------------------------------------------

  // The receiver takes the whole wire text for the body of an unnamed author.
  predicate ParsesWhole(wire: string) {
    SplitAuthor(wire) == ("", wire)
  }

  lemma WholeIffNoSepInside(wire: string)
    requires !SepAt(wire, 0)
    ensures ParsesWhole(wire) <==> !HasSep(wire)
  {
  }

  // "[head] body" holds a separator exactly where its parts do: the brackets keep them apart.
  lemma BracketsKeepApart(head: string, body: string)
    ensures var wire := "[" + head + "] " + body; !SepAt(wire, 0) && (HasSep(wire) <==> HasSep(head) || HasSep(body))
  {
    var wire := "[" + head + "] " + body;
    forall j
      ensures SepAt(wire, j) <==> SepAt(head, j - 1) || SepAt(body, j - |head| - 3)
    {
    }
    if i :| SepAt(head, i) {
      assert SepAt(wire, i + 1);
    }
    if i :| SepAt(body, i) {
      assert SepAt(wire, i + |head| + 3);
    }
  }

  // The relay text of a named author parses whole exactly when neither name nor body holds ": ".
  lemma RelayParsesWhole(msg: Message)
    requires msg.sender.displayName != ""
    ensures ParsesWhole(T.RelayLoraText(msg)) <==> !HasSep(msg.sender.displayName) && !HasSep(msg.text)
  {
    BracketsKeepApart(msg.sender.displayName, msg.text);
    WholeIffNoSepInside(T.RelayLoraText(msg));
  }

  // An unnamed author's text parses whole also when it begins with the separator.
  lemma {:induction false} UnnamedRelayParsesWhole(msg: Message)
    requires msg.sender.displayName == ""
    ensures ParsesWhole(T.RelayLoraText(msg)) <==> !HasSep(msg.text) || SepAt(msg.text, 0)
  {
  }

  // "tag:nick" holds a separator in its parts, or where a nick that begins with a space meets the colon.
  lemma TagMeetsNick(tag: string, nick: string)
    ensures HasSep(tag + ":" + nick) <==> HasSep(tag) || HasSep(nick) || (nick != "" && nick[0] == ' ')
  {
    var s := tag + ":" + nick;
    forall j
      ensures SepAt(s, j) <==> (SepAt(tag, j) || SepAt(nick, j - |tag| - 1)
        || (j == |tag| && nick != "" && nick[0] == ' '))
    {
    }
    if i :| SepAt(tag, i) {
      assert SepAt(s, i);
    }
    if i :| SepAt(nick, i) {
      assert SepAt(s, i + |tag| + 1);
    }
    if nick != "" && nick[0] == ' ' {
      assert SepAt(s, |tag|);
    }
  }

  // The wire text of a messenger message, with or without the type tag.
  lemma MessengerTextParsesWhole(msg: Message, writableMessengers: int, tag: string, fmt: LabelFormat)
    ensures var nick := T.Nick(msg, fmt);
      ParsesWhole(T.BuildLoraText(msg, writableMessengers, tag, fmt)) <==>
        && !HasSep(nick) && !HasSep(msg.text)
        && (T.Tagged(writableMessengers, fmt) ==> !HasSep(tag) && (nick == "" || nick[0] != ' '))
  {
    hide T.Nick, ParsesWhole, SepAt, HasSep;
    var nick := T.Nick(msg, fmt);
    var wire := T.BuildLoraText(msg, writableMessengers, tag, fmt);
    if T.Tagged(writableMessengers, fmt) {
      assert wire == "[" + (tag + ":" + nick) + "] " + msg.text;
      BracketsKeepApart(tag + ":" + nick, msg.text);
      TagMeetsNick(tag, nick);
    } else {
      BracketsKeepApart(nick, msg.text);
    }
    WholeIffNoSepInside(wire);
  }

  // ---- Echo recognition -----------------------------------------------------------------------

  // A wire text that parses whole is recognised as our own for a full ttl after it was sent,
  // whichever endpoint of the node hears it.
  lemma {:induction false} WholeEchoIsRecognised(before: seq<F.Event>, ttl: real, wire: string, sentAt: real, now: real,
                              stamp: string, digest: string, endpoint: string, nodeId: string)
    requires F.Ordered(before) && F.NotBefore(before, now)
    requires F.Transmitted(wire, sentAt) in before && sentAt >= now - ttl
    requires ParsesWhole(wire)
    ensures F.Echo(before, ttl, ChannelToMessage(wire, stamp, digest, endpoint, nodeId), now)
  {
    F.EchoIsExact(before, ttl, ChannelToMessage(wire, stamp, digest, endpoint, nodeId), now);
  }

  // A frame whose sender the mesh put in front is recognised whatever the wire text holds.
  lemma {:induction false} NamedEchoIsRecognised(before: seq<F.Event>, ttl: real, sender: string, wire: string,
                                                 sentAt: real, now: real,
                              stamp: string, digest: string, endpoint: string, nodeId: string)
    requires F.Ordered(before) && F.NotBefore(before, now)
    requires F.Transmitted(wire, sentAt) in before && sentAt >= now - ttl
    requires sender != "" && !HasSep(sender)
    ensures F.Echo(before, ttl, ChannelToMessage(sender + SEP + wire, stamp, digest, endpoint, nodeId), now)
  {
    SplitUndoesJoin(sender, wire);
    F.EchoIsExact(before, ttl, ChannelToMessage(sender + SEP + wire, stamp, digest, endpoint, nodeId), now);
  }

  // The relay of a named author that holds no separator comes back recognised.
  lemma {:induction false} RelayEchoIsRecognised(before: seq<F.Event>, ttl: real, msg: Message, sentAt: real, now: real,
                              stamp: string, digest: string, endpoint: string, nodeId: string)
    requires F.Ordered(before) && F.NotBefore(before, now)
    requires F.Transmitted(T.RelayLoraText(msg), sentAt) in before && sentAt >= now - ttl
    requires msg.sender.displayName != "" && !HasSep(msg.sender.displayName) && !HasSep(msg.text)
    ensures F.Echo(before, ttl, ChannelToMessage(T.RelayLoraText(msg), stamp, digest, endpoint, nodeId), now)
  {
    RelayParsesWhole(msg);
    WholeEchoIsRecognised(before, ttl, T.RelayLoraText(msg), sentAt, now, stamp, digest, endpoint, nodeId);
  }

  // A wire text that does not parse whole, whoever it is from, is recognised only if the part behind
  // its separator was sent as a text of ours within ttl.
  lemma {:induction false} BrokenEchoIsRecognisedIff(before: seq<F.Event>, ttl: real, wire: string, now: real,
                                                     stamp: string, digest: string, endpoint: string, nodeId: string)
    requires F.Ordered(before) && F.NotBefore(before, now) && !ParsesWhole(wire)
    ensures var heard := ChannelToMessage(wire, stamp, digest, endpoint, nodeId);
      && |heard.text| < |wire|
      && (F.Echo(before, ttl, heard, now) <==> exists at :: F.Transmitted(heard.text, at) in before && at >= now - ttl)
  {
    SplitLosesNothing(wire);
    F.EchoIsExact(before, ttl, ChannelToMessage(wire, stamp, digest, endpoint, nodeId), now);
  }

  // So a node that sent nothing but this text does not know it again, however soon it comes back.
  lemma {:induction false} BrokenEchoIsLost(before: seq<F.Event>, ttl: real, wire: string, now: real,
                                            stamp: string, digest: string, endpoint: string, nodeId: string)
    requires F.Ordered(before) && F.NotBefore(before, now) && !ParsesWhole(wire)
    requires forall i :: 0 <= i < |before| && before[i].Transmitted? ==> before[i].text == wire
    ensures !F.Echo(before, ttl, ChannelToMessage(wire, stamp, digest, endpoint, nodeId), now)
  {
    hide ParsesWhole, ChannelToMessage, F.Echo, F.Ordered;
    BrokenEchoIsRecognisedIff(before, ttl, wire, now, stamp, digest, endpoint, nodeId);
  }

  // The relay of a named author with a separator in name or text is such a text.
  lemma {:induction false} BrokenRelayIsLost(before: seq<F.Event>, ttl: real, msg: Message, now: real,
                                             stamp: string, digest: string, endpoint: string, nodeId: string)
    requires F.Ordered(before) && F.NotBefore(before, now)
    requires msg.sender.displayName != "" && (HasSep(msg.sender.displayName) || HasSep(msg.text))
    requires forall i :: 0 <= i < |before| && before[i].Transmitted? ==> before[i].text == T.RelayLoraText(msg)
    ensures !F.Echo(before, ttl, ChannelToMessage(T.RelayLoraText(msg), stamp, digest, endpoint, nodeId), now)
  {
    hide ParsesWhole, ChannelToMessage, F.Echo, F.Ordered;
    RelayParsesWhole(msg);
    BrokenEchoIsLost(before, ttl, T.RelayLoraText(msg), now, stamp, digest, endpoint, nodeId);
  }
}
