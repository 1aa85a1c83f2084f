/**
 * The opaque channel of a messenger chat and its decoder (`messenger_channel` in
 * lora_bridge/domain/models.py, `split_channel` in lora_bridge/transports/telegram/transport.py),
 * with the decimal numerals of Python's `str` and `int`.
 */
module ChannelCodec {
  import opened Domain

  // ---- Decimal numerals -----------------------------------------------------------------------

  function Digit(n: nat): char
    requires n < 10
  {
    '0' + n as char
  }

  predicate IsDigit(c: char) {
    '0' <= c <= '9'
  }

  function PrintNat(n: nat): string {
    (if n < 10 then "" else PrintNat(n / 10)) + [Digit(n % 10)]
  }

  // `str` of an int.
  function Print(n: int): string {
    if n < 0 then "-" + PrintNat(-n) else PrintNat(n)
  }

  function ParseNat(s: string): Option<nat> {
    if s == "" then None
    else
      var last := s[|s| - 1];
      var high := if |s| == 1 then Some(0) else ParseNat(s[..|s| - 1]);
      if IsDigit(last) && high.Some? then Some(10 * high.value + (last as int - '0' as int)) else None
  }

  // `int` of a string; None stands for the ValueError. Surrounding blanks, underscores and digits
  // of other scripts, which Python takes as well, are not part of this model.
  function Parse(s: string): Option<int> {
    if s == "" then None
    else if s[0] == '-' then
      var n := ParseNat(s[1..]);
      var magnitude: int := if n.Some? then n.value else 0;
      if n.Some? then Some(-magnitude) else None
    else if s[0] == '+' then ParseNat(s[1..])
    else ParseNat(s)
  }

  lemma {:induction false} PrintedNat(n: nat)
    ensures ParseNat(PrintNat(n)) == Some(n)
    ensures PrintNat(n) != "" && forall i :: 0 <= i < |PrintNat(n)| ==> IsDigit(PrintNat(n)[i])
  {
    var s := PrintNat(n);
    if n >= 10 {
      PrintedNat(n / 10);
      assert s[..|s| - 1] == PrintNat(n / 10);
    }
  }

  lemma ParseUndoesPrint(n: int)
    ensures Parse(Print(n)) == Some(n)
    ensures Print(n) != "" && forall i :: 0 <= i < |Print(n)| ==> IsDigit(Print(n)[i]) || Print(n)[i] == '-'
  {
    PrintedNat(if n < 0 then -n else n);
    if n < 0 {
      assert Print(n)[1..] == PrintNat(-n);
    } else {
      assert IsDigit(Print(n)[0]);
    }
  }

  // ---- The channel codec ----------------------------------------------------------------------

  function FindHash(s: string): (i: nat)
    ensures i <= |s| && (i < |s| ==> s[i] == '#')
    ensures forall j :: 0 <= j < i ==> s[j] != '#'
  {
    if s == "" || s[0] == '#' then 0
    else
      var i := FindHash(s[1..]);
      assert forall j :: 0 < j < |s| ==> s[j] == s[1..][j - 1];
      i + 1
  }

  // (chat id, thread id); None stands for the ValueError of a part that is no numeral.
  function SplitChannel(channel: string): Option<(int, Option<int>)> {
    var i := FindHash(channel);
    if i < |channel| then
      var chat, topic := Parse(channel[..i]), Parse(channel[i + 1..]);
      if chat.Some? && topic.Some? then Some((chat.value, topic)) else None
    else
      var chat := Parse(channel);
      if chat.Some? then Some((chat.value, None)) else None
  }

  function TopicText(topic: Option<int>): Option<string> {
    if topic.Some? then Some(Print(topic.value)) else None
  }

  // Decoding undoes encoding for every chat id and every optional thread id.
  lemma SplitUndoesEncode(chat: int, topic: Option<int>)
    ensures SplitChannel(MessengerChannel(Print(chat), TopicText(topic))) == Some((chat, topic))
  {
    var c := Print(chat);
    var channel := MessengerChannel(c, TopicText(topic));
    ParseUndoesPrint(chat);
    if topic.Some? {
      ParseUndoesPrint(topic.value);
      var t := Print(topic.value);
      assert channel == c + "#" + t;
      assert FindHash(channel) == |c| by {
        assert channel[|c|] == '#';
        assert forall j :: 0 <= j < |c| ==> channel[j] == c[j];
      }
      assert channel[..|c|] == c && channel[|c| + 1..] == t;
    } else {
      assert FindHash(c) == |c|;
    }
  }

  // So no two chats of a messenger share a channel.
  lemma EncodeIsInjective(chat: int, topic: Option<int>, chat': int, topic': Option<int>)
    requires MessengerChannel(Print(chat), TopicText(topic)) == MessengerChannel(Print(chat'), TopicText(topic'))
    ensures chat == chat' && topic == topic'
  {
    SplitUndoesEncode(chat, topic);
    SplitUndoesEncode(chat', topic');
  }

  // On arbitrary strings the encoding is not injective: a '#' in the chat, or an empty topic.
  lemma EncodeMayCollide()
    ensures MessengerChannel("a#b", None) == MessengerChannel("a", Some("b"))
    ensures MessengerChannel("a", Some("")) == MessengerChannel("a", None)
  {
    assert "a" + "#" + "b" == "a#b";
  }

  predicate NoTopic(topic: Option<string>) {
    topic == None || topic == Some("")
  }

  // Exactly which pairs of chats share a channel, when the chats hold no '#'.
  lemma SameChannelIff(chat: string, topic: Option<string>, chat': string, topic': Option<string>)
    requires '#' !in chat && '#' !in chat'
    ensures MessengerChannel(chat, topic) == MessengerChannel(chat', topic') <==>
      chat == chat' && (topic == topic' || (NoTopic(topic) && NoTopic(topic')))
  {
    var a, b := MessengerChannel(chat, topic), MessengerChannel(chat', topic');
    if a == b {
      HashEndsChat(chat, topic);
      HashEndsChat(chat', topic');
      assert a[..|chat|] == chat && b[..|chat'|] == chat';
      assert |a| == |chat| <==> NoTopic(topic);
      assert |b| == |chat'| <==> NoTopic(topic');
      if !NoTopic(topic) {
        assert a[|chat| + 1..] == topic.value && b[|chat'| + 1..] == topic'.value;
      }
    }
  }

  lemma HashEndsChat(chat: string, topic: Option<string>)
    requires '#' !in chat
    ensures FindHash(MessengerChannel(chat, topic)) == |chat|
  {
    var a := MessengerChannel(chat, topic);
    assert forall j :: 0 <= j < |chat| ==> a[j] == chat[j] && chat[j] in chat;
    if !NoTopic(topic) {
      assert a[|chat|] == '#';
    }
  }
}
