/** The wire text of a message and its byte budget (lora_bridge/core/transform.py). */
module Transform {
  import opened Domain
  import U = Utf8

  function Utf8Len(s: string): nat {
    |U.Encode(s)|
  }

  // Slice the encoded bytes, decode with errors ignored.
  function ClipUtf8(s: string, maxBytes: int): string {
    if maxBytes <= 0 then ""
    else
      var encoded := U.Encode(s);
      if |encoded| <= maxBytes then s else U.DecodeIgnoring(encoded[..maxBytes])
  }

  // The clipped string is the longest prefix of whole characters that fits, and nothing else is.
  lemma ClipIsLongestFit(s: string, maxBytes: int, r: string)
    requires maxBytes >= 0
    ensures r == ClipUtf8(s, maxBytes) <==> U.LongestFit(s, maxBytes, r)
  {
    var clipped := ClipUtf8(s, maxBytes);
    var m := if |U.Encode(s)| <= maxBytes then |U.Encode(s)| else maxBytes;
    U.CutDecodesToLongestFit(s, m);
    U.RoundTrip(s);
    assert U.Encode(s)[..|U.Encode(s)|] == U.Encode(s);
    if maxBytes == 0 {
      NothingFitsInNothing(s, U.DecodeIgnoring(U.Encode(s)[..m]));
    }
    assert U.LongestFit(s, maxBytes, clipped);
    if U.LongestFit(s, maxBytes, r) {
      U.LongestFitIsUnique(s, maxBytes, r, clipped);
    }
  }

  lemma NothingFitsInNothing(s: string, r: string)
    requires U.LongestFit(s, 0, r)
    ensures r == ""
  {
  }

  // ---- Wire texts -----------------------------------------------------------------------------

  function Nick(msg: Message, fmt: LabelFormat): string {
    ClipUtf8(msg.sender.displayName, fmt.maxNickBytes)
  }

  predicate Tagged(writableMessengers: int, fmt: LabelFormat) {
    writableMessengers > 1 && fmt.includeType
  }

  function Label(msg: Message, writableMessengers: int, tag: string, fmt: LabelFormat): string {
    if Tagged(writableMessengers, fmt) then "[" + tag + ":" + Nick(msg, fmt) + "] " else "[" + Nick(msg, fmt) + "] "
  }

  function BuildLoraText(msg: Message, writableMessengers: int, tag: string, fmt: LabelFormat): string {
    Label(msg, writableMessengers, tag, fmt) + msg.text
  }

  function RelayLoraText(msg: Message): string {
    if msg.sender.displayName != "" then "[" + msg.sender.displayName + "] " + msg.text else msg.text
  }

  function OversizeBytes(text: string, maxTextBytes: int): int {
    Utf8Len(text) - maxTextBytes
  }

  lemma LenAppends(a: string, b: string)
    ensures Utf8Len(a + b) == Utf8Len(a) + Utf8Len(b)
  {
    U.EncodeAppends(a, b);
  }

  lemma {:induction false} AsciiLen(s: string)
    requires forall i :: 0 <= i < |s| ==> s[i] < 0x80 as char
    ensures Utf8Len(s) == |s|
  {
    if s != [] {
      AsciiLen(s[1..]);
    }
  }

  // The bytes a label takes besides the nick.
  function Frame(writableMessengers: int, tag: string, fmt: LabelFormat): nat {
    3 + (if Tagged(writableMessengers, fmt) then Utf8Len(tag) + 1 else 0)
  }

  lemma NickFits(msg: Message, fmt: LabelFormat)
    ensures Utf8Len(Nick(msg, fmt)) <= (if fmt.maxNickBytes > 0 then fmt.maxNickBytes else 0)
  {
    if fmt.maxNickBytes > 0 {
      ClipIsLongestFit(msg.sender.displayName, fmt.maxNickBytes, Nick(msg, fmt));
    }
  }

  lemma LabelLen(msg: Message, writableMessengers: int, tag: string, fmt: LabelFormat)
    ensures Utf8Len(Label(msg, writableMessengers, tag, fmt)) ==
      Frame(writableMessengers, tag, fmt) + Utf8Len(Nick(msg, fmt))
  {
    hide Utf8Len, Nick;
    var nick := Nick(msg, fmt);
    AsciiLen("[");
    AsciiLen("] ");
    AsciiLen(":");
    if Tagged(writableMessengers, fmt) {
      LenAppends("[", tag);
      LenAppends("[" + tag, ":");
      LenAppends("[" + tag + ":", nick);
      LenAppends("[" + tag + ":" + nick, "] ");
    } else {
      LenAppends("[", nick);
      LenAppends("[" + nick, "] ");
    }
  }

  // The budget in the caller's terms: the message is too long exactly by the bytes that its text
  // and its clipped nick take beyond what the frame of the label leaves.
  lemma BudgetIsExact(msg: Message, writableMessengers: int, tag: string, fmt: LabelFormat, maxTextBytes: int)
    ensures OversizeBytes(BuildLoraText(msg, writableMessengers, tag, fmt), maxTextBytes) ==
      Frame(writableMessengers, tag, fmt) + Utf8Len(Nick(msg, fmt)) + Utf8Len(msg.text) - maxTextBytes
  {
    LabelLen(msg, writableMessengers, tag, fmt);
    LenAppends(Label(msg, writableMessengers, tag, fmt), msg.text);
  }

  // So a text short enough for a full-length nick is never refused as too long, whoever sends it.
  lemma ShortTextAlwaysFits(msg: Message, writableMessengers: int, tag: string, fmt: LabelFormat, maxTextBytes: int)
    requires Utf8Len(msg.text) + Frame(writableMessengers, tag, fmt) +
      (if fmt.maxNickBytes > 0 then fmt.maxNickBytes else 0)
      <= maxTextBytes
    ensures OversizeBytes(BuildLoraText(msg, writableMessengers, tag, fmt), maxTextBytes) <= 0
  {
    BudgetIsExact(msg, writableMessengers, tag, fmt, maxTextBytes);
    NickFits(msg, fmt);
  }

  // The user's text is never cut: two messages with one wire text and labels of one length have
  // the same text.
  lemma TextIsNeverCut(a: Message, b: Message, writableMessengers: int, tag: string, fmt: LabelFormat)
    requires |Nick(a, fmt)| == |Nick(b, fmt)|
    requires BuildLoraText(a, writableMessengers, tag, fmt) == BuildLoraText(b, writableMessengers, tag, fmt)
    ensures a.text == b.text && Nick(a, fmt) == Nick(b, fmt)
  {
    var la, lb := Label(a, writableMessengers, tag, fmt), Label(b, writableMessengers, tag, fmt);
    assert |la| == |lb|;
    assert (la + a.text)[..|la|] == la && (lb + b.text)[..|lb|] == lb;
    assert (la + a.text)[|la|..] == a.text && (lb + b.text)[|lb|..] == b.text;
    var n, at := |Nick(a, fmt)|, if Tagged(writableMessengers, fmt) then |tag| + 2 else 1;
    assert la[at..at + n] == Nick(a, fmt) && lb[at..at + n] == Nick(b, fmt);
  }
}
