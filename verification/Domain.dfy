/** The domain values shared by every component (lora_bridge/domain/models.py). */
module Domain {

  datatype Option<+T> = None | Some(value: T)

  datatype ChannelRef = ChannelRef(transportId: string, channel: string)

  datatype Identity = Identity(displayName: string, transportUid: string)

  // The source's optional `timestamp` is carried by no decision and is left out.
  datatype Message = Message(
    id: string,
    source: ChannelRef,
    sender: Identity,
    text: string,
    originTag: Option<string>)

  datatype DeliveryStatus = PENDING | TRANSMITTING | SENT | REJECTED | FAILED | UNKNOWN

  datatype RejectReason = TOO_LONG | RATE_LIMIT | TTL_EXPIRED | READONLY

  datatype RateSpec = RateSpec(msgsPerWindow: int, windowSeconds: real, burst: int)

  datatype SendResult = SendResult(ok: bool, busy: bool)

  datatype LabelFormat = LabelFormat(includeType: bool, maxNickBytes: int)

  const BRIDGE_TRANSPORT_UID := "__bridge__"
  const LORA_SENDER_UID := "__lora__"

  // The opaque channel of a messenger chat, with its topic if it has one.
  function MessengerChannel(chat: string, topic: Option<string>): string {
    if topic.Some? && topic.value != "" then chat + "#" + topic.value else chat
  }

  // An accepted intent to transmit `payload` on one LoRa endpoint (lora_bridge/core/queue.py).
  datatype QueueItem = QueueItem(
    source: ChannelRef,
    sourceMsgId: string,
    target: ChannelRef,
    payload: Message,
    original: Message,
    fromMessenger: bool,
    enqueuedAt: real)
  {
    function MsgKey(): string {
      KeyOf(source.transportId, sourceMsgId)
    }
  }

  // The journal key leaves the chat out.
  function KeyOf(transportId: string, msgId: string): string {
    transportId + ":" + msgId
  }

  // What one `lora.send` under `fail_after` comes back with.
  datatype Outcome = Replied(result: SendResult) | TimedOut

  // A sequence without repetitions.
  ghost predicate Distinct<T>(s: seq<T>) {
    forall i, j :: 0 <= i < j < |s| ==> s[i] != s[j]
  }

  // `a` is obtained from `b` by deleting elements; `at` names the surviving positions.
  ghost predicate Picks<T>(a: seq<T>, b: seq<T>, at: seq<nat>) {
    && |at| == |a|
    && (forall i :: 0 <= i < |a| ==> at[i] < |b| && a[i] == b[at[i]])
    && (forall i, j :: 0 <= i < j < |a| ==> at[i] < at[j])
  }

  ghost predicate IsSubsequence<T(!new)>(a: seq<T>, b: seq<T>) {
    exists at: seq<nat> :: Picks(a, b, at)
  }

  lemma ConcatAssociates<T>(a: seq<T>, b: seq<T>, c: seq<T>)
    ensures a + (b + c) == a + b + c
  {
  }
}
