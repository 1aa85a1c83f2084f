# LoRa Bridge: a verified model of the core

LoRa Bridge carries messages between messenger chats and LoRa mesh radios. This project models the
parts of it where order, time and failure matter, and proves what they promise:

- **the commit pipeline**: admission, the rate-limited queue of each node, the write-ahead journal,
  one radio worker per node, mirrors to the other chats, and `recover` after a crash;
- **the time-based primitives**: the TTL window under dedup and the loop guard, the token bucket,
  the debounced drop notices;
- **the channel-slot allocator** of the radio device and the RX routing that relies on it;
- **the codecs and the topology**: UTF-8 clipping, wire texts, authors, chat channels, and the
  configuration validators against the registry of rooms;
- **the reaction debouncer** with calls of the messenger API in flight.

## How the model is built

Objects that the source updates in place are classes whose methods are proved against functions on
values; algorithms and protocols are then studied on those functions, over whole histories.

| file | what it models |
|---|---|
| `Domain.dfy`, `Routing.dfy` | the shared values; rooms and the registry |
| `TtlWindow.dfy`, `RxFilter.dfy` | the sliding window; dedup and loop guard of one node |
| `TokenBucket.dfy`, `CommitQueue.dfy` | the limiter; the bounded queue in front of a worker |
| `Journal.dfy` | the journal as a working table and the table last committed |
| `RadioWorker.dfy` | the worker as a program of single acts, and its loops performing that program |
| `NodeLife.dfy` | one node in one process life, all awaits interleaved |
| `Pipeline.dfy`, `PipelineSafety.dfy`, `PipelinePromises.dfy` | all nodes, the shared journal, crashes and restarts: the machine, its invariant, its theorems |
| `PipelineVerdicts.dfy`, `PipelineDurability.dfy` | on the same machine: verdicts against the radio's answers; intents across restarts |
| `SharedKeys.dfy`, `KeyReuse.dfy` | the pipeline machine without the hypothesis on keys, and with a weaker one |
| `Recovery.dfy`, `Bridge.dfy` | `recover`; admission, fan-out and feedback; each tied to the steps of the machine |
| `Notifier.dfy` | drop notices |
| `ChannelSlots.dfy` | slots of the device, the start loop, RX routing |
| `Utf8.dfy`, `Transform.dfy`, `AuthorCodec.dfy`, `ChannelCodec.dfy` | the codecs |
| `Topology.dfy` | validators, rooms, registry |
| `Debouncer.dfy` | delayed reactions |

The pipeline machine takes one step per act between two awaits. `put_nowait` and handing over the
INSERT are one step, because no await lies between them and one connection executes statements in
submission order. A journal method is two steps, statement and commit; a commit publishes every
statement executed so far, by whichever task, and a crash falls back to what was committed. An
exception that escapes any task ends the process (`lora_bridge/core/supervisor.py:5-6`) and is such
a crash. The radio answers a send with a result or a timeout, freely.

Hypotheses, stated where they are used: a `msg_key` belongs to one intent only; within a life the
clock never goes back; real numbers stand for floats; the refill rate is not negative.
`SharedKeys.SharedKeyBreaksPersistence` shows why the first is needed, and
`KeyReuse.PersistBeforeActWithReuse` how little of it persist-before-act needs.

Check everything with `dafny verify dfyconfig.toml` in this directory.

## Where the code and its documentation differ

The model follows the code.

- At most one TRANSMITTING row exists **per target node**, not overall: each node has its own worker.
- A PENDING orphan whose node is gone, or whose node's queue refuses it, is skipped and stays PENDING
  (`lora_bridge/app.py:44-57`); `PipelinePromises.OrphanIsQueuedIff` says exactly when. One that is
  queued again gets a fresh time stamp, so its TTL starts over (`PipelineSafety.RebuiltIsTheRow`).
- The journal does not store the original message, so an item queued again by recovery is mirrored
  with its wire text, label included (`lora_bridge/app.py:47-54`, the same lemma).
- The limiter refills `msgs_per_window` messages per window, not its capacity per window as the class
  comment says (`lora_bridge/core/ratelimit.py:12-16`); the two differ when `burst` is the larger. See
  `TokenBucket.TokenBucket.DrainedRefills`.
- A mesh duplicate keeps an entry of the dedup window alive beyond its TTL
  (`lora_bridge/core/ttl_window.py:29-31`); `TtlWindow.StampMayOutliveTtl` is the shortest case.
- `clear_now` does not always end with the reaction gone; `Debouncer.ClearIsFinalIff` says when it does.
- A wire text that does not parse whole, such as a relay whose author or body contains `": "`, is not
  recognised when it comes back without a sender in front; `AuthorCodec.BrokenEchoIsRecognisedIff`
  says when it is.
- A drop counted inside a window need not be told by the next flush (`lora_bridge/core/notifier.py:64`),
  nor by any later one; `Notifier.ToldIffFirstOfItsWindow` says when a flush tells it.
- The membership validator does not by itself keep the registry from failing. The registry builds if
  and only if no two members have one channel (`Topology.BuildRegistry`); the validator's check is
  the same under three naming conventions that nothing enforces, and the three
  `Topology...TripsRegistry` lemmas drop one of them each.

## Model

| member | source | states |
|---|---|---|
| PipelinePromises.AtMostOnceOnAir | lora_bridge/core/egress.py:57-86 | over every run, with any number of crashes and restarts (inside recovery too), all sends of one intent belong to one transmit of one life, at most BUSY_RETRIES of them, and each but the last came back busy |
| PipelinePromises.PersistBeforeAct | lora_bridge/core/egress.py:59-62 | whenever a send is running, the committed row of its intent is TRANSMITTING and names exactly the text, target and source being sent |
| PipelinePromises.OneAmbiguousOrphanPerNode | lora_bridge/core/journal.py:102-114 | at every moment of every run at most one committed row per target node is TRANSMITTING |
| PipelinePromises.RecoveredWasNeverSent | lora_bridge/app.py:44-57 | an intent that recovery queues again was never sent in any earlier life; its committed row is PENDING, the rebuilt item has that row's key, target and text, and is a chat's message if and only if its source is a configured messenger |
| PipelinePromises.OrphanIsQueuedIff | lora_bridge/app.py:44-57 | an orphan that recovery handles waits in a queue afterwards if and only if its node is configured and accepts one more message at that moment |
| PipelinePromises.NoAmbiguityAfterRecovery | lora_bridge/app.py:38-43 | when the bridge comes up, no committed row is left TRANSMITTING |
| PipelinePromises.RowsMoveForward | lora_bridge/core/journal.py:81-118 | in every step of every run, crashes included, a committed row moves from PENDING to TRANSMITTING or REJECTED, from TRANSMITTING to SENT, FAILED or UNKNOWN, from SENT to pruned, or stays; a key's first committed status is PENDING, TRANSMITTING or REJECTED |
| PipelinePromises.TerminalIsForGood | lora_bridge/core/journal.py:109-118 | between any two moments of a run: once an intent's terminal status is committed, its row never says PENDING or TRANSMITTING again, pruned or not, and no send of it starts any more |
| PipelinePromises.AirtimeOverRuns | lora_bridge/core/ratelimit.py:14-33 | the transmits a node starts within [a, b] in one life number at most capacity + rate * (b - a + ttl) |
| PipelinePromises.AirtimePerWindow | lora_bridge/core/ratelimit.py:14-16 | the same in the configuration's terms: in a span of one configured window a node starts at most max(burst, messages per window) + messages per window + what the rate lets in over one ttl |
| PipelinePromises.FatesOverRuns | lora_bridge/core/egress.py:49-72 | accepted puts = pending + in flight + SENT + FAILED + TTL-rejected, at every moment of every run |
| PipelinePromises.SentOrderOverRuns | lora_bridge/core/egress.py:49-55 | the confirmed sends of a node are a subsequence of its accept order |
| PipelinePromises.MirrorsOverRuns | lora_bridge/core/bridge.py:240-249 | each chat was mirrored exactly the confirmed items meant for it, each once, in accept order, except for those its node still owes it |
| PipelinePromises.MirrorFollowsCommittedSent | lora_bridge/core/egress.py:64-69 | whenever a mirror is attempted, the committed row of the item says SENT |
| PipelineVerdicts.FateIsTheRadios | lora_bridge/core/egress.py:64-72 | over every run: a finished item is SENT if and only if the answer recorded for its last call came in time with ok, FAILED if and only if it came too late or without ok, REJECTED if and only if there was no call |
| PipelineVerdicts.JournalSaysWhatTheRadioSaid | lora_bridge/core/egress.py:64-72 | over every run, crashes included: a SENT row was confirmed by the radio, a FAILED row was refused or not answered in time, a PENDING or REJECTED row was never on the air, in the working and in the committed table |
| PipelineVerdicts.AnswerIsRecorded | lora_bridge/core/egress.py:76-82 | the record of a call is the answer the radio gave to it; earlier calls and other intents keep their records |
| PipelineVerdicts.EveryMirrorWasConfirmed | lora_bridge/core/bridge.py:240-249 | at every moment of every run, every mirror attempted in this life was of an item whose last call came back with ok |
| PipelineVerdicts.MirrorFollowsConfirmation | lora_bridge/core/egress.py:64-69 | while an item is closed as SENT or being mirrored, the radio had confirmed it |
| PipelineVerdicts.StartIsOnRecord | lora_bridge/core/journal.py:102-107 | while a send is running, the committed row carries the instant its transmit started |
| PipelineDurability.AcceptedIsDurable | lora_bridge/core/bridge.py:216-237 | once any enqueue task committed after an accepted message's INSERT, no crash loses it: from then on a row of it is committed, or the radio confirmed it |
| PipelineDurability.NoIntentIsForgotten | lora_bridge/core/journal.py:109-118 | over every run: once an intent's row is committed, the journal keeps a row of it for good, unless the radio confirmed it and it was pruned |
| PipelineDurability.RecoveredIsMirrored | lora_bridge/app.py:47-57 | an orphan that came from a configured messenger and was queued again: once its item is SENT, every other configured chat of its room was mirrored its wire text, or is owed it by the worker just doing so |
| PipelineSafety.RunKeepsInv | lora_bridge/core/bridge.py:216-238 | the invariant tying queues, workers, both journal tables and the history of sends holds in every state of every run |
| PipelineSafety.CrashKeepsInv | lora_bridge/core/journal.py:65-68 | a crash at any point, with statements not yet committed, keeps that invariant |
| PipelineSafety.TransmittingIsInHand | lora_bridge/core/egress.py:57-62 | while the bridge is up, a committed TRANSMITTING row is the item in the hands of its node's worker |
| PipelineSafety.RebuiltIsTheRow | lora_bridge/app.py:39-56 | an item rebuilt from a row is described by that row and keeps its key and source; it counts as a chat's message if and only if its source is a configured messenger; its time stamp is the present one, its original is the wire text, and its sender is the bridge |
| PipelineSafety.PendingOrphanIsQueueable | lora_bridge/app.py:44-57 | an orphan that recovery queues stands PENDING in both tables and was never on the air |
| Pipeline.WorkKeepsInv | lora_bridge/core/egress.py:49-86 | every act of every worker keeps the invariant, whatever the radio answers |
| RadioWorker.RadioWorker.Run | lora_bridge/core/egress.py:49-55 | the drain loop takes items oldest first and performs for each exactly the acts of the worker program, no other |
| RadioWorker.RadioWorker.Serve | lora_bridge/core/egress.py:51-55 | one turn: exactly the program's acts; the loop guard learns the text if and only if the item was at most ttl old and the deciding answer was in time and ok |
| RadioWorker.RadioWorker.Transmit | lora_bridge/core/egress.py:57-72 | persist, report, send, then SENT with mirrors and prune or FAILED: exactly the program's acts in its order; the guard learns the text if and only if the deciding answer was in time and ok |
| RadioWorker.RadioWorker.SendWithRetry | lora_bridge/core/egress.py:74-86 | the result is that of the first answer that is not a busy to be retried; a timeout is None |
| RadioWorker.RadioWorker.MirrorAll | lora_bridge/core/bridge.py:247-249 | one mirror act per target, in room order |
| RadioWorker.CallsAreBounded | lora_bridge/core/egress.py:76-86 | one item is put on the air at most BUSY_RETRIES times, a stale one never |
| RadioWorker.FreshTranscript | lora_bridge/core/egress.py:57-86 | the acts of a fresh item in full: TRANSMITTING committed and reported, one to three calls repeated only after a busy answer, then SENT committed, reported and taught to the guard, all mirrors and the prune if the last answer was in time and ok, else FAILED committed and reported and nothing more |
| RadioWorker.VerdictIsTheRadios | lora_bridge/core/egress.py:64-72 | FAILED is written if and only if the last call was answered late or without ok, SENT if and only if in time and with ok |
| RadioWorker.StaleTranscript | lora_bridge/core/egress.py:51-54 | a stale item is REJECTED in the journal, committed and bounced with TTL_EXPIRED, and nothing else |
| NodeLife.RunIsAlive | lora_bridge/core/queue.py:54-66 | order, timeliness, payment and mirror debts of a node hold after every interleaving of puts and worker acts |
| NodeLife.AirtimeIsBounded | lora_bridge/core/queue.py:54-66 | each started item took a token and was at most ttl old, so starts within [a, b] are bounded by the limiter over a span longer by ttl |
| NodeLife.GrantedIsWindowAllowed | lora_bridge/core/queue.py:56-57 | the node's limiter grants exactly what the window specification allows over its whole life |
| NodeLife.PutIsQueuePut | lora_bridge/core/queue.py:54-62 | a put on the node of the step machine is the put of the mutable queue: same answer, same stream, same limiter history |
| NodeLife.EveryItemHasOneFate | lora_bridge/core/egress.py:49-72 | conservation of accepted items on one node |
| NodeLife.SentInAcceptOrder | lora_bridge/core/egress.py:49-66 | confirmed sends are in accept order |
| NodeLife.ChatMirrorsFollowSent | lora_bridge/core/bridge.py:240-249 | what a chat was mirrored plus what it is still owed is exactly the confirmed items meant for it, in accept order |
| NodeLife.EveryOtherChatIsReached | lora_bridge/core/bridge.py:247-249 | for a chat's message those chats are every other configured messenger member of its room; a relay is mirrored to none |
| NodeLife.NobodyElseIsReached | lora_bridge/core/bridge.py:240-249 | whoever is reached is a configured messenger member of the item's room other than its source, and the item is a chat's |
| Routing.EveryOtherChatOnce | lora_bridge/core/routing.py:47-51 | in a room without repeated channels every other chat is on the mirror list once and the source not at all |
| Recovery.Recover | lora_bridge/app.py:34-58 | lists every orphan once; afterwards the journal is the repaired table, and every queue, limiter history included, is what handling the orphans in order makes of it; which orphans were taken is exactly what each queue allowed in its turn |
| Recovery.EveryPendingOrphanIsQueued | lora_bridge/app.py:44-57 | with unused queues, when no node has more PENDING orphans than its buffer and its bucket hold, every PENDING orphan on a known node is queued, and nothing else |
| Recovery.OneTooManyIsLeft | lora_bridge/app.py:44-57 | the orphan that finds the buffer full, or the bucket and all it took in since its birth given out, is not queued: both bounds of the guard are sharp |
| Recovery.NoOrphanIsLeft | lora_bridge/app.py:38-57 | over every run: when a start meets that guard and its recovery comes through without a crash, every PENDING orphan on a configured node waits in that node's queue when the bridge comes up |
| Recovery.PendingRowIsQueuedAgain | lora_bridge/app.py:38-57 | the same from the journal's side: a row committed PENDING at the start, for a configured node, waits in that node's queue when the bridge comes up |
| Recovery.RecoverIsTheMachine | lora_bridge/app.py:34-57 | the pipeline machine has recovery steps that reach, orphan after orphan, the same journal and the same queues |
| Recovery.Handle | lora_bridge/app.py:39-57 | TRANSMITTING becomes UNKNOWN and is never queued; PENDING is queued if and only if its node is known and its queue takes one more message now; no other node's queue changes |
| Recovery.PutIsOneStep | lora_bridge/app.py:44-57 | for a PENDING orphan the machine's RecoverPut changes the queues as the loop body does, and accepts exactly when it does |
| Recovery.MarkIsTwoSteps | lora_bridge/app.py:40-43 | for a TRANSMITTING orphan the machine's statement and commit leave the journal the loop body leaves |
| Recovery.RepairedTable | lora_bridge/app.py:40-43 | repair turns every TRANSMITTING row into UNKNOWN and touches no other |
| Recovery.RefilledByNode | lora_bridge/app.py:44-57 | node by node, what was pending stays in front and exactly the node's own orphans that its queue took follow, in listing order |
| Journal.SqliteJournal.RecordPending | lora_bridge/core/journal.py:81-100 | the row is written PENDING without a start time, and everything executed so far is committed |
| Journal.SqliteJournal.MarkTransmitting | lora_bridge/core/journal.py:102-107 | status and start time of an existing row, then commit |
| Journal.SqliteJournal.MarkTerminal | lora_bridge/core/journal.py:109-114 | status of an existing row, then commit |
| Journal.SqliteJournal.Prune | lora_bridge/core/journal.py:116-118 | the row is gone, then commit |
| Journal.SqliteJournal.Recover | lora_bridge/core/journal.py:120-142 | every PENDING or TRANSMITTING row exactly once with its content, nothing else |
| Journal.UnfinishedAreListed | lora_bridge/core/journal.py:120-142 | a row is on the list of orphans if and only if it is PENDING or TRANSMITTING |
| SharedKeys.SharedKeyBreaksPersistence | lora_bridge/core/queue.py:33-35 | a run of the pipeline machine, open to keys given out before, in which a send is on the air with no committed row: the hypothesis on keys is needed for persist-before-act |
| SharedKeys.FreshKeysAreTheSame | lora_bridge/core/bridge.py:216-237 | with fresh keys that machine is the pipeline machine, step for step |
| SharedKeys.KeysAgreeIff | lora_bridge/core/queue.py:33-35 | two intents have one key if and only if messenger and message number agree, whatever their chats, for messenger ids without a colon |
| KeyReuse.PersistBeforeActWithReuse | lora_bridge/core/egress.py:57-62 | persist-before-act on every run that gives out only keys no queued or in-hand intent has at that moment, whether used before or not |
| KeyReuse.NewKeysAreFree | lora_bridge/core/queue.py:33-35 | every run of the pipeline machine is such a run: a key never given out is free |
| TokenBucket.BucketRefinesWindow | lora_bridge/core/ratelimit.py:14-33 | for every history the incremental bucket grants a request if and only if every window since construction and since every earlier call has room for it |
| TokenBucket.GrantsAreBounded | lora_bridge/core/ratelimit.py:14-33 | in any span [a, b] at most capacity + rate * (b - a) is granted |
| TokenBucket.TokenBucket.TryConsume | lora_bridge/core/ratelimit.py:21-26 | the mutable bucket's answer is the window specification's, and the request joins its history |
| TokenBucket.TokenBucket.LevelIsExact | lora_bridge/core/ratelimit.py:14-33 | d seconds after the last top-up n is granted if and only if the tokens left plus d/window_seconds times msgs_per_window make up n and max(burst, msgs_per_window) holds n |
| TokenBucket.TokenBucket.DrainedRefills | lora_bridge/core/ratelimit.py:16-33 | a drained bucket gains exactly msgs_per_window messages in window_seconds; the next single one is granted exactly when its share of the window has passed |
| TokenBucket.TokenBucket.BurstIsExact | lora_bridge/core/ratelimit.py:15-17 | of the single messages asked for at the very beginning exactly the first max(burst, msgs_per_window) are granted |
| TokenBucket.TokenBucket.GrantsPerWindow | lora_bridge/core/ratelimit.py:14-33 | any span of length window_seconds grants at most max(burst, msgs_per_window) + msgs_per_window |
| CommitQueue.CommitQueue.PutNowait | lora_bridge/core/queue.py:54-62 | accepted if and only if the window specification allows one more message and the stream has room; stream and limiter history afterwards, a token spent even on a full stream |
| CommitQueue.CommitQueue.AcceptsPerWindow | lora_bridge/core/queue.py:51-57 | the same for a queue built with that rate, whatever is asked of it |
| CommitQueue.PutAppends | lora_bridge/core/queue.py:54-62 | a put leaves the pending items alone or adds the item at the back, exactly when the queue takes it |
| CommitQueue.CommitQueue.Receive | lora_bridge/core/queue.py:68-69 | the oldest pending item, or none exactly when nothing is pending |
| CommitQueue.ReceiveTakesOldest | lora_bridge/core/queue.py:47-49 | sending and receiving around a blocked receiver keep one first-in-first-out order |
| TtlWindow.RunIsFaithful | lora_bridge/core/ttl_window.py:19-46 | after every history, entries lie in the order of their last touch, carry their last stamp, and a stamped key is missing only once older than ttl |
| TtlWindow.LiveStampIsKept | lora_bridge/core/ttl_window.py:40-46 | a key stamped at or after now - ttl is still stored after eviction |
| TtlWindow.KeptKeyWasTouched | lora_bridge/core/ttl_window.py:25-46 | a stored key was added or hit at or after now - ttl |
| TtlWindow.SurvivesIffShielded | lora_bridge/core/ttl_window.py:40-46 | an entry outlives eviction if and only if some entry at or before it has a live stamp |
| TtlWindow.StampMayOutliveTtl | lora_bridge/core/ttl_window.py:29-31 | a hit without a new stamp can keep a key beyond ttl: a concrete history |
| TtlWindow.AcceptedKeysAreSpaced | lora_bridge/core/ttl_window.py:25-33 | two calls that both found one key new are more than ttl apart |
| TtlWindow.SwallowedKeyIsRecent | lora_bridge/core/ttl_window.py:25-33 | a key is found present only when added or hit within the last ttl |
| TtlWindow.AddOnlyWindowIsExact | lora_bridge/core/ttl_window.py:19-23 | a window filled by add alone holds a key if and only if it was added within ttl |
| TtlWindow.TtlWindow.Add | lora_bridge/core/ttl_window.py:19-23 | the new store is the history's store with this call added |
| TtlWindow.TtlWindow.AddIfAbsent | lora_bridge/core/ttl_window.py:25-33 | answer and new store are those of the history |
| TtlWindow.TtlWindow.Contains | lora_bridge/core/ttl_window.py:35-38 | answer and new store are those of the history |
| TtlWindow.TtlWindow.Evict | lora_bridge/core/ttl_window.py:40-46 | the pop loop leaves exactly the entries from the first live stamp on |
| RxFilter.ForwardedAreSpaced | lora_bridge/core/bridge.py:133-139 | two forwarded messages with one dedup key are more than ttl apart, over every history of receptions and transmissions |
| RxFilter.EchoIsExact | lora_bridge/core/loopguard.py:20-26 | is_echo answers true if and only if that text was marked sent within ttl |
| RxFilter.FirstCopyIsForwarded | lora_bridge/core/bridge.py:133-139 | a message with no equal key heard and no equal text sent within ttl is forwarded |
| RxFilter.EchoIsNeverForwarded | lora_bridge/core/bridge.py:133-139 | a message with a text this node sent within ttl never goes on to a room |
| RxFilter.SwallowedHasCause | lora_bridge/core/dedup.py:30-32 | a swallowed duplicate has an equal key heard within ttl |
| RxFilter.KeyTellsSendersApart | lora_bridge/core/dedup.py:20-28 | without an origin tag, or with an empty one, two keys are equal if and only if sender and text are, as long as uid and name hold no NUL |
| RxFilter.TagTellsMessagesApart | lora_bridge/core/dedup.py:20-28 | a tagged message has the key of another if and only if that one has the same tag, as long as the tag holds no NUL |
| RxFilter.NodeFilter.Consume | lora_bridge/core/bridge.py:133-139 | one reception: forwarded exactly as the histories of both windows say |
| RxFilter.TtlDedup.Accept | lora_bridge/core/dedup.py:30-32 | the answer of the window for the message's key |
| RxFilter.LoopGuard.MarkSent | lora_bridge/core/loopguard.py:20-22 | the text joins the window's history |
| RxFilter.LoopGuard.IsEcho | lora_bridge/core/loopguard.py:24-26 | the answer of the window for the message's text |
| Notifier.NoDropIsLost | lora_bridge/core/notifier.py:54-77 | at every moment of every interleaving, rejects noted under a (source, reason) = drops told to the sink + drops still held |
| Notifier.NoticesAreSpaced | lora_bridge/core/notifier.py:56-77 | notices for one (transport, reason) are decided at readings at least one window apart, on both paths together |
| Notifier.FlushNeverTrips | lora_bridge/core/notifier.py:70-74 | the delete of a flush always finds its key and the zero default of its window is never used |
| Notifier.FlushLeavesNothingDue | lora_bridge/core/notifier.py:67-77 | after a flush that ran through, every counter left belongs to a window that was not over at the flush's reading |
| Notifier.ToldIffFirstOfItsWindow | lora_bridge/core/notifier.py:67-77 | a flush tells a held count in its turn if and only if its window was over when the flush began, no counter before it in the snapshot shares the window, and no reject opened it again meanwhile |
| Notifier.HeldThroughAnyNumberOfFlushes | lora_bridge/core/notifier.py:59-64 | for any number of complete flushes, a whole window apart, there is a run in which a drop noted at the beginning is still held and was never told |
| Notifier.StepKeepsInv | lora_bridge/core/notifier.py:54-77 | an entry of an old snapshot stays current, or its window has been opened again meanwhile |
| Notifier.DropNotifier.NoteReject | lora_bridge/core/notifier.py:54-65 | immediate notice exactly when the window is over, otherwise one more held |
| Notifier.DropNotifier.Turn | lora_bridge/core/notifier.py:70-77 | one entry of the snapshot, with other rejects noted while its sink is awaited |
| Notifier.DropNotifier.FlushDue | lora_bridge/core/notifier.py:67-77 | the whole flush against any interleaved rejects: its trace, everything told meanwhile, which entries were told, namely those whose window was over in their turn, and the state it ends in |
| ChannelSlots.EveryChannelOwnsItsSlot | lora_bridge/transports/meshcore/transport.py:108-109 | after a start that succeeds, each channel endpoint holds a slot of its own with the right name and the expected hash, whatever the device failed to read or write |
| ChannelSlots.NothingOfOursIsOverwritten | lora_bridge/transports/meshcore/mappers/channel_util.py:57-115 | a slot of a configured channel keeps its name and is only ever rewritten with that channel's own name and hash, even in a start that fails |
| ChannelSlots.StartSucceeds | lora_bridge/transports/meshcore/mappers/channel_util.py:63-115 | with eviction on, a healthy device, as many slots as endpoints and no configured name stored twice, no resolve raises |
| ChannelSlots.SecondPassIsStable | lora_bridge/transports/meshcore/mappers/channel_util.py:63-115 | a second full pass answers the same slots and writes nothing |
| ChannelSlots.NoSlotIff | lora_bridge/transports/meshcore/mappers/channel_util.py:96-110 | a resolve finds no slot if and only if every readable slot holds another name that must be kept |
| ChannelSlots.ResolveOwns | lora_bridge/transports/meshcore/mappers/channel_util.py:72-90 | the answered slot is the first that holds the wanted channel with the expected hash |
| ChannelSlots.ResolveKeepsOurs | lora_bridge/transports/meshcore/mappers/channel_util.py:81-106 | one resolve leaves every slot of another configured channel as it was |
| ChannelSlots.SharedNameStealsTheSlot | lora_bridge/transports/meshcore/mappers/channel_util.py:72-91 | two endpoints with one channel name end on one slot: distinct names are needed |
| ChannelSlots.EmptyNameLosesTheSlot | lora_bridge/transports/meshcore/mappers/channel_util.py:72-83 | an endpoint with an empty channel name loses its slot: non-empty names are needed |
| ChannelSlots.RoutedToTheOwner | lora_bridge/transports/meshcore/mappers/handler.py:85-90 | when no two handlers share a slot, the event goes to the handler that holds it, in whatever order they are asked |
| ChannelSlots.EventGoesToItsChannel | lora_bridge/transports/meshcore/mappers/public.py:39-45 | after a start, an event on a slot reaches exactly the endpoint whose channel is there; an event without an index reaches nobody |
| ChannelSlots.Scan | lora_bridge/transports/meshcore/mappers/channel_util.py:59-115 | the scan loop chooses exact match, else last mismatch, else first empty, else first foreign when eviction is on |
| ChannelSlots.ResolveChannel | lora_bridge/transports/meshcore/mappers/channel_util.py:38-115 | new slots and index are those of the specification, errors included |
| ChannelSlots.CreateChannel | lora_bridge/transports/meshcore/mappers/channel_util.py:118-147 | one slot written, or none when the device refuses |
| ChannelSlots.ChannelHandler.ResolveSlot | lora_bridge/transports/meshcore/mappers/private.py:27-35 | the handler's index changes only when the resolve does not raise |
| ChannelSlots.StartAll | lora_bridge/transports/meshcore/transport.py:101-109 | the resolve loop: device, indices and failure are those of the specification |
| Utf8.CutDecodesToLongestFit | lora_bridge/core/transform.py:23-27 | cutting encoded bytes anywhere and decoding with errors ignored gives the longest whole-character prefix that fits |
| Utf8.RoundTrip | lora_bridge/core/transform.py:23-27 | decoding undoes encoding for every string of scalar values |
| Transform.ClipIsLongestFit | lora_bridge/core/transform.py:16-27 | a string is the clipped one if and only if it is the longest prefix within the byte limit |
| Transform.BudgetIsExact | lora_bridge/core/transform.py:30-59 | the excess is the frame of the label plus clipped nick plus text minus the limit |
| Transform.ShortTextAlwaysFits | lora_bridge/core/transform.py:30-59 | a text that fits beside a full-length nick is never too long |
| Transform.TextIsNeverCut | lora_bridge/core/transform.py:36-41 | text and nick can be read back from the wire text once the nick's length is known |
| AuthorCodec.SplitUndoesJoin | lora_bridge/transports/meshcore/mappers/channel_util.py:157-167 | splitting "name: text" gives name and text back if and only if the name is not empty and holds no ": " |
| AuthorCodec.SplitLosesNothing | lora_bridge/transports/meshcore/mappers/channel_util.py:164-167 | author and body together are the frame |
| AuthorCodec.FramesAreCopiesIff | lora_bridge/transports/meshcore/mappers/channel_util.py:170-180 | two channel frames of one node have one dedup key if and only if their raw text is the same, on whatever channels and at whatever time stamps, for texts without NUL |
| AuthorCodec.RelayParsesWhole | lora_bridge/core/transform.py:44-54 | the relay text of a named author parses whole if and only if neither name nor body holds ": " |
| AuthorCodec.UnnamedRelayParsesWhole | lora_bridge/core/transform.py:53-54 | the same for an unnamed author: also when the text begins with the separator |
| AuthorCodec.MessengerTextParsesWhole | lora_bridge/core/transform.py:36-41 | the same for a labelled messenger text, including the seam between tag and nick |
| AuthorCodec.WholeEchoIsRecognised | lora_bridge/transports/meshcore/mappers/channel_util.py:170-180 | a wire text that parses whole is recognised as our echo for a full ttl after it was sent |
| AuthorCodec.NamedEchoIsRecognised | lora_bridge/transports/meshcore/mappers/channel_util.py:173-180 | a frame with a sender in front is recognised whatever the wire text holds |
| AuthorCodec.RelayEchoIsRecognised | lora_bridge/core/transform.py:44-54 | the relay of a named author without separators comes back recognised |
| AuthorCodec.BrokenEchoIsRecognisedIff | lora_bridge/core/loopguard.py:24-26 | the echo of any wire text that does not parse whole is recognised if and only if the shorter part behind its separator was sent by itself within ttl |
| AuthorCodec.BrokenEchoIsLost | lora_bridge/core/loopguard.py:20-26 | a node that sent nothing but such a text does not recognise it, however soon it comes back |
| AuthorCodec.BrokenRelayIsLost | lora_bridge/core/transform.py:44-54 | the relay of a named author with a separator in name or text is such a text |
| ChannelCodec.SplitUndoesEncode | lora_bridge/transports/telegram/transport.py:59-69 | split_channel undoes messenger_channel for every chat id and every optional thread id, through decimal text |
| ChannelCodec.EncodeIsInjective | lora_bridge/domain/models.py:24-30 | two such chats never share a channel |
| ChannelCodec.SameChannelIff | lora_bridge/domain/models.py:24-30 | on arbitrary chats without '#', two share a channel if and only if chat and topic agree, an empty topic counting as none |
| ChannelCodec.ParseUndoesPrint | lora_bridge/transports/telegram/transport.py:66-69 | decimal parsing undoes decimal printing for every integer |
| Topology.ValidatorAgreesWithRegistry | lora_bridge/config/schema/app_config.py:99-144 | under the naming conventions a configuration has unique members if and only if its registry builds |
| Topology.RegistryImpliesValidator | lora_bridge/config/schema/app_config.py:110-144 | a configuration whose registry builds passes the validator, without any convention |
| Topology.HashInChatTripsRegistry | lora_bridge/core/routing.py:62-64 | a configuration with a '#' in a chat, the other conventions kept, that passes every validator and fails the registry |
| Topology.EmptyTopicTripsRegistry | lora_bridge/core/routing.py:62-64 | the same for an empty topic |
| Topology.SharedIdTripsRegistry | lora_bridge/core/routing.py:62-64 | the same for a configured messenger named like a node |
| Topology.AdmittedConfigRoutes | lora_bridge/wiring.py:85-105 | a validated configuration builds; every chat's channel leads to its own room, whose only LoRa target is the room's configured endpoint |
| Topology.EveryChatHasOneTarget | lora_bridge/core/bridge.py:149-152 | a chat of a well-shaped room has exactly one LoRa target |
| Topology.AtMostOneLoraTarget | lora_bridge/core/bridge.py:171-174 | a message from any member of a well-shaped room is put on the air at most once |
| Topology.PeersFaceEachOther | lora_bridge/core/routing.py:47-48 | in a room of two LoRa endpoints each is the other's only counterpart |
| Topology.ShapeIsOneOfTwo | lora_bridge/config/schema/rooms.py:73-89 | the shape check passes exactly one endpoint with chats, or two different endpoints |
| Topology.RegistryIsWellWired | lora_bridge/core/routing.py:57-64 | a registry that built has no room with a repeated channel, as the mirror theorems need |
| Topology.ValidateUniqueMembership | lora_bridge/config/schema/app_config.py:99-144 | passes if and only if no member occurs twice; a clash names two rooms that share a member |
| Topology.ValidateUniqueIds | lora_bridge/config/schema/app_config.py:68-76 | passes if and only if node ids and messenger ids are each distinct |
| Topology.SetIsSmallerIffRepeats | lora_bridge/config/schema/app_config.py:70-75 | a list is as long as its set exactly when nothing repeats |
| Topology.ValidateRoomRefs | lora_bridge/config/schema/app_config.py:78-97 | passes if and only if every reference names a configured endpoint or messenger |
| Topology.BuildRooms | lora_bridge/wiring.py:85-105 | the routes are the rooms' members, own endpoint first, subscribers in order |
| Topology.BuildRegistry | lora_bridge/core/routing.py:57-64 | builds if and only if no channel occurs twice; then every member's channel leads to its own room and no other channel leads anywhere |
| Debouncer.CallsIffNotSuperseded | lora_bridge/transports/telegram/reactions.py:64-128 | a wake-up starts its reaction call if and only if no later schedule or clear of the message came in between, whether or not the cancellation arrived |
| Debouncer.OneLiveTaskPerKey | lora_bridge/transports/telegram/reactions.py:71-77 | each message has at most one live task, carrying the current generation |
| Debouncer.EveryTaskWasScheduled | lora_bridge/transports/telegram/reactions.py:75-77 | every task of a run goes back to one schedule |
| Debouncer.ClearIsFinalIff | lora_bridge/transports/telegram/reactions.py:79-101 | a clear ends the reaction for good if and only if no call is in flight and not both a task sleeps and a reaction is shown |
| Debouncer.ClearDuringCallLeavesReaction | lora_bridge/transports/telegram/reactions.py:93-94 | a run in which SENT arrives during the call and the reaction stays |
| Debouncer.ClearOfSleepingTaskLeavesOldReaction | lora_bridge/transports/telegram/reactions.py:85-89 | a run in which the early return leaves the older reaction |
| Debouncer.SentSilencesEarlierTasks | lora_bridge/transports/telegram/reactions.py:147-150 | over every run of reports: once SENT is reported for a message, no task scheduled for it before ever starts its call |
| Debouncer.SentEndsWithNone | lora_bridge/transports/telegram/reactions.py:147-150 | over every run of reports: if at a message's SENT no call of it is in flight and not both a task sleeps and a reaction is shown, it has no reaction at any later moment, as long as only TRANSMITTING and SENT follow |
| Debouncer.SentEndsWithNoneOnlyIf | lora_bridge/transports/telegram/reactions.py:79-101 | without that guard the reaction is still shown after SENT, or a running call can still show it |
| Debouncer.TransmittingChangesNothing | lora_bridge/transports/telegram/reactions.py:141-142 | TRANSMITTING leaves tasks, generations and shown reactions as they are |
| Debouncer.EveryShownReportIsScheduled | lora_bridge/transports/telegram/reactions.py:23-35 | PENDING, FAILED, UNKNOWN and every reject reason each schedule one live task for the message, with pairwise different reactions |
| Debouncer.ReactionDebouncer.Plan | lora_bridge/transports/telegram/reactions.py:64-77 | the state after schedule |
| Debouncer.ReactionDebouncer.Clear | lora_bridge/transports/telegram/reactions.py:79-101 | the state after clear_now, and when it calls the API |
| Debouncer.ReactionDebouncer.DelayedApply | lora_bridge/transports/telegram/reactions.py:103-125 | the state after a wake-up, and the reaction it calls with |
| Debouncer.ReactionDebouncer.CallReturned | lora_bridge/transports/telegram/reactions.py:124-128 | the key counts as shown exactly when the call succeeded |
| Debouncer.ReactionDebouncer.Report | lora_bridge/transports/telegram/reactions.py:141-161 | SENT clears, TRANSMITTING changes nothing, every other status schedules its reaction if it has one: the state of a run of reports after one more |
| Bridge.Bridge.Admit | lora_bridge/core/bridge.py:143-164 | a chat's message is ignored outside rooms, refused READONLY before the policy is asked, refused by the policy before the queue is, or judged by size and queue; what is queued announces the message; the books are those of the verdict |
| Bridge.Bridge.EnqueueToLora | lora_bridge/core/bridge.py:182-238 | too long, refused by the queue, or queued together with its PENDING row and report, each exactly when; a text that is too long costs no token; what is queued announces the message: a chat's by tag and clipped nick, a relay by its author |
| Bridge.ItemAnnounces | lora_bridge/core/bridge.py:187-215 | the item made of a message: its source, number, target and original; on the air a chat's text behind a label with the longest fitting nick, and the tag in front of it if and only if several chats write to the room and labels include it; a relay's text behind its author, or alone |
| Bridge.RelayTellsAuthorsApart | lora_bridge/core/transform.py:44-54 | two relays of one text go on the air alike if and only if their authors have one name |
| Bridge.WritersAreCounted | lora_bridge/core/routing.py:43-45 | the writable count is above one if and only if two different members of the room are chats |
| Bridge.VerdictIsRight | lora_bridge/core/bridge.py:196-215 | queued if and only if the encoded text fits and the queue takes it; too long comes first; a chat is refused with its reason, a relay dropped |
| Bridge.NobodyIsLeftGuessing | lora_bridge/core/bridge.py:216-238 | a queued item leaves one committed PENDING row that describes it and one PENDING report; a refusal leaves one REJECTED report and one count with its reason; nothing else changes |
| Bridge.Bridge.TargetIsWired | lora_bridge/core/bridge.py:149-185 | when every LoRa member of a room is on a known node, so is the target of a chat's message: the node lookup never fails |
| Bridge.Bridge.RouteFromLora | lora_bridge/core/bridge.py:166-178 | a mirror to every chat of the room in order, and one relay to the peer endpoint if there is one, never told to the sender; a queued relay carries the author in brackets when one is named, the text alone when not |
| Bridge.Bridge.OnCommitted | lora_bridge/core/bridge.py:240-249 | the original goes to exactly the mirror targets the pipeline counts with |
| Bridge.Bridge.OnReject | lora_bridge/core/bridge.py:251-257 | a stale item of a chat is reported and counted, a relay is not |
| Bridge.Bridge.Reject | lora_bridge/core/bridge.py:270-282 | one REJECTED report, and one count with the node's notifier if the node exists |
| Bridge.QueuedPayloadFits | lora_bridge/core/bridge.py:196-215 | a queued payload fits the byte limit, ends with the sender's text untouched, and keeps the original for the mirrors |
| Bridge.ShortTextIsNeverTooLong | lora_bridge/core/bridge.py:186-200 | a text that fits beside a full-length nick is refused only for want of air time |
| Bridge.EnqueueIsTheMachine | lora_bridge/core/bridge.py:196-237 | what an admission leaves in journal and queue is what the pipeline machine reaches: enqueue and commit for a queued item, the rejected put for a refusal by the queue, no step for a text that is too long; other nodes see nothing |
| Bridge.JournalCanRebuild | lora_bridge/app.py:47-56 | the row of a queued item, new and dated, rebuilds an item with the same key, source, target and text, which is a chat's message if and only if the item was |

## Left out

- I/O and libraries: aiogram, meshcore, serial, BLE and TCP links, SQLite internals, YAML loading, signals and logging.
- Start, stop and reconnection of transports, apart from the resolve loop of a start.
- Room-server contacts and login; moderation commands, roles, audit paging, transliteration, help and menu texts: tables and library behaviour.
- The order of the status reports a user sees: PENDING is reported by the enqueue task alongside the worker. Journal rows are ordered instead.
- The wording of notices and log lines, and the optional time stamp of a message.
- The admission policy itself: its answer is a parameter of `Bridge.Bridge.Admit`.
- ChannelSlots.EveryChannelOwnsItsSlot: promises the expected hash, which is one byte of the key's digest (`lora_bridge/transports/meshcore/mappers/channel_util.py:35`), not the key: a slot with our name, another key and an equal byte is accepted, as the source accepts it.
- SHA-256: the expected hash of a channel is a given string; the device is taken to read back what was written, a refused write leaves the slot as it was.
- Float rounding: clocks, rates and tokens are reals.
- Lone surrogates in a Python string, which `encode` refuses: a string holds Unicode scalar values.
- ChannelCodec.ParseUndoesPrint: `Parse` takes ASCII digits with an optional sign; Python's `int` also takes blanks around them, underscores and other digits, which decimal printing never produces.
- RadioWorker.RadioWorker.Run: one worker run over the items present in the queue; arrivals during the run are the subject of the step machine in `NodeLife.dfy` and `Pipeline.dfy`.
- Bridge.Bridge.EnqueueToLora: one call from start to end; its interleaving with workers and other tasks is the subject of `Pipeline.dfy`.
- Bridge.Bridge.RouteFromLora: takes the room's shape for granted, as `enforce_shape` leaves it: one peer endpoint at most.
- Debouncer.ClearIsFinalIff: a call that clears a reaction is taken to succeed; the source ignores its failure.
- Recovery.Recover: the statuses UNKNOWN and PENDING it reports to users.
