# Verified model of the platform's stateful protocols

This project models the small stateful protocols of the platform and proves what each keeps over
whole runs. `dafny verify dfyconfig.toml` checks everything.

Each protocol follows one pattern. A state is a value, one atomic piece of the code is a step
function on it, and a class with the code's own fields has methods proved to do exactly that step.
The properties are lemmas about any sequence of steps. Acquires, logins, uploads, upstream calls and
member adjustments overlap: they are interleaved steps, cut where the code awaits.

| file | protocol |
|---|---|
| `TokenBucket.dfy`, `LuaBucket.dfy`, `RateLimiter.dfy` | token-bucket rate limiting: in memory, in Redis, and the fallback between them for a fleet of workers |
| `RefreshTokens.dfy` | refresh-token rotation and family revocation |
| `Sse.dfy`, `SseDecoder.dfy`, `DifyAdapter.dfy`, `ChatReducer.dfy`, `ChatEffects.dfy`, `EventPipeline.dfy`, `Envelope.dfy`, `ToolApproval.dfy`, `RunLogTrace.dfy` | the event stream: upstream text, adapter and its approval gate, printed frames, decoder, chat bubbles, and the trace recorded on the way |
| `Uploads.dfy` | the two-level upload limit with cancellation and leases |
| `LoginLockout.dfy`, `LoginFailover.dfy` | login lockout, shared and in memory, and the fallback of several processes between the two |
| `KnowledgeLedger.dfy`, `Recompute.dfy`, `KnowledgeRepair.dfy` | the knowledge-base ledger and its repair script |
| `LastAdmin.dfy` | the last-administrator rule under concurrent adjustments |
| `Keyset.dfy` | keyset pagination over a changing table |
| `DifyClient.dfy` | retry with back-off behind a circuit breaker |
| `Wrappers.dfy` | the optional value |

Times are `real` and never decrease along a run. A Redis script, a database transaction and the
code between two awaits are each one step. A semaphore is a counter. What the outside world answers
(Redis, the upstream, the random generator, JSON and number texts) is a parameter.

## Results that go against the code or its documentation

* A process that failed to reach Redis may ask it again within the 30 s cooldown: acquires overlap,
  and the answer of one that was already waiting ends the cooldown early. That is exactly when it
  happens (`RateLimiter.ReopenedIffAnswered`, `RateLimiter.ProbeSpacing`), and it does happen: in the
  run of `RateLimiter.ProbeWithinCooldown` Redis is asked again 0.3 s after a failure.
* One long-lived client whose trial stream is abandoned records no outcome for it, and until a
  request admitted earlier records one, that path admits nothing, however late
  (`DifyClient.ShutForeverIff`, `DifyClient.AbandonedTrial`).
* A call is meant to record one outcome on its path. `dify_client.py:177` catches
  `json.JSONDecodeError` alone, so a successful reply whose body is not valid Unicode (`api_body.py:28`
  catches both errors) leaves the call with none recorded; so does a body with a broken content
  encoding, which is no `TransportError` (`dify_client.py:147`, `dify_client.py:169`). Only then does an
  admitted, uncancelled call record nothing (`DifyClient.DifyClientService.WithRetry`), and if it was
  the trial, its path stays shut (`DifyClient.UndecodableTrial`).
* A cursor that starts with an integer too large for a `time_t` makes a listing raise, where every
  other malformed cursor gives an empty page as its comment promises (`Keyset.UnreadableCursor`).
* Two rate-limit keys of which one is the other's stamp key make the script fail; the script agrees
  with the ideal bucket exactly when no such pair exists (`LuaBucket.AlikeIffApart`), and the
  limiter's keys form one just when two identities differ by the suffix `:ts`
  (`LuaBucket.StampedBucketKey`).
* The in-memory lockout store is documented as mirroring the Redis expiry, but it sweeps once a
  minute. It mirrors it exactly when no failure finds a count whose window has passed
  (`LoginLockout.AgreeThroughoutIff`).
* Asking before recording, as the login does, is not enough to keep that store at least as strict:
  one login that overlaps a locking failure can leave Redis locked for longer
  (`LoginLockout.StoresDiffer`). The exact conditions are `LoginLockout.StrictThroughoutIff` and
  `LoginLockout.LockedSinceAskedIff`.
* A completed document that the upstream later reports failed, or whose segment total changes, is
  counted wrongly; the exact conditions are `KnowledgeLedger.RecordBalancedIff`,
  `UploadBalancedIff` and `DeleteBalancedIff`. A listing that completes a document while its delete
  awaits the upstream is counted for good (`KnowledgeLedger.OverlappedDeleteBalancedIff`).
* A listing records its answers against the rows it read before. One that read a failed record puts a
  document that a retry has restarted in the meantime back to failed while the upstream indexes it
  (`KnowledgeLedger.ListedDuringRetry`), and takes back a completion that was already counted
  (`KnowledgeLedger.ListedDuringRecovery`); exactly when is `KnowledgeLedger.OverlappedListingIff`.
* A stream that names its message like a loaded bubble writes into the history
  (`ChatReducer.KeepsTextIff`), and one that has used the next fallback id has that bubble reopened
  (`ChatReducer.ReopensIff`). Neither the adapter nor the reducer checks the upstream's ids; ids in
  the form of a UUID never clash (`ChatReducer.UuidsStandApart`).
* The trace's output is described as the final answer, updated by `agent_message` too. The code
  overwrites it with each piece of a `message` and ignores `agent_message`: the run log records the
  last piece only (`RunLogTrace.RunLogKeepsLastPiece`) or nothing
  (`RunLogTrace.RunLogMissesAgentAnswers`).

## Model

| member | source | states |
|---|---|---|
| `TokenBucket.InMemoryTokenBucket.Acquire` | apps/backend/app/rate_limit.py:83-97 | The in-place acquire makes the step and gives the answer of the value model, sweep first and fresh key granted untested. |
| `TokenBucket.InMemoryTokenBucket.Sweep` | apps/backend/app/rate_limit.py:99-107 | The loop over the entries drops exactly those idle longer than their refill window, at most once per interval. |
| `TokenBucket.HeadroomPaysForGrant` | apps/backend/app/rate_limit.py:92-97 | A call spends at most what it takes out of its key's remaining admissions for a window: the step behind the bound. |
| `TokenBucket.IdealAdmissionBound` | apps/backend/app/rate_limit.py:88-97 | The bucket that never forgets admits at most capacity + rate * (t - s) calls of a key in any window, over any interleaving of keys. |
| `TokenBucket.GrantedIffAffordable` | apps/backend/app/rate_limit.py:83-97 | Call n of a key is granted if and only if, counted from any call i of that key so far, the grants since and this one are at most capacity + rate * (at_n - at_i). |
| `TokenBucket.WaitedIsGranted` | apps/backend/app/rate_limit.py:92-97 | Nobody is refused forever: a call at least 1 / rate after its key's latest grant is granted, however often it was refused in between. |
| `TokenBucket.MemStep` | apps/backend/app/rate_limit.py:83-107 | One acquire is answered as by the never-forgetting bucket, and only fully refilled levels are ever missing. |
| `TokenBucket.EvictionUnobservable` | apps/backend/app/rate_limit.py:83-107 | Over every timed call sequence the sweeping bucket answers exactly as one that never forgets. |
| `TokenBucket.MemAdmissionBound` | apps/backend/app/rate_limit.py:83-107 | The in-memory bucket keeps the admission bound for every key and window despite eviction. |
| `TokenBucket.MemGrantedIffAffordable` | apps/backend/app/rate_limit.py:83-107 | The in-process bucket grants by that very law, sweeps included. |
| `TokenBucket.IdleKeysAreForgotten` | apps/backend/app/rate_limit.py:99-107 | After any call, only keys called within their refill window and one minute are held. |
| `TokenBucket.FreshKeyAgreesIffCapacity` | apps/backend/app/rate_limit.py:88-90 | A fresh key's untested grant agrees with the ideal bucket if and only if the capacity is at least one. |
| `LuaBucket.RedisServer.Eval` | apps/backend/app/rate_limit.py:30-54 | The script, command by command on two Redis strings, makes the model's step; a denial drops the time to live, a grant sets it. |
| `LuaBucket.LuaStep` | apps/backend/app/rate_limit.py:30-54 | A script run answers as the ideal bucket, never meets a count without its stamp, and both strings expire only after a full refill. |
| `LuaBucket.LuaRunIsIdealRun` | apps/backend/app/rate_limit.py:30-54 | Over any timed run the expiring Redis bucket replies as the ideal bucket. |
| `LuaBucket.BucketsAgree` | apps/backend/app/rate_limit.py:30-107 | The in-memory bucket, the Redis bucket and the ideal bucket give identical answers on every timed run. |
| `LuaBucket.LuaGrantedIffAffordable` | apps/backend/app/rate_limit.py:30-54 | The script grants by the same law, and never fails on keys that stand apart. |
| `LuaBucket.ScriptExpiry` | apps/backend/app/rate_limit.py:40-53 | A grant leaves both strings one to two seconds longer than a full refill takes, a denial leaves them without expiry. |
| `LuaBucket.CollidingKeysFail` | apps/backend/app/rate_limit.py:152-161 | A key that is another's stamp key makes the script fail where the ideal bucket grants. |
| `LuaBucket.AlikeIffApart` | apps/backend/app/rate_limit.py:152-161 | The script agrees with the ideal bucket on every run over some keys if and only if no key is another's stamp key. |
| `LuaBucket.StampedBucketKey` | apps/backend/app/rate_limit.py:284-287 | One limiter key is another's stamp key just when rule and identity agree up to the suffix. |
| `LuaBucket.BucketKeysApart` | apps/backend/app/rate_limit.py:284-287 | The limiter's keys stand apart unless an identity ends in the suffix. |
| `RateLimiter.RedisTokenBucket.BeginAcquire` | apps/backend/app/rate_limit.py:130-132 | Up to the await: within the cooldown the fallback serves at once, otherwise Redis is asked and nothing else changes. |
| `RateLimiter.RedisTokenBucket.EndAnswered` | apps/backend/app/rate_limit.py:146-150 | An answer, whenever it arrives, ends the cooldown and is passed on. |
| `RateLimiter.RedisTokenBucket.EndFailed` | apps/backend/app/rate_limit.py:135-145 | An error, whenever it arrives, starts the cooldown at that time and the fallback serves. |
| `RateLimiter.StepIsIdeal` | apps/backend/app/rate_limit.py:130-150 | Whatever step of whatever overlapping acquire: a script run or a fallback answers as the ideal bucket it stands for, and the script never fails by itself. |
| `RateLimiter.FleetStep` | apps/backend/app/rate_limit.py:130-150 | Every step of overlapping acquires keeps all buckets of the fleet in step with their ideal ones. |
| `RateLimiter.FleetPays` | apps/backend/app/rate_limit.py:130-150 | A caller's grant, even one that arrives long after it was decided, is paid for by the one bucket that decided it. |
| `RateLimiter.FleetAdmissionBound` | apps/backend/app/rate_limit.py:130-150 | However acquires overlap, time out, are cancelled or answered late, N workers sharing one Redis admit at most (N+1) * (capacity + rate * d) calls of a key decided in any window. |
| `RateLimiter.LocalIffRecentFailure` | apps/backend/app/rate_limit.py:130-132 | An acquire is served without asking Redis if and only if the latest outcome its process observed is a failure less than 30 s ago. |
| `RateLimiter.ProbeSpacing` | apps/backend/app/rate_limit.py:130-150 | Within 30 s of a failure its process asks Redis exactly when the latest outcome since is an answer; then an acquire already waiting at the failure was answered in between. |
| `RateLimiter.ReopenedIffAnswered` | apps/backend/app/rate_limit.py:130-150 | Within 30 s of a failure the cooldown ends early if and only if an acquire already waiting at that failure is answered. |
| `RateLimiter.ProbeWithinCooldown` | apps/backend/app/rate_limit.py:130-150 | A real run of three overlapping acquires meets that condition: Redis is asked 0.3 s after an error its process observed. |
| `RateLimiter.RecoveryWithinCooldown` | apps/backend/app/rate_limit.py:113-150 | From 30 s after the last failure a process observes, it serves nothing from its fallback without asking. |
| `RateLimiter.RepliesAreOneBucket` | apps/backend/app/rate_limit.py:130-150 | Whatever fails around them, the script replies of the whole fleet are those of one ideal bucket. |
| `RateLimiter.HealthyFleetIsOneBucket` | apps/backend/app/rate_limit.py:130-150 | While no process observes a failure, no fallback serves and every answer is that of the one ideal bucket. |
| `RateLimiter.BuildRules` | apps/backend/app/rate_limit.py:209-246 | The rules kept are exactly the configured ones whose capacity and rate can be enforced, in table order. |
| `RateLimiter.RulesMatchSettings` | apps/backend/app/rate_limit.py:209-246 | There is one rule per allowance of at least one, with that capacity, refilled completely in exactly one window: sixty seconds, or the configured ones for the global rule. |
| `RateLimiter.AllowancePerWindow` | apps/backend/app/rate_limit.py:209-246 | So a bucket admits at most twice the allowance in any stretch as long as its window. |
| `RefreshTokens.IssueStartsFamily` | apps/backend/app/auth/refresh.py:56-84 | An issued token is live for ttl and all there is of its family; every other family is as it was. |
| `RefreshTokens.RefreshService.RotateToken` | apps/backend/app/auth/refresh.py:86-150 | The row-locked rotation mints just for a known, unrevoked, unexpired token of an existing user, answers 401 or 409 otherwise, and changes the table as that outcome owes. |
| `RefreshTokens.RotationOutcome` | apps/backend/app/auth/refresh.py:86-150 | Which of the four outcomes answers which token, time and user, in terms of the row, with the whole new table. |
| `RefreshTokens.AcceptedUntilExpiry` | apps/backend/app/auth/refresh.py:56-142 | Over any run a token minted at a, by issue or rotation, and not revoked since, is rotated before a + ttl and refused as expired from a + ttl on. |
| `RefreshTokens.RefreshService.RevokeToken` | apps/backend/app/auth/refresh.py:152-166 | Revoking by token revokes its family's active rows, or nothing for an unknown token. |
| `RefreshTokens.FirstRevocationWins` | apps/backend/app/auth/refresh.py:202-217 | Whatever revokes the tokens of a revoked family again, the rows keep the first time and reason. |
| `RefreshTokens.RotateKeepsChains` | apps/backend/app/auth/refresh.py:130-142 | A rotation hands the family's one head over from the claimed token to the successor. |
| `RefreshTokens.StepKeepsChains` | apps/backend/app/auth/refresh.py:56-217 | Every operation keeps: one head per family, one user per family. |
| `RefreshTokens.ReachableChained` | apps/backend/app/auth/refresh.py:56-217 | In every reachable table each family has exactly one token not used up by rotation, hence at most one live token. |
| `RefreshTokens.RotationIsNoReason` | apps/backend/app/auth/refresh.py:202-217 | A caller revoking a family under the name of rotation breaks its chain if and only if the family was live. |
| `RefreshTokens.MintedIsTheLiveToken` | apps/backend/app/auth/refresh.py:56-142 | A minted token is its family's only live token and carries the family's user. |
| `RefreshTokens.RevocationIsWrittenOnce` | apps/backend/app/auth/refresh.py:95-217 | Over any run rows stay, and revocation time and reason never change once written. |
| `RefreshTokens.DeadStaysDead` | apps/backend/app/auth/refresh.py:95-217 | A family without a live token never regains one. |
| `RefreshTokens.ReplayOfAClaim` | apps/backend/app/auth/refresh.py:95-142 | A token is claimed at most once; its replay meets 409 up to and including 30 s, and 401 with the family dead after. |
| `RefreshTokens.EndedFamilyNeverMints` | apps/backend/app/auth/refresh.py:95-142 | No rotation mints in a family that reuse, logout or a password set has ended. |
| `RefreshTokens.RevocationEndsFamilies` | apps/backend/app/auth/refresh.py:152-217 | Revoking by token, family or user leaves no live token in what it names. |
| `SseText.SplitConcat` | apps/frontend/lib/sse-decoder.ts:26-28 | Splitting a text in two only cuts the line the cut falls into. |
| `SseText.SplitTwice` | apps/frontend/lib/sse-decoder.ts:25-28 | Splitting one part, then its rest with the next part, gives the lines of the whole. |
| `SseText.JoinSplit` | apps/frontend/lib/sse-decoder.ts:21-24 | Splitting loses nothing: the pieces hold no newline, and joined by newlines they are the text. |
| `SseText.TrimTakesSpace` | apps/frontend/lib/sse-decoder.ts:31-36 | Trimming takes white space off both ends, all of it, and nothing else. |
| `SseText.SpacesDifferAt` | apps/backend/app/services/dify_conversation_adapter.py:190-197 | The adapter and the decoder take the same characters for white space but for six. |
| `SseDecoding.SseDecoder.PushChunk` | apps/frontend/lib/sse-decoder.ts:24-57 | The push loop is the line machine run over the complete lines of buffer and chunk. |
| `SseDecoding.DecoderReadsLines` | apps/frontend/lib/sse-decoder.ts:27-55 | Every payload that parses is one event, under the name of the nearest `event:` line before it that no payload has used up, malformed payloads included; a carriage return before the newline makes no difference. |
| `SseDecoding.PushTwice` | apps/frontend/lib/sse-decoder.ts:24-57 | Two pushes in a row do what one push of both texts does. |
| `SseDecoding.ChunksDoNotMatter` | apps/frontend/lib/sse-decoder.ts:20-58 | For every text, malformed or not, and every way to cut it, events, buffer and pending name equal those of one push. |
| `SseDecoding.FrameLines` | apps/backend/app/services/conversation.py:89-93 | A printed frame is an event line, a data line and a blank line. |
| `SseDecoding.PushFrame` | apps/backend/app/services/conversation.py:89-93 | The decoder reads one printed frame back as its event, whatever name was pending. |
| `SseDecoding.DecodedNamesAreOneLine` | apps/frontend/lib/sse-decoder.ts:33-36 | Every name the decoder yields or keeps is one trimmed line. |
| `SseDecoding.RoundTripIff` | apps/frontend/lib/sse-decoder.ts:20-58 | Printed events, cut anywhere, come back exactly, if and only if every name is one trimmed line. |
| `DifyAdapter.MapEvent` | apps/backend/app/services/dify_conversation_adapter.py:338-481 | An event is dropped exactly when its name is unknown; a mapped one goes by its platform name, and `error` and `message_end` come from those events alone. `MappedFields` says what it carries. |
| `DifyAdapter.MappedFields` | apps/backend/app/services/dify_conversation_adapter.py:338-481 | Every mapped event but `message_end` carries exactly the fields of its renaming, each with the upstream's value, or null. |
| `Envelope.MessageEvent` | apps/backend/app/services/dify_conversation_adapter.py:341-350 | `message` goes by `content`, `messageId`, `conversationId` and `taskId`, each from its upstream field, with no other. |
| `Envelope.AgentMessageEvent` | apps/backend/app/services/dify_conversation_adapter.py:385-393 | `agent_message` goes by `answer`, `messageId` and `taskId`, each from its upstream field, with no other. |
| `Envelope.MessageReplaceEvent` | apps/backend/app/services/dify_conversation_adapter.py:376-384 | `message_replace` becomes `replace`, by `answer`, `messageId` and `taskId`, each from its upstream field, with no other. |
| `Envelope.AgentThoughtEvent` | apps/backend/app/services/dify_conversation_adapter.py:394-403 | `agent_thought` goes by `thoughtId`, `thought`, `tool` and `observation`, each from its upstream field, with no other. |
| `Envelope.MessageFileEvent` | apps/backend/app/services/dify_conversation_adapter.py:371-375 | `message_file` becomes `file`, by `id`, `type`, `url` and `belongsTo`, each from its upstream field, with no other. |
| `Envelope.ErrorEvent` | apps/backend/app/services/dify_conversation_adapter.py:470-478 | `error` goes by `code`, `message` and `status`, each from its upstream field, with no other. |
| `Envelope.WorkflowStartedEvent` | apps/backend/app/services/dify_conversation_adapter.py:404-408 | `workflow_started` goes by `workflowRunId`, each from its upstream field, with no other. |
| `Envelope.TtsMessageEvent` | apps/backend/app/services/dify_conversation_adapter.py:459-467 | `tts_message` goes by `audio`, `messageId` and `taskId`, each from its upstream field, with no other. |
| `Envelope.TtsMessageEndEvent` | apps/backend/app/services/dify_conversation_adapter.py:468-469 | `tts_message_end` goes by `audio`, each from its upstream field, with no other. |
| `Envelope.WorkflowFinishedEvent` | apps/backend/app/services/dify_conversation_adapter.py:409-418 | `workflow_finished` goes by `status`, `outputs` and `error` of its data, each from its upstream field, with no other. |
| `Envelope.NodeStartedEvent` | apps/backend/app/services/dify_conversation_adapter.py:419-428 | `node_started` goes by `nodeId`, `title` and `index` of its data, each from its upstream field, with no other. |
| `Envelope.NodeFinishedEvent` | apps/backend/app/services/dify_conversation_adapter.py:429-437 | `node_finished` goes by `nodeId` and `status` of its data, each from its upstream field, with no other. |
| `Envelope.ParallelBranchStartedEvent` | apps/backend/app/services/dify_conversation_adapter.py:438-446 | `parallel_branch_started` becomes `branch_started`, by `parallelId` and `parallelBranchId` of its data, each from its upstream field, with no other. |
| `Envelope.ParallelBranchFinishedEvent` | apps/backend/app/services/dify_conversation_adapter.py:447-452 | `parallel_branch_finished` becomes `branch_finished`, by `status` of its data, each from its upstream field, with no other. |
| `Envelope.TextChunkEvent` | apps/backend/app/services/dify_conversation_adapter.py:453-455 | `text_chunk` goes by `text` of its data, each from its upstream field, with no other. |
| `Envelope.TextReplaceEvent` | apps/backend/app/services/dify_conversation_adapter.py:456-458 | `text_replace` goes by `text` of its data, each from its upstream field, with no other. |
| `Envelope.MessageEndEvent` | apps/backend/app/services/dify_conversation_adapter.py:351-370 | `message_end` carries trace id and usage, and one citation per retrieved resource, in order, with the first 200 characters of its content. |
| `DifyAdapter.DifyConversationAdapter.RelayLines` | apps/backend/app/services/dify_conversation_adapter.py:158-168 | The loop over one read's lines yields what those lines owe, whatever follows, and stops just when the stream is cut. |
| `DifyAdapter.DifyConversationAdapter.StreamEvents` | apps/backend/app/services/dify_conversation_adapter.py:145-177 | Streaming chunk by chunk yields and publishes what the whole text owes line by line, last unterminated line included. |
| `DifyAdapter.DifyConversationAdapter.Flush` | apps/backend/app/services/dify_conversation_adapter.py:170-177 | A last line without a newline is mapped like any other; an empty rest yields nothing. |
| `DifyAdapter.LinesAfterCut` | apps/backend/app/services/dify_conversation_adapter.py:155-158 | Cutting a text moves no line: the complete lines first, then those of the rest. |
| `DifyAdapter.LineYields` | apps/backend/app/services/dify_conversation_adapter.py:179-252 | One line yields known events only, an error comes alone, and a completion is published with its `message_end`. |
| `Envelope.LineRelays` | apps/backend/app/services/dify_conversation_adapter.py:179-252 | No known event is lost: a payload is relayed as its mapped event, and a line without one relays nothing. |
| `Envelope.LinePublishesIff` | apps/backend/app/services/dify_conversation_adapter.py:220-241 | A relayed `message_end` publishes one completion, with its payload, the trace as it stands and the status or "success", and carries the configured notice; no other line publishes. |
| `Envelope.LinesArePieces` | apps/backend/app/services/dify_conversation_adapter.py:155-175 | The lines handled are the pieces between newlines, the unterminated last one included. |
| `ToolApproval.LineAsksIff` | apps/backend/app/services/dify_conversation_adapter.py:254-279 | The gateway is asked exactly by an `agent_thought` with a named tool, some input and no observation yet, once, with the decoded parameters; its answer follows the thought as a request. |
| `ToolApproval.RequestsAnswerQuestions` | apps/backend/app/services/dify_conversation_adapter.py:243-279 | Over any lines the requests relayed are the gateway's answers to the questions of the lines, numbered in order, each right behind its thought: no tool call passes unseen and nothing else is asked. |
| `ToolApproval.StreamAsksQuestions` | apps/backend/app/services/dify_conversation_adapter.py:145-177 | The same of a whole upstream text, however it is read. |
| `ToolApproval.BeforeAndAfterAskOnce` | apps/backend/app/services/dify_conversation_adapter.py:254-279 | The two frames of one tool call ask once. |
| `DifyAdapter.CutAtFirstError` | apps/backend/app/services/dify_conversation_adapter.py:158-168 | What is yielded is the mapping of all lines cut just after its first error; without an error nothing is cut. |
| `DifyAdapter.ErrorIsLast` | apps/backend/app/services/dify_conversation_adapter.py:165-168 | An error event is unique and last. |
| `DifyAdapter.CompletedOncePerEnd` | apps/backend/app/services/dify_conversation_adapter.py:220-241 | `conversation.completed` is published once per yielded `message_end`, in order, with the payload it was mapped from; each carries the truncation notice. |
| `RunLogTrace.AccumulateKeepsSteps` | apps/backend/app/services/dify_conversation_adapter.py:282-312 | The trace keeps one step per node in the order nodes first started; a start or finish touches only the node it names. |
| `RunLogTrace.LineMovesOutput` | apps/backend/app/services/dify_conversation_adapter.py:329-332 | The recorded output moves with `message` and `message_replace` lines that carry an answer, and with no other. |
| `RunLogTrace.LineRecordsCalls` | apps/backend/app/services/dify_conversation_adapter.py:309-335 | A thought that names a tool adds one call, with the first 2000 characters observed; a finished workflow sets the status; no other line touches either. |
| `RunLogTrace.RunLogKeepsLastPiece` | apps/backend/app/services/dify_conversation_adapter.py:282-335 | Of an answer sent in pieces the run log records the last piece; that is the whole answer if and only if the earlier pieces are empty. |
| `RunLogTrace.RunLogMissesAgentAnswers` | apps/backend/app/services/dify_conversation_adapter.py:282-335 | Answers in `agent_message` events are not recorded at all, against the function's own description. |
| `ChatReducer.ReplaceIn` | apps/frontend/lib/chat-stream-state.ts:134-144 | A replacement changes the text of the bubbles of one id and nothing else. |
| `ChatReducer.AcceptedActs` | apps/frontend/lib/chat-stream-state.ts:39-144 | An event does what its one accepted write says, and nothing when none is accepted. |
| `ChatEffects.MessageActs` | apps/frontend/lib/chat-stream-state.ts:44-47 | An answer's delta joins the bubble it names, the current one or a new one, and makes it current; a replay does nothing. |
| `ChatEffects.ChunkActs` | apps/frontend/lib/chat-stream-state.ts:48-49 | A workflow's text joins the current bubble, or opens one under the next fallback id. |
| `ChatEffects.ReplacementDoes` | apps/frontend/lib/chat-stream-state.ts:50-53 | A replacement rewrites the bubbles of the current id and nothing else, and does nothing while none is current. |
| `ChatEffects.OthersDoNothing` | apps/frontend/lib/chat-stream-state.ts:39-86 | Every other event, or one without a text, leaves the bubbles alone. |
| `ChatEffects.HistoryOne` | apps/frontend/lib/chat-history.ts:8-31 | A turn of the history is its query, then its answer, each under its own id and only if it is not empty. |
| `ChatEffects.HistoryConcat` | apps/frontend/lib/chat-history.ts:8-31 | A history comes newest first and is read oldest first. |
| `ChatReducer.ActShows` | apps/frontend/lib/chat-stream-state.ts:39-144 | Over any state, ids clashing or not, the text shown under an id after an action is what its write makes of it. |
| `ChatReducer.ScreenShowsLog` | apps/frontend/lib/chat-stream-state.ts:39-144 | Over any conversation and any ids: every message has its origin, in order; rendered ids are distinct and name exactly the bubbles the stream opened; queries stand, and so do loaded bubbles no write named. |
| `ChatReducer.StreamShowsLog` | apps/frontend/lib/chat-stream-state.ts:88-144 | A bubble whose id is never loaded shows its accepted deltas since its last replacement, and is rendered exactly when it has one. |
| `ChatReducer.KeepsTextIff` | apps/frontend/lib/chat-stream-state.ts:88-144 | A bubble, loaded or streamed, keeps its text throughout if and only if no accepted write names its id, but for replacements by the same text, and no other bubble of the id is loaded. |
| `ChatReducer.ReopensIff` | apps/frontend/lib/chat-stream-state.ts:97-105 | A left bubble becomes current or is written to if and only if a delta without an id arrives, no bubble is current and the next fallback id is its id. |
| `ChatReducer.LeftThroughoutIff` | apps/frontend/lib/chat-stream-state.ts:97-105 | A left bubble stays left throughout a run, with its text, if and only if no action reopens it. |
| `ChatReducer.LeftForGoodIff` | apps/frontend/lib/chat-stream-state.ts:97-105 | A left bubble is left for good, over every future, if and only if its id is none of the fallback ids still to be drawn. |
| `ChatReducer.UuidsStandApart` | apps/frontend/lib/chat-stream-state.ts:105-105 | An id in the form of a UUID is neither a fallback id nor the id of a loaded bubble. |
| `EventPipeline.DecoderReceivesRelayed` | apps/backend/app/services/conversation.py:370-385 | Printed, cut anywhere and decoded, the browser receives exactly the events the whole upstream text owes. |
| `EventPipeline.MappingKeepsMeaning` | apps/backend/app/services/dify_conversation_adapter.py:338-481 | Under the renamed fields the reducer does with every mapped event what the upstream event means for the bubbles. |
| `EventPipeline.LinesMean` | apps/backend/app/services/dify_conversation_adapter.py:145-252 | For any lines, the reducer run over the relayed events does what the lines mean one after the other, up to the first error or unreadable payload; completions, notices and approval requests change no bubble. |
| `EventPipeline.ChatFollowsUpstream` | apps/frontend/lib/use-stream-chat.ts:193-201 | End to end, for any upstream text, any reads and any network chunks: the chat ends as the upstream lines mean it to. |
| `EventPipeline.AnswerIsTold` | apps/backend/app/services/dify_conversation_adapter.py:338-350 | The adapter relays one answer delta by delta among any quiet lines. |
| `EventPipeline.ToldIsShown` | apps/frontend/lib/chat-stream-state.ts:88-132 | The reducer writes the deltas of one id into one bubble and leaves every other alone. |
| `EventPipeline.ReaderReadsAnswer` | apps/frontend/lib/use-stream-chat.ts:193-201 | End to end: an answer sent in pieces and cut anywhere ends as one bubble showing the pieces run together. |
| `Uploads.UploadSlots.Arrive` | apps/backend/app/uploads.py:117-122 | Up to the first wait: the user's slot is found or created and joined, and the books hold. |
| `Uploads.UploadSlots.TakeUser` | apps/backend/app/uploads.py:123-127 | Leaving the first wait takes one permit of the user's slot. |
| `Uploads.UploadSlots.TakeProcess` | apps/backend/app/uploads.py:128-133 | Leaving the second wait takes one process permit: the slot is held. |
| `Uploads.UploadSlots.GiveUp` | apps/backend/app/uploads.py:123-133 | A time-out or cancellation at either wait gives back exactly what the request took. |
| `Uploads.UploadSlots.ReleaseSlot` | apps/backend/app/uploads.py:135-138 | A release gives both permits back and leaves. |
| `Uploads.UploadSlots.Leave` | apps/backend/app/uploads.py:140-144 | The user's last request takes the record with it. |
| `Uploads.Lease.Release` | apps/backend/app/uploads.py:147-159 | The first release gives the slot back, any later one does nothing. |
| `Uploads.StepKeepsBooks` | apps/backend/app/uploads.py:103-159 | No step fails on a missing record, and every step keeps all permits accounted for, in all and per user. |
| `Uploads.StepKeepsRegistry` | apps/backend/app/uploads.py:117-144 | A waiting request's slot is the registered one, so deleting a record loses no permit. |
| `Uploads.ReachableKeepsBooks` | apps/backend/app/uploads.py:103-159 | In every reachable state, under any cancellations, the limits hold and no permit is lost. |
| `Uploads.QuiescenceRestores` | apps/backend/app/uploads.py:135-144 | When every request has ended, the registry is empty and every process permit is free. |
| `Uploads.DoubleReleaseHarmless` | apps/backend/app/uploads.py:155-159 | Releasing a lease again changes nothing. |
| `Uploads.WaitersAreServed` | apps/backend/app/uploads.py:117-133 | While somebody waits, somebody holds a slot or can move on: the two waits cannot deadlock. |
| `LoginLockout.InMemoryLoginAttempts.IsLocked` | apps/backend/app/auth/login_lockout.py:90-98 | A lock is reported until it ends, and dropped then. |
| `LoginLockout.InMemoryLoginAttempts.RecordFailure` | apps/backend/app/auth/login_lockout.py:100-108 | Sweep, then count or lock. |
| `LoginLockout.ClearRestoresAgreement` | apps/backend/app/auth/login_lockout.py:110-112 | A right password leaves both stores unlocked, agreeing, and counting the next failure as the first. |
| `LoginLockout.InMemoryLoginAttempts.Sweep` | apps/backend/app/auth/login_lockout.py:114-123 | Both loops drop exactly the entries whose window has passed, at most once per interval. |
| `LoginLockout.SharedLoginAttempts.RecordFailure` | apps/backend/app/auth/login_lockout.py:34-43 | The failure script on keys with exact expiry counts or locks, and answers which. |
| `LoginLockout.CountedAlikeIff` | apps/backend/app/auth/login_lockout.py:100-108 | From agreeing stores a failure is counted alike if and only if no count whose window has passed survives unswept. |
| `LoginLockout.AgreeThroughoutIff` | apps/backend/app/auth/login_lockout.py:65-123 | Over any history the in-memory store mirrors the exact Redis expiry, counts and locks alike, if and only if no failure finds such a stale count. |
| `LoginLockout.OutlastsStepIff` | apps/backend/app/auth/login_lockout.py:100-123 | One event lets a shared lock outlast the in-memory one if and only if it is a failure that locks the shared store alone. |
| `LoginLockout.StrictThroughoutIff` | apps/backend/app/auth/login_lockout.py:34-123 | Over any history, failures during a lock included, whoever the shared store refuses the in-memory store refuses at all times if and only if no failure locks the shared store alone. |
| `LoginLockout.CoverStep` | apps/backend/app/auth/login_lockout.py:34-123 | Every event but a failure recorded during an in-memory lock keeps: what the shared store holds, the in-memory store covers. |
| `LoginLockout.FallbackAtLeastAsStrict` | apps/backend/app/auth/login_lockout.py:34-123 | If no failure is recorded while the in-memory store has the identifier locked, that store is at least as strict as the shared one. |
| `LoginLockout.LockedSinceAskedIff` | apps/backend/app/auth/local_login.py:87-105 | A login that asked first finds the identifier locked when it records if and only if a failure between its question and its record set that lock. |
| `LoginLockout.ApartIffNoneDuringLock` | apps/backend/app/auth/local_login.py:87-105 | No failure reaches the store during a lock if and only if no login records across a locking failure of its identifier. |
| `LoginLockout.LoginsAtLeastAsStrict` | apps/backend/app/auth/local_login.py:87-105 | Logins of any number of clients, none recording across a locking failure, leave the in-memory store at least as strict. |
| `LoginLockout.StoresDiffer` | apps/backend/app/auth/local_login.py:87-105 | Both exact conditions are met by a real run in which every login asks first: each store locks somebody the other does not. |
| `LoginLockout.CountIsBacked` | apps/backend/app/auth/login_lockout.py:100-123 | Every in-memory count stands for that many failures since the last clear or lock, each within lock_seconds + 60 of the one before. |
| `LoginLockout.StreakIsClose` | apps/backend/app/auth/login_lockout.py:100-123 | A further failure extends the close streak its count stands for. |
| `LoginLockout.LockIsBacked` | apps/backend/app/auth/login_lockout.py:90-123 | Every in-memory lock stems from a close streak of at least the allowed failures, not cleared since. |
| `LoginFailover.RedisLoginAttempts.IsLocked` | apps/backend/app/auth/login_lockout.py:156-166 | The shared store answers unless it is absent, failed less than 30 s ago or fails now; then the process's own store does. An answer ends the cooldown and a loss starts it. |
| `LoginFailover.RedisLoginAttempts.RecordFailure` | apps/backend/app/auth/login_lockout.py:168-186 | A failure reaches the shared store or the process's own, and both when the answer of a script that ran is lost; none is dropped. |
| `LoginFailover.RedisLoginAttempts.ClearFailures` | apps/backend/app/auth/login_lockout.py:188-212 | A right password asks the shared store to forget even during the cooldown, and always clears the process's own. |
| `LoginFailover.AsksIffNotJustLost` | apps/backend/app/auth/login_lockout.py:217-238 | Over any calls a configured process asks the shared store exactly when its latest command was answered or lost at least 30 s ago, or none was sent, or the call is a clear. |
| `LoginFailover.SharedLockIsReported` | apps/backend/app/auth/login_lockout.py:156-166 | From 30 s after its latest loss a process whose question is answered reports the shared store's locks, whichever process set them, and those alone. |
| `LoginFailover.OwnLockIsReported` | apps/backend/app/auth/login_lockout.py:156-166 | Within 30 s of a loss, or when its question is lost, it reports its own locks. |
| `LoginFailover.LogIsInWindow` | apps/backend/app/auth/login_lockout.py:130-186 | Whatever Redis does, every failure called in on any process reaches at least one store, in the window it was called in. |
| `LoginFailover.EnoughFailuresLock` | apps/backend/app/auth/login_lockout.py:34-123 | A store, shared or not and with any past, that sees maxFailures failures of an uncleared identifier within one lock window has it locked until the window ends. |
| `LoginFailover.SpreadFailuresLock` | apps/backend/app/auth/login_lockout.py:130-186 | The bound for any way the failures of a window are spread over n stores, overlapping calls and late scripts included. |
| `LoginFailover.SomeStoreLocks` | apps/backend/app/auth/login_lockout.py:130-186 | However outages spread the failures of one identifier over the shared store and n processes, more than (n + 1) * (maxFailures - 1) within one lock window and without a right password leave it locked in some store. |
| `LoginFailover.StraddledOutage` | apps/backend/app/auth/login_lockout.py:130-186 | The bound is met: a process that loses Redis after maxFailures - 1 failures takes as many again, and neither store has locked. |
| `KnowledgeLedger.KnowledgeService.UploadDocument` | apps/backend/app/services/knowledge.py:252-300 | An upload adds the row, counts it and refreshes the status, or does nothing when the upstream fails. |
| `KnowledgeLedger.KnowledgeService.ListDocuments` | apps/backend/app/services/knowledge.py:302-335 | Terminal answers of a page are recorded one by one against the rows read before; an upstream failure rolls all back. |
| `KnowledgeLedger.KnowledgeService.GetDocumentStatus` | apps/backend/app/services/knowledge.py:337-372 | A terminal record is never answered as unfinished, and a terminal answer is recorded. |
| `KnowledgeLedger.KnowledgeService.RetryDocument` | apps/backend/app/services/knowledge.py:374-411 | Only a failed or unknown document is retried. |
| `KnowledgeLedger.KnowledgeService.DeleteDocument` | apps/backend/app/services/knowledge.py:413-450 | Deleting releases the counts of a recorded row, floored at zero. |
| `KnowledgeLedger.KnowledgeService.RecordTerminalStatus` | apps/backend/app/services/knowledge.py:562-596 | A terminal status is recorded once; only the transition to completed adds segments. |
| `KnowledgeLedger.KnowledgeService.TransitionDocumentStatus` | apps/backend/app/repositories/knowledge.py:166-199 | The guarded update moves the row exactly when its guard holds. |
| `KnowledgeLedger.StatusReadsRows` | apps/backend/app/repositories/knowledge.py:201-241 | Ready means every row is completed, and then the chunk total is the sum over all rows; failed means a failure and nothing still indexing. |
| `KnowledgeLedger.ObservationWrites` | apps/backend/app/services/knowledge.py:337-372 | "completed" moves a document that stands otherwise and counts its segments, "error" and "failed" move it to failed with the error, and nothing else writes. |
| `KnowledgeLedger.RetryWrites` | apps/backend/app/services/knowledge.py:374-411 | An accepted retry takes a failed document back to indexing, its error gone, and leaves every other row. |
| `KnowledgeLedger.UploadWrites` | apps/backend/app/services/knowledge.py:252-300 | An upload adds a document that is indexing, or renames a known one, and counts one more. |
| `KnowledgeLedger.DeleteWrites` | apps/backend/app/services/knowledge.py:413-450 | A delete takes the row, one document and the segments of a completed one, neither total below zero, or nothing at all. |
| `KnowledgeLedger.ListingWrites` | apps/backend/app/services/knowledge.py:302-335 | What a listing records of one document, with the missing segment total that makes it raise. |
| `KnowledgeLedger.ListingRecordsEach` | apps/backend/app/services/knowledge.py:536-560 | A listing that names each document once rewrites each by its own answer, no other, and adds up the segments of those it completes. |
| `KnowledgeLedger.RaisedForGood` | apps/backend/app/services/knowledge.py:536-560 | Once a listing has raised, what follows in it does not matter. |
| `KnowledgeLedger.RecordBalancedIff` | apps/backend/app/services/knowledge.py:562-596 | Recording keeps the ledger balanced exactly when the segment total is the document's own and a completed document is not reported failed. |
| `KnowledgeLedger.UploadBalancedIff` | apps/backend/app/services/knowledge.py:252-300 | An upload keeps the ledger balanced exactly when the upstream's id is new. |
| `KnowledgeLedger.DeleteBalancedIff` | apps/backend/app/repositories/knowledge.py:271-302 | A delete of a completed document keeps it balanced exactly when the total read is the one counted, or the floor hides the excess. |
| `KnowledgeLedger.DeleteUncountedBalanced` | apps/backend/app/services/knowledge.py:413-450 | Deleting any other document keeps the ledger balanced. |
| `KnowledgeLedger.DeleteIsItsHalves` | apps/backend/app/services/knowledge.py:413-450 | With nothing in between, the read and the end of a delete are the delete. |
| `KnowledgeLedger.OverlappedDeleteBalancedIff` | apps/backend/app/services/knowledge.py:413-450 | A delete during whose upstream calls other calls run keeps the ledger balanced exactly when the document was recorded completed at both ends or neither, or nothing was at stake. |
| `KnowledgeLedger.ListedDuringDelete` | apps/backend/app/services/knowledge.py:413-450 | A listing that completes the document while its delete awaits the upstream unbalances every ledger in which it has segments. |
| `KnowledgeLedger.RetryBalanced` | apps/backend/app/services/knowledge.py:374-411 | A retry keeps the ledger balanced and completes nothing. |
| `KnowledgeLedger.OverlappedRetryBalanced` | apps/backend/app/services/knowledge.py:389-411 | Whatever other calls do while a retry awaits the upstream, its end keeps the ledger balanced and moves only a record still failed. |
| `KnowledgeLedger.OverlappedListingIff` | apps/backend/app/services/knowledge.py:314-331 | A listing overlapped by other calls rewrites an unfinished document exactly when the terminal record it read has been overtaken, and then exactly when that unbalances the ledger. |
| `KnowledgeLedger.ListedDuringRetry` | apps/backend/app/services/knowledge.py:314-331 | A listing that read a failed record before a retry puts the restarted document back to failed, in every ledger. |
| `KnowledgeLedger.ListedDuringRecovery` | apps/backend/app/services/knowledge.py:314-331 | If the document has completed by then, its completion is taken back and its segments stay counted. |
| `KnowledgeLedger.ListedBalanced` | apps/backend/app/services/knowledge.py:536-560 | An honest listing keeps the ledger balanced and moves only documents it names. |
| `KnowledgeLedger.StepBalanced` | apps/backend/app/services/knowledge.py:252-596 | Every call keeps the ledger balanced under an honest upstream. |
| `KnowledgeLedger.ReachableLedgerBalanced` | apps/backend/app/services/knowledge.py:252-596 | Over any serial run status, document count and chunk total are those of the rows. |
| `Recompute.ProbeDocuments` | apps/backend/scripts/recompute_kb_counts.py:177-188 | One knowledge base's total, failures and missing documents, and whether it is skipped. |
| `Recompute.PlanRecompute` | apps/backend/scripts/recompute_kb_counts.py:166-193 | The plan is that of the knowledge bases in order. |
| `Recompute.PlanCoversReadable` | apps/backend/scripts/recompute_kb_counts.py:166-193 | A change is planned exactly for each knowledge base all of whose documents could be read, at their sum. |
| `Recompute.PlanReports` | apps/backend/scripts/recompute_kb_counts.py:166-193 | Exactly the unreadable documents are reported as failures and the 404s as missing, and every knowledge base is planned or skipped. |
| `Recompute.WrittenOrReported` | apps/backend/scripts/recompute_kb_counts.py:222-250 | Every change is written or reported, and the report says what was planned and what the counter holds. |
| `Recompute.Registry.Apply` | apps/backend/scripts/recompute_kb_counts.py:200-254 | Exactly the counters still equal to the planned value are overwritten and snapshotted; the others are untouched and reported. |
| `Recompute.Registry.Restore` | apps/backend/scripts/recompute_kb_counts.py:257-312 | A rollback puts back exactly the counters that still hold what the run wrote. |
| `Recompute.ApplyOne` | apps/backend/scripts/recompute_kb_counts.py:222-250 | One compare-and-set keeps the relation between counters, snapshots and the changes done so far. |
| `Recompute.MissesAreMisses` | apps/backend/scripts/recompute_kb_counts.py:222-250 | The reported changes are exactly those whose counter had moved or gone. |
| `Recompute.RollbackUndoesRun` | apps/backend/scripts/recompute_kb_counts.py:200-312 | Rolling a run back at once restores the counters it found. |
| `Recompute.UndoStack` | apps/backend/scripts/recompute_kb_counts.py:257-312 | Undoing a stack of runs in reverse order restores the original counters. |
| `Recompute.RunRecordsRealChanges` | apps/backend/scripts/recompute_kb_counts.py:331-331 | A run snapshots only real changes. |
| `Recompute.RollbackTwice` | apps/backend/scripts/recompute_kb_counts.py:257-331 | Repeating a rollback moves nothing, and finds only conflicts exactly when all it undid were real changes. |
| `Recompute.QuietRunConverges` | apps/backend/scripts/recompute_kb_counts.py:166-254 | With no concurrent writer every readable knowledge base ends at its sum and every skipped one as it was. |
| `KnowledgeRepair.RepairBalancesLedger` | apps/backend/scripts/recompute_kb_counts.py:166-254 | Whatever the stored total was, a quiet run re-establishes the service's own ledger invariant. |
| `LastAdmin.MemberService.UpdateMember` | apps/backend/app/services/member_service.py:139-177 | The service method refuses an unknown member, the last administrator's removal and a self-disable, in this order, and otherwise sets just the fields asked for. |
| `LastAdmin.AloneAdjusts` | apps/backend/app/services/member_service.py:139-177 | Which outcome answers which request and members, with the whole new table. |
| `LastAdmin.RefusedIffNoneWouldRemain` | apps/backend/app/services/member_service.py:158-169 | An adjustment is refused for the last administrator exactly when carrying it out would leave none. |
| `LastAdmin.CheckIsCovered` | apps/backend/app/services/member_service.py:158-169 | An adjustment that passes the count leaves another administrator standing. |
| `LastAdmin.CommitKeepsAdmin` | apps/backend/app/services/member_service.py:152-175 | A commit keeps an administrator: unlocked it only activates, locked it is covered by another. |
| `LastAdmin.StepProtects` | apps/backend/app/services/member_service.py:152-175 | Every step of any transaction keeps the protection, locked or not. |
| `LastAdmin.AlwaysAnAdmin` | apps/backend/app/services/member_service.py:231-262 | However adjustments interleave or are cut off, a tenant with an active administrator keeps one. |
| `LastAdmin.CommitWrites` | apps/backend/app/services/member_service.py:173-175 | A commit writes the fields asked for that differ from what was read, and overwrites nothing else. |
| `LastAdmin.NobodyDisablesThemselves` | apps/backend/app/services/member_service.py:169-175 | However adjustments interleave, none disables the account that asked for it. |
| `LastAdmin.AloneIsOneRun` | apps/backend/app/services/member_service.py:139-177 | Run alone, the interleaved steps do what the service method does. |
| `Keyset.PartitionAtFirstColon` | apps/backend/app/repositories/conversation.py:117-123 | A cursor is cut at its first colon. |
| `Keyset.CursorRoundTrip` | apps/backend/app/repositories/conversation.py:111-123 | A cursor handed out is read back as its key. |
| `Keyset.TextCodecIsSound` | apps/backend/app/repositories/conversation.py:111-123 | The cursor codec meets what the walks ask of one. |
| `Keyset.UnreadableCursor` | apps/backend/app/repositories/conversation.py:117-123 | A listing raises if and only if the cursor starts with an integer whose seconds do not fit a 64-bit time_t; every other unreadable cursor gives an empty page. |
| `Keyset.ListForUser` | apps/backend/app/repositories/conversation.py:62-108 | Of the user's undeleted conversations of that status and agent, created before the cursor's, the newest `limit` come newest first, by creation time and then id; an overflowing cursor raises. |
| `Keyset.ListForTenant` | apps/backend/app/repositories/run_log.py:25-84 | The same of the tenant's run logs under the six filters. |
| `Keyset.FetchPage` | apps/backend/app/repositories/conversation.py:80-108 | Cursor, order and one row beyond the page; a malformed cursor gives an empty page and an overflowing one raises. |
| `Keyset.ListListsNewest` | apps/backend/app/repositories/conversation.py:80-108 | In terms of the columns: a page holds the newest eligible rows, newest first, nothing newer is missing, and a cursor stands for its last row exactly when there are more. |
| `Keyset.PageFacts` | apps/backend/app/repositories/conversation.py:62-108 | A page holds the newest selected rows, and its cursor stands for its last row exactly when rows remain. |
| `Keyset.WalkIsComplete` | apps/backend/app/repositories/conversation.py:62-123 | While the table changes between pages, a walk returns matching rows by descending creation time and then descending id, none twice, and every row that matches throughout. |
| `Keyset.WalkLength` | apps/backend/app/repositories/run_log.py:25-114 | On a fixed table the number of pages depends on the number of matches alone. |
| `Keyset.FixedTablePages` | apps/backend/app/repositories/run_log.py:25-114 | A walk over n matches of a fixed table takes max(1, ceil(n / limit)) pages. |
| `DifyClient.DifyClientService.RaiseIfCircuitOpen` | apps/backend/app/services/dify_client.py:209-222 | Who is admitted, and the trial mark an admission through an open breaker leaves. |
| `DifyClient.DifyClientService.RecordFailure` | apps/backend/app/services/dify_client.py:224-235 | A failure counts, ends the trial and opens at five. |
| `DifyClient.SuccessOpensPath` | apps/backend/app/services/dify_client.py:237-238 | After a success its path admits every request and starts a new streak; other paths are untouched. |
| `DifyClient.DifyClientService.OneAttempt` | apps/backend/app/services/dify_client.py:167-200 | One attempt and its back-off, two awaits during which other requests move the breakers; a reply that cannot be decoded escapes with nothing recorded. |
| `DifyClient.DifyClientService.WithRetry` | apps/backend/app/services/dify_client.py:157-207 | Whatever other requests do in its awaits: only no answer, 502 and 504 are retried, at most retries + 1 attempts and 2^retries - 1 s asleep; the last reply decides the answer and its one outcome, recorded if and only if no reply met is undecodable, and a cancelled call records none. |
| `DifyClient.DifyClientService.PostStream` | apps/backend/app/services/dify_client.py:112-151 | A stream records success when consumed, failure when it is refused or interrupted, and nothing when abandoned or when its body cannot be decoded, on the breakers as other requests left them. |
| `DifyClient.BreakerTellsHistory` | apps/backend/app/services/dify_client.py:209-238 | Over any interleaving the breaker is open exactly when at least five failures were recorded since the last success. |
| `DifyClient.AdmittedIff` | apps/backend/app/services/dify_client.py:209-222 | Exactly when a request is admitted, in terms of the recorded history alone. |
| `DifyClient.TrialLasts` | apps/backend/app/services/dify_client.py:209-238 | A trial lasts until an outcome is recorded on its path. |
| `DifyClient.TrialWaitsOutRecovery` | apps/backend/app/services/dify_client.py:209-235 | An admission through an open breaker comes at least 60 s after every failure of the streak. |
| `DifyClient.OneTrialAtATime` | apps/backend/app/services/dify_client.py:209-238 | Between two admissions through an open breaker an outcome was recorded. |
| `DifyClient.TrialWithoutOutcomeBlocks` | apps/backend/app/services/dify_client.py:112-222 | While a trial has recorded no outcome, no request of the client on its path is admitted. |
| `DifyClient.ShutForeverIff` | apps/backend/app/services/dify_client.py:209-238 | A path of one client is shut to every request, however late, if and only if a trial on it has no outcome recorded since. |
| `DifyClient.AbandonedTrial` | apps/backend/app/services/dify_client.py:112-222 | Five failures, the recovery window and one abandoned stream: from then on the client admits nothing on that path. |
| `DifyClient.UndecodableTrial` | apps/backend/app/services/dify_client.py:157-222 | Five failures, the recovery window and one trial whose reply cannot be decoded: the call escapes, and from then on the client admits nothing on that path. |

## Left out

- Redis, PostgreSQL, SQLAlchemy, HTTP and asyncio themselves: maps, atomic steps and counters stand for them.
- Floating point: `real` throughout, so neither rounding, nor the text of a number written by Redis, nor the cursor timestamps that `float` can no longer tell apart is modelled.
- Clocks that differ: Redis and the workers of the rate limiter read one clock.
- Statement-level interleaving of a refresh revocation with a rotation: each service call is one transaction, and a bulk update that cannot see an uncommitted successor is outside the model.
- The rest of the local login, single sign-on and the access token. A call on the failover of the login store is one step, its Redis command answered or lost; overlapping calls only change which store a failure reaches, and `LoginFailover.SpreadFailuresLock` holds for any choice.
- The fairness of the two semaphores: they count permits, and which waiter is next is open.
- Knowledge-base creation and deletion, the events the ledger emits, retrieval tests and agent bindings; ledger calls are serial but for deletes, retries and listings, whose upstream calls others may overlap; an overlapped listing is followed document by document.
- The decoding of bytes: a chunk is the text its bytes decode to on their own, so a character cut in two by a read is not modelled.
- JSON, UUID and integer texts are parameters with the inverse laws the statements name; JSON is abstract, and Python's equality of dictionary keys across types (`1 == True`) is not modelled.
- The published payload shares its lists with the running trace in the code; here it is a copy.
- An approval gateway that raises, memory recall and the request body of the adapter.
- The parts of the chat state other than bubbles (citations, tool calls, workflow, trace id, flags), timestamps of messages, and a `null` payload, on which the reducer would throw.
- React hooks, timers, reconnects and the 30 s heartbeat around the reducer.
- Path matching and client addresses of the rate limiter, and every route, DTO, metric and log line.
- Approval workflows, the outbox and the executor: `task_service` and `tool_service` are not part of this model.
