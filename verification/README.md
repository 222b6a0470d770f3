# Flow: verified models of the agent worker, the sandbox runner and the release window

Flow runs coding agents. This project models the parts of it whose correctness depends on order, retries and
interleaving, and proves what they promise for every input, every run or every reachable state.

Most parts come in two layers. A state machine on values gives every step as a function, with the network, the model,
timers, git and the person as an adversary; lemmas then speak about all runs. A class with the original's fields has
methods whose `ensures` equate its new state with the state machine's step, so what is proved about all runs holds of
the class. Loops that only compute are methods proved against a specification function.

What the state machines compute is stated once more without them, from the steps, replies, events or texts alone: which
activity ends a request, which status a turn is reported with, what a post says, which paths a commit takes, how a
request with retries ends, what a printed text is read back as.

| part | files |
|---|---|
| Event buffer of the runner, with a receiver that stores each id once | `EventQueue`, `EventShipping`, `EventDelivery`, `EventPump`, `LateDelivery`, `FlushWaiting`, `EventBuffer` |
| One request of the agent worker, with retries, nudges and held calls | `ToolCalls`, `TurnEngine`, `TurnRetries`, `TurnEndings`, `LateErrors`, `AgentSession` |
| `stableJson` and the tool error flags keyed by it | `JsText`, `StableJson`, `StableReading`, `ToolErrorFlags` |
| Question streaming out of partial JSON | `QuestionStream`, `QuestionFields`, `QuestionSpellings`, `QuestionStreamer` |
| History repair and compaction | `History` |
| Chat activity poster and its delivery | `ChatPoster`, `ChatReading`, `ChatDelivery` |
| Turns of a sandbox session and their queue | `SessionTurns`, `SessionReports`, `AsyncQueue`, `SandboxSession` |
| What a turn may commit, and turns that must change nothing | `Workspace`, `CommitRuns`, `TurnPublisher`, `TurnScope`, `ReadOnlyTurns` |
| Sliding window of web releases | `ReleaseAssets`, `CarriedAssets` |
| Requests with backoff and deadline | `Retry`, `RetryRuns` |
| Line splitting and event stream framing | `TextLines`, `LineReaders`, `StreamReader`, `StreamTexts` |
| Shell quoting of the CLI environment | `CliEnv` |
| What several modules share | `Basics` |

## What turned out not to hold as one might expect

- An event the buffer evicted or dropped with a refused batch may still have been stored: `EvictedAfterStored` gives a
  run, and `Conservation` says exactly when (an earlier post of it was stored and its reply got lost).
- A request that reaches Flow after the client gave it up can put the log out of order: `LateOrder` says exactly when,
  `OutOfOrder` gives a run.
- A flush can wait for its timeout although everything is gone: `StrandedExactly`, `StrandedUntilAccepted`,
  `FlushStranded`. If eviction empties the queue in the pause before a retry, it is answered when the pause ends
  (`FlushAnswered`, `AnsweredAfterPause`).
- At most eight unread flags are kept per key; `RecordOrder` proves that the flags are a plain queue if and only if no
  more than eight were ever unread.
- Decoding a JSON string gives it back if and only if no lone high surrogate is followed by something that is not
  printed as an escape (`RoundTrip`); otherwise the decoder stops early. The key is looked for as text, so a value equal
  to it in front of the field hides the field (`FirstStringDecides`, `HiddenField`).
- A chat delta with entries for several calls answers only with the last change, so a question may never be shown:
  `ChunkIndependence` says exactly when, `HiddenQuestion` gives the delta.
- A retry may follow a write that was recorded without error, if the last output heard for it since is an error.
  `RetryAfterWrite` says exactly when a failed attempt is retried, `NoRetryAfterWrite` what that means for one write,
  `RetryAfterLateError` gives a request.
- Repair goes by call ids over the whole history. A call stored without a result stays without one if its id had a
  result in an earlier request (`ReusedIdStaysOpen`), and a call that ran and its result are not added if the id was
  called before (`ReusedIdVanishes`). `RepairPairs` and `PairingKept` say exactly when calls and results are paired,
  `RepairedTail` which produced items are in the history.
- With `keepRequests` 0 the dropping loop of the compaction may never end: `DroppingEnds`, `StuckLoop`.
- An image may lack the last release of its window after a build without a release: `SlidingWindow`, `ShortChain`.
- A request with unlimited attempts ends for certain if and only if it has a deadline and its delays are not zero
  (`EndsAlways`). The comment of `backoffDelay` says plus or minus 50% jitter; the code takes off up to half
  (`DelayRange`).
- A frame of the event stream may raise two counters at once (`CountedTwice`).
- The tracked-path comparison of a read-only turn matters in one case: a file only HEAD has (removed from the index)
  that appears in or vanishes from the working tree. `NothingFound` gives the exact condition.
- The environment file is read back by the shell if and only if no value has a NUL (`CliEnvRoundTrip`).

## Model

| member | source | states |
|---|---|---|
| EventDelivery.ReceiverOrder | sandbox-runner/src/event-buffer.ts:82-214 | over every run with lost requests, lost replies, refusals and evictions, the id-deduplicating receiver's log is a strictly increasing subsequence of the accept order and holds no id twice |
| EventDelivery.Conservation | sandbox-runner/src/event-buffer.ts:82-214 | every accepted event is exactly one of acknowledged, evicted, refused with its batch or queued; acknowledged ids are in the log; the drop counter is the number evicted; with distinct ids the log is exactly the acknowledged and the stored-but-unanswered events |
| EventDelivery.EvictedAfterStored | sandbox-runner/src/event-buffer.ts:123-139 | a run in which an evicted event is in the receiver's log |
| EventDelivery.MemoryBound | sandbox-runner/src/event-buffer.ts:82-139 | in every reachable state and after any push the queued bytes are within the limit, the entries in flight are the queue's front and the posted batch, no push evicts one, and eviction goes down by kind and age |
| EventDelivery.NoLostWakeup | sandbox-runner/src/event-buffer.ts:141-170 | while events are queued and the token is accepted, a pump is at work or a timer is set |
| EventDelivery.FlushedMeansGone | sandbox-runner/src/event-buffer.ts:103-116 | once a flush has returned true, every event accepted before the call has left the queue, for good |
| FlushWaiting.FlushAnswered | sandbox-runner/src/event-buffer.ts:172-220 | over every run: the step that ends the pump's work with nothing queued answers every waiting flush, in order, and no other step answers one; whatever empties the queue during a post ends the pump's work, and if it was emptied in the pause before a retry, the end of the pause does |
| FlushWaiting.FlushWaits | sandbox-runner/src/event-buffer.ts:103-116 | over every run: a flush with events queued and the token accepted sets the pump to work and waits for the events accepted before it; any other flush changes nothing |
| FlushWaiting.AnsweredAfterPause | sandbox-runner/src/event-buffer.ts:198-203 | a reachable buffer with nothing queued and a flush waiting in the pause before a retry; the end of the pause answers it |
| EventPump.AcceptedExactly | sandbox-runner/src/event-buffer.ts:82-101 | over every run exactly the events pushed before the buffer was closed and the token rejected are accepted, in order; the token counts as rejected exactly when a post was answered so |
| EventPump.FullBatchNeverWaits | sandbox-runner/src/event-buffer.ts:141-170 | in every run the pump rests with events queued only while they are fewer than a batch and a timer is set; a timer is set only while it rests |
| EventPump.PostTakesAll | sandbox-runner/src/event-buffer.ts:172-178 | every post takes all that is queued, up to a hundred events |
| EventPump.AttemptsCounted | sandbox-runner/src/event-buffer.ts:172-201 | the attempt number counts the posts lost in transit since the pump started or last had a batch stored |
| FlushWaiting.StrandedExactly | sandbox-runner/src/event-buffer.ts:103-116 | a waiting flush loses the last thing that would answer it exactly when the pump ends with the queue emptied meanwhile or the token rejected |
| FlushWaiting.StrandedOnNothing | sandbox-runner/src/event-buffer.ts:141-170 | in every run a flush is left waiting without pump and timer only when nothing is queued or the token is rejected |
| FlushWaiting.StrandedUntilAccepted | sandbox-runner/src/event-buffer.ts:82-101 | in every run such a flush stays so exactly while no push is accepted; a push of no events counts, as it sets the timer too |
| FlushWaiting.FlushStranded | sandbox-runner/src/event-buffer.ts:103-116 | a reachable buffer in which a flush waits with an empty queue, no pump and no timer |
| LateDelivery.LateOrder | sandbox-runner/src/event-buffer.ts:172-202 | a request the client gave up and Flow gets later keeps the log in accept order if and only if no evicted or refused event of it comes in behind a newer one, when ids are distinct |
| LateDelivery.LateReceiverOrder | sandbox-runner/src/event-buffer.ts:172-202 | over every run: with distinct ids the log is in accept order if and only if no late request did such harm; without harm it also has no repeats and each event has one fate |
| LateDelivery.OutOfOrder | sandbox-runner/src/event-buffer.ts:123-134 | a run in which an evicted event comes in late, behind a newer one |
| EventDelivery.ReceiveKeepsOrder | sandbox-runner/src/event-buffer.ts:172-180 | a receiver that stores each id once keeps its log ordered under a batch posted again, and knows every id of the batch afterwards |
| EventDelivery.NextKeeps | sandbox-runner/src/event-buffer.ts:82-220 | every step of buffer, network and timers keeps the invariant behind these results |
| EventQueue.FindEvictable | sandbox-runner/src/event-buffer.ts:136-139 | the index found is the first entry not in flight that matches; -1 only if there is none |
| EventQueue.VictimIsLeast | sandbox-runner/src/event-buffer.ts:125-128 | the victim is the least entry not in flight, thoughts before ephemeral before durable and older first; there is none exactly when all are in flight |
| EventQueue.EvictOutcome | sandbox-runner/src/event-buffer.ts:123-134 | eviction drops only entries not in flight, the least first and no more than needed, and ends within the limit or with everything left in flight |
| EventQueue.RemoveFront | sandbox-runner/src/event-buffer.ts:206-214 | removing a batch that is the front of the queue leaves exactly the rest, in order |
| EventShipping.EvictionNeverGivesUp | sandbox-runner/src/event-buffer.ts:129 | with the entries in flight at the front and within the limit, the give-up return is never reached: eviction ends within the limit |
| EventShipping.PushGood | sandbox-runner/src/event-buffer.ts:82-100 | a push keeps order, memory bound, front in flight and the wakeup |
| EventShipping.PostEndsGood | sandbox-runner/src/event-buffer.ts:174-204 | so does the end of a post, whatever the reply |
| EventShipping.FlushGood | sandbox-runner/src/event-buffer.ts:103-109 | so does a flush |
| EventBuffering.EventBuffer.constructor | sandbox-runner/src/event-buffer.ts:56-67 | an empty buffer |
| EventBuffering.EventBuffer.Push | sandbox-runner/src/event-buffer.ts:82-100 | the push step of the state machine; a closed or fatal buffer takes nothing |
| EventBuffering.EventBuffer.Accept | sandbox-runner/src/event-buffer.ts:85-98 | the new entries go to the back and the overflow is evicted |
| EventBuffering.EventBuffer.Append | sandbox-runner/src/event-buffer.ts:85-97 | every event is queued in order, not in flight, and its size added |
| EventBuffering.EventBuffer.FindVictim | sandbox-runner/src/event-buffer.ts:125-128 | the victim of the eviction order |
| EventBuffering.EventBuffer.DropVictim | sandbox-runner/src/event-buffer.ts:124-133 | one turn of the eviction loop: an entry goes, the bytes stay exact, the front in flight stays, and what is left to evict is the same |
| EventBuffering.EventBuffer.EvictOverflow | sandbox-runner/src/event-buffer.ts:123-134 | the loop leaves what the eviction order leaves, with the byte count exact and each dropped entry counted |
| EventBuffering.EventBuffer.Schedule | sandbox-runner/src/event-buffer.ts:141-155 | the scheduling step: a full batch starts the pump, otherwise a timer is set |
| EventBuffering.EventBuffer.OnTimer | sandbox-runner/src/event-buffer.ts:149-152 | the timer's step |
| EventBuffering.EventBuffer.StartPump | sandbox-runner/src/event-buffer.ts:162-170 | at most one pump runs |
| EventBuffering.EventBuffer.RunLoop | sandbox-runner/src/event-buffer.ts:172-178 | the head of the pump's loop marks and posts the first entries, or resolves the flushes waiting on an empty queue |
| EventBuffering.EventBuffer.OnReply | sandbox-runner/src/event-buffer.ts:178-204 | the end of a post: removal, refusal, fatal token or backoff, as the state machine has it |
| EventBuffering.EventBuffer.OnFailure | sandbox-runner/src/event-buffer.ts:184-201 | a failed post: the entries come back, leave with a refused batch, or the token is rejected |
| EventBuffering.EventBuffer.RemoveBatch | sandbox-runner/src/event-buffer.ts:206-214 | the backward loop removes the batch and its bytes and nothing else |
| EventBuffering.EventBuffer.OnWake | sandbox-runner/src/event-buffer.ts:198-202 | the pump after its backoff |
| EventBuffering.EventBuffer.OnSettled | sandbox-runner/src/event-buffer.ts:164-167 | the end of the pump: events that came meanwhile are scheduled |
| EventBuffering.EventBuffer.Close | sandbox-runner/src/event-buffer.ts:119-121 | nothing more is accepted, what is queued stays |
| EventBuffering.EventBuffer.Flush | sandbox-runner/src/event-buffer.ts:103-116 | the flush step: answered at once, refused, or waiting |
| TurnRetries.RequestIsSafe | agent-worker/src/worker.ts:288-459 | whatever SDK, tools and Flow do, one request makes at most nine model runs, emits exactly one terminal activity and sends the approved held calls in order and at most once; every call made is recorded at a retry, and each attempt is retried exactly as RetryAfterWrite says |
| TurnEngine.MeasureDrops | agent-worker/src/worker.ts:389-428 | nudges left plus hosted search still offered plus retries left drops by one with every re-entry |
| TurnEngine.RunsBounded | agent-worker/src/worker.ts:288-459 | from any point of a request, the runs still made are at most the measure plus one, and at most six nudges are followed |
| TurnEngine.OneTerminal | agent-worker/src/worker.ts:375-448 | exactly one terminal activity over all re-entries |
| TurnEngine.NudgesOnce | agent-worker/src/run-guard.ts:287-298 | outside loop runs no nudge is followed twice |
| TurnEngine.HeldSentOnce | agent-worker/src/worker.ts:203-231 | the held calls sent over all attempts are the first approved ones in order; rejected ones never, and none again after the replay |
| TurnEngine.RetriesWriteNothing | agent-worker/src/worker.ts:405-429 | at every retry all calls made so far, in earlier attempts too, are recorded, the same prompt runs again, and no recorded call is a write without error |
| TurnRetries.RetryAfterWrite | agent-worker/src/worker.ts:405-429 | over all re-entries, told from the events alone: an attempt is followed by another of the same prompt if and only if it failed with a prompt, hosted search still offered was refused or the failure is the first transient one, and every write made by then, in any attempt or held call, has an error as its last output |
| TurnRetries.NoRetryAfterWrite | agent-worker/src/worker.ts:515-521 | a write without error after one attempt is without error after a later one if and only if no error is the last output heard for it since; until then nothing is retried, and if it is the only one that decides |
| TurnEndings.RequestEnds | agent-worker/src/worker.ts:375-448 | for every request, told from its last attempt: a stop gives the canceled response, an interruption the elicitation; a reply gives the model's text without the guard, else Flow's error, Flow's reply, or the text unless the decision was cut in some attempt; a failure gives its own message, or Flow's error or reply at the turn limit |
| TurnEndings.NextIsExact | agent-worker/src/worker.ts:385-428 | over all attempts: a nudge follows, with Flow's text as the next prompt, if and only if a guarded reply without cut got a nudge without error and reply, fewer than six were followed and, outside loop runs, not this one; a retry runs the same input, without hosted search exactly if that was refused |
| TurnEndings.RequestDoes | agent-worker/src/worker.ts:203-231 | the model runs once per attempt that starts, the held calls sent are the approved ones its first attempt got to, and the calls made are exactly those heard of |
| ToolCalls.WriteTools | agent-worker/src/worker.ts:551-554 | a tool writes if and only if its name begins with one of ten words |
| ToolCalls.RecordReflects | agent-worker/src/worker.ts:502-525 | the record has one entry per call made, in order, with its id and name, marked as an error if and only if the last output for it, before the id is called again, is an error |
| ToolCalls.WroteExactly | agent-worker/src/worker.ts:407 | a write is recorded without error if and only if one was made whose last output is not an error |
| ToolCalls.BecomesError | agent-worker/src/worker.ts:515-523 | a call without error becomes an error by further events if and only if they bring an output for it and the last one is an error |
| LateErrors.RetryAfterLateError | agent-worker/src/worker.ts:520-521 | a request in which a write succeeds, its output comes again as an error after a nudge, and the request is retried |
| AgentSession.FlowAgentSession.Execute | agent-worker/src/worker.ts:288-459 | the recursive method computes the engine's execution, and terminates |
| AgentSession.FlowAgentSession.ReplayHeldCalls | agent-worker/src/worker.ts:203-231 | the held calls are sent once per session, up to an abort, and recorded |
| AgentSession.FlowAgentSession.SendHeldCalls | agent-worker/src/worker.ts:206-229 | the approved calls up to an abort are sent and recorded in order, with their errors |
| AgentSession.FlowAgentSession.Stream | agent-worker/src/worker.ts:364-373 | calls and error flags are recorded as the stream reports them, after those of earlier attempts |
| AgentSession.FlowAgentSession.Attempted | agent-worker/src/worker.ts:349-401 | one attempt: replay, run, last word, and how it ended |
| AgentSession.FlowAgentSession.FinishRun | agent-worker/src/run-guard.ts:287-298 | the last word: reply, error, or a nudge that is then remembered |
| AgentSession.FlowAgentSession.Conclude | agent-worker/src/worker.ts:375-448 | after an attempt: cancel, suspend, run again or emit the terminal activity, as the engine decides |
| AgentSession.FlowAgentSession.ConcludeReply | agent-worker/src/worker.ts:385-404 | after a reply: each of Flow's answers emits its own activity, or the model is sent back |
| AgentSession.FlowAgentSession.ConcludeFailure | agent-worker/src/worker.ts:405-448 | after a failure: search given up, retry, Flow's word at the turn limit, or the error, each with its own activity or re-entry |
| StableJson.Canonical | agent-worker/src/run-guard.ts:115-121 | two JSON values print alike if and only if they are equal up to the order of object keys |
| StableJson.PrefixFree | agent-worker/src/run-guard.ts:115-121 | where a printed value ends is determined by the text: two printings followed by delimiters agree only if both parts do |
| StableReading.PrintsJson | agent-worker/src/run-guard.ts:115-121 | what is printed is JSON text: a reader of JSON reads all of it back, as the same value, with the keys of every object in ascending order of their code units |
| JsText.QuotePrefixFree | agent-worker/src/run-guard.ts:118-120 | JSON quotings are a prefix code: equal texts that start with a quoting have the same string and the same rest |
| ToolFlags.KeysMeet | agent-worker/src/run-guard.ts:103-113 | a recorded object and a JSON text get the same key if and only if tool and argument value are the same |
| ToolFlags.RecordOrder | agent-worker/src/run-guard.ts:83-101 | over every history the flags of a key are a first-in first-out queue if and only if at most eight were unread all along |
| ToolFlags.KeptIsEnd | agent-worker/src/run-guard.ts:86-91 | what is kept is always the end of the plain queue, at most eight flags |
| ToolFlags.FlagFound | agent-worker/src/run-guard.ts:86-100 | a flag recorded for a value is found, after the flags before it, by any JSON text of the value; an empty text stands for an empty object |
| ToolFlags.NoArguments | agent-worker/src/run-guard.ts:103-113 | no arguments, null, an empty text and an empty object share one key |
| ToolFlags.UnreadableTexts | agent-worker/src/run-guard.ts:107-111 | texts that are no JSON share a key exactly when they and their tools are the same |
| ToolFlags.ToolErrorFlags.Record | agent-worker/src/run-guard.ts:86-91 | appends to the key's flags and keeps the eight newest |
| ToolFlags.ToolErrorFlags.Take | agent-worker/src/run-guard.ts:94-100 | answers and removes the earliest unread flag of the key; an emptied key is dropped |
| QuestionStream.PrefixMonotone | agent-worker/src/question-stream.ts:58-107 | the field decoded from a beginning of the arguments is a beginning of the field decoded from more of them |
| QuestionStream.RoundTrip | agent-worker/src/question-stream.ts:58-107 | decoding an object that starts with the field gives the string back, whatever comes after, if and only if no lone high surrogate precedes an unescaped unit, and a beginning of it otherwise |
| QuestionStream.WellFormedRoundTrips | agent-worker/src/question-stream.ts:58-107 | well-formed UTF-16 always comes back |
| QuestionFields.FirstStringDecides | agent-worker/src/question-stream.ts:58-107 | in any JSON text, with or without spaces between its tokens, the decoder reads the string after the first string equal to the key, name or value, if a colon follows that, and nothing otherwise |
| QuestionFields.FieldRoundTrip | agent-worker/src/question-stream.ts:58-78 | a field among others comes back if and only if the first string equal to the key is its name and it round-trips, or an earlier one is followed by a string read as the same |
| QuestionFields.KeyFound | agent-worker/src/question-stream.ts:59-69 | the unescaped key stands first where the first string equal to it starts: never inside another string |
| QuestionFields.QuestionIsPlain | agent-worker/src/question-stream.ts:50 | the key the streamer looks for is one these results hold for |
| QuestionFields.HiddenField | agent-worker/src/question-stream.ts:59-78 | a value equal to the key in front of the field hides it: nothing is decoded |
| QuestionStream.PartialJSONStringField | agent-worker/src/question-stream.ts:58-107 | the loops compute the decoding the lemmas speak about |
| QuestionStream.FindKeyLoop | agent-worker/src/question-stream.ts:59-69 | finds the first unescaped occurrence of the quoted key |
| QuestionStream.ValueStartLoop | agent-worker/src/question-stream.ts:70-78 | where the string value starts, or none |
| QuestionStream.DecodeLoop | agent-worker/src/question-stream.ts:79-106 | the decoding loop stops where the decoding does |
| QuestionStreaming.ChunkIndependence | agent-worker/src/question-stream.ts:17-54 | for any events, from before a call is first heard of: the texts answered for it since it last started strictly grow and are beginnings of the question in its arguments; the last is that question if and only if it was asked while the call was of the watched tool and no other call's entry answered after it in that event; every answer carries the call id the events last gave the call, at its start or in a chat entry, or else its key |
| QuestionStreaming.WatchedAllAlong | agent-worker/src/question-stream.ts:19-38 | of a call never named otherwise than as the watched tool, the question asked is the one in all its arguments, however it was opened and cut |
| QuestionStreaming.OwnNotOvertaken | agent-worker/src/question-stream.ts:30-40 | a call whose deltas bring nothing for other calls is never overtaken |
| QuestionStreaming.EventAgrees | agent-worker/src/question-stream.ts:17-54 | one event: the call is answered exactly when its question changed and no other entry answered after it, with the new question under the id the call had by then |
| QuestionStreaming.KeysDiffer | agent-worker/src/question-stream.ts:33 | every chat index has its own key |
| QuestionSpellings.AnySpelling | agent-worker/src/question-stream.ts:79-106 | however a JSON string is spelled, and wherever it is cut off between characters, the decoder gives a beginning of what it means, and all of it if and only if every escaped high surrogate has a \u escape after it |
| QuestionStreaming.TwoQuestions | agent-worker/src/question-stream.ts:30-40 | of two calls opened with questions by one delta only the second is answered, for any arguments |
| QuestionStreaming.HiddenQuestion | agent-worker/src/question-stream.ts:30-40 | one chat delta that opens two calls with the arguments `{"question":"a"`: the first question is asked but never shown |
| QuestionStreaming.QuestionStreamer.FeedRaw | agent-worker/src/question-stream.ts:17-43 | tracked calls and answer after one raw event of any protocol |
| QuestionStreaming.QuestionStreamer.FeedEntry | agent-worker/src/question-stream.ts:33-38 | one chat entry opens, renames or goes on with its call, and may answer |
| QuestionStreaming.QuestionStreamer.Append | agent-worker/src/question-stream.ts:45-54 | the call's arguments grow; an answer only for the watched tool and a changed, non-empty question |
| History.PairingKept | agent-worker/src/session-store.ts:93-112 | over any sequence of finished, stopped and failed runs and replayed calls, whatever ids they use: every call has a result after it in its own request and every result its call before it, after each turn, if and only if no stopped or failed run stored a call without result under an id that had a result before |
| History.RepairPairs | agent-worker/src/session-store.ts:93-112 | repair leaves a paired history paired if and only if every stored call whose id had a result in an earlier request was stored with its own |
| History.ReusedIdStaysOpen | agent-worker/src/session-store.ts:105-112 | an id comes again in a later request: its old result keeps the new call from being closed |
| History.ReusedIdVanishes | agent-worker/src/session-store.ts:88-98 | a call that ran, with its result, is not added if its id was called in an earlier request |
| History.RepairedTail | agent-worker/src/worker.ts:461-464 | what repair makes of the last request: no item starts a request, every result follows its call, each call id once; exactly the stored calls whose id had a result before and that have none of their own stay without one; a produced item is in it if and only if it was stored, or nothing of its kind with its id, or for a message without id the same, was there |
| History.ClosesExactly | agent-worker/src/session-store.ts:105-112 | closing appends, in order, a result with the reason for each call without one, under its id and name |
| History.CompactionKeepsPairs | agent-worker/src/history.ts:18-38 | compaction of such a history separates no call from its result and leaves no result without its call, whatever it drops |
| History.LastRequestKept | agent-worker/src/history.ts:18-38 | everything from the last user message on reaches the model unaltered |
| History.CutExactly | agent-worker/src/history.ts:18-29 | exactly the text results over the limit before the last user message are cut, to their first 1500 characters and the count of the rest, under the same call; all else is sent as it is |
| History.CompactHistory | agent-worker/src/history.ts:18-38 | whenever it ends: the requests dropped are the oldest and the fewest that meet the budget or leave `keepRequests`; the count of cut results is exact |
| History.DropLoop | agent-worker/src/history.ts:30-36 | whenever it ends, the loop drops the oldest requests, the fewest that meet the budget or leave `keepRequests` |
| History.ElideResults | agent-worker/src/history.ts:19-29 | cuts exactly the long text results before the last user message and counts them |
| History.DroppingEnds | agent-worker/src/history.ts:31-36 | the dropping loop ends if and only if `keepRequests` is at least 1, no request starts in the history, or dropping some requests but not the last meets the budget |
| History.StuckLoop | agent-worker/src/history.ts:31-36 | a single request over budget with `keepRequests` 0: no number of turns ends the loop |
| History.MemorySession.AddMissing | agent-worker/src/session-store.ts:93-98 | appends exactly the produced items whose key is not in the history |
| History.MemorySession.CloseDanglingCalls | agent-worker/src/session-store.ts:105-112 | appends a result for each call without one and counts them |
| ChatPosting.CoalescingRefines | agent-worker/src/chat-run.ts:108-207 | for every timer schedule the posts are numbered 1 to n without gaps and read like the uncoalesced stream: same structural posts in order, same text before each, same last question per segment |
| ChatPosting.FlushReads | agent-worker/src/chat-run.ts:175-188 | a flush moves what is pending into the posts without changing what they read as |
| ChatReading.RunRetells | agent-worker/src/chat-run.ts:124-163 | for any pushes and timers, told from the activities: the posts have one segment for each lasting activity, in order; it says the activity's own body, action, result, question, or the stop error for a canceled response, a result with the parameter of the last earlier action of its id; before it all text and the last question since the one before |
| ChatReading.FinalExactly | agent-worker/src/chat-run.ts:149-197 | a post is marked as part of the reply's end if and only if an elicitation, a response or an error was pushed by the step that enqueued it |
| ChatReading.PendingIsTimed | agent-worker/src/chat-run.ts:171-188 | in every run what is pending has a timer set, and a timer that fires leaves nothing pending |
| ChatPosting.ChatActivityPoster.Push | agent-worker/src/chat-run.ts:124-163 | state after one activity of each kind; text and questions wait, everything else first sends what waits |
| ChatPosting.ChatActivityPoster.PushOther | agent-worker/src/chat-run.ts:134-162 | each structural activity: sent, noted or left out |
| ChatPosting.ChatActivityPoster.SendLast | agent-worker/src/chat-run.ts:149-161 | the activities that end the reply |
| ChatPosting.ChatActivityPoster.Send | agent-worker/src/chat-run.ts:190-193 | what is pending goes first, then the activity |
| ChatPosting.ChatActivityPoster.Enqueue | agent-worker/src/chat-run.ts:195-207 | the next number, in order |
| ChatPosting.ChatActivityPoster.Flush | agent-worker/src/chat-run.ts:175-188 | pending text first, then the pending question, each once |
| ChatDelivery.EndToEnd | agent-worker/src/chat-run.ts:195-220 | if every post gets through within its tries, the receiver ends with exactly the posts in order, and they retell the activities as RunRetells says |
| ChatDelivery.ReceivedExactly | agent-worker/src/chat-run.ts:195-220 | the numbers stored are exactly those that got through, each with its post; onSettled is called at most once |
| ChatDelivery.SettledExactly | agent-worker/src/chat-run.ts:195-207 | onSettled is called, once, if and only if some post before the reply's end was answered as settled |
| ChatDelivery.TriesExactly | agent-worker/src/chat-run.ts:210-220 | a post is tried again after each failure without status, with 429 or from 500 on, three times at most |
| ChatDelivery.Deliver | agent-worker/src/chat-run.ts:210-220 | the retry loop stores the post if and only if one of its attempts reached Flow, and reports an error exactly when its last attempt got no answer |
| ChatDelivery.WorkOff | agent-worker/src/chat-run.ts:195-207 | the queue delivers in order, goes on after a failure, and calls onSettled once at most |
| SessionTurns.ExactlyOnce | sandbox-runner/src/session.ts:209-228 | for any redelivery and interleaving the turns started are distinct and are the first of: bootstrap turn, then the inbox's turns by first arrival; until stop or end nothing is lost |
| SessionTurns.StopIsRespected | sandbox-runner/src/session.ts:188-194 | after a stop at most one more turn starts, the last; if it completes it reports stopped; reports follow the order of the starts, each turn once at most |
| SessionReports.ReportsExactly | sandbox-runner/src/session.ts:433-456 | over every run whose preparation does not fail, told from the steps: turn k is reported if and only if its harness ended and its publishing came to an end without a crash; as stopped if and only if a stop came before its harness ended, otherwise as success or awaiting input if and only if the harness ended so and publishing did not fail, and as failed in all other cases |
| SessionReports.FailedPreparation | sandbox-runner/src/session.ts:341-393 | a preparation that fails reports the bootstrap turn as failed, and nothing ever starts |
| SessionReports.LastAfterStop | sandbox-runner/src/session.ts:214-228 | a turn that starts after a stop is the last to start, and is reported, if at all, as stopped |
| SessionReports.StopEnds | sandbox-runner/src/session.ts:214-228 | after a stop the session is over once the turn in progress or just taken has ended |
| SessionReports.OverOnlyThen | sandbox-runner/src/session.ts:214-246 | a session is over only after a stop, a failed preparation or a crash |
| SessionReports.InboxPosition | sandbox-runner/src/session.ts:315-337 | the inbox position is the highest number received, and the turns counted are exactly those delivered |
| SessionTurns.NextKeeps | sandbox-runner/src/session.ts:209-458 | every step keeps the invariant behind these two |
| AsyncQueues.AsyncQueue.Push | sandbox-runner/src/queue.ts:7-12 | the item goes to the longest waiting take or to the back; a closed queue drops it; first in, first out is kept |
| AsyncQueues.AsyncQueue.Take | sandbox-runner/src/queue.ts:19-23 | take number k is answered with the k-th accepted item, at once, when it comes, or with nothing after close |
| AsyncQueues.AsyncQueue.Close | sandbox-runner/src/queue.ts:25-30 | every waiting take is answered with nothing, the queued items stay |
| SandboxSessions.SandboxSession.HandleInboxItem | sandbox-runner/src/session.ts:315-337 | the inbox step: a seen turn is ignored, a stop closes the queue, the cursor only grows |
| SandboxSessions.SandboxSession.AcceptTurn | sandbox-runner/src/session.ts:327-331 | a turn is queued the first time it arrives and never again |
| SandboxSessions.SandboxSession.StartTurn | sandbox-runner/src/session.ts:397-399 | the turn counts as started, with whether a stop was requested by then |
| SandboxSessions.SandboxSession.RequestStop | sandbox-runner/src/session.ts:188-194 | the stop step, idempotent; a waiting loop wakes with nothing |
| SandboxSessions.SandboxSession.LoopHead | sandbox-runner/src/session.ts:217-228 | the loop's head: end, run the turn at hand, or take |
| SandboxSessions.SandboxSession.Resume | sandbox-runner/src/session.ts:220-225 | the loop after its take was answered |
| SandboxSessions.SandboxSession.FinishPreparing | sandbox-runner/src/session.ts:341-393 | the end of preparation; a failed one reports the bootstrap turn as failed |
| SandboxSessions.SandboxSession.OnHarnessEnd | sandbox-runner/src/session.ts:436-454 | the status a turn goes into publishing with; stopped wins |
| SandboxSessions.SandboxSession.Complete | sandbox-runner/src/session.ts:678-685 | the report of a completed turn; a failure to publish turns success into error |
| Workspace.CommitsAreRightful | sandbox-runner/src/session.ts:397-409 | over every run of turns with mixed scopes, an earlier uncommitted path is in a commit of Flow's only if that turn changed its content or asked to include it, and only writing turns commit or push |
| Workspace.LeftoverSurvives | sandbox-runner/src/session.ts:575-587 | an uncommitted change that no turn touches or asks to include is in no commit and unchanged in HEAD, index and working tree after every run |
| Workspace.WhatIsLeft | sandbox-runner/src/session.ts:566-587 | a writing turn whose commit works leaves exactly the untouched leftovers dirty; Flow never changes the working tree, nor entries outside its commit |
| Workspace.Partition | sandbox-runner/src/session.ts:581-585 | committed and left-behind paths partition the dirty paths |
| CommitRuns.PublishesExactly | sandbox-runner/src/session.ts:544-600 | over every run of turns, told from them: Flow commits once in each writing turn with something to take whose commit works, exactly the paths that were clean before or that the turn changed or asked to include and that are not as in HEAD, as the agent left them; and exactly the writing turns with a commit and a push that works are pushed |
| CommitRuns.TurnPublishes | sandbox-runner/src/session.ts:566-600 | one turn: its commit, its push, and HEAD moved exactly if it commits |
| CommitRuns.TurnStages | sandbox-runner/src/session.ts:566-592 | the index holds the working files of the paths that are the turn's to publish, unless staging failed, also if the commit failed |
| TurnPublishing.TurnPublisher.RunTurn | sandbox-runner/src/session.ts:544-606 | the branches of publish compute the turn's end: which paths, which commit, whether to push |
| TurnPublishing.TurnPublisher.CommitAll | sandbox-runner/src/git/git.ts:349-360 | everything dirty is staged and committed; no commit when nothing is staged |
| TurnPublishing.TurnPublisher.CommitPaths | sandbox-runner/src/git/git.ts:367-381 | only these paths change in HEAD and index; no commit when none has a change |
| TurnScope.StatusRoundTrip | sandbox-runner/src/turn-scope.ts:114-121 | parsing a status listing of distinct paths gives back its entries in order |
| TurnScope.ParseStatus | sandbox-runner/src/turn-scope.ts:114-121 | the loop reads every entry, short ones skipped, and yields non-empty NUL-free paths, none twice |
| TurnScope.LastListingStays | sandbox-runner/src/turn-scope.ts:114-125 | a path listed more than once has the letters of its last entry |
| TurnScope.SplitJoin | sandbox-runner/src/turn-scope.ts:116 | splitting at NULs undoes joining with NULs |
| ReadOnlyTurns.NothingFound | sandbox-runner/src/turn-scope.ts:167-178 | the comparison finds nothing if and only if HEAD, branch, index and tracked files are unchanged, as are the presence of files only HEAD has |
| ReadOnlyTurns.ReadOnlyKeepsStatus | sandbox-runner/src/session.ts:634-652 | what fails a read-only turn at its end is exactly that the repository is not unchanged |
| ReadOnlyTurns.NoPublishKeepsStatus | sandbox-runner/src/session.ts:638-656 | a turn that may edit but not publish fails if and only if HEAD or the branch is another one |
| ReadOnlyTurns.ChangedNames | sandbox-runner/src/turn-scope.ts:167-178 | the paths named as changed are those listed as tracked after the turn with other letters than before |
| ReadOnlyTurns.ReadOnlyViolations | sandbox-runner/src/turn-scope.ts:167-178 | each kind of change is reported, with the joined lists compared exactly as the lists; new untracked files are listed apart |
| ReadOnlyTurns.JoinInjective | sandbox-runner/src/turn-scope.ts:172 | comparing joined path lists is comparing the lists |
| ReadOnlyTurns.CompleteWithoutPublishing | sandbox-runner/src/session.ts:634-661 | a turn that must not publish keeps its status if and only if what its scope protects is unchanged or it had already failed or stopped; nothing is pushed |
| ReleaseAssets.SlidingWindow | web/release-assets.ts:88-139 | in every chain of builds, with repeats, rollbacks and builds without a release, image n lists exactly the first `keep` earlier releases, newest first, each once and without its own, if and only if it is not short, and all but the last of them otherwise; the listed assets are the original ones and are all served with their original content |
| ReleaseAssets.NextFront | web/release-assets.ts:92-110 | what image n - 1 is and carries is the front of all releases known before build n, one more than `keep` of them unless it has no release or is short |
| ReleaseAssets.WindowOfFront | web/release-assets.ts:103-110 | one entry more than the window determines the window without any one release |
| ReleaseAssets.CarriesWindow | web/release-assets.ts:103-110 | the image carries its window, or its window without the last release exactly if it is short |
| ReleaseAssets.NeverShort | web/release-assets.ts:38-48 | no image is short in a chain in which every build has a release |
| ReleaseAssets.ShortChain | web/release-assets.ts:88-110 | releases a and b, a build without one, then b again with `keep` 1: the image carries nothing where its window is a |
| CarriedAssets.AcceptedNames | web/release-assets.ts:20-22 | the names accepted are those of letters, digits, - . _ that stay inside their directory |
| CarriedAssets.ListsEachOnce | web/release-assets.ts:88-125 | for any previous image: at most `keep` releases are listed, each once and none the build's own |
| CarriedAssets.ListsWhatIsOffered | web/release-assets.ts:88-139 | for any previous image: each listed release is its own or a validly named one of its list, with exactly the validly named assets that can be served |
| CarriedAssets.CarriesWhatIsListed | web/release-assets.ts:126-139 | a file is carried if and only if it is listed and not the build's own, with the content the previous image serves |
| ReleaseAssets.CarryReleaseAssets | web/release-assets.ts:88-139 | listing and copied files are those of the next image; exactly the missing assets of the kept releases that the previous image has are copied, built ones before carried ones |
| ReleaseAssets.PickReleases | web/release-assets.ts:103-110 | the loop keeps the first `keep` distinct candidates other than the current release |
| ReleaseAssets.CopyReleases | web/release-assets.ts:112-136 | the listing of the kept releases, and exactly the files they miss in this build and the previous image has |
| ReleaseAssets.CopyAssets | web/release-assets.ts:115-134 | a release's assets that can be served are listed, and copied unless this build or an earlier release brought them |
| Retry.EndsAlways | sandbox-runner/src/runtime-client.ts:117-137 | a request ends whatever happens if and only if its attempts are limited, or it has a deadline and delays that are not zero |
| Retry.RequestIsSafe | sandbox-runner/src/runtime-client.ts:117-137 | no sleep is asked for that ends after the deadline, no more requests are made than allowed, and the reply returned or thrown is the first that is not retried |
| Retry.EndsInTime | sandbox-runner/src/runtime-client.ts:121-133 | a bounded request has ended after its attempts, or after one more attempt than the deadline has milliseconds |
| RetryRuns.RequestExactly | sandbox-runner/src/runtime-client.ts:82-136 | for any replies, times and aborts: the request tries again after an attempt if and only if it failed on the network or with 408, 425, 429 or a status from 500 but 501, another attempt is allowed, and the pause ends by the deadline and without abort; the first attempt after which it does not decides the result; every pause starts when its attempt failed |
| RetryRuns.JitterExact | sandbox-runner/src/backoff.ts:2-5 | the pause is half the capped delay and the chance's share of the other half, rounded |
| Retry.Request | sandbox-runner/src/runtime-client.ts:117-137 | whenever the request ends, the loop returns the result and the number of requests of the state machine |
| Retry.TryOnce | sandbox-runner/src/runtime-client.ts:121-135 | one turn of the loop is one step: abort check, attempt, classification, giving up or sleeping |
| Retry.DelayRange | sandbox-runner/src/backoff.ts:2-5 | the delay is between half the capped delay, rounded up, and all of it; zero only if base or cap is |
| Retry.DelaysDouble | sandbox-runner/src/backoff.ts:2-5 | delays double until the cap and stay from the thirtieth attempt on |
| TextLines.CutIsUnique | sandbox-runner/src/process.ts:116-120 | the lines read are the only way to write the text as newline-free lines, each ended by a newline, and a rest |
| LineReaders.LineSplitter.OnData | sandbox-runner/src/process.ts:125-141 | after any pieces of a text the lines emitted are those of the whole text, and the buffer its unfinished rest |
| LineReaders.LineSplitter.EmitLines | sandbox-runner/src/process.ts:133-139 | the loop emits every line completed by the new text and returns where the rest starts |
| LineReaders.LineSplitter.OnEnd | sandbox-runner/src/process.ts:142-146 | at the end all lines of the text were emitted, an unfinished last one too |
| StreamReaders.WholeStream | agent-worker/src/models.ts:215-246 | at the end of any text the counters are the counts of its events (blocks of data lines ended by blank lines), and finished if some event says so |
| StreamReaders.EventsCounted | agent-worker/src/models.ts:216-233 | the line-by-line reader counts exactly the events of the lines |
| StreamReaders.CountersMean | agent-worker/src/models.ts:218-229 | the fold over the events gives the four counters their meaning |
| StreamReaders.CountedTwice | agent-worker/src/models.ts:226-228 | a frame is both unknown and unreadable exactly if it has no type and its choices are no list; an unreadable frame never ends the stream |
| StreamTexts.FrameMeans | agent-worker/src/models.ts:218-229 | what a frame counts as, told from its fields: final, unreadable, unknown |
| StreamTexts.EventsComeBack | agent-worker/src/models.ts:231-234 | the events of a stream are the data of its blocks, joined by newlines, with or without a space after the colon and with other lines between |
| StreamTexts.LinesComeBack | sandbox-runner/src/process.ts:121-140 | lines come back as they were written, ended by a newline or a carriage return and a newline |
| StreamReaders.StreamReader.Transform | agent-worker/src/models.ts:235-244 | after any pieces of a text the state is that of its complete lines |
| StreamReaders.StreamReader.TakeLine | agent-worker/src/models.ts:230-233 | a blank line ends the frame, a data line joins it, others are ignored |
| StreamReaders.StreamReader.EndFrame | agent-worker/src/models.ts:218-229 | a frame with data is one event; each counter it raises, and the end of the stream, as the frame's fields say |
| StreamReaders.StreamReader.Flush | agent-worker/src/models.ts:245 | an unfinished line and an unfinished frame count at the end |
| CliEnv.CliEnvRoundTrip | sandbox-runner/src/cli-env.ts:27-41 | sourcing the written file sets exactly the variables named in capitals, digits and underscores, no digit first, to their values, if and only if none of these values has a NUL |
| CliEnv.ReadQuoted | sandbox-runner/src/cli-env.ts:30-32 | the shell reads the escaped value back, quotes and newlines included |
| CliEnv.RenderCliEnv | sandbox-runner/src/cli-env.ts:34-41 | the loop writes the header and one export line per valid name |
| CliEnv.WriteLines | sandbox-runner/src/cli-env.ts:35-40 | joining the lines with newlines and one more at the end ends each with one |

## Left out

- The model SDK, MCP transport, model providers and serialized run state: a run is what an adversary says it did.
- Flow's server: only its stated contract, to store an event id or post number once, is modelled.
- git, files, child processes, hashing, UTF-8 decoding and timers: maps, injective functions, decoded text and arbitrary
  firings stand for them. A failing `git diff` or `git status`, ignored files and files that turn into directories are
  not modelled.
- Secret masking in the event buffer: events and their sizes are taken after masking.
- The timeout of a flush: a flush that nothing would answer any more stays waiting in the model.
- Failures of the history and suspended-run storage inside a request, and the hooks being cleared while a retry that is
  returned without `await` goes on (agent-worker/src/worker.ts:417, 428).
- History.PairingKept: for runs that bring each call id once within the run and results after their calls; the approval
  of a suspended run, whose call is stored before, is not modelled.
- RunGuard's rounds, decisions and withdrawals, and the texts of prompts and messages.
- History.CompactHistory: for inputs on which the source's loop ends; DroppingEnds says which these are.
- History.DropLoop: for inputs on which the source's loop ends; DroppingEnds says which these are.
- Retry.Request: for requests that end; EndsAlways says which policies make sure of it.
- Numbers in stableJson: a number is its printed text, so two numbers are equal if they print alike.
- The scope classifiers are keyword lists, and `chatConversation`, `ThreadActivityPoster`, `normalizeCliEnv` and the
  credential refresher are not part of the protocols above. The web application and the Go server are not modelled.
