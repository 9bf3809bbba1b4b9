# Fluffle, proved

A Dafny 4.11 model of the parts of Fluffle whose behaviour is hardest to see from one
function at a time, and proofs of what they promise.

- **Agent sessions** (`SessionManager`, `SessionInvariant`, `SessionTheorems`,
  `SessionReplies`, `SessionContent`, `SessionEnds`, `SessionCancel`, `SessionFinality`,
  `SessionOutcomes`, `Manager`).
  The session manager is a step machine: a step is one section under its mutex, one SQL
  statement, one channel operation or the return of a foreign call, and any goroutine may
  move next. `Start`, `Cancel` and `Shutdown` are called from anywhere, any number of
  times, and the daemon may crash and restart. One invariant is kept by every step; the
  theorems are about every run. The class `Manager` holds the fields of the Go object and
  takes the machine's steps on them in place.
- **Agent output** (`Limiter`, `StreamWriter`, `Transcript`, `Ticks`, `EventWriter`). The limiter is
  a class with its buffers. Two drainers, a ticker and the closing goroutine form a second
  machine around the coalescing writer. What ends up in the event log is a closed form of
  the bytes pushed into the limiters, whatever the timing.
- **The thread log** (`Store`, `ThreadLog`, `BatchSuccess`, `Listing`, `Ordering`,
  `Database`). Tables are
  sequences of rows. The functions of `Store` say what each call does; the class `Database`
  does it in place, with a transaction that works on a copy.
- **Export and import** (`Jsonl`, `Portable`, `Moving`, `MovedExport`, `CutImport`,
  `CutReferences`, `Requests`, `Server`). A thread
  is written out as JSON lines, parsed, sent as one batch and written out again; and what any
  batch leaves is told from the fields of the objects that were sent.
- **The cell compositor** (`Screen`, `Styles`, `Overlay`). A line is a sequence of tokens with
  widths; splicing refines overwriting an array of cells, and puts before each cell the
  controls that style it.
- **Names and mentions** (`Names`, `Mentions`, `LegalName`). A regular expression, a byte
  scanner and a sanitiser agree on what a name is.

`Text` holds Go's strings, one char per byte, and `TrimSpace`; `Wrappers`, `Ints`, `Sums` and
`Seqs` are helpers. `dafny verify dfyconfig.toml` checks everything.

What the proofs found, where the code and what is said of it differ:

- The comment on `ShutdownAndWait` says every session row is terminal when it returns.
  A `Start` caught between creating its row and looking at `closed` is not counted, and its
  row may still be queued. `SessionTheorems.BarrierIff` has the exact condition and
  `SessionTheorems.BarrierMissesStart` a run.
- A finished session's status is not final: `FinishSession` overwrites it, whether a Cancel
  comes late (`SessionTheorems.FinishedStatusIsNotFinal` has a run) or it came early and the
  session's own goroutine writes after it (`SessionFinality.Spoils` has a run from every such
  state). Only being terminal is for good (`SessionTheorems.TerminalStays`).
  `SessionFinality.StatusChangesIff` says which steps change the status, and
  `SessionFinality.StatusIsFinalIff`, for every finished row, when none ever will.
- The truncation marker does not mean that anything was lost: just past the head budget
  nothing is, and the marker is there all the same (`Limiter.LossIff`,
  `Limiter.MarkerWithoutLoss`).
- `Suffix` says it replays the controls met before the cut. A line that ends at the cut or
  before it loses them (`Styles.SuffixKeepsControlsIff`, `Styles.SuffixLosesControl`).
- The schema's `trim()` strips only spaces, the client's `TrimSpace` all white space. A
  batch can store a message whose content is a tab, and from then on nobody can export or
  list its thread with the client (`Portable.TabBlocksExport`, `Portable.MessagesExportIff`).
- An export cut to the last messages still names the parents it cut, by their old seqs.
  Importing it hangs such a reply under whatever message of the destination has that seq,
  or fails (`CutImport.CutImportIff`); `CutReferences.CutHangsReplyElsewhere` has a reply
  that ends up under a stranger's message. References are kept exactly if none is to a cut
  message (`CutReferences.CutKeepsReferencesIff`). Where the destination has just as many
  messages as were cut, the old seqs are the right ones (`CutReferences.CutCatchesUp`).
- A request that itself opens with a mention does not survive composing and parsing
  (`Mentions.MentionRoundTrip`, `Mentions.RoundTripNeedsItsCondition`).

## Model

| member | source | states |
|---|---|---|
| SessionInvariant.RunKeepsInv | internal/session/manager.go:68-395 | the invariant holds after every run: rows agree with their goroutines, the maps, the semaphore and the WaitGroup agree with where the goroutines are, and replies agree with the messages |
| SessionInvariant.StepKeepsInv | internal/session/manager.go:68-297 | every step of every goroutine, in any state that satisfies it, keeps the invariant |
| SessionInvariant.RestartKeepsInv | internal/store/session.go:303-311 | a crash at any point, followed by reconciliation, keeps it too |
| SessionTheorems.ShutdownBarrier | internal/session/manager.go:253-277 | once the manager is closed and the WaitGroup is zero, every session that was ever launched has a terminal row, and a row is not terminal exactly if its Start is between CreateSession and its own FinishSession and no Cancel wrote it |
| SessionTheorems.BarrierIff | internal/session/manager.go:95-143 | the same for one session in any reachable state, both directions |
| SessionTheorems.BarrierMissesStart | internal/session/manager.go:95-101 | a run after which Shutdown has returned, nothing is live, and a row is still queued |
| SessionTheorems.TerminalStays | internal/db/agent_sessions.sql.go:43-45 | no step takes a row out of the terminal statuses; a row that ends while queued is marked as finished queued for good |
| SessionTheorems.FinishedStaysFinished | internal/session/manager.go:112-208 | the same along any sequence of steps |
| SessionTheorems.FinishedStatusIsNotFinal | internal/session/manager.go:279-297 | a run in which a row goes from succeeded to canceled |
| SessionTheorems.AtMostOneRun | internal/session/manager.go:112-182 | over any run a session calls runner.Run at most once, and never if its row was finished while queued |
| SessionTheorems.RunnerCalledOnce | internal/session/manager.go:181 | no two steps of a run call runner.Run for the same session |
| SessionTheorems.OneSessionPerMention | internal/store/session.go:63-103 | no two sessions have the same trigger message and agent |
| SessionTheorems.SchedulerIsConsistent | internal/session/manager.go:99-149 | queued and running are disjoint, running sessions hold slots, at most four slots are held, queued ids have a live goroutine that has not passed the closed check |
| SessionTheorems.StepRanks | internal/session/manager.go:112-143 | after closing no goroutine is launched, each goroutine's step lowers a rank over all live sessions, and no other step raises it |
| SessionTheorems.DrainIsBounded | internal/session/manager.go:253-277 | after closing, the number of goroutine steps that can still happen is at most the rank |
| SessionTheorems.NobodyWaits | internal/session/manager.go:112-121 | once the context is cancelled every live goroutine can move, whatever the others do |
| SessionTheorems.ShutdownNeverWaits | internal/session/manager.go:263-268 | in every reachable state Shutdown's next FinishSession, or its return, can take place |
| SessionTheorems.ShutdownReturns | internal/session/manager.go:249-269 | once closed, Shutdown comes to its end by its own steps alone, at most two more than the rows it has to finish, also when a session goroutine calls it |
| SessionTheorems.DrainCompletes | internal/session/manager.go:274-277 | from any reachable state with the context cancelled there is a run of goroutine steps alone to a zero WaitGroup |
| SessionReplies.ReplyResolution | internal/session/manager.go:299-395 | a session has at most one reply, written by a step of its own goroutine after its one run; none in cli mode; in auto mode there is an earlier step of the run that polled and found no message of the agent after the trigger, with no poll in between; past linking, the row names the reply, a later message that answers the trigger, exactly if there is one and no step of the run failed to link it or stopped the daemon before it |
| SessionReplies.LastPoll | internal/session/manager.go:351-368 | whoever is on the way to a reply in auto mode has polled, found nothing, and not polled since |
| SessionReplies.LinkHistory | internal/session/manager.go:386-393 | the link is lost exactly if some step of the run lost it |
| SessionContent.ReplyIsOutput | internal/session/manager.go:337-395 | for every interleaving of sessions and of the goroutines that log output, the message a session's row names as its reply is the trimmed elision of the bytes its runner wrote to stdout, and is not blank |
| SessionContent.HeardFrom | internal/session/manager.go:182-195 | what resolveReply reads is what a step of the run in which the runner returned left in the log |
| SessionContent.SpokenIsNotBlank | internal/session/manager.go:370-379 | whoever is about to append a reply, or has one, has something to say |
| SessionFinality.StatusChangesIff | internal/store/session.go:184-204 | a step changes the status of a finished row exactly if it is one of the five that run FinishSession on it and writes another status |
| SessionFinality.StatusIsFinalIff | internal/session/manager.go:112-208 | in every reachable state the status of a finished row is the same after every continuation exactly if: where it is canceled, its goroutine is over, or not yet admitted with the manager closed, or dropped, or past the prompt and short of appending a reply with its context cancelled; where it is not, its goroutine is over, no call of Cancel may still come to write it and Shutdown has not the row still to finish |
| SessionFinality.Spoils | internal/session/manager.go:151-208 | from any state in which the goroutine of a canceled row may still write something else, waiting for a slot included, there are steps to another status |
| SessionFinality.SettledForGood | internal/session/manager.go:253-297 | such a status stays along any steps |
| SessionCancel.CancelIsHonoured | internal/session/manager.go:279-331 | a session told to stop before it appends its reply, by Cancel or by Shutdown, has none in any continuation, and if it ends it is canceled, or failed without ever having run |
| SessionCancel.CanceledInQueueStays | internal/session/manager.go:203-208 | a row canceled while it is queued stays canceled and is never run, as long as the store gives its status when the goroutine asks |
| SessionCancel.CancelTakesEffect | internal/session/manager.go:279-297 | a call of Cancel that returns has found the row finished; or found the session running, cancelled its context and left the row alone; or found it not running and marked the row canceled |
| SessionFinality.RestartEndsSessions | internal/db/agent_sessions.sql.go:208-212 | no session caught by a crash ever runs again, gets a reply, or is queued or running in any continuation; each keeps for good the status it had, or is canceled for good |
| SessionOutcomes.SuccessIsEarned | internal/session/manager.go:299-331 | in every reachable state a session marked succeeded was run once, and in cli mode its agent has posted after the trigger |
| SessionEnds.EndsAsTold | internal/session/manager.go:151-396 | a session nobody stops ends by the last step of the run that tells: succeeded exactly if by it the reply was linked, a message of the agent was found, or there was nothing to say; failed exactly if by it marking, prompting, the runner, the poll, the append or the link failed, or a cli session found no message; it stops polling only when its time is up, by the clock or after 21 polls |
| SessionReplies.HasPostedIff | internal/db/messages.sql.go:13-16 | the count is positive exactly if the agent has a message in the thread after the trigger |
| Manager.Manager.constructor | internal/session/manager.go:44-56 | a new manager mirrors the machine's initial state |
| Manager.Manager.Register | internal/session/manager.go:99-108 | Start's section takes the machine's step in place and launches exactly if the manager is open |
| Manager.Manager.TakeSlot | internal/session/manager.go:114-115 | acquiring the semaphore is the machine's step |
| Manager.Manager.Admit | internal/session/manager.go:124-136 | dispatch's section takes the machine's step in place and goes on exactly if the manager is open |
| Manager.Manager.DropQueued | internal/session/manager.go:145-149 | dropQueued is the machine's step |
| Manager.Manager.Unwind | internal/session/manager.go:137-142 | the first deferred call leaves the running map |
| Manager.Manager.FreeSlot | internal/session/manager.go:121 | the second frees the slot |
| Manager.Manager.Leave | internal/session/manager.go:113 | the last tells the WaitGroup |
| Manager.Manager.LookUp | internal/session/manager.go:288-295 | Cancel's section finds a cancel function exactly if the session is running |
| Manager.Manager.Close | internal/session/manager.go:255-262 | Shutdown's section closes the manager, empties the queue and returns its ids, each once |
| Manager.Manager.CancelContext | internal/session/manager.go:265 | cancelling the context is the machine's step |
| Manager.Manager.Shutdown | internal/session/manager.go:253-269 | uninterrupted, Shutdown finishes exactly the rows that were queued and moves no goroutine; a second call changes nothing |
| Manager.AgentPosted | internal/session/manager.go:351-368 | the poll stops at its first find or its first stop, and reports a failure exactly if its last query failed |
| Limiter.Limiter.constructor | internal/runner/runner.go:37-43 | a new limiter has taken nothing |
| Limiter.Limiter.Push | internal/runner/runner.go:45-64 | what a push lets through is a function of all bytes pushed before and the new ones, never of how they were cut |
| Limiter.Limiter.KeepTail | internal/runner/runner.go:66-75 | the tail buffer holds the last TAIL_BYTES bytes of what it held and was given, and every slice is in bounds |
| Limiter.Limiter.Seal | internal/runner/runner.go:77-90 | sealing gives the marker and the tail once, if the input passed the head budget |
| Limiter.Drain | internal/runner/exec.go:66-96 | for every way to cut an input into reads, the chunks handed on are together the input, or, past the head budget, its first bytes, the marker and its last bytes |
| Limiter.ElideFits | internal/runner/runner.go:12-17 | the elision never exceeds MaxStreamBytes |
| Limiter.LossIff | internal/runner/runner.go:45-90 | bytes are lost exactly if the input is longer than head and tail budgets together, while the marker is there as soon as it is longer than the head budget |
| Limiter.ElideKeepsBothEnds | internal/runner/runner.go:45-90 | of a stream too long for its budget the head and the end are kept, and what is between is replaced by the marker |
| Limiter.MarkerWithoutLoss | internal/runner/runner.go:45-90 | an input with the marker in its transcript and nothing lost |
| StreamWriter.CollectStdout | internal/session/manager.go:337-349 | the reply is the trimmed concatenation of the stdout events in log order, empty if the log cannot be read |
| Text.TrimSpaceStrips | internal/session/manager.go:348 | trimming takes white-space runes from both ends, nothing else, and leaves none there |
| Transcript.StepKeepsInv | internal/session/stream.go:43-106 | every step of drainers, ticker and closer keeps: logged plus in flight plus buffered is what the writer accepted, and with what is still on its way it is what the limiter released |
| Transcript.RunKeepsInv | internal/session/stream.go:43-106 | so does every run |
| Transcript.ClosedIsDrained | internal/session/stream.go:97-106 | when closeAll has returned, a stream's events are exactly the elision of its bytes |
| Transcript.TranscriptIsElision | internal/session/stream.go:57-106 | for every interleaving and every chunking of reads, a stream's events are the elision of the bytes read |
| Transcript.ReplyDependsOnBytesOnly | internal/session/manager.go:182-195 | the collected reply is the trimmed elision of the stdout bytes, whatever is logged after closing |
| Transcript.LogIsAlwaysAPrefix | internal/session/stream.go:72-95 | at every moment of a run what is logged is a prefix of the elision of all the bytes the whole run reads, which is the final transcript |
| Transcript.EventsAreShort | internal/session/stream.go:57-89 | over any run no event of a stream is as long as StreamFlushBytes plus the longest read of the run, or plus marker and tail where that is more |
| Transcript.NeverStuck | internal/session/stream.go:43-106 | until all is closed, once both pipes are past reading, some goroutine can move |
| Transcript.OthersAreBounded | internal/session/stream.go:43-106 | over any steps, those that are neither reads nor ticks are at most the rank at the start, five for each read and eleven for each tick |
| Transcript.CloseCompletes | internal/session/stream.go:97-106 | from every reachable state closeAll can come to its end without reads or ticks, in at most as many steps as the rank |
| Ticks.TickLogsAll | internal/session/stream.go:43-55 | when the round a tick starts is over, all that the writer accepted before the tick is in the log |
| Ticks.SmallEventsAreFew | internal/session/stream.go:57-70 | a stream has no more events below StreamFlushBytes than flushes that a tick or closeAll called for |
| EventWriter.EventWriter.constructor | internal/session/stream.go:29-41 | a new writer mirrors the machine's initial state |
| EventWriter.EventWriter.Write | internal/session/stream.go:57-70 | write's section takes the machine's step in place and asks for a flush exactly if the buffer reached the threshold |
| EventWriter.EventWriter.Take | internal/session/stream.go:79-87 | flush's section takes the machine's step in place and returns what it took out of the buffer |
| EventWriter.EventWriter.Append | internal/session/stream.go:88 | logging the payload is the machine's step |
| EventWriter.EventWriter.Flush | internal/session/stream.go:72-89 | uninterrupted, a flush turns the buffer into one event, or does nothing if it is empty |
| EventWriter.EventWriter.FlushAll | internal/session/stream.go:91-95 | uninterrupted, it flushes both streams |
| EventWriter.EventWriter.CloseAll | internal/session/stream.go:97-106 | uninterrupted, it leaves empty buffers and a log that holds all that was ever accepted, which is the elision of what was pushed |
| ThreadLog.HistoryKeepsWf | internal/store/store.go:265-359 | after any history of single, by-parent-seq and batch appends and reactions, from empty tables, every thread numbers its messages from 1 without gaps, every parent is an earlier message of the thread, and the tables have only grown |
| ThreadLog.SeqsAreDense | internal/store/store.go:700-709 | each number from 1 to a thread's size is some message's seq |
| ThreadLog.SeqsAreUnique | internal/store/store.go:700-709 | seqs of a thread ascend in table order, so no two are equal |
| ThreadLog.IdBySeqFinds | internal/db/messages.sql.go:89-91 | looking up a message's thread and seq finds it |
| ThreadLog.RootIsRoot | internal/store/store.go:317-328 | following parents leads, by ever smaller seqs of the same thread, to a message without parent |
| ThreadLog.AppendAdds | internal/store/store.go:309-359 | a successful append adds one row with the next seq and the given fields, and nothing else |
| ThreadLog.AppendSucceedsIff | internal/store/store.go:309-359 | exactly when an append succeeds; the database never finds a seq taken |
| ThreadLog.ReactAdds | internal/store/store.go:572-603 | a successful reaction adds one row and nothing else |
| ThreadLog.ReactSucceedsIff | internal/store/store.go:572-603 | exactly when a reaction succeeds, when it is a conflict and when its message is not found |
| ThreadLog.EventsArePlaced | internal/store/store.go:625-648 | what the second pass of a batch has done after any prefix of its events |
| ThreadLog.BatchIsExact | internal/store/store.go:605-653 | in a batch that succeeds every message has the seq the first pass predicted, every event answers the message its seq maps to, what was there is untouched, and the client accepts the results |
| BatchSuccess.BatchSucceedsIff | internal/store/store.go:605-653 | a batch succeeds exactly if its events are valid, its source seqs strictly ascend, and each event fits: its fields obey the rules, what it answers, mapped or not, is one of the seqs the thread has by then, and it repeats no reaction of the tables or of the batch |
| BatchSuccess.FoundIff | internal/db/messages.sql.go:89-91 | a seq is found in a thread exactly if it is between 1 and its size |
| Database.BuildSourceSequenceMap | internal/store/store.go:711-733 | it fails exactly if the source seqs do not strictly ascend, and else maps each to its place in the destination |
| Database.Database.Begin | internal/store/store.go:30-43 | a transaction starts from the tables as they are |
| Database.Database.Commit | internal/store/store.go:649-653 | and replaces them when it commits |
| Database.Database.AppendMessage | internal/store/store.go:309-359 | the in-place append does what the specification says, and nothing on failure |
| Database.Database.AppendMessageByParentSeq | internal/store/store.go:679-698 | so does the append by parent seq |
| Database.Database.AddReaction | internal/store/store.go:572-603 | so does a reaction |
| Database.Database.AddReactionBySeq | internal/store/store.go:558-570 | so does a reaction by seq |
| Database.Database.AppendOne | internal/store/store.go:625-648 | one event of a batch |
| Database.Database.AppendBatch | internal/store/store.go:605-653 | a batch commits all its events or leaves the tables untouched |
| Database.ValidateBatchResults | cmd/flf/main.go:310-331 | the client's check, decided exactly |
| Listing.ListIsThread | internal/db/messages.sql.go:184-191 | listing a thread gives its messages in the order they were appended |
| Listing.LastNIsSuffix | internal/db/messages.sql.go:305-316 | the last N, for every N > 0, are the suffix of that length or the whole thread, in order |
| Listing.ListAfterIsDrop | internal/db/messages.sql.go:244-251 | what follows a cursor is the thread without its first messages, as many as the cursor says |
| Listing.CursorReads | internal/store/store.go:402-415 | however appends and polls alternate, a reader has been given the thread up to its cursor, without loss or repetition, and right after a poll all of it |
| Listing.ReactionsListed | internal/db/reactions.sql.go:64-71 | a thread's reactions are listed each once, ordered by message seq, then time, then id |
| Listing.KeysAreOrdered | internal/db/reactions.sql.go:64-71 | that order is total and transitive |
| Listing.ReactionsInOrder | internal/db/reactions.sql.go:64-71 | of two reactions the one to the earlier message is listed first; of two to one message the one with the smaller time, by bytes; else the one stored first |
| Jsonl.NormalizeSettles | internal/jsonl/jsonl.go:54-80 | the lines normalize leaves alone are exactly the normal ones, and it reaches them at once |
| Jsonl.ParseMarshal | internal/jsonl/jsonl.go:25-52 | reading a written line back is normalizing it, for every line: omitempty loses nothing |
| Jsonl.AuthorStandsIn | internal/jsonl/jsonl.go:36-52 | an author is read as the name where that is missing, null or empty |
| Jsonl.AuthorIsIgnored | internal/jsonl/jsonl.go:36-52 | beside any other name it changes nothing |
| Requests.ParsesIff | internal/jsonl/jsonl.go:25-80 | exactly which objects are lines: every field is missing, null or of its type, a name is given, and a message has a role and content, a reaction a positive message seq and an emoji |
| Jsonl.ParseLines | internal/jsonl/jsonl.go:82-100 | the loop parses all lines that are not empty, or fails with the first that does |
| Jsonl.EmptyLinesAreSkipped | internal/jsonl/jsonl.go:82-100 | an empty line anywhere in a file makes no difference |
| Jsonl.EncodeLines | internal/jsonl/jsonl.go:102-110 | one written line for each line |
| Jsonl.FileRoundTrip | internal/jsonl/jsonl.go:82-110 | a written file reads back as its lines exactly if each is normal |
| Portable.DumpThreadMessages | cmd/flf/main.go:705-758 | an export goes through exactly if every response passes the client's check; each line then names its message's seq and its parent's, also where the thread is cut to its end or to a cursor, and while others append between the three requests |
| Portable.MessagesExportIff | cmd/flf/main.go:213-226 | a thread's messages pass the client's check exactly if no content is white space alone |
| Portable.ReactionsExportIff | cmd/flf/main.go:228-238 | its reactions pass exactly if no emoji is |
| Portable.TabBlocksExport | internal/apiserver/server.go:317-349 | a batch that stores a message whose content is one tab, after which the thread cannot be exported |
| Portable.ImportIsBatch | cmd/flf/main.go:973-1012 | sending parsed lines and parsing them again changes nothing: an import is the batch of its lines |
| Portable.AuthorsAreGiven | internal/apiserver/server.go:315-349 | whatever lines say, every row a batch adds is an agent's if an agent sent it, and a human's if a human sent it live |
| Portable.LegalIsNotBlank | internal/names/names.go:41-49 | a legal name is never blank |
| Server.AppendThreadEvents | internal/apiserver/server.go:286-359 | the endpoint turns 1 to 1000 lines into one batch, changes nothing where it refuses, and else leaves what the objects say |
| Requests.RequestIsStored | internal/apiserver/server.go:315-349 | after a request, live or an import, by a human or an agent: each message object is the thread's next row with its own name, role, content and time and answers the message it names by seq, or none; each reaction is to the message it names; only an import's own seqs come before the thread's; the answer names the rows |
| Server.ThreadImport | cmd/flf/main.go:972-1028 | the import command does what the specification of an import says, in place, and on tables in order its check of the answer never fails |
| Moving.ImportMoves | internal/store/store.go:605-653 | importing an export into any thread succeeds as a batch and adds exactly the moved rows |
| Moving.PredictsShift | internal/store/store.go:711-733 | for an export the map is a shift by the size of the destination |
| MovedExport.ImportOfExport | cmd/flf/main.go:705-758 | an export can be imported exactly if it has 1 to 1000 lines; the destination then exports its messages, the source's shifted, its reactions, the source's shifted, in that order and with all other fields kept; other threads export what they did |
| MovedExport.ExportAfter | internal/db/reactions.sql.go:64-71 | the export of every thread of the destination after the move |
| CutImport.FetchedIsCut | cmd/flf/main.go:691-710 | a dump with last or after-seq gives the thread without its first messages |
| CutImport.CutImportIff | internal/store/store.go:625-648 | an export without its first messages can be imported exactly if no reference to a cut one points past what the destination has by then and no reaction comes to repeat another; a message then answers the message with the shifted seq, or, where its parent was cut, whatever message of the destination has the parent's old seq, and a reaction likewise |
| CutReferences.CutKeepsReferencesIff | internal/store/store.go:625-648 | where importing a cut export goes through, every message answers and every reaction is to the copy of its own target exactly if no line of the export refers to a message that was cut |
| CutReferences.CutCatchesUp | cmd/flf/main.go:691-758 | onto a thread of just as many messages as were cut, an export can be imported exactly if none of its reactions is there yet; the thread then lists its own lines and the exported ones as the source does, so a copy of the source's first messages becomes a copy of the source's thread |
| CutReferences.CutHangsReplyElsewhere | internal/store/store.go:625-648 | a reply that comes to answer a message it never answered |
| CutReferences.DumpImportIff | cmd/flf/main.go:972-1028 | the file of a dump with last or after-seq can be imported exactly if it has 1 to 1000 lines and its references fit; its rows then arrive, and keep what they refer to exactly if no line refers to one left out |
| Screen.PrefixParts | internal/tui/screen/width.go:30-64 | the loop computes the longest prefix that fits and the controls after it |
| Screen.SuffixParts | internal/tui/screen/width.go:83-110 | the loop computes the controls before the cut and what follows it |
| Screen.SpliceIsComposite | internal/tui/screen/screen.go:10-41 | the cells of a splice are the panel's inside the interval and the background's outside, with blanks where a wide grapheme straddles an edge or the text is too short |
| Screen.SpliceWidth | internal/tui/screen/screen.go:10-41 | its width is the larger of the background's and the interval's end |
| Screen.CompositeIsWhole | internal/tui/screen/screen.go:10-41 | no grapheme of the result is cut |
| Screen.SplicesCommute | internal/tui/screen/screen.go:10-41 | splices into disjoint intervals commute, wherever they lie |
| Screen.SpliceAbsorbs | internal/tui/screen/screen.go:10-41 | a splice over the same interval replaces the one before; repeated, it changes nothing |
| Styles.PrefixKeepsControls | internal/tui/screen/width.go:30-64 | a prefix carries every control of its line, in order |
| Styles.SuffixKeepsControlsIff | internal/tui/screen/width.go:78-110 | a suffix does exactly if there is none, or the line is cut before its last token |
| Styles.SuffixLosesControl | internal/tui/screen/width.go:78-110 | a line that loses its control |
| Styles.SpliceStyles | internal/tui/screen/screen.go:10-41 | before each cell of a splice come, in order: left of the interval the background's controls before that cell; in it all of the background's, unless the interval starts the line, and the replacement's before that cell; right of it all of the replacement's too, and the background's before that cell once more |
| Styles.FittedSizes | internal/tui/screen/width.go:30-64 | a line cut to n cells and padded is n wide and holds all its controls |
| Styles.ClippedStyles | internal/tui/screen/width.go:83-110 | a line without its first n cells has before each of its cells the controls the line has before it, or none where nothing is left |
| Overlay.OverlayAt | internal/tui/screen/screen.go:49-81 | the loop changes exactly the rows the panel covers, each to the cells and the controls of the clipped panel row over the background, and no other |
| Overlay.ClippedPanelRow | internal/tui/screen/screen.go:62-79 | in a row it covers, the panel shows in its visible span, clipped to the screen, with the controls it has and those of the background before them |
| Overlay.VisibleIff | internal/tui/screen/screen.go:58-64 | the span is the columns of the screen that some row of the panel reaches |
| Overlay.OverlayLeavesTheRest | internal/tui/screen/screen.go:49-81 | outside the span a cell stays, or is blank if its grapheme was cut |
| Mentions.ScanName | internal/mentions/mentions.go:42-54 | the scanner takes the longest run of name bytes, or nothing if a looser name goes on |
| Mentions.Parse | internal/mentions/mentions.go:14-37 | the loop computes the leading mentions and the trimmed rest |
| Mentions.TokenIsLegal | internal/names/names.go:19-22 | what the scanner takes, without trailing dots, is a name the regular expression accepts |
| Mentions.MentionedAreLegal | internal/mentions/mentions.go:14-37 | for every input the names found are legal and distinct |
| Mentions.MentionedNothingIff | internal/mentions/mentions.go:14-37 | nothing is found exactly if the text does not open with a mention |
| Mentions.LooserNameIsProse | internal/names/names.go:72-78 | a name that goes on in digits, a dash or an underscore is no mention |
| Mentions.LongNameIsProse | internal/mentions/mentions.go:42-54 | nor is one that is too long |
| Mentions.LastDotsAreDropped | internal/mentions/mentions.go:24-30 | dots after a name are no part of it |
| Mentions.BlanksDoNotMatter | internal/mentions/mentions.go:14-24 | spaces, tabs and line ends before a mention are skipped |
| Mentions.OnlyBlanksAreSkipped | internal/mentions/mentions.go:14-24 | and nothing else is |
| Mentions.MentionRoundTrip | internal/mentions/mentions.go:14-37 | distinct legal names and a trimmed request, written out, parse back exactly if the request does not itself open with a mention |
| Mentions.RoundTripNeedsItsCondition | internal/mentions/mentions.go:14-37 | a request for which they do not |
| LegalName.Derive | cmd/flf/main.go:1049-1070 | the loop computes the derived name |
| LegalName.DerivedIsLegal | cmd/flf/main.go:1049-1070 | for every user name it is legal |
| LegalName.FixedPointIff | cmd/flf/main.go:1049-1070 | it is the user name itself exactly if that is legal and has no two dots in a row |
| LegalName.DerivedIsRuns | cmd/flf/main.go:1049-1070 | the derived name is the user name's runs of letters with a dot between each two, cut to size, without a last dot; or unknown |
| LegalName.SeparatorIsOneDot | cmd/flf/main.go:1030-1034 | whatever stands between two words of letters becomes one dot, and what stands around them nothing |
| LegalName.DerivedIsIdempotent | cmd/flf/main.go:1049-1070 | deriving again changes nothing |
| LegalName.DerivedIsMentionable | internal/mentions/mentions.go:14-37 | a mention of it parses back to it alone |
| LegalName.BytesAgreeWithRunes | cmd/flf/main.go:1040-1048 | walking bytes and walking runes give the same name |

## Left out

- Manager.Manager.Shutdown: states the uninterrupted call; what others do between its steps is covered by the machine's theorems, not by this contract.
- Manager.AgentPosted: time is the number of polls, at most 21 (2 seconds in steps of 100 milliseconds); slower queries only stop it earlier.
- EventWriter.EventWriter.Flush: states the uninterrupted call; its two sections are Take and Append, and all interleavings are in `Transcript`.
- EventWriter.EventWriter.FlushAll: states the uninterrupted call; all interleavings are in `Transcript`.
- EventWriter.EventWriter.CloseAll: states the uninterrupted call with an idle ticker; all interleavings are in `Transcript`.
- EventWriter.EventWriter.Write: streams other than stdout and stderr, which write ignores, cannot be named.
- Portable.DumpThreadMessages: prints nothing; it returns the lines. Text is taken to survive JSON, which holds for valid UTF-8 only.
- Server.ThreadImport: creating the channel and the thread an import may start with.
- SessionContent.ReplyIsOutput: the session machine and the transcript machine meet in one step: when the runner returns, the session's output is what a closed run of the transcript machine has logged. That the two share one log is assumed there, not modelled.
- CutReferences.DumpImportIff: is about a dump between whose requests nothing is appended; Portable.DumpThreadMessages has the others.
- Server.AppendThreadEvents: the 1 MiB limit on a request's body, malformed JSON around the events, and starting sessions for a live batch.
- Jsonl.ParseLines: the 1 MiB limit on a line, and keys that match a field only when case is ignored.
- Database.Database.AppendMessage: integers are unbounded; SQLite's and Go's 64-bit seqs would take that many messages to overflow.
- Agent sessions: FinishSession, dropping from maps and other writes whose errors the code ignores are taken to succeed; marking, prompting, polling, appending and linking may fail. MessageIDBySeq cannot fail right after its append.
- Agent sessions: the contents of prompts, exit codes, error texts and times of a row.
- SQLite: tables with their checks, unique keys and foreign keys, and one connection, are part of the model; the engine is not. Timestamps are text with a predicate for RFC 3339 (section 5.6).
- Process execution: groups, pipes and timeouts; the runner is whatever returns. The transcript starts from the bytes the drainers read, not from those a child wrote.
- Creating channels and threads, the cross-channel feed, HTTP routing, flags and the daemon's own life.
- Tokenisation and widths of graphemes: a line is given as tokens, and decoding that makes no progress is excluded.
- The terminal interface above the compositor, and OverlayCentered, which only computes a position.
- Agent configuration, the text of prompts, migrations and seeding.
