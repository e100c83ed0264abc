# Verification model of the timecard assistant

This Dafny project models the hard core of the timecard assistant and proves what it is
supposed to guarantee. `dafny verify dfyconfig.toml` checks all of it.

| files | part of the system |
|---|---|
| `Values`, `Results` | dynamically typed values; submission results, their sanitiser and their classification |
| `Idempotency` | the store that deduplicates timecard writes: its operations as functions, and the memory and SQLite backends as classes proved equal to them |
| `Runs`, `Guarantees`, `Bisimulation`, `Witnesses` | the protocol as a state machine over any number of clients, crashes and the passage of time; its invariant; what holds on every run; the two backends compared; runs on which plausible claims fail |
| `RequestIds`, `Submission`, `Batch` | request ids; a batch of rows, submitted one after the other or concurrently; its preflight |
| `Limiter`, `Overflow` | the sliding-window rate limiter, in memory and over Redis; a run on which it admits too much |
| `Json`, `Framing`, `Sse` | the chat event stream, printed and read back from arbitrary chunks |
| `Timecards` | validation, project resolution and mapping of entries, and the browser's check |
| `Catalogue`, `Pagination` | the person index of the project catalogue, and the page-by-page fetches |
| `Sessions` | the session store under Redis failures |
| `PcmPlayer` | the audio ring buffer |
| `Statuses` | how statuses spread over a time record |

An owner token is the serial number of the random token drawn for it, so "up to tokens" means
up to these numbers. Time is a real number handed to each operation. A database or Redis that
may fail is a parameter that says how the operation finds it.

## What turned out not to hold

Each of these is stated as an equivalence, or with the input that shows it.

- The store's description says that a lease can never exceed the lifetime of its record
  (`backend/services/idempotency.py:503-507`). A takeover renews the lease but not the expiry, so
  it can: exactly when a claim is taken over less than one lease length before its record
  expires (`LeaseExceedsRecord`, `LeaseOutlivesRecord`; a run that gets there is
  `LeaseCanOutliveRecord`).
- "No further POST after completion" holds exactly while no client that was granted the key
  earlier has still to send its POST (`NoFurtherPost`, `PostAfterCompletion`).
- An unknown outcome is released for retry, yet one kind of it is classified as not retryable:
  a request-id conflict with a server status (`AmbiguousIsRetryable`, `AmbiguousCanBeFinal`). The submitter never
  produces it (`ReleasedRows`).
- The sanitiser is idempotent except on successes with an error text chosen from a status
  outside 400..599 (`SanitizeTwice`, `SanitizingTwiceCanDiffer`).
- The two backends differ exactly on unknown outcomes reported after the lease or the record
  ended, and on replays of a success with an odd error text (`BackendsAgree`,
  `BackendsCanPart`, `ReplaysCanPart`).
- Concurrent and sequential submission agree exactly while every row completes within its
  lease; a late row is told that its claim was lost (`OnTimeExactly`, `ConcurrentLikeSequential`,
  `SlowPostIsLost`).
- A revocation does not always last: a session that Redis still holds is back exactly when every
  revocation missed Redis and the last local mark, which may be a shorter one, has run out
  (`SessionComesBack`); the lifetimes that the callers pass rule this out until the last second of
  the token (`TokenStaysRevoked`). With the memory fallback, revocations that Redis confirmed are
  forgotten with Redis (`FallbackForgetsRevocation`).
- The in-memory limiter can admit more than its limit into one window: an overflow of live keys
  makes it forget the oldest ones (`OneTooMany`). It answers a forgotten key as if nothing was
  forgotten exactly once the forgotten requests have left the window or the remembered ones fill
  the limit (`ForgettingWearsOff`).
- A child list served in full pages without any hint of more is cut at the first page and still
  called complete (`FetchChildren`).
- One status pass is not always enough (`OnePassSuffices`); two are.

## Model

| member | source | states |
|---|---|---|
| `Results.SanitizeResult` | backend/services/idempotency.py:207-248 | The loop over the known fields, in whatever order they come, and its two defaults give the closed form `Sanitize`; an argument that is not a dictionary becomes a failure with status 500. |
| `Results.SanitizedFields` | backend/services/idempotency.py:207-248 | What sanitising does to each field in terms of the input: success flag, status and code are normalised, the failure text follows from the sanitised status and code, every other field is its own safe form or absent. |
| `Results.SanitizeTwice` | backend/services/idempotency.py:207-248 | Sanitising twice equals sanitising once exactly when the input is not a success that carries an error text chosen from a status outside 400..599. |
| `Results.SanitizingTwiceCanDiffer` | backend/services/idempotency.py:207-248 | The input that shows it: a success with status 200 and an error text. |
| `Results.SettledIsFixed` | backend/services/idempotency.py:207-248 | A dictionary in final form is left alone exactly when its error text is present where due and matches its own status and code. |
| `Results.ErrorTextSettles` | backend/services/idempotency.py:193-204 | The text a sanitised result carries agrees with its own status and code exactly off that one family. |
| `Results.ReplayOfStored` | backend/services/idempotency.py:487-494 | Sanitising a stored result again when it is replayed changes nothing, exactly off the same family. |
| `Results.AmbiguousIsRetryable` | backend/services/idempotency.py:165-190 | An unknown outcome is always retryable, except exactly for a request-id conflict with a status of 500 or more. |
| `Results.AmbiguousCanBeFinal` | backend/services/idempotency.py:165-190 | The input that shows the exception: a conflict code with status 500. |
| `Idempotency.Configure` | backend/services/idempotency.py:524-527 | The constructor keeps configured times that are in range, raises times under 0.01 to it, and cuts a longer lease to the lifetime; always 0 < lease <= lifetime. |
| `Idempotency.MemoryBackend.Cleanup` | backend/services/idempotency.py:357-362 | Removes exactly the expired records. |
| `Idempotency.MemoryBackend.ClaimKey` | backend/services/idempotency.py:291-321 | The in-process claim is the abstract claim: same answer, same records, nothing else changed. |
| `Idempotency.MemoryBackend.CompleteKey` | backend/services/idempotency.py:323-343 | The in-process completion is the abstract one: release on an unknown outcome, storage of the sanitised result on a definitive one, refusal otherwise. |
| `Idempotency.MemoryBackend.ReadKey` | backend/services/idempotency.py:345-355 | Reading returns the sanitised stored result marked as replayed, or nothing. |
| `Idempotency.SqliteBackend.ClaimKey` | backend/services/idempotency.py:397-447 | The transaction is the abstract claim; when the database fails, it reports that and the rows stay. |
| `Idempotency.SqliteBackend.Reclaim` | backend/services/idempotency.py:433-443 | The conditional update takes over exactly a pending row, keeps its expiry, and reports how many rows changed. |
| `Idempotency.SqliteBackend.Release` | backend/services/idempotency.py:452-460 | The delete removes exactly the pending row the token owns, whatever its lease. |
| `Idempotency.SqliteBackend.Memoise` | backend/services/idempotency.py:461-475 | The update stores the result exactly in the pending row that the token owns in time. |
| `Idempotency.SqliteBackend.CompleteKey` | backend/services/idempotency.py:449-475 | The transaction is the abstract completion; when the database fails, the rows stay. |
| `Idempotency.SqliteBackend.ReadKey` | backend/services/idempotency.py:477-494 | The transaction is the abstract read. |
| `Runs.ClaimKeeps` | backend/services/idempotency.py:291-321 | A claim by any client keeps the invariant: records match the grant that made them, clients hold distinct tokens, the books balance for every key. |
| `Runs.CompleteKeeps` | backend/services/idempotency.py:323-343 | So does every completion, accepted or not. |
| `Runs.DefinitiveIsStorable` | backend/services/idempotency.py:165-248 | What is memoised is definitive, sanitised, and stays in final form when marked as replayed. |
| `Runs.StepKeeps` | backend/services/idempotency.py:286-574 | Every event keeps the invariant on either backend: claim, POST, completion, crash, read, passage of time, and the sweep of expired records, which skips the memory backend. |
| `Runs.RunKeeps` | backend/services/idempotency.py:497-515 | Every run keeps it. |
| `Guarantees.GrantAccounting` | backend/services/idempotency.py:291-343 | On every run and for every key, grants are POSTs plus clients about to send one plus crashed ones, and also the live record plus takeovers plus releases plus removals; so POSTs are at most 1 + takeovers + releases + removals. |
| `Guarantees.WrittenAtMostOnce` | backend/services/otl_client.py:892-983 | A run without takeovers, releases and removals for a key sends at most one POST for it. |
| `Guarantees.RecordChange` | backend/services/idempotency.py:291-355 | Everything one event can do to one record: a grant gives it the newest token, an expiry removes it, a completion ends all ownership, and nothing else changes it. |
| `Guarantees.CompletedStays` | backend/services/idempotency.py:308-314 | Until it expires, a completed record never changes and its key is never granted, on any run. |
| `Guarantees.CompletedIsFinal` | backend/services/idempotency.py:308-343 | After an accepted definitive completion, every later claim before the expiry replays that result for the same payload and conflicts for any other. |
| `Guarantees.ReplayIsTheOutcome` | backend/services/idempotency.py:308-314 | A replay is the stored outcome in every field, marked as replayed, on the memory backend always, on SQLite exactly off the family that sanitises unstably; success stays success. |
| `Guarantees.NoFurtherPost` | backend/services/otl_client.py:917-946 | No run sends another POST for a completed key before its expiry exactly when no client still waits to use an earlier grant of it. |
| `Witnesses.PostAfterCompletion` | backend/services/otl_client.py:917-946 | A run from the empty store on which a key gets its second POST after its completion, whenever the lease is shorter than the lifetime. |
| `Guarantees.LastGrantWins` | backend/services/idempotency.py:326-338 | Only the newest grant of a key can be completed, only on that key, and at most one client holds it. |
| `Guarantees.DeadTokenIsPowerless` | backend/services/idempotency.py:326-338 | A token that has lost its record never completes anything and never changes the table again, on any run and any key. |
| `Guarantees.HowTokensDie` | backend/services/idempotency.py:286-343 | An owning token loses its record in a step exactly when the record is completed or released by it, granted again, or removed for age. |
| `Guarantees.LeaseBounds` | backend/services/idempotency.py:299-321 | A lease ends exactly the configured time after its grant; a first lease ends by the record's expiry, a taken-over one less than one lease length after it. |
| `Guarantees.LeaseExceedsRecord` | backend/services/idempotency.py:315-321 | The lease of a granted claim outlives its record exactly when a live record was taken over less than one lease length before its expiry. |
| `Guarantees.LeaseOutlivesRecord` | backend/services/idempotency.py:500-507 | What then happens: a definitive outcome within the lease is refused after the expiry, and the next claim, of any payload, is granted. The documented bound does not hold for taken-over claims. |
| `Witnesses.LeaseCanOutliveRecord` | backend/services/idempotency.py:315-338 | A run from the empty store on which that happens, whenever the lease is shorter than the lifetime: completion refused within the lease, and the key granted to another payload. |
| `Guarantees.CrashedClaimRecovers` | backend/services/idempotency.py:501-503 | One lease length after the present, a claim on a pending key is granted exactly when its payload is the same or the record has expired. |
| `Bisimulation.ShownAlike` | backend/services/idempotency.py:308-314 | The two backends show the same replay exactly when the stored success has no odd error text. |
| `Bisimulation.WaitSeesTheReplay` | backend/services/idempotency.py:345-362 | A wait finds a result exactly while the record is completed and live; it equals what a claim with the same payload replays, on SQLite always, in memory exactly without an odd error text. |
| `Bisimulation.CurrentStep` | backend/services/idempotency.py:286-574 | A record that has expired plays no part in any event of either backend, deleted or not, except that SQLite may still release it. |
| `Bisimulation.StepsAlike` | backend/services/idempotency.py:286-574 | From states with the same live records, one event gives the same answer and the same live records on both backends, unless it is one of the two named events, on which the answers differ. |
| `Bisimulation.BackendsAgree` | backend/services/idempotency.py:286-574 | From any state that satisfies the invariant, both backends answer every event of a run alike and end with the same live records exactly when no event of the run is one of those two. |
| `Bisimulation.SubmitterSeesNoDifference` | backend/services/otl_client.py:703-797 | With the outcomes the submitter produces, the backends are interchangeable exactly on runs without a release reported after its lease or record ended. |
| `Witnesses.BackendsCanPart` | backend/services/idempotency.py:328-338 | A run from the empty store that the two backends answer differently: an unknown outcome reported as the lease ends. |
| `Witnesses.ReplaysCanPart` | backend/services/idempotency.py:308-314 | And one on which they replay the same success differently. |
| `Submission.ScopedKeyIsInjective` | backend/services/idempotency.py:130-134 | Scoped keys are equal exactly when employee digests and request ids are, whatever characters the ids hold, since digests have one length. |
| `Submission.OutcomeFields` | backend/services/otl_client.py:703-785 | Success flag, status, code and error text of the row built from each Oracle outcome. |
| `Submission.ReleasedRows` | backend/services/otl_client.py:773-785 | A row of the submitter is released exactly when Oracle answered with a server status or not at all; then it is retryable; no such row is of the family that sanitises unstably. |
| `Submission.RowHasItsIndex` | backend/services/otl_client.py:892-983 | On every run of a batch, under any turns, every finished row i carries index i: after Oracle, a replay, a conflict, a wait, a lost claim or a refusal. |
| `Submission.OwnTurn` | backend/services/otl_client.py:1118-1195 | A turn of one row, unless it completes a claim whose lease is over, keeps what the batch knows about it and touches no key but its own. |
| `Submission.TurnKeeps` | backend/services/otl_client.py:1118-1195 | Such a turn of any row keeps what the batch knows about every row and about all other keys. |
| `Submission.EveryInterleaving` | backend/services/otl_client.py:1197-1201 | Under any interleaving in which each row completes within its own lease, however long the batch takes, a finished row has the result, and leaves the record, that its own key, outcome and starting record decide; other keys are untouched. |
| `Submission.LateTurn` | backend/services/otl_client.py:967-982 | A row that completes after its lease is told that its claim was lost, which is never what its own key and outcome decide. |
| `Submission.OnTimeExactly` | backend/services/otl_client.py:1118-1201 | All finished rows have the results that their own keys and outcomes decide if and only if each row completed in time. |
| `Submission.InterleavingIsInvisible` | backend/services/otl_client.py:1098-1201 | Any two complete interleavings whose rows complete in time return the same list and leave the same records up to tokens and times. |
| `Submission.ConcurrentLikeSequential` | backend/services/otl_client.py:873-1201 | A complete interleaving returns the list of the row-by-row submission, each of whose rows completes within a lease length of its claim, if and only if no row of it is late; and then it leaves the same records up to tokens and times. |
| `Submission.SlowPostIsLost` | backend/services/otl_client.py:967-982 | A late run from an empty store: a POST that takes a lease length creates the entry, and its row is told that its claim was lost. |
| `Submission.InOrderFinishes` | backend/services/otl_client.py:892-983 | The row-by-row submission finishes row after row. |
| `Submission.InOrderIsOnTime` | backend/services/otl_client.py:892-983 | In the row-by-row submission every row is on time when each completes within a lease length of its own claim. |
| `Submission.CreateOne` | backend/services/otl_client.py:893-982 | The body of the sequential loop, over the durable store, is the whole way of its row: same result, same records, same tokens drawn. |
| `Submission.ClaimRow` | backend/services/otl_client.py:896-946 | The claim part: the row may send its POST, must wait, or has its result, with the records and tokens of the row's first turn. |
| `Submission.AwaitRow` | backend/services/otl_client.py:930-945 | The waiting part: the stored result or a pending one, addressed to the row. |
| `Submission.CompleteRow` | backend/services/otl_client.py:967-982 | The completion part: the outcome itself, a lost claim, or an unavailable store, with the records of the row's last turn. |
| `Submission.CreateRows` | backend/services/otl_client.py:891-983 | The sequential loop is the run of the rows in order. |
| `Batch.CreateMany` | backend/services/otl_client.py:873-983 | The submitter refuses exactly the inadmissible batches without touching the store, answers every row as unavailable when a needed store cannot be opened, and otherwise is the run of the rows in order, each keyed by the employee of its entry and its request id. |
| `Batch.Preflight` | backend/services/otl_client.py:812-844 | The early-exit check passes exactly when there are at most 100 entries, a shared request id comes with a single entry, every entry is valid and its request ids valid and the same, and no request id occurs twice; then it returns the request id of each entry. |
| `RequestIds.KeyForEntry` | backend/services/idempotency.py:101-127 | The request id of an entry: none, the one that every supplied value names, or an error. |
| `Batch.AdmissibleIsFit` | backend/services/otl_client.py:812-844 | The rows of an admissible batch have distinct request ids and digests of the fixed length, as the theorems about interleavings ask. |
| `Batch.SubmittedIsAdmissible` | backend/api/v1/timecards.py:64-131 | Whatever a submission lets through, the preflight of its rows lets through. |
| `Batch.KeysAreUnambiguous` | backend/services/idempotency.py:101-134 | Two entries share a scoped key exactly when they share the employee digest and every supplied id. |
| `Limiter.LocalLimiter.IsAllowed` | backend/core/limiter.py:106-135 | A request is admitted exactly when the plain log of the key's remembered requests would admit it; the new table is the old one with room made and the key's timestamps stored; exactly the other live keys without room are forgotten; the table never exceeds the maximum plus one. |
| `Limiter.LocalLimiter.MakeRoom` | backend/core/limiter.py:109-128 | A table that fits stays as it is; of one that is too big, the live keys stay, but only as many as fit, and none goes that is younger than one that stays. |
| `Limiter.OverflowForgets` | backend/core/limiter.py:119-128 | There is no room for exactly as many live keys as are more than the maximum. |
| `Limiter.LocalLimiter.EvictOldest` | backend/core/limiter.py:121-128 | The overflow branch leaves exactly the maximum number of keys, and drops none that is younger than one it keeps. |
| `Limiter.LocalLimiter.DeleteKeys` | backend/core/limiter.py:119-120 | Deletes exactly the listed keys. |
| `Limiter.LocalLimiter.AdmittedAreBounded` | backend/core/limiter.py:106-135 | No interval of one window length holds more than the limit of the remembered requests of a key. |
| `Limiter.LocalLimiter.ForgettingWearsOff` | backend/core/limiter.py:106-135 | From a moment on, the limiter answers every run of requests of a key as if it had forgotten nothing exactly if nothing was forgotten, the last forgotten request has left the window, or the remembered ones alone fill the limit. |
| `Limiter.AlikeExactly` | backend/core/limiter.py:106-135 | The same for any log without its beginning: equal answers to all further requests exactly under that condition. |
| `Overflow.OneTooMany` | backend/core/limiter.py:106-135 | A run from the constructor, for every limit, window and table size: with two keys more than fit, a key gets one request more than its limit into one window. |
| `Limiter.LocalMatchesLog` | backend/core/limiter.py:106-135 | On any run of requests of any keys, a key that is not forgotten in between gets exactly the plain log's answers. |
| `Limiter.SpacedIsBounded` | backend/core/limiter.py:137-155 | A log whose every limit+1 consecutive requests span a window puts at most limit requests into any window-long interval. |
| `Limiter.AdmittedStaysSpaced` | backend/core/limiter.py:106-135 | Admitting by the windowed count keeps that spacing. |
| `Limiter.ApplyKeeps` | backend/core/limiter.py:143-155 | Every atomic pipeline, delayed removal and key expiry keeps the Redis invariant: all accepted requests still in the window are members. |
| `Limiter.RedisIsSafe` | backend/core/limiter.py:137-155 | Under any interleaving of pipelines, delayed removals and key expiries, no window-long interval holds more than the limit of accepted requests. |
| `Limiter.RedisIsNeverLooser` | backend/core/limiter.py:148-155 | Redis accepts only what the plain log of accepted requests admits, however many refused members linger. |
| `Limiter.PromptRedisMatchesLog` | backend/core/limiter.py:148-155 | When nothing lingers, Redis accepts exactly what the plain log admits. |
| `Limiter.PromptRunMatchesLog` | backend/core/limiter.py:137-155 | Over any run of requests and key expiries with prompt removals, Redis gives exactly the answers of the plain log. |
| `Limiter.LimitersAgree` | backend/core/limiter.py:106-155 | So the in-memory limiter, between any requests of other keys that do not make it forget the key, and Redis, with prompt removals and between any expiries, give the same answers to requests at the same times. |
| `Json.RoundTrip` | backend/services/chat.py:98-99 | Reading a written one-field object gives it back, for every text in it. |
| `Json.WriteHasNoControl` | backend/services/chat.py:98-99 | A written object contains no control character, hence no line break (section 7 of RFC 8259). |
| `Framing.SplitOfMore` | frontend/src/lib/sse.ts:24-26 | Cutting into frames can stop and go on anywhere: frames and remainder of a longer text follow from those of its parts. |
| `Sse.ReadSse` | frontend/src/lib/sse.ts:16-68 | The reader delivers the events of the joined text, however it was cut into chunks and whatever the JSON parser accepts. |
| `Sse.Drain` | frontend/src/lib/sse.ts:24-67 | The inner loop takes every complete frame and leaves the unfinished one. |
| `Sse.ReadFrame` | frontend/src/lib/sse.ts:33-63 | The lines of a frame are delivered in order. |
| `Sse.ReadLine` | frontend/src/lib/sse.ts:34-62 | Comments, other fields, empty payloads and texts that do not parse deliver nothing; a data line delivers what the JSON parser makes of its payload. |
| `Sse.EventsOfMore` | frontend/src/lib/sse.ts:22-26 | The events of a longer text are those of its first part, then those of what that part leaves followed by the rest. |
| `Sse.FrameRoundTrip` | backend/services/chat.py:98-99 | A printed frame is read as exactly its event, whatever follows (framing as in section 9.2 of the WHATWG HTML Living Standard). |
| `Sse.StreamRoundTrip` | frontend/src/lib/sse.ts:16-68 | Every list of events comes back exactly and in order from its printed stream. |
| `Sse.ReadPrinted` | frontend/src/lib/sse.ts:16-68 | For every way of cutting a printed stream into chunks, the reader delivers exactly the printed events. |
| `Sse.ShowDemo` | backend/services/chat.py:134-143 | From the demo to the screen: whatever the cutting, the text shown is the whole reply. |
| `Sse.DemoStream` | backend/services/chat.py:134-143 | The deltas of the demo reply join to the reply, each has 1 to 24 characters, and a done event closes them. |
| `Sse.LiveStream` | backend/services/chat.py:146-162 | The deltas join to what the model produced, and the last event is done, or the error that stopped the model. |
| `Timecards.BrowserAgreesWithServer` | frontend/src/lib/entries.ts:71-125 | The browser accepts exactly the hours and times the server accepts under default limits, except that it wants both times or neither. |
| `Timecards.MappedEventIsExact` | backend/services/otl_client.py:208-284 | A mapped event starts and stops at the given times, starts before it stops on the same day, and spans exactly its hours. |
| `Timecards.MapperRefusesOnly` | backend/services/otl_client.py:208-284 | The mapper accepts exactly the valid entries with an employee number and a usable default start hour whose hours, when no stop time is given, end before midnight; its own time checks refuse nothing else. |
| `Timecards.AssignedProject` | backend/services/timecard_entries.py:270-315 | The loop over orders and projects with its set of identities selects the match of the closed form, or refuses for the same reason. |
| `Timecards.ValidateEntries` | backend/services/timecard_entries.py:372-399 | The early-exit loop accepts exactly when every entry is valid and the total of each day is within the limit; a refusal names the first entry that breaks this, and why. |
| `Timecards.AddHours` | backend/services/timecard_entries.py:386-388 | The running totals hold every day's hours so far. |
| `Timecards.TotalOfPermutation` | backend/services/timecard_entries.py:378-388 | A day's total does not depend on the order of the entries. |
| `Timecards.OrderIsIrrelevant` | backend/services/timecard_entries.py:372-399 | Any permutation of the entries is accepted or refused alike. |
| `Timecards.ResolvedIsAuthorised` | backend/services/timecard_entries.py:402-432 | A validated and resolved entry carries the session's employee and the identity of an assigned project that all its matches share, and a task id only of that project. |
| `Timecards.ResolvedStaysValid` | backend/services/timecard_entries.py:402-432 | Resolving keeps an entry valid for the mapper's own validation. |
| `Timecards.SentEventIsTheEntrys` | backend/api/v1/timecards.py:131-143 | The Oracle event of a row that was sent reports the session's employee, and the hours and times of the entry it came from; it is missing exactly for a blank employee number, an unusable default start hour, or hours past midnight for want of a stop time. |
| `Timecards.ResolveAll` | backend/api/v1/timecards.py:131-131 | Every entry is resolved, in order, and each row is authorised and valid. |
| `Timecards.PrepareSubmission` | backend/api/v1/timecards.py:52-131 | Exactly the submissions of 1 to 100 entries get through whose request ids agree and which are acceptable under the assignments; then every row sent is authorised and valid; otherwise none is sent. |
| `Timecards.CheckIds` | backend/api/v1/timecards.py:63-93 | The early-exit stage passes exactly when header and body agree, a shared id is valid, belongs to a single entry and is the one it names, and the entries' own ids are valid and distinct. |
| `Catalogue.IndexBuilder.Add` | backend/services/fusion_catalogue.py:95-114 | Adding one mention keeps the three tables those of all mentions so far. |
| `Catalogue.IndexBuilder.DropAmbiguous` | backend/services/fusion_catalogue.py:156-158 | Dropping people with several names leaves exactly the right index. |
| `Catalogue.BuildIndex` | backend/services/fusion_catalogue.py:86-159 | The index holds a person exactly when a non-empty id occurs with at most one name, and lists each mentioning project once, with the entry of its first mention. |
| `Catalogue.EntriesAreChosen` | backend/services/fusion_catalogue.py:107-114 | A list holds an entry exactly when it is the first mention of its project for that person, and no project twice. |
| `Catalogue.ChosenWithinProject` | backend/services/fusion_catalogue.py:120-154 | With distinct projects, a person's role in a project is decided by that project alone: members, then assignments, then manager. |
| `Catalogue.ArrivalOrderIsIrrelevant` | backend/services/fusion_catalogue.py:304-310 | The people indexed and the projects each one gets do not depend on the order in which projects arrive. |
| `Catalogue.ArrivalOrderKeepsEntries` | backend/services/fusion_catalogue.py:304-310 | With distinct projects the whole entries, roles included, do not depend on it either. |
| `Catalogue.CatalogueDb.Save` | backend/services/fusion_catalogue.py:388-427 | Saving replaces index and projects, the last project of an id winning; a failed save changes nothing. |
| `Catalogue.CatalogueDb.FindProjects` | backend/services/fusion_catalogue.py:528-558 | The lookup is its specification on whatever the table holds: unreadable lists, foreign items, and items without an owner included. |
| `Catalogue.SavedIsFound` | backend/services/fusion_catalogue.py:399-558 | A saved list is found whole exactly when every entry belongs to the person, and otherwise not at all. |
| `Catalogue.SelfCheckPasses` | backend/services/fusion_catalogue.py:528-558 | The lookup returns the specified list of every indexed person unchanged, and nothing for anyone else. |
| `Pagination.FetchAll` | backend/services/fusion_catalogue_client.py:76-121 | Against any finite list in pages of 1..limit with truthful flags or totals, or in full pages without any, the loop ends with a prefix, complete exactly when every request it made was answered, and then the whole list. |
| `Pagination.FetchChildren` | backend/services/fusion_catalogue_client.py:124-159 | The same with truthful flags or totals; without any, it returns the first page as complete, which is the whole list exactly when it fits one page. |
| `Sessions.SessionStore.CleanLocal` | backend/core/token_blocklist.py:135-142 | Removes exactly the expired local sessions and revocations. |
| `Sessions.SessionStore.StoreSession` | backend/core/token_blocklist.py:155-181 | Storing is its specification under every way of finding Redis. |
| `Sessions.SessionStore.GetSession` | backend/core/token_blocklist.py:183-215 | So is looking up. |
| `Sessions.SessionStore.RevokeSession` | backend/core/token_blocklist.py:217-242 | So is revoking, which marks the id locally whenever Redis did not confirm. |
| `Sessions.NeverExpired` | backend/core/token_blocklist.py:183-215 | No path ever returns an expired session. |
| `Sessions.StoredIsFound` | backend/core/token_blocklist.py:155-213 | What Redis stored is found there exactly until it expires by its own time or the key's, unless the id is marked as revoked. |
| `Sessions.StoredInMemoryIsFound` | backend/core/token_blocklist.py:179-215 | With the fallback, an unconfirmed session is found in memory until it expires, earlier revocations of it there are lifted, and no other id is affected. |
| `Sessions.LookupFollowsHistory` | backend/core/token_blocklist.py:135-242 | With the memory fallback or without it, after any run of operations and failures, a lookup answers exactly what the history of the id says: nothing while a local mark runs; else what Redis holds and has not marked; else what memory keeps, if the fallback is on. |
| `Sessions.SessionComesBack` | backend/core/token_blocklist.py:144-242 | Without a new store, a session that Redis would show is shown after any run exactly when every revocation missed Redis and the last local mark has run out. |
| `Sessions.RevocationLasts` | backend/core/token_blocklist.py:217-242 | Without the fallback, after a revocation that returned or raised, no lookup gives a session before its deadline, through any operations, failures and recoveries, unless a revocation of the id in between runs out sooner. |
| `Sessions.TokenStaysRevoked` | backend/core/token_blocklist.py:217-259 | When all revocations of an id take their lifetimes from the same token, as the callers do, no lookup shows it again until the last second of the token, through any operations and failures, stores included. |
| `Sessions.ShorterRevocationReopens` | backend/core/token_blocklist.py:144-148 | Two revocations in a row: the session comes back exactly when Redis missed both and the second mark has run out, however long the first was to last. |
| `Sessions.FallbackForgetsRevocation` | backend/core/token_blocklist.py:217-242 | With the fallback, after any run without a new store, a session in memory is shown while Redis is gone exactly if Redis confirmed every revocation in between. |
| `PcmPlayer.Player.Push` | frontend/public/audio/pcm_player_processor.js:15-23 | A push accepts exactly the first samples that fit and appends them to the queue. |
| `PcmPlayer.Player.Flush` | frontend/public/audio/pcm_player_processor.js:24-31 | A flush empties the queue, each sample in it counts as flushed, and the time played is reported. |
| `PcmPlayer.Player.TakeOne` | frontend/public/audio/pcm_player_processor.js:44-48 | Taking a sample gives the oldest one. |
| `PcmPlayer.Player.Process` | frontend/public/audio/pcm_player_processor.js:35-78 | A render quantum puts the oldest samples in order, then silence, on both channels, removes exactly those, reports the time played and whether samples wait when that is due, and reports emptiness. |
| `PcmPlayer.PlayedMs` | frontend/public/audio/pcm_player_processor.js:26-65 | The reported time is within half a millisecond of the samples played at the sample rate, rounded half up. |
| `PcmPlayer.Player.WriteFollowsRead` | frontend/public/audio/pcm_player_processor.js:13-60 | The write position is (read position + available) modulo the size. |
| `PcmPlayer.Player.NothingIsLostOrReordered` | frontend/public/audio/pcm_player_processor.js:13-60 | Accepted is played + available + flushed, and what was played is the accepted samples in order without the flushed ones. |
| `Statuses.TimeRecord.Propagate` | backend/services/otl_client.py:574-601 | The loop that fills statuses in place is the pass of the specification. |
| `Statuses.PropagateAll` | backend/services/otl_client.py:574-601 | A pass over a list of records passes over each of them. |
| `Statuses.TwoPassesAreFinal` | backend/api/v1/timecards.py:200-200 | Two passes, which a listing performs, reach the closed form in which every missing status is filled from its own record or the record's source. |
| `Statuses.ThirdPassIsIdle` | backend/api/v1/timecards.py:200-200 | A third pass changes nothing. |
| `Statuses.EverythingIsFilled` | backend/services/otl_client.py:574-601 | Present statuses are never overwritten; afterwards either every status is present or there never was any. |
| `Statuses.OnePassSuffices` | backend/services/otl_client.py:574-601 | One pass is enough exactly unless, in a record without a status of its own, a blank first event precedes one that has a status. |

## Left out

- Numbers other than integers in result dictionaries, nested values, and the digits and underscores that Python's `int` accepts beyond plain ASCII digits.
- SHA-256, UUIDs and the JSON columns of the databases: digests have a fixed length and are compared for equality, tokens are fresh, a stored result is read back as it was written.
- A SQLite transaction that fails is one without effect; a commit whose confirmation is lost is not modelled.
- Submission.WaitRow: models the poll that ends a wait; earlier polls answer nothing and only remove expired records. The polling interval and the deadline are not modelled.
- Batch.CreateMany: takes the two hash functions as parameters and the canonical text of a payload as given beside the entry. Which of its error messages a refused batch gets is not modelled.
- The concurrent submitter is the interleaving machine of `Submission`, not a method: every turn of a row is one call into the store or one POST.
- Submission.EveryInterleaving: assumes that no record of the store ends while the batch runs and that the batch is shorter than a record's lifetime, that no lease held by others at its start ends while it runs, that request ids differ (the preflight checks it), and that no other client works on these keys.
- Runs.RunKeeps: runs take their operations in the order of their times, although the program reads the clock before it takes the lock or starts the transaction, so that two operations may take effect against the order of their clock readings.
- Idempotency.SqliteBackend.ReadKey: one step at one time, although the program deletes expired rows and selects the row in two statements, each committed by itself.
- Sessions.SessionStore.GetSession: one step, although the program gives way between the local check and the two questions to Redis; the same holds for storing and revoking.
- HTTP retries, Oracle's own behaviour, and deletion of entries: an outcome is a record, a status, or nothing usable.
- Limiter.LocalLimiter.EvictOldest: models the sort of the keys by age as repeated removal of an oldest key; which of several equally old keys goes is open.
- The switch of one limiter between Redis and memory, its reconnect backoff, key hashing, and client address resolution.
- Redis key expiry in the limiter is an event that may happen at any time after the key's lifetime; the server clock is the one the callers use.
- Json.RoundTrip: covers one-field objects with a text or `true`, which is what the chat stream carries; surrogate pairs and other escapes above U+D7FF do not occur in what the printer writes. The reader itself is modelled for every JSON parser.
- UTF-8 decoding of the byte chunks and abort signals; `Trim` knows the ASCII white space only.
- `event:`, `id:` and `retry:` lines are skipped by the reader without a lasting effect, so their values are not modelled.
- Prompts, demo entries and the text of model errors in the chat service.
- Field aliases of an entry are resolved beforehand, for its request ids too; payroll allowlists and currency are a flag that says whether the entry passes them.
- A missing dictionary key and an explicit null are the same value.
- Time zones and daylight saving: times are wall-clock minutes of one date. Undated entries share one day bucket of their own.
- The mapper's attributes and comment text, and the wording of validation errors (their kinds are modelled).
- Limits on days and entries are taken as configured values; reading them from the environment, and running without strict assignments, are left out.
- Reading entries out of an assistant message that a submission may carry instead of a list.
- Catalogue threads, the lock file and the reuse of older details: projects arrive as a list in any order. `fold` is any case folding.
- Project and task fields that the index only copies.
- Building request URLs and parsing pages: a page has items, an optional flag and an optional total.
- The token blocklist's older `add` and `is_revoked` calls, the Redis address change, and its reconnect backoff.
- A stored session that cannot be parsed.
- Two processes sharing one Redis in `Sessions`: the class is one process, and Redis changes only through it.
- PcmPlayer.Player.Process: samples and times are real numbers, not floating-point ones.
- Reading a status out of its nested list (`backend/services/otl_client.py:555-571`): an event has its own status as a text, empty when there is none.
- React components, speech, authentication, cookies, health routes and deployment.
