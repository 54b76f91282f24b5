# A verified model of the IMAP task scheduler and its client

The library keeps many IMAP commands in flight over one connection. Its scheduler tags each
task's command, holds the task in a *waiting* queue until the wire layer says the command went
out, then in an *active* queue until it completes, and meanwhile offers every response of the
server to the active tasks in turn. A resolver drives the scheduler for one task, and a client
builds retrieval, sorting, moving, IDLE and sign-in on top of it.

The model follows that structure, one module per component:

| module | what it models |
|---|---|
| `Imap`, `Base` | protocol values and stock datatypes |
| `Tasks`, `Sasl`, `Folds`, `Answers` | every kind of task: what it takes, what it keeps, what it answers; what a server reads in a SASL line; what a task has collected after any sequence of responses; and its answer told from these responses and the status alone |
| `Scheduling` | one event of the scheduler as a step on values; the contract of the wire layer |
| `TaskMaps`, `Schedulers` | the scheduler as objects updated in place: queues of boxed tasks, `trickle_down`, the loop of `progress` |
| `Feed` | the results the wire layer hands to `progress`, and which malformed messages are skipped |
| `Ledger` | a reference machine that never folds a response into a task: it notes which response fell to whom |
| `Runs`, `RunTheorems`, `QueueOrder` | whole runs, any length, any interleaving; the scheduler refines the reference machine |
| `Resolving`, `Resolvers`, `Driving` | handles, tokens, the resolver; and the bridge from the objects back to runs |
| `Idling`, `Clients`, `Alternation`, `Sessions` | IDLE next to the scheduler; sessions that alternate resolves and IDLEs, which are runs again; both on the objects |
| `Retrieval`, `Ordering`, `MessageOrder`, `Fallback` | re-keying by UID, chunked retrieval, the client-side sort, and what its order means for the messages |
| `Moving` | COPY, STORE, EXPUNGE in place of MOVE |
| `Capabilities`, `SigningIn` | which capability list the client keeps, and the calls that fetch it over a resolver |
| `Liveness` | what happens when the server does its part: resolves return, IDLEs end, capabilities are installed |

Code that updates state in place is a class or a method with loops, proved against a function
on values (`Step`, `Fold`, `Routed`, `Pick`, ...); the theorems are about those functions.

## The contract of the wire layer

The wire layer (the `imap-next` client) is not part of this model. What the scheduler relies on is
written down as `Scheduling.Legal` and `Scheduling.Advance`, and assumed:

- handles are new for every command;
- a command is started (sent) once, after it was enqueued; an IDLE or AUTHENTICATE likewise;
- a challenge or a rejection names a command in progress, and a rejection carries a tagged
  status. That `CommandRejected` names a command in progress is what the comment at
  `src/tasks/mod.rs:173` relies on;
- after a challenge the wire layer takes SASL data for that command, until it got some or the command
  ended, and hands data back at any other time (`ClientNext.SetAuthenticateData`);
- a tagged status ends the command that carries its tag. It may carry any tag: one that is
  unknown, or of a command not yet sent, is legal input and an error of the scheduler.

Nothing else is assumed: any response may arrive at any time, and flow errors in between.

Input arrives while the client waits. A stream is the sequence of batches that are read from it
(`arrivals`), any batches at all; each is read when nothing is pending, after the commands in question were
enqueued (`Resolver.Drive`, `ClientNext.Await`). A batch the contract rules out is not taken: the stream is at
its end there.

## Where the code does not do what one may expect

Each of these is proved as an if-and-only-if, so the condition is exact, and has a lemma that
shows the failure on an input.

- IDLE may return `Ok` with its command still queued: the loop compares the tag only, and a
  completion with that tag may arrive before the command was sent
  (`Idling.EarlyTagLeavesIdleQueued`). The wire layer is clean again if and only if the IDLE had
  been sent by then (`Idling.CleanIffSent`).
- The client-side sort ends with a comparison by date, but the request is not extended for it.
  The date breaks ties if and only if the caller asks for the envelope or sorts by a key that
  lives in it (`Fallback.DateTieBreakNeedsEnvelope`, `Fallback.SizeSortMissesDates`).
- COPY, STORE, EXPUNGE leaves the source as MOVE does if and only if no message outside the set was
  already \Deleted (`Moving.FallbackIsMoveIff`, `Moving.FallbackDiffersFromMove`). In every case it is MOVE followed by EXPUNGE.
- Re-keying by UID keeps every message that carries a UID if and only if no two carry the same one
  (`Retrieval.RekeyLosslessIff`, `Retrieval.SharedUidLosesMessage`).
- An IDLE bypasses both queues. Driving the scheduler while one is queued or in progress, as after an
  IDLE loop that returned an error or was dropped, fails an `unwrap` if and only if an event reaches
  it that starts the IDLE, ends it by its handle, or challenges it (`Idling.PanicsIffIdleNamed`): for
  instance a rejection that arrives after the loop was left (`Idling.IdlePanicsEmptyScheduler`). The
  ordinary completion of an abandoned IDLE does not panic, but ends whatever resolve is in progress
  with the error for an unexpected tag (`Idling.AbandonedIdleEndsResolve`). A feed leaves the scheduler
  undisturbed if and only if it neither names nor completes an IDLE (`Idling.DisturbedIffIdleTouched`).
- The SASL lines are not escaped. In PLAIN and XOAUTH2 a separator in a field makes the line
  malformed (`Sasl.PlainReading`, `Sasl.XOAuth2Reading`). In OAUTHBEARER the user is read as a saslname, so
  that the user `a=2Cb` is taken for another one (`Sasl.EscapeInUserNamesAnother`) and a user with a comma
  is malformed (`Sasl.CommaInUserIsMalformed`). A server reads back what the client was given if and
  only if the user is not empty and holds no SOH, NUL, comma or equals sign, and host and token are
  text (`Sasl.OAuthBearerReadsBackIff`).

## Model

| member | source | states |
|---|---|---|
| RunTheorems.RunRefinesLoneTasks | src/tasks/mod.rs:136-303 | For every legal run with any number of pipelined tasks: the i-th completion is the task that was enqueued under that handle, folded over exactly the responses that fell to it and finished with its own status, and for a task as its constructor builds it that is the right answer (`Answers.IsAnswer`); every active task is its lone machine so far |
| RunTheorems.HandlesArePartitioned | src/tasks/mod.rs:108-215 | In every reachable state waiting, active and finished handles are disjoint, without repetition, and together the enqueued ones; so no handle finishes twice |
| RunTheorems.QueuesAreBooked | src/tasks/mod.rs:162-296 | The handles in both queues and in the log, in order, are those of the reference machine: removals keep the order of the rest |
| QueueOrder.QueuesKeepOrder | src/tasks/mod.rs:162-296 | Told from the actions alone: waiting tasks are the enqueued ones not yet started, in that order; active tasks the started ones not yet finished, in the order they were started |
| RunTheorems.BookKnowsEnqueued | src/tasks/mod.rs:108-129 | A handle stays paired with the tag and the task it was enqueued with, over any run, in both directions |
| RunTheorems.NeverPanics | src/tasks/mod.rs:162-296 | In every reachable state no legal event reaches a failing `unwrap` or an `unreachable!`; SASL data is handed over only for the command in progress that was just challenged, where the wire layer takes it |
| RunTheorems.ResponsesAreConserved | src/tasks/mod.rs:217-263 | As multisets, the responses that arrived, as they arrived, are the ones surfaced as unsolicited plus the ones in the inboxes: each is consumed by one task or surfaced once |
| RunTheorems.EarliestTakerWins | src/tasks/mod.rs:448-466 | A response changes only the earliest-activated task that wants it, judged by the tasks as enqueued; exactly when none does, the response that arrived is surfaced |
| RunTheorems.OutputsHaveTheirType | src/tasks/mod.rs:400-412 | Every output in the log of a run has the output type of the task enqueued under its handle, so the downcast holds |
| RunTheorems.CredentialsGoOutAtMostOnce | src/tasks/tasks/authenticate.rs:71-120 | Over a whole run, the answers to the challenges of one AUTHENTICATE: the line first and only if it was not the initial response; every other answer is a cancel, or an empty line for XOAUTH2 |
| RunTheorems.LineTravelsAtMostOnce | src/tasks/tasks/authenticate.rs:71-120 | Counted over command and all answers of a run, the SASL line travels at most once |
| RunTheorems.CredentialsFollowScript | src/tasks/mod.rs:184-203 | The answers given for a handle are the script of its task, as long as the challenges it has heard |
| RunTheorems.ChallengesAreNeverUnsolicited | src/tasks/mod.rs:184-203 | A challenge to an AUTHENTICATE in progress is always answered and never surfaced |
| RunTheorems.RunsAreGood | src/tasks/mod.rs:136-303 | The invariant of runs: scheduler and wire layer agree, the reference machine is balanced, the queues mirror it, the log holds its answers, the replies follow its scripts |
| Runs.EventRefines | src/tasks/mod.rs:162-296 | Each of the thirteen events moves the scheduler as it moves the reference machine, with the same outcome and SASL answer |
| Runs.TrickleFollows | src/tasks/mod.rs:448-466 | Trickling down is depositing with the earliest taker of the reference machine |
| Runs.TaggedFollows | src/tasks/mod.rs:264-274 | Removing by tag is closing the one handle the reference machine lists under that tag |
| Runs.ReplyFollowsScript | src/tasks/tasks/authenticate.rs:94-120 | An AUTHENTICATE that has heard n challenges answers the next one with entry n of its script, and no other task answers |
| Ledger.CarryKeepsBalance | src/tasks/mod.rs:162-296 | Every effect of an event keeps the reference machine partitioned, tabled and paired |
| Scheduling.LegalEventNeverPanics | src/tasks/mod.rs:162-296 | When waiting tasks are the queued commands and active tasks the commands in progress, a legal event fails no `unwrap`, that of the SASL data included, and keeps it so |
| Scheduling.EnqueueKeepsSynced | src/tasks/mod.rs:108-129 | Enqueueing under a new handle and tag keeps queues and wire layer in agreement, handles and tags unique |
| Scheduling.TagAndHandleFindSameEntry | src/tasks/mod.rs:338-358 | Removal by tag and removal by handle take out the same entry |
| Scheduling.TagIsUnknownIff | src/tasks/mod.rs:264-274 | A tagged status is an error if and only if no active task carries its tag, and then both queues stay as they were; else exactly one active task is taken out and reported with that status |
| Scheduling.HandedOverUnaltered | src/tasks/mod.rs:158-263 | What an event surfaces is the response it brought, unaltered; a greeting is handed over as it came, and at no other event |
| Scheduling.Find | src/tasks/mod.rs:342-345 | The first position of a handle, or the end if it is absent |
| Scheduling.FindTag | src/tasks/mod.rs:353-356 | The first position of a tag, or the end if it is absent |
| Scheduling.FirstTaker | src/tasks/mod.rs:448-466 | The first task that wants a response, or the end if none does |
| TaskMaps.TaskMap.PushBack | src/tasks/mod.rs:324-326 | The queue grows by one entry at its end |
| TaskMaps.TaskMap.GetTaskByHandle | src/tasks/mod.rs:328-332 | Finds the box of the first entry with a handle, and only if there is one |
| TaskMaps.TaskMap.RemoveByHandle | src/tasks/mod.rs:338-347 | Takes out exactly the first entry with a handle, keeping the order of the rest; changes nothing if absent |
| TaskMaps.TaskMap.RemoveByTag | src/tasks/mod.rs:349-358 | The same by tag |
| TaskMaps.TaskMap.TrickleDown | src/tasks/mod.rs:448-466 | The in-place loop equals "find the first taker, update only it", and hands the response back unaltered exactly when nobody took it |
| Tasks.TaskBox.ProcessData | src/tasks/mod.rs:26-47 | Task by task, the code for data takes exactly what the task wants, updates as specified, and hands anything else back equal with its own state unchanged |
| Tasks.TaskBox.ProcessUntagged | src/tasks/tasks/select.rs:142-173 | The same for untagged statuses: CAPABILITY takes a capability code of any status, SELECT five codes of an OK |
| Tasks.TaskBox.ProcessChallenge | src/tasks/tasks/authenticate.rs:94-120 | Answers a challenge with the line if it is still there and was no initial response, else with a cancel, or an empty line for XOAUTH2; spends the line; any other task hands the challenge back |
| Tasks.TaskBox.ProcessBye | src/tasks/tasks/logout.rs:27-30 | Only LOGOUT takes a BYE, and remembers it |
| Tasks.TaskBox.ProcessContinuation | src/tasks/mod.rs:58-65 | No task takes a plain continuation |
| Tasks.DeclinedChallengeChangesNothing | src/tasks/mod.rs:67-74 | A task has no answer to a challenge exactly when it does not want it, and is then unchanged |
| Sasl.PlainReading | src/tasks/tasks/authenticate.rs:33-42 | What a server of section 2 of RFC 4616 reads, for every input: login and password if neither is empty or holds a NUL, and else nothing, never somebody else |
| Sasl.OAuthBearerReading | src/tasks/tasks/authenticate.rs:44-54 | What that server reads, for every input: the user decoded as a saslname (section 4 of RFC 5801), host, port and token as they are; or nothing |
| Sasl.OAuthBearerReadsBackIff | src/tasks/tasks/authenticate.rs:44-54 | A server of section 3.1 of RFC 7628 reads back user, host, port and token if and only if the user is not empty and holds no SOH, NUL, comma or equals sign, and host and token are text |
| Sasl.EscapeInUserNamesAnother | src/tasks/tasks/authenticate.rs:44-46 | The user a=2Cb is read as the user a,b |
| Sasl.CommaInUserIsMalformed | src/tasks/tasks/authenticate.rs:44-46 | With a comma in the user nothing is read |
| Sasl.DecodesToItselfIff | src/tasks/tasks/authenticate.rs:44-46 | A saslname means itself if and only if it holds no NUL, comma or equals sign |
| Sasl.KeysAre | src/tasks/tasks/authenticate.rs:44-58 | The keys in the lines, byte by byte |
| Sasl.XOAuth2Reading | src/tasks/tasks/authenticate.rs:56-65 | What a server that splits the XOAUTH2 line at SOH reads, for every input: user and token if neither holds a SOH, and else nothing |
| Sasl.ReadsBackIff | src/tasks/tasks/authenticate.rs:33-66 | Fields joined by a separator are read back if and only if none holds the separator |
| Sasl.DecimalReadsBack | src/tasks/tasks/authenticate.rs:44-47 | The decimal text of a port reads back as that port |
| Folds.FoldKeepsKind | src/tasks/mod.rs:32-86 | Nothing a task collects changes what it wants next or the type of its output |
| Folds.FoldSkipsDeclined | src/tasks/mod.rs:26-31 | A task offered everything ends as if offered only what it wants |
| Folds.FinishHasOutputType | src/tasks/mod.rs:528-531 | After any responses, the erased output has the task's associated type |
| Answers.AnswersAreRight | src/tasks/tasks/fetch.rs:95-106 | Every kind of task as its constructor builds it, every list of responses, every status: on NO and BAD the error is that status; on OK the result told from the responses: the union of items per message (FETCH), the latest report (STORE per message, SEARCH, SORT, THREAD, ID, ENABLE, EXISTS, each field of SELECT), all rows in order (LIST, EXPUNGE), the code (APPENDUID), the precedence of lists (CAPABILITY, LOGIN, AUTHENTICATE), the BYE (LOGOUT), and the missing-data errors |
| Answers.RefusalIsTheError | src/tasks/tasks/mod.rs:28-37 | Whatever a task collected, a NO or BAD completion is an error that carries that status, and an OK never is |
| Answers.TakenIffConcerned | src/tasks/mod.rs:26-31 | A task takes exactly the responses its answer is told from, and the challenges of its SASL exchange |
| Answers.LatestIsLast | src/tasks/tasks/select.rs:124-173 | The latest report is that of the last response that has one |
| Answers.TypesTellOutputsApart | src/tasks/mod.rs:400-412 | Outputs of one type are of one kind, FETCH and STORE apart, so a downcast that succeeds gives what it says |
| Answers.CommandsAre | src/tasks/mod.rs:108-124 | Each task issues its own command with its own fields: LOGIN, SELECT or EXAMINE, AUTHENTICATE with or without initial response, and the rest as given |
| Answers.AuthenticatesAre | src/tasks/tasks/authenticate.rs:33-66 | The three constructors set their mechanism and the initial response as asked |
| Folds.FetchCollectsUnion | src/tasks/tasks/fetch.rs:81-93 | After any responses FETCH knows exactly the messages mentioned, each with the union of its items |
| Folds.FetchMergeConfluent | src/tasks/tasks/fetch.rs:81-93 | Any reordering or repetition of the responses gives the same map |
| Folds.FetchedSetsNonEmpty | src/tasks/tasks/fetch.rs:95-106 | Every list given to `Vec1::unvalidated` is non-empty |
| Folds.SelectKeepsLatest | src/tasks/tasks/select.rs:124-181 | Each of the eight fields is the latest report of that field |
| Folds.CapabilityKeepsLatest | src/tasks/tasks/capability.rs:30-51 | The list kept is the latest in data or in any untagged status |
| Folds.LoginKeepsLatest | src/tasks/tasks/login.rs:40-47 | The list kept is the latest in data |
| Folds.ExistsKeepsLatest | src/tasks/tasks/append.rs:74-86 | The count kept is the latest EXISTS |
| Folds.LogoutNeedsBye | src/tasks/tasks/logout.rs:27-44 | LOGOUT succeeds if and only if the server said OK and a BYE reached the task |
| Folds.AuthenticateSpendsLineOnce | src/tasks/tasks/authenticate.rs:85-120 | Only the first challenge can spend the line, and none does after an initial response; the capabilities kept are the latest in data |
| Feed.LooksLikeFetchIff | src/tasks/mod.rs:143-150 | Splitting on spaces and comparing the third field is: two space-free words, then FETCH in any case, then a space or the end |
| Feed.SkippedIffFetch | src/tasks/mod.rs:138-156 | A flow error changes nothing; it is skipped if and only if it is a malformed message that reads as a FETCH, and otherwise returned |
| Feed.ThirdFieldDecides | src/tasks/mod.rs:143-150 | With two fields before it, the third field alone decides: the five letters of FETCH, each in either case |
| Feed.QueueKeepsFeedLegal | src/tasks/mod.rs:124-124 | Enqueueing a command in between never makes legal pending results illegal |
| Feed.TurnKeepsSynced | src/tasks/mod.rs:136-303 | One turn of the loop, flow errors included, keeps scheduler and wire layer in agreement and does not panic |
| Schedulers.Scheduler.EnqueueTask | src/tasks/mod.rs:108-129 | The new handle and tag are fresh, the task joins the end of the waiting queue, its command is handed over under that tag |
| Schedulers.ClientNext.EnqueueInput | src/tasks/mod.rs:131-133 | Input joins the end of what is pending and changes nothing else |
| Schedulers.ClientNext.Receive | src/tasks/mod.rs:131-133 | Input is taken if and only if it is legal after the commands enqueued so far |
| Schedulers.ClientNext.Await | src/stream.rs:27-69 | Over the wire layer alone: returns the next result, reading on while there is none, in order and without loss; none only at the end of the stream |
| Schedulers.Scheduler.EnqueueInput | src/tasks/mod.rs:131-133 | Input changes neither the queues nor the agreement with the wire layer |
| Schedulers.Scheduler.StartTask | src/tasks/mod.rs:162-166 | Moves the entry of the handle from waiting to the end of active |
| Schedulers.Scheduler.FinishTask | src/tasks/mod.rs:167-179 | Takes the entry of the handle out of active and finishes its task |
| Schedulers.Scheduler.FinishTagged | src/tasks/mod.rs:264-274 | Takes out the entry with the tag and finishes it; an unknown tag is an error and changes nothing |
| Schedulers.Scheduler.AnswerChallenge | src/tasks/mod.rs:184-203 | Updates only the named task, passes its answer on, or surfaces the challenge; with the wire layer waiting for that command its data is accepted, so the `unwrap` holds |
| Schedulers.Scheduler.Route | src/tasks/mod.rs:217-263 | Trickles a response down and surfaces what comes back |
| Schedulers.Scheduler.Dispatch | src/tasks/mod.rs:158-300 | Each event leaves the objects where the step on values leads, with its outcome and answer; what it surfaces is the response that arrived, unaltered |
| Schedulers.Scheduler.Progress | src/tasks/mod.rs:136-303 | Ends for every pending input; consumes a prefix of it; all results but the last lead back to the loop; the last decides the event or error returned; queues, answers and wire layer are those of that prefix |
| Resolvers.TaskHandle.Resolve | src/tasks/mod.rs:400-412 | Returns the output and spends the token if and only if the handles match; a foreign handle leaves the token intact; the downcast holds |
| Resolvers.TokenResolvesOnce | src/tasks/mod.rs:400-412 | Whatever handles are tried, in any order and number, the output comes out exactly at the first matching try (on the sequence of results that `TryAll` is proved to return) |
| Resolvers.TryAll | src/tasks/mod.rs:400-412 | Resolving one token with any handles, one after the other, returns that sequence, and leaves the token spent if and only if its own handle was among them |
| Resolvers.TokenIsSpentOnce | src/tasks/mod.rs:400-412 | On the token itself: the output is returned exactly at the first try with its own handle, and `None` at every other |
| Resolvers.React | src/tasks/resolver.rs:62-80 | Only the output of the own task and a leftover BYE end the loop |
| Resolvers.Resolver.Resolve | src/tasks/resolver.rs:24-31 | Enqueues the task behind whatever earlier resolves left, and ties the handle to its output type |
| Resolvers.Resolver.Round | src/tasks/resolver.rs:61-81 | One turn of the loop either ends the resolve or consumes input harmlessly |
| Resolvers.Resolver.Next | src/tasks/resolver.rs:60-83 | Never returns another task's output, whatever is in the queues; ends with the own output, with the first error, or with the first leftover BYE, and with nothing else |
| Resolvers.Resolver.Drive | src/stream.rs:27-69 | Over a resolve: reads batch after batch while it waits, consumes them in order, and ends as `Next` does over all of them; it is still waiting only when nothing is left to read that may arrive |
| Driving.FeedContinuesRun | src/tasks/mod.rs:136-303 | What a feed does to scheduler, wire layer and log is a legal continuation of the run before it; flow errors leave no trace |
| Driving.ResolveAnswersLoneTask | src/tasks/resolver.rs:60-83 | A successful resolve returns the lone answer of its own task, whatever ran before and is still in flight, and it is the right answer |
| Driving.ResolveTask | src/client/tokio.rs:327-329 | Enqueueing a task and driving the objects over whatever then arrives goes along a legal run, whatever run led there (an IDLE that ended well keeps the objects on a run, see `IdleBetweenResolves`), and an output returned is the lone answer of the task given, with its type |
| Driving.NewIsReached | src/tasks/mod.rs:98-105 | A new scheduler is where the empty run leads |
| Resolving.CompletionLeaves | src/tasks/mod.rs:338-358 | A task reported finished is in no queue any more |
| Resolving.FeedShrinks | src/tasks/mod.rs:136-303 | No result of the wire layer brings a task into the queues |
| Resolving.SuccessLeavesQueues | src/tasks/resolver.rs:60-83 | A successful resolve takes its task out, brings nothing in, and its output has the task's type |
| Resolving.ByeEndsResolveIff | src/tasks/resolver.rs:74-79 | A BYE ends a resolve, with that BYE as error, if and only if no LOGOUT is active |
| Resolving.WhatEndsResolve | src/tasks/resolver.rs:60-83 | A resolve goes on after everything but an error, a leftover BYE and the completion of its own task |
| Resolving.FeedKeepsSynced | src/tasks/mod.rs:136-303 | No result of a legal feed panics, and agreement with the wire layer survives it |
| Idling.CleanIffSent | src/client/tokio.rs:1194-1271 | After an `Ok` exit of an IDLE that was alone on the wire, no command is left if and only if it had been sent; else it is still queued |
| Idling.RejectionComesAfterSending | src/client/tokio.rs:1215-1218 | The exit by rejection always satisfies that condition |
| Idling.DecisionsAre | src/client/tokio.rs:1194-1271 | `idle` asks for DONE exactly at a timeout or a data response, ends exactly at a rejection or its own completion, and fails exactly at a flow error; `idle_done` ends exactly at its own completion |
| Idling.IdleJoins | src/client/tokio.rs:1178-1191 | An IDLE the client enqueues stands beside the commands of the scheduler, before it is sent and after |
| Idling.EarlyTagLeavesIdleQueued | src/client/tokio.rs:1227-1235 | A legal input on which the loop exits with the IDLE still queued |
| Idling.IdlePanicsScheduler | src/tasks/mod.rs:162-296 | With any number of IDLEs beside the commands of the scheduler, queued or in progress, an event fails an `unwrap` if and only if it starts one of them, ends one by its handle, or challenges one; every other event keeps scheduler and wire layer in agreement |
| Idling.PanicsIffIdleNamed | src/tasks/mod.rs:136-303 | Over a whole feed: driving the scheduler beside IDLEs panics somewhere if and only if some event starts one, ends one by its handle, or challenges one |
| Idling.DisturbedIffIdleTouched | src/tasks/mod.rs:136-303 | Over a whole feed: beside IDLEs the scheduler neither panics nor reports one of their tags if and only if no event names or completes one |
| Idling.AbandonedIdleEndsResolve | src/tasks/resolver.rs:60-83 | The completion of an abandoned IDLE ends whatever resolve is in progress, with that tag as the error |
| Idling.IdlePanicsEmptyScheduler | src/tasks/mod.rs:276-296 | Inputs for both phases, on empty queues: the IDLE is sent, and the IDLE that was sent is rejected |
| Idling.IdleSwallowsOtherTasks | src/client/tokio.rs:1236-1238 | An event that an IDLE loop takes for itself leaves the scheduler out of step if and only if it starts, ends by handle, or completes by tag one of the tasks of the scheduler |
| Alternation.SessionsStayQuiet | src/client/tokio.rs:1178-1271 | In any alternation of resolves and IDLEs that each ended `Ok`, the IDLEs after they were sent, both queues and the wire are empty in between, and in agreement |
| Alternation.OneTaskAtATime | src/tasks/resolver.rs:10-31 | During a resolve after such a session, whether it succeeds, fails, waits or is abandoned, the queues never hold another task, and nothing panics |
| Alternation.SessionsAreRuns | src/client/tokio.rs:1178-1271 | Every such session is a legal run, an IDLE read as a task that wants no response, with the same queues and wire layer: all theorems about runs hold of sessions |
| Alternation.LaterResolvesAreRuns | src/client/tokio.rs:1178-1271 | A later resolve, at any point and however it goes on, continues that run, and the partition into waiting, active and finished handles holds all the while |
| Alternation.LaterResolveIsLone | src/tasks/resolver.rs:60-83 | The output of any later resolve is the lone answer of its own task, with IDLEs in between or not |
| Alternation.SessionsFinishEverything | src/client/tokio.rs:1178-1271 | Between two operations nothing is waiting or active, and exactly the operations of the session are finished, each once |
| Sessions.IdleBetweenResolves | src/client/tokio.rs:1178-1271 | On the objects: an IDLE that is enqueued, driven by `idle` over whatever then arrives, and ended by `idle_done` if need be, leaves the queues alone; ended `Ok`, the scheduler agrees with the wire layer again if and only if the IDLE was sent, and then the objects are on a run again; in any case nothing else is left on the wire |
| Sessions.RunIdle | src/client/tokio.rs:1194-1271 | `idle` and `idle_done` on one stream: the input is consumed in order over both; `Ok` only at an end of the IDLE, an error only at a flow error, and otherwise only the end of the stream |
| Sessions.ResolveBetweenIdles | src/client/tokio.rs:327-329 | On the objects: a resolve that starts with empty queues and returns an output leaves queues and wire empty and in agreement; it keeps the objects on a run, and the output is the lone answer of the task |
| Clients.Client.EnqueueIdle | src/client/tokio.rs:1178-1191 | Hands over an IDLE under a fresh tag; no queue of the scheduler is touched |
| Clients.Client.Idle | src/client/tokio.rs:1194-1241 | Returns `Ok` at the first rejection or own completion, an error at the first flow error, and has asked for DONE once for every timeout and every data response it saw |
| Clients.Client.IdleDone | src/client/tokio.rs:1244-1271 | Asks for DONE once and returns `Ok` at the first own completion only |
| Retrieval.Rekey | src/client/tokio.rs:923-945 | The keys are the UIDs carried, and each key leads to a message that carries it |
| Retrieval.RekeyLosslessIff | src/client/tokio.rs:923-945 | As many keys as messages with a UID if and only if UIDs are distinct; then each message is under its own UID |
| Retrieval.KeysAreUids | src/client/tokio.rs:926-938 | Each key is the number in the first UID item of the items found under it, and each message with a UID item has its number among the keys |
| Retrieval.SharedUidLosesMessage | src/client/tokio.rs:935-938 | Two messages with one UID end under one key |
| Retrieval.ChunksCover | src/client/tokio.rs:1008-1013 | No chunk is empty or longer than the limit, all but the last are full, and together they are the ids |
| Retrieval.FetchChunks | src/client/tokio.rs:1011-1016 | The merged answers are the server's contents restricted to the ids, for every chunk size; the first error is returned |
| Retrieval.SortPath | src/client/tokio.rs:1005-1020 | Chunked retrieval is plain retrieval: the items of the server's ids in their order, independently of the chunk size |
| Retrieval.PickIsFirstOccurrenceOrder | src/client/tokio.rs:1018-1018 | What is picked: exactly the ids that have items, once each, at their first occurrence |
| Retrieval.RekeyedAnswerIsRestriction | src/client/tokio.rs:1011-1016 | In UID mode, re-keying the answer to a chunk of UIDs gives the mailbox by UID restricted to the chunk |
| Retrieval.RekeyAnswers | src/client/tokio.rs:921-945 | Re-keying the answer to each chunk of UIDs gives the mailbox by UID restricted to the chunk, and leaves errors alone |
| Retrieval.UidSortPath | src/client/tokio.rs:1005-1020 | In UID mode, end to end: chunks are answered by sequence number, re-keyed and merged, and the result is the items of the server's UIDs in their order, for every chunk size |
| Ordering.CompareIsTotalPreorder | src/client/tokio.rs:1057-1071 | For every criteria list: comparing the other way round gives the reverse, comparisons chain, hence reflexive, total and transitive |
| Ordering.CmpKeyLaws | src/client/tokio.rs:1274-1363 | The same laws for a single key, absent keys included |
| MessageOrder.OrderIsPrecedence | src/client/tokio.rs:1057-1071 | For every criteria list: one message precedes another if the first criterion on which they differ puts it first, reversed or not, or if they tie on all and its date is earlier |
| MessageOrder.KeyOrder | src/client/tokio.rs:1274-1363 | By one key: smaller sizes and earlier arrivals first; a missing date or subject first; a proper prefix first; else the first differing byte decides; addresses never |
| MessageOrder.NumbersAscend | src/client/tokio.rs:1281-1337 | Sorted by size or arrival alone the numbers ascend, and in reverse they descend |
| Ordering.StableSortIsCorrect | src/client/tokio.rs:1057-1071 | The result is a permutation, sorted by the comparison, equal messages in their old order |
| Ordering.StableSortIsUnique | src/client/tokio.rs:1057-1071 | No other list satisfies that contract, so any stable sort returns this one |
| Fallback.ExtendRequest | src/client/tokio.rs:994-1046 | The caller's list stays a prefix, nothing is appended twice or needlessly, and the item of every criterion is there |
| Fallback.NeededAre | src/client/tokio.rs:1028-1041 | Date, subject and the three address keys ask for the envelope, arrival for the internal date, size for the size, and nothing else for anything |
| Fallback.RequestsAreBounded | src/client/tokio.rs:84-84 | No request names more than 255 messages, and only the last one fewer |
| Fallback.CompareIsMessageOrder | src/client/tokio.rs:1274-1363 | Comparing what the server returned is comparing the messages, criterion by criterion; by date at the end exactly if the envelope was requested |
| Fallback.DateTieBreakIff | src/client/tokio.rs:1070-1070 | The date breaks ties if and only if the envelope is in the request |
| Fallback.DateTieBreakNeedsEnvelope | src/client/tokio.rs:1028-1070 | The same told from the caller's list and criteria |
| Fallback.SizeSortMissesDates | src/client/tokio.rs:1028-1070 | Sorted by size, two messages of different dates compare equal, because no envelope was requested |
| Fallback.IntoValues | src/client/tokio.rs:1055-1055 | The values of the map, one per key, in some order |
| Fallback.FallbackPath | src/client/tokio.rs:1021-1074 | Returns the items of every found id that has some, once each, stably sorted by the comparison; the first error is returned |
| Fallback.ListSorted | src/client/tokio.rs:987-1074 | From request to result: every found message the server holds is listed once, and none comes after one it precedes: by the first criterion on which the two differ, and by date at the end exactly if the caller asks for the envelope or sorts by a key read from it |
| Moving.FallbackIsMoveIff | src/client/tokio.rs:1154-1157 | Same source contents as MOVE if and only if no message outside the set was \Deleted before |
| Moving.FallbackIsMoveThenExpunge | src/client/tokio.rs:1154-1157 | In every case the same as MOVE followed by EXPUNGE |
| Moving.FallbackDiffersFromMove | src/client/tokio.rs:1154-1157 | With one message to be moved and another \Deleted before, MOVE keeps the other and the fallback expunges it |
| Moving.CopiesAre | src/client/tokio.rs:1154-1154 | The copies are one for each chosen message, in mailbox order, with its content and its flag |
| Moving.DropKeeps | src/client/tokio.rs:1157-1157 | What is left are the messages at all other positions, unchanged and in their order |
| Moving.MarksAre | src/client/tokio.rs:1155-1156 | Marking sets \Deleted on the chosen messages and changes nothing else; names are UIDs, or positions from one |
| Moving.MoveOrFallback | src/client/tokio.rs:1144-1160 | On success the chosen messages are copied and gone; at every exit the chosen messages that left the source are, as a multiset of stored messages, among what arrived; without MOVE the source is untouched unless all copies exist |
| Capabilities.ClientState.RefreshCapabilities | src/client/tokio.rs:753-757 | Installs the latest untagged report, else the one in the completion; a failure leaves the list as it was |
| Capabilities.ClientState.SignIn | src/client/tokio.rs:760-796 | Installs the report in the completion, else the latest in data, else what a refresh reports; a failure leaves the list as it was |
| Capabilities.ClientState.Serve | src/client/tokio.rs:753-796 | After any sequence of calls, failed or not, the list is the current one |
| SigningIn.RefreshOver | src/client/tokio.rs:753-757 | Over a resolver: the list kept is decided by what that CAPABILITY task, under its new handle, heard in the run, and its status |
| SigningIn.SignInOver | src/client/tokio.rs:760-796 | Over a resolver: LOGIN or AUTHENTICATE, then a CAPABILITY if and only if neither completion nor data named the capabilities; the list kept is decided by what those tasks, each under its new handle, heard in the run |
| SigningIn.Ask | src/client/tokio.rs:327-329 | A resolve of the client tells what its task heard: output, inbox and status of a handle that was not known before |
| Liveness.ExchangeIsAnswered | src/tasks/resolver.rs:60-83 | On a quiet connection, for every task, every list of data and every status: once the command is sent, the data arrive and it completes, the resolve returns the task folded over exactly these data and finished with that status |
| Liveness.ResolveReturns | src/client/tokio.rs:327-329 | The same on the objects, which are left quiet; for a task as its constructor builds it, the answer is the error with the status on NO and BAD, and on OK the result told from the data |
| Liveness.IdleExchangeEnds | src/client/tokio.rs:1194-1271 | An IDLE that is sent and then completed ends `Ok`, after it was sent |
| Liveness.IdleEnds | src/client/tokio.rs:1178-1271 | The same on the objects, whatever polls time out: they are left quiet, in agreement and on a run |
| Liveness.SignInInstalls | src/client/tokio.rs:760-796 | A sign-in whose completion names the capabilities succeeds and installs them |
| Liveness.RefreshInstalls | src/client/tokio.rs:753-757 | A CAPABILITY answered by data and completed succeeds and installs them |
| Capabilities.CurrentIsLatestReport | src/client/tokio.rs:753-796 | The current list is the report of the latest call that succeeded |
| Capabilities.FailuresLeaveCurrent | src/client/tokio.rs:753-796 | If no call succeeded it is the initial one |
| Capabilities.RefreshOutcome | src/tasks/tasks/capability.rs:30-69 | What the CAPABILITY task answers, told from the responses it heard: precedence and failure |
| Capabilities.SignInOutcome | src/tasks/tasks/authenticate.rs:85-135 | The same for LOGIN and AUTHENTICATE |

Steps on the way to these results are lemmas of their own and not listed, such as the two halves of
`RunRefinesLoneTasks` (`CompletionIsLoneAnswer`, `ActiveIsLoneTask`).

## Left out

- The wire layer, TCP, TLS, STARTTLS, the byte stream and timeouts: they enter as pending results
  (`ClientNext.feed`), as the batches read from a stream (`arrivals`), and as a list of polls that time out
  (`ticks` of `Idle`). Output is not modelled, and neither are write errors: a stream at its end is a
  `NeedsIo` result.
- Integer widths: numbers are never computed with in the modelled code, so sequence numbers, UIDs
  and sizes are plain naturals. The port in OAUTHBEARER
  is any natural number.
- Request fields of the tasks that only copy them into their command (sequence sets, item names,
  modifiers, search keys, flags) are one opaque command body. The UID item that a FETCH in UID mode appends to its
  request is among them.
- Tasks that only map OK, NO and BAD to a unit result (NOOP, CHECK, CREATE, DELETE, COPY, MOVE,
  silent STORE) are one variant, `PlainTask`.
- The payloads of LIST, ID, THREAD and ENABLE are plain text, and texts are not decoded.
- Logging and `println!`.
- Folds.FetchCollectsUnion: the output of FETCH is kept as sets, because the lists built from a hash set come in no
  specified order.
- `FetchFirstTask` keeps the last response rather than the first; it is modelled as written, and nothing more
  is claimed of it.
- `appenduid_or_fallback`: without UIDPLUS it searches by sequence number and gets sequence numbers
  back, so it cannot return a UID.
- Agreement of the client-side sort with SORT on the server: defaults differ, address keys
  compare equal, and ties follow the order of a hash map.
- Capabilities.ClientState.Serve: a sequence of calls is on given exchanges; a single call over a resolver is
  `SigningIn.SignInOver`, where a resolve that waits for input counts as interrupted.
- Sasl.OAuthBearerReading: the server splits at SOH before it looks at the header. A saslname by itself
  might hold a SOH, but no such server would find its end.
- Alternation.SessionsAreRuns: responses that an IDLE loop drops are surfaced as unsolicited in the run it is read as.
- Retrieval.SortPath: the list of ids is taken as given, so a failed SORT or SEARCH before it is not part of the
  model; the server is assumed to answer a chunk with its items restricted to the chunk.
- Ordering.StableSortIsCorrect: an insertion sort stands for the sort of the standard library; by
  `StableSortIsUnique` any stable sort gives the same list.
- Moving.MoveOrFallback: no other client touches the mailbox; COPY takes effect as a whole or not at all,
  as section 6.4.7 of RFC 3501 asks for, while STORE, EXPUNGE and MOVE may stop half way.
