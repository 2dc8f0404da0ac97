# DanmakuFlow: verification model

DanmakuFlow is a live-comment ("danmaku") server. This project models its algorithms and protocols in Dafny
and proves what they are relied on for. `dafny verify dfyconfig.toml` checks all of it.

What is modelled, file by file:

- `SubstringSearch.dfy`, `AhoCorasick.dfy`: the banned-word matcher. `SubstringSearch` is plain naive search and the
  combinatorics of words; `AhoCorasick` is the automaton itself, with heap nodes, the breadth-first construction and
  the scan, proved to return what naive search returns and to take linear time.
- `Model.dfy`, `MemoryStore.dfy`, `Replay.dfy`, `ReplayLaws.dfy`: the records, the memory store, and the paging loop
  that replays history to a reconnecting viewer while the store changes.
- `Governance.dfy`: the service operations as one transition function over the stored state and the frames sent.
  `Services.dfy` holds the stores and services as objects updated in place; each of their methods is proved to make
  the corresponding transition, the block list and the rate limiter being the ones verified in `Blocklist.dfy`,
  `AhoCorasick.dfy` and `RateLimiter.dfy`. `OperationLaws.dfy` says of each operation exactly when it is accepted and
  what it then does. `AdmissionLaws.dfy`, `Viewers.dfy`, `ContentLaws.dfy`, `ReportLaws.dfy` and `AuditLaws.dfy` prove
  what holds over every run.
- `Shutdown.dfy`, `ShutdownLaws.dfy`: the accept / in-flight / close protocol and the asynchronous write queue, as
  interleaved steps; that every reply is earned, and that no run is ever stuck.
- `Room.dfy`: a room's event loop with its clients and their send buffers.
- `Leases.dfy`: connection quotas, from handshake to the last of many exits.
- `Fanout.dfy`: broadcasts across instances over Redis.
- `RateLimiter.dfy`, `Kafka.dfy`, `RoomLifecycle.dfy`, `Benchmark.dfy`: the limiter with its clean-up, the consumer
  with ambiguous write failures, the life of a room under stale reads, and the load generator's statistics.
- `Counting.dfy`: counting the elements of a sequence that have a property.

How the source is read:

- Text is a sequence of characters standing for runes; times are integers. Content normalisation, IDs, clock
  readings, the outcome of an insert, what a viewer's buffer accepts and what Redis delivers are parameters.
  "Fresh" IDs are IDs not in use.
- A service call on the governance state is one atomic step. The protocols of `Shutdown.dfy`, `Leases.dfy`,
  `Fanout.dfy` and `RoomLifecycle.dfy` are split into the atomic actions of the source, and a run is any list of
  them; an action that is not enabled changes nothing.
- In `Room.dfy` a schedule mixes what the loop and its final drain receive with what the clients' pumps do between
  two rounds. A pump acting during one fan-out has the same effect as one acting before or after it, because a fan-out
  touches each client once.
- A map or channel visited in arbitrary order is visited in arbitrary order here too.
- `sort.Slice` is modelled by insertion: for records with distinct keys every sort gives the same sequence.

Where the code gives less than one might expect, there is a lemma that says exactly when it holds and one that shows
it failing:

- a second Shutdown closes the Kafka producer again (`ProducerClosedByEveryCall`, `ProducerCanBeClosedTwice`);
- a losing Shutdown returns nil before the queue is drained (`NilPromisesDrainIffWon`, `NilWithoutDrain`);
- releasing a lease twice takes someone else's (`DoubleReleaseHarmless`, `DoubleReleaseForgetsALease`);
- mute keys can coincide (`MutesCollideExactly`, `MutesCanCollide`);
- replays repeat messages stored under one timestamp and ID (`ReplaysStrictIffKeysApart`, `DuplicateIsReplayedTwice`);
- instances with equal IDs never see each other's broadcasts (`ReachesIffIdsDiffer`, both directions over runs);
- a record of unknown status cannot be reviewed (`ReviewForbiddenExactly`, `UnknownStatusIsRefused`). No operation of
  the services makes such a record (`StatusesStayKnown`); one can only come from elsewhere, such as a row written
  directly or an event of a later schema.

## Model

| member | source | states |
|---|---|---|
| AhoCorasick.BuildACA | service/moderation.go:639-687 | for every word list, in whatever order children are visited: the automaton is linked and marked correctly, every non-root node is visited exactly once and shallow nodes first, and the fail-chasing takes at most the sum of the word lengths in hops |
| AhoCorasick.Automaton.Match | service/moderation.go:689-708 | returns what naive substring search returns, in at most one fail hop per rune of the content in total |
| AhoCorasick.Automaton.Advance | service/moderation.go:697-702 | one rune: the node becomes that of the longest trie path ending the text read so far, and the hops are paid for by lost depth |
| AhoCorasick.FindFail | service/moderation.go:670-678 | the chase ends at the node of the longest proper suffix of the child's path that is itself a trie path |
| AhoCorasick.LinkChild | service/moderation.go:670-681 | sets one child's fail link and inherited output to their specified values and no other node's |
| AhoCorasick.LinkChildren | service/moderation.go:666-683 | one round of the queue, for every visiting order of the children |
| AhoCorasick.LinkRootChildren | service/moderation.go:655-661 | the children of the root fail to the root and are queued once each |
| AhoCorasick.LinkAll | service/moderation.go:655-684 | the breadth-first search terminates, visits each node once, and leaves every node linked |
| AhoCorasick.SpellWords | service/moderation.go:640-653 | the nodes are exactly the prefixes of the listed non-empty words, and a node outputs its own path exactly when that is a word |
| SubstringSearch.NaiveMatchMeaning | service/moderation.go:689-708 | the reference search returns "" exactly when no non-empty word occurs, and otherwise the longest word ending at the earliest position where any word ends |
| SubstringSearch.EarliestLongestIsUnique | service/moderation.go:703-705 | that description determines the result |
| SubstringSearch.FailPathMeaning | service/moderation.go:670-678 | the fail path is a proper suffix, a trie path, and at least as long as any other such suffix |
| SubstringSearch.LongestPathIsLongest | service/moderation.go:697-702 | the longest trie path ending a text is longer than any other trie path that ends it |
| SubstringSearch.LongestWordIsLongest | service/moderation.go:679-681 | the longest word ending a text is longer than any other that ends it |
| SubstringSearch.ChaseStep | service/moderation.go:697-702 | chasing from the current longest path by one rune gives the longest path of the extended text |
| SubstringSearch.ChaseFindsFailPath | service/moderation.go:670-678 | chasing from the parent's fail path gives the child's fail path |
| SubstringSearch.ChaseHopsBound | service/moderation.go:697-699 | the hops of one chase are paid for by the depth it loses |
| SubstringSearch.CostAlongPath | service/moderation.go:670-673 | linking the nodes along one word costs at most the word's length |
| SubstringSearch.LinkingIsLinear | service/moderation.go:663-684 | linking any duplicate-free set of trie nodes costs at most the sum of the word lengths |
| MemoryStores.MemoryStore.FindByID | store/store.go:129-140 | the first record with the ID, if any |
| MemoryStores.MemoryStore.UpdateStatus | store/store.go:143-157 | rewrites the review fields of the first record with the ID and nothing else |
| MemoryStores.MemoryStore.ListByRoom | store/store.go:32-48 | the last `limit` approved records of the room, in insertion order |
| MemoryStores.MemoryStore.ListSince | store/store.go:59-86 | the matching records beyond the cursor, sorted by (timestamp, id), cut to the limit if that is positive |
| MemoryStores.ReverseInPlace | store/store.go:44-46 | swapping ends reverses the sequence |
| MemoryStores.MatchingMembers | store/store.go:64-75 | a record is collected exactly when it is approved, in the room, and beyond the cursor |
| MemoryStores.ApprovedMembers | store/store.go:37-41 | a record is listed exactly when it is stored, approved and in the room |
| MemoryStores.FindAfterReview | store/store.go:143-157 | a review changes what is found under its own ID and under no other |
| MemoryStores.StatusMeaning | store/store.go:143-157 | record by record: the first with the ID gets the status and the three review fields, and every other record and field stays |
| MemoryStores.LastOfMeaning | store/store.go:32-48 | a listing's limit leaves the most recent ones, in order |
| MemoryStores.TakeMeaning | store/store.go:82-84 | a query's limit, when positive, leaves the first ones |
| MemoryStores.ApprovedInConcat | store/store.go:32-48 | the listing of two stretches of the store is one listing after the other |
| MemoryStores.MatchingConcat | store/store.go:64-75 | so is the collection for the history query, each record as often as it is stored |
| MessageOrder.SortedKeeps | store/store.go:76-81 | sorting permutes and orders by (timestamp, id) |
| MessageOrder.OneSortedArrangement | store/store.go:76-81 | records with distinct keys have one sorted arrangement, so the sorting algorithm does not matter |
| Replays.SendHistory | websocket/handler.go:163-198 | the replay loop emits exactly the specified pages, stopping at a failed query, an empty answer, a refused enqueue, the last page or a thousand messages |
| Replays.ReplayInOrder | websocket/handler.go:163-197 | whatever answers the queries get, if each is sorted and beyond its cursor the replay is sorted and beyond the start, and free of repetitions exactly when each page is |
| Replays.StoreReplayInOrder | websocket/handler.go:163-197 | from the memory store, however it changes between the pages: the replay is sorted and beyond the start, and strictly increasing, hence free of repetitions, if no version of the store holds two approved messages of the room under one (timestamp, ID) |
| Replays.UniqueIdsReplayStrictly | websocket/handler.go:163-197 | in particular strictly increasing when every version of the store has unique IDs |
| Replays.ReplaysStrictIffKeysApart | store/store.go:59-86 | the exact condition: replays of a room are strictly increasing from every cursor if and only if no two of its approved messages share timestamp and ID |
| Replays.RepeatedKeyIsReplayed | store/store.go:96-104 | from two approved messages under one key, a cursor just before them makes a replay that gives both; the store accepts such messages |
| Replays.DuplicateIsReplayedTwice | store/store.go:96-104 | a record added twice is replayed twice |
| Replays.NothingSkipped | websocket/handler.go:163-197 | a message that every query finds approved in the room (whatever its review fields), with a key between the start cursor and the last cursor emitted, is emitted |
| Replays.ContinuesAfter | store/store.go:72-84 | asking again from the n-th answer's key gives what followed it |
| Replays.SteadyReplay | websocket/handler.go:163-198 | from an unchanging store, to a client that takes every page, the pages add up to exactly the first min(1000, n) matching messages |
| ReplayLaws.SendHistoryExactly | websocket/handler.go:163-198 | the replay without its loop: pages are sent exactly when each shows the first hundred of the answer to its own query from where the one before ended, was taken by the client, came after a page that said there was more and before the thousandth message, and nothing more was to be sent |
| ReplayLaws.PagesAreAReplay | websocket/handler.go:163-198 | every replay is of this form, from any page on |
| ReplayLaws.ReplayIsUnique | websocket/handler.go:163-198 | and there is only one for each client, cursor and sequence of answers |
| ReplayLaws.ReplayIsBounded | websocket/handler.go:161-196 | no replay is longer than a thousand messages |
| Viewers.ViewersAgreeWithStore | service/moderation.go:217-331 | after every run of creates, reviews and report resolutions with fresh IDs, folding the frames sent to a room gives exactly its approved records, with their contents |
| Viewers.ListShowsWhatFramesShow | store/store.go:32-48 | a room listing with a large enough limit shows exactly what the frames show |
| Viewers.CreateKeepsStep | service/danmaku.go:487-515 | a created danmaku is broadcast exactly when it is stored as approved |
| Viewers.ReviewKeepsStep | service/moderation.go:245-282 | each allowed transition sends the frame that keeps viewers in step, and no other does |
| Viewers.StepKept | service/moderation.go:217-557 | every operation keeps viewers and store in step |
| ContentLaws.ShownListedAreReviewed | service/danmaku.go:477-498 | over every run in which each create is screened: a message shown in a room that mentions a listed word has been let through by a review, and the audit log names its reviewer |
| ContentLaws.AutoRejectStoresNone | service/danmaku.go:477-484 | with automatic rejection no stored message ever mentions a listed word |
| ContentLaws.FoundIffMentioned | service/moderation.go:167-171 | screening finds a word exactly when one occurs |
| Blocklists.LoadBlocklist | service/moderation.go:93-141 | the loaded list holds exactly the normalised non-empty configured words and file entries, each once |
| ReportLaws.ReportsOverRuns | store/moderation.go:75-138 | over every run: one report for each reporter and danmaku, none lost or re-targeted, and a closed one never changes |
| ReportLaws.ResolveClosesOne | service/moderation.go:433-557 | an accepted decision closes its report and touches no other; a refused one changes nothing |
| ReportLaws.ConfirmedIsEnforced | service/moderation.go:464-556 | when a confirmed report closes: its danmaku is absent, or rejected (and the author muted for mute), or the author is banned, no admin and not the resolver; when refused, nothing at all has changed |
| ReportLaws.ReviewReaches | service/moderation.go:466-472 | a review that is not refused leaves the danmaku absent or in the requested status |
| ReportLaws.WhenDecisionIsRefused | service/moderation.go:464-544 | the exact cases in which a confirmed decision is refused and the report stays pending |
| ReportLaws.ReviewForbiddenExactly | service/moderation.go:230-243 | a review is forbidden exactly when it asks for no verdict or meets a record whose status is none of the four known ones |
| ReportLaws.StatusesStayKnown | service/moderation.go:217-557 | over every run from known statuses no such record is ever met, so none of the operations makes one |
| ReportLaws.UnknownStatusIsRefused | service/moderation.go:464-472 | with such a record in the store a confirmed rejection is refused and its report stays pending |
| ReportLaws.SomeStatusIsUnknown | service/moderation.go:230-243 | such a store |
| ReportLaws.MutesCollideExactly | store/moderation.go:192-222 | two users' mute keys can coincide exactly when one ID followed by ':' begins the other |
| ReportLaws.MutesCanCollide | store/moderation.go:195-196 | two IDs and rooms that do |
| AuditLaws.AuditLogIsComplete | service/admin.go:75-188 | after every run, replaying the audit log from the initial users reproduces every role and the banned set |
| AuditLaws.LogTellsOverRuns | service/moderation.go:499-534 | the same from any starting point at which log and users agree, bans by report included |
| AuditLaws.LastAdminIsUnreachable | service/admin.go:152-160 | the last-admin error is never returned: whoever may demote is another admin |
| AuditLaws.AnAdminRemains | service/admin.go:119-169 | a system that starts with an admin has one after every run |
| AuditLaws.StepKeepsAnAdmin | service/admin.go:119-169 | no single operation removes the last admin |
| AuditLaws.RolesAfter | service/moderation.go:433-557 | no operation but SetUserRole changes a role or the set of users |
| AuditLaws.AdminsAreNotBanned | service/admin.go:68-70 | no operation bans a user who is an administrator |
| Services.MemoryUserStore.Create | store/auth.go:52-63 | refuses a taken username; keeps the two indexes consistent exactly when the ID is new |
| Services.MemoryUserStore.HasAdminOtherThan | store/auth.go:161-172 | true exactly when another user is an admin |
| Services.MemoryReportStore.HasReported | store/moderation.go:94-105 | true exactly when that reporter has a report on that danmaku |
| OperationLaws.CreateAcceptedExactly | service/danmaku.go:445-516 | a create is accepted exactly when the request is valid and not too fast, its user is not banned and not muted in the room, no listed word has it rejected, and the write is not refused; a refused one changes nothing |
| OperationLaws.CreateErrorsExactly | service/danmaku.go:455-498 | which error each refused create gets, in the source's order of checks |
| OperationLaws.CreateStoresTheRequest | service/danmaku.go:487-545 | an accepted create appends one record with the request's user, room and content and its defaults, approved and sent to its room or flagged and not sent |
| OperationLaws.RequestIsValidExactly | service/danmaku.go:346-368 | what a valid request is, with trimming and byte length as below |
| OperationLaws.TrimMeaning | service/moderation.go:335-338 | trimming takes the white space off both ends and nothing else |
| OperationLaws.BlankIsTrimmedAway | service/danmaku.go:347-358 | a field is blank exactly when nothing is left of it |
| OperationLaws.ByteLengthMeaning | service/danmaku.go:350-352 | content length counts bytes: at least one for each character, exactly one only for ASCII, and at most four |
| OperationLaws.ReviewDoes | service/moderation.go:217-272 | an accepted review that changes the status rewrites the record, sends exactly the frame its room needs, and reports both |
| OperationLaws.ReviewIsLogged | service/moderation.go:278-282 | and adds exactly one log entry, with its reason or with what it changed |
| OperationLaws.ReviewOtherwiseChangesNothing | service/moderation.go:218-243 | a review of a missing record, to the status it has, or refused, changes nothing |
| OperationLaws.MuteDoes | service/moderation.go:560-574 | a mute stands for this user in this room exactly until it expires, and is logged |
| OperationLaws.UnmuteDoes | service/moderation.go:577-583 | an unmute ends it at once, and is logged |
| OperationLaws.ReportAcceptedExactly | service/moderation.go:334-381 | a report is stored, open and trimmed, exactly when it has a reason of one to five hundred characters, its reporter is not banned and has none on the danmaku, and the danmaku is in the room |
| OperationLaws.ReportErrorsExactly | service/moderation.go:334-381 | which error each refused report gets |
| OperationLaws.DismissalDoes | service/moderation.go:433-462 | a dismissal is accepted exactly for an open report, closes it, logs it, and does nothing else |
| OperationLaws.ConfirmedRejectionDoes | service/moderation.go:464-486 | a confirmed rejection, alone or with a mute, does to records and frames what the resolver's review does |
| OperationLaws.ConfirmedMuteDoes | service/moderation.go:488-499 | the author is muted in the room for the given minutes, or for half an hour |
| OperationLaws.ConfirmedBanDoes | service/moderation.go:501-535 | the author is banned, on record and in the log, and nobody else is touched |
| OperationLaws.ConfirmedAnswers | service/moderation.go:464-550 | the actions a confirmed decision reports |
| OperationLaws.ConfirmedIsLogged | service/moderation.go:550-555 | its closing entry comes after those of its action |
| OperationLaws.BanAcceptedExactly | service/admin.go:47-85 | a ban is accepted exactly from an administrator on another user who is there and no administrator; a refused one changes nothing |
| OperationLaws.BanErrorsExactly | service/admin.go:47-72 | which error each refused ban gets |
| OperationLaws.BanDoes | service/admin.go:75-85 | the target is banned by this actor for this reason at this time, every other user and field is unchanged, and one log entry naming them is added |
| OperationLaws.UnbanAcceptedExactly | service/admin.go:89-116 | an unban is accepted exactly from an administrator on oneself, someone unknown, or a user who is no administrator |
| OperationLaws.UnbanErrorsExactly | service/admin.go:89-116 | which error each refused unban gets |
| OperationLaws.UnbanDoes | service/admin.go:89-116 | the target is not banned any more, nothing else changes but one log entry |
| OperationLaws.SetRoleAcceptedExactly | service/admin.go:119-169 | a role is set exactly by an administrator on another user who is there, to one of the three roles |
| OperationLaws.SetRoleErrorsExactly | service/admin.go:119-169 | which error each refused change gets |
| OperationLaws.SetRoleDoes | service/admin.go:119-169 | the target has the new role, nothing else changes but one log entry |
| AdmissionLaws.BannedUsersAddNothing | service/danmaku.go:463-470 | over every run in which the user is not successfully unbanned: the ban stands, every record stays in its place as the same message, and none of the added ones is the banned user's |
| AdmissionLaws.NothingFromTheBannedUntilUnbanned | service/admin.go:75-85 | so from an accepted ban to an accepted unban no record of the user is added |
| AdmissionLaws.NothingFromTheReportedUntilUnbanned | service/moderation.go:501-535 | and the same from a ban that came with a confirmed report |
| AdmissionLaws.OnlyUnbanLifts | service/admin.go:89-116 | one operation ends a ban if and only if it is an accepted unban of that user |
| AdmissionLaws.MutedUsersAddNothing | service/danmaku.go:472-478 | over every run in which the mute is not lifted or cut short, and before it expires, no record of that user in that room is added |
| AdmissionLaws.NothingFromTheMutedUntilItEnds | service/moderation.go:560-574 | so from a mute until it expires |
| AdmissionLaws.OnlyCreatesAdd | service/danmaku.go:445-592 | no operation but an accepted create adds a record, and none drops one or alters a message |
| Services.ModerationService.constructor | service/moderation.go:57-90 | the automaton is that of the loaded block list |
| Services.ModerationService.CheckContent | service/moderation.go:163-178 | blocked or flagged, depending on autoReject, exactly when a listed word occurs in the normalised content, naming the longest of those that end first; empty content is not looked at |
| Services.ModerationService.ReviewDanmaku | service/moderation.go:217-285 | makes exactly the specified transition of store, frames and audit log |
| Services.ModerationService.ReportDanmaku | service/moderation.go:334-381 | files a report exactly in the specified cases, with the specified errors |
| Services.ModerationService.ResolveReportWithAction | service/moderation.go:433-557 | makes exactly the specified transition, every action and error included |
| Services.AdminService.BanUser | service/admin.go:75-85 | makes the specified transition, whose acceptance and effect `BanAcceptedExactly` and `BanDoes` state |
| Services.AdminService.UnbanUser | service/admin.go:89-116 | makes exactly the specified transition, self-unban and absent targets included |
| Services.AdminService.SetUserRole | service/admin.go:119-169 | makes exactly the specified transition |
| Services.DanmakuService.CreateAndBroadcast | service/danmaku.go:445-516 | makes exactly the specified transition, with the limiter's own decision and the word the automaton finds: validation, rate limit, ban, mute, word check, store, frame |
| Shutdowns.NoWriteAfterClose | service/danmaku.go:387-451 | in every interleaving of any number of requests and Shutdown calls: nothing panics, nothing is sent on the closed channel, it is closed at most once, and no Produce call starts or is under way once the producer has been closed |
| Shutdowns.BufferedIsConserved | service/danmaku.go:157-173 | every acknowledged danmaku is in exactly one of tried, in hand and queued, in sending order |
| Shutdowns.NilMeansDrained | service/danmaku.go:419-436 | when the Shutdown call that closed the channel returns nil, each acknowledged danmaku has had exactly one write attempt |
| Shutdowns.EveryRunIsSound | service/danmaku.go:387-451 | the invariant behind these, over every run |
| Shutdowns.ZeroMeansCalm | service/danmaku.go:447-451 | a zero counter read after clearing the flag means no request can write: a request counts itself before it reads the flag |
| Shutdowns.StepKeepsOneWinner | service/danmaku.go:419-425 | at most one Shutdown call wins the compare-and-swap, and only it closes the channel |
| Shutdowns.ProducerClosedByEveryCall | service/danmaku.go:411-416 | the producer is closed once for each Shutdown call that saw the counter at zero, so at most once exactly when at most one did |
| Shutdowns.ProducerCanBeClosedTwice | service/danmaku.go:411-421 | a run with two Shutdown calls that closes it twice |
| Shutdowns.NilWithoutDrain | service/danmaku.go:419-421 | a run in which the losing call returns nil while an acknowledged danmaku is still queued |
| Shutdowns.NilPromisesDrainIffWon | service/danmaku.go:419-436 | a nil from Shutdown promises an empty queue exactly to the call that won the compare-and-swap |
| ShutdownLaws.EveryReplyIsEarned | service/danmaku.go:548-592 | over every run: on the Kafka path a request has replied "persisted" or "failed" exactly when one Produce call of its own has started and ended, with that outcome, one in the call has started and not ended, and any other has done neither; on the queue path exactly the acknowledged were sent, once; on the direct path a reply is the outcome of the request's one write |
| ShutdownLaws.OutcomeIsTold | service/danmaku.go:550-590 | the outcome of a Produce call or a direct write is what the reply says |
| ShutdownLaws.AdmittedExactly | service/danmaku.go:446-451 | over every run a request is admitted exactly when no Shutdown call has taken its first step |
| ShutdownLaws.FailedCheckIsRefused | service/danmaku.go:453-484 | a request that fails a check is refused and nothing is written for it |
| ShutdownLaws.QueuedExactly | service/danmaku.go:564-575 | over every run an admitted danmaku is queued behind the others exactly when there is space, and refused otherwise |
| ShutdownLaws.EveryRunCanBeShutDown | service/danmaku.go:387-440 | no run is ever stuck: each can be continued so that every request has left, the queue is worked off, and one more Shutdown call has returned nil |
| ShutdownLaws.WaitingCallCanSucceed | service/danmaku.go:395-440 | from every run a Shutdown call that still waits for requests can return nil, with the queue worked off |
| ShutdownLaws.EveryCallCanReturn | service/danmaku.go:387-440 | nor is any Shutdown call: each can return, at the latest when its time is up |
| Rooms.Room.Run | websocket/hub.go:79-125 | for every schedule of registrations, departures, broadcasts and pump actions, the final drain included: the broadcasts a client was sent are the contiguous part of the room's broadcasts from its registration to its removal, each removal has its reason, a client that is unregistered has left by then, the count ends at zero, and every client ever registered is stopped |
| Rooms.Room.Exit | websocket/hub.go:83-100 | what is still buffered is fanned out, the pumps going on meanwhile, then everyone is stopped |
| Rooms.Room.Handle | websocket/hub.go:102-123 | one round of the loop, or one action of a pump: exactly which clients are in the room after it, what the pump did to its client, when the room is unlisted; it keeps the count equal to the number of clients |
| Rooms.Room.BroadcastToClients | websocket/hub.go:129-144 | in any order of the clients: each gets the broadcast or, exactly when its buffer is full, is stopped and removed |
| Rooms.Room.AddClient | websocket/hub.go:104-106 | a new client hears from now on |
| Rooms.Room.RemoveClient | websocket/hub.go:108-116 | a member is removed and stopped, a non-member ignored; the room is unlisted exactly when this emptied it |
| Rooms.Client.Offer | websocket/hub.go:131-133 | the non-blocking send of a broadcast |
| Rooms.Client.Enqueue | websocket/client.go:122-136 | refused once stopped or when the buffer is full; no broadcast is affected |
| Rooms.Client.WriteOne | websocket/client.go:163-168 | the pump takes frames in order; a failed write loses that frame, ends the pump and stops the client |
| Rooms.TellsMore | websocket/hub.go:102-123 | an account that tells the events so far, taken through one more, tells that one too: who joined when, who left when and why and not later than unregistered, and what was fanned out |
| Leases.ConnQuota.TryAcquireConn | websocket/hub.go:350-374 | grants exactly within both limits and counts both keys, otherwise changes nothing |
| Leases.ConnQuota.Release | websocket/hub.go:375-387 | one less under both keys, a key going away when its count is no longer positive |
| Leases.EveryRunTracksLeases | websocket/handler.go:105-140 | in every interleaving of handshakes, pump exits, evictions and room stops: the counters are the leases held, key by key, present exactly when positive, within positive limits; each lease is released at most once, and exactly once by the time its connection has stopped or been given up |
| Leases.NothingLeaks | websocket/client.go:139-149 | when every connection is over both maps are empty |
| Leases.LetInExactly | websocket/hub.go:350-374 | over every run a handshake is let in exactly when its address and its room hold fewer leases than their limits, if there are any |
| Leases.LetInGoesLive | websocket/handler.go:105-140 | one that is let in goes live when it is upgraded, the hub is up, and its room takes it |
| Leases.GivenUpExactly | websocket/handler.go:115-140 | a handshake is given up, and its lease given back, exactly when the upgrade fails, the hub is shutting down, or the room has stopped |
| Leases.NoneJoinsAfterShutDown | websocket/hub.go:261-264 | from the hub's shutdown on, no further handshake gets a room |
| Leases.EveryRunCanEmpty | websocket/client.go:139-149 | every run can be continued until both maps are empty |
| Leases.StepTracks | websocket/hub.go:350-388 | one step of one handshake keeps every counter right |
| Leases.DoubleReleaseHarmless | websocket/hub.go:375-387 | the release closure is idempotent exactly for the last lease of its address and of its room |
| Leases.DoubleReleaseForgetsALease | websocket/hub.go:375-387 | two leases, one released twice: the other is uncounted, and under a limit of one a further connection is let in |
| Fanouts.NoBroadcastLoop | websocket/hub.go:218-258 | whatever Redis loses: each BroadcastToRoom call is published at most once, enters each instance's room queues at most once, and only those of its room |
| Fanouts.ReachesIffIdsDiffer | redisclient/pubsub.go:161-168 | a call can enter an instance's rooms, in some run, if and only if it was made there or at an instance with another ID |
| Fanouts.PassedOnIffIdsDiffer | redisclient/pubsub.go:161-168 | on the way: a received message is taken off and passed to the hub exactly when its call's instance has another ID, and dropped otherwise |
| Fanouts.MessageTravels | websocket/hub.go:402-436 | a run of five events in which one does |
| Fanouts.EveryRunIsRight | websocket/hub.go:402-436 | the invariant behind these, over every run |
| Fanouts.ReceiveKeepsOnce | redisclient/pubsub.go:142-172 | receiving moves a copy on or drops it, and always drops an instance's own |
| Fanouts.LocalKeepsOnce | websocket/hub.go:247-258 | the local broadcast enters a copy at most once and publishes nothing |
| Fanouts.PublishMovesOne | redisclient/pubsub.go:89-109 | publishing turns one waiting copy into at most one copy for each subscriber |
| Fanouts.BroadcastKeepsOnce | websocket/hub.go:218-241 | a new call enters its own instance at most once and waits to be published at most once |
| Fanouts.CallEntersItsOwn | websocket/hub.go:218-241 | a call is in its own instance's room queue exactly when that is up, has the room and the queue has space, and waits to be published exactly when it is up and the publish buffer has space; no other instance is touched |
| Fanouts.PublishDelivers | websocket/hub.go:416-436 | a publish takes the oldest waiting call and puts it, under its own instance ID, in exactly the inboxes it reaches |
| Fanouts.LocalBroadcastEnters | websocket/hub.go:247-258 | a message off the channel enters the room exactly when the instance is up, has the room and the queue has space, and is not published again |
| Fanouts.NothingEntersAfterShutDown | websocket/hub.go:218-258 | from its shutdown on, over every run, nothing enters an instance's rooms or its publish channel |
| Fanouts.RoomsComeAndGo | websocket/hub.go:261-288 | opening and closing change one instance's rooms only, and nothing is opened while it is shutting down |
| RateLimiters.RateLimiter.Allow | service/danmaku.go:65-88 | answers, records and cleans up as specified on its entries, deciding as `AllowedExactly` says over runs; holds at most a thousand entries more than the mark after an allowed send |
| RateLimiters.RateLimiter.Clean | service/danmaku.go:79-84 | in any order, deletes exactly the entries older than the threshold |
| RateLimiters.CleanUpIsInvisible | service/danmaku.go:65-88 | under a clock that never goes back, every decision is that of a limiter that never forgets |
| RateLimiters.AllowedExactly | service/danmaku.go:65-76 | under a clock that never goes back, over every run: a send is allowed if and only if there is no limit or each earlier allowed send of that user lies at least one interval back |
| RateLimiters.FirstSendIsAllowed | service/danmaku.go:71-76 | nobody's first send is refused |
| RateLimiters.AllowedSendsSpan | service/danmaku.go:71-76 | any k allowed sends of one user span at least k - 1 intervals |
| RateLimiters.SizeIsBounded | service/danmaku.go:78-86 | over every run the entries never exceed the clean-up mark by more than a thousand |
| Kafka.EventRoundTrip | service/kafka.go:51-69 | every field survives the trip through an event, an empty status becoming approved; the event carries the danmaku's ID twice, the instance and the schema version |
| Kafka.OnlyDanmakuFieldsMatter | service/kafka.go:242-262 | two events are stored alike exactly when they agree on all that describes the danmaku, a missing status counting as approved |
| Kafka.ConsumerGroupHandler.ProcessMessage | service/kafka.go:227-310 | tries the write up to four times, stops at a confirmation or a duplicate key, and marks the message exactly once in every case |
| Kafka.AttemptMeaning | service/kafka.go:266-306 | a row that is there is untouched, a missing one appears exactly when some write got through, and success is reported exactly when some write was not lost |
| Kafka.EachMessageIsMarkedOnce | service/kafka.go:227-310 | over every run the marked offsets are exactly the deliveries, in order |
| Kafka.StoredIffBrought | service/kafka.go:227-310 | a danmaku is stored exactly when some delivery of it was decodable and had a write that got through |
| Kafka.FirstVersionStays | service/kafka.go:265-272 | from the delivery that brought it on, a row changes by reviews only, whatever is redelivered in whatever version |
| RoomLifecycle.EveryRunIsOrderly | service/room.go:93-152 | however reads and updates interleave: at most one start and one end of a room are accepted, only its owner's, and each time stamp is present exactly in the statuses it belongs to |
| RoomLifecycle.StepFollows | store/room.go:92-113 | each step moves a room along pending, live, ended or not at all, and never changes its owner |
| RoomLifecycle.StartedBeforeEnded | store/room.go:102-111 | under a clock that never goes back no room ends before it started, although the two stamps come from different clock readings |
| RoomLifecycle.MemoryRoomStore.UpdateStatus | store/room.go:92-113 | updates exactly from the expected status, with the store's clock for a start and the caller's for an end |
| RoomLifecycle.RoomService.Change | service/room.go:93-152 | without interleaving, check and update agree |
| RoomLifecycle.CheckedExactly | service/room.go:93-152 | a call's check passes exactly for the owner of a room in the status it starts from, and which answer it gives otherwise |
| RoomLifecycle.UpdatedExactly | store/room.go:92-113 | an update is accepted exactly from that status, moves one room on and stamps it to the millisecond; a refused one changes nothing |
| RoomLifecycle.CreatedRoom | service/room.go:44-66 | a new room is its creator's, pending and stamped |
| RoomLifecycle.OwnerStartsAndEnds | service/room.go:93-152 | the owner can start and then end a pending room, in that order and neither twice |
| RoomLifecycle.UndisturbedCall | service/room.go:93-152 | after any run a call that meets nobody in between goes through exactly when its check passes, and is then on record |
| Benchmark.NearestRank | cmd/benchmark/tracker.go:39-51 | the value at the rounded-up rank is the smallest sample such that at least p percent of the samples are no larger |
| Benchmark.PercentilesInOrder | cmd/benchmark/tracker.go:136-138 | a higher percentile is never below a lower one |
| Benchmark.PercentileOfPermutation | cmd/benchmark/tracker.go:131-135 | a percentile depends on the samples, not on their order |
| Benchmark.Percentiles | cmd/benchmark/tracker.go:129-139 | the three reported values are those percentiles, in order, or zero without samples |
| Benchmark.BenchmarkTracker.Compute | cmd/benchmark/tracker.go:204-233 | at most one latency for each distinct (listener, message), from its first delivery; the delivery count is the number of distinct pairs |
| Benchmark.Derive | cmd/benchmark/tracker.go:214-230 | the derived latencies, in order of arrival |
| Benchmark.CountDeliveries | cmd/benchmark/tracker.go:92-98 | the number of distinct (listener, message) pairs |
| Benchmark.ComputeStats | cmd/benchmark/tracker.go:74-158 | every figure of the statistics, over reals: counts, loss, rates over the steady window, percentiles, and what is passed through |
| Benchmark.LossPercent | cmd/benchmark/tracker.go:107-113 | the share of expected deliveries that are missing, none when there are too many |
| Benchmark.SendTimesAreTheirOwn | cmd/benchmark/tracker.go:216-219 | with indices handed out once each message is given its own send time |
| Benchmark.BenchmarkTracker.NextMessageId | cmd/benchmark/tracker.go:170-172 | hands out an index that no recorded send has |
| Benchmark.OnePerPair | cmd/benchmark/tracker.go:220-226 | first deliveries are one for each distinct pair |
| Benchmark.FirstsMeaning | cmd/benchmark/tracker.go:220-226 | the first deliveries are those that no earlier one of the same pair precedes |
| Benchmark.DerivedExactly | cmd/benchmark/tracker.go:227-229 | each latency is derived exactly as often as a first delivery came that long after the recorded send of its message |

## Left out

- CreateAndBroadcast: models the path on which the store is written directly; the queued path is in `Shutdown.dfy` and
  the Kafka path in `Kafka.dfy`. On those two a frame is sent before the record is stored, so viewers and store agree
  only once the queue has drained. The fail-closed branches for store errors are left out, as memory stores return none.
- BuildACA: reads words and content as rune sequences; two different invalid UTF-8 strings that decode alike are not told apart, and the normalisation itself is a parameter.
- Rooms.Room.Run: speaks of one room; a client that fetched the room just before it was unlisted can still join a room no longer in the hub, so nothing is stated by room ID.
- WriteOne: the network itself is a yes or no for each frame.
- NoBroadcastLoop: takes it that Redis delivers a publish at most once to each subscriber, and makes the local and the publishing half of one call one step.
- LatPercentile: computes the rank with integers; the source's floating-point rounding-up agrees as long as samples times percentile stays far below 2^53. Latencies stay in nanoseconds.
- MuteDuration: minutes are unbounded; the source's 64-bit duration wraps for absurdly long mutes.
- DanmakuTable: stores a row as given; the column defaults that GORM fills in for empty fields are left out, as created records have none empty.
- Reviews interleaved inside one call: ReviewDanmaku reads and then updates unconditionally, so two moderators at once are outside the claims about viewers.
- Demotions interleaved inside one call: SetUserRole checks and then updates, so the admin claims are about sequential runs.
- The report and mute stores keep a second map under other keys that no modelled operation reads; reports and mutes are values, not shared objects.
- The legacy ResolveReport, the user store's Delete and listings by status: single-branch operations.
- HTTP handlers, tokens, request decoding, JSON, metrics, logging, configuration, reconnect backoff and timing.
- Liveness: nothing says that a step happens eventually, only what holds whenever it does, and what remains possible.
