# Verification of the cloud-agents backend and history view

A Dafny model of four parts of the repository, with proofs of what they promise.

**Task provisioning.** A task lives in process, in one Redis hash, or in a MySQL row with a Redis sandbox hash.
`TaskOps` models every mutating operation over all three and proves that they agree. `ProvisioningProtocol` is the
MySQL+Redis form as a step machine: the row, the hash, the lease lock with its 30 s TTL, and any number of processes
that interleave at every store operation, where each write may be stored, lost, or stored but reported as failed, and
a process may stop anywhere. `ProvisioningRefinement` ties the machine back to `TaskOps`, and `ProvisioningHazards`
shows what writes out of turn do. `LockRetry` is the acquiring loop.

**History and stream.** `History` and `HistoryClient` model the object-store listing in two forms, the part reader,
and the bounded concurrent download; `Chronology` says when the merged parts are in the order of their names.
`EventStream` models the line relay of the backend and the incremental parser of the browser (a line-oriented subset
of section 9.2.6 of the WHATWG HTML Living Standard), and `ParsedEvents` says which events the parser yields. `StreamAgreement` says exactly when the two read the same
session ids and which one stays on the task, `Trimming` when the two languages trim alike. `Chain` and `Messages`
rebuild the conversation, and `MessageContents` says what stands in each message.

**Scheduler.** `Schedules` is the state machine over rows, index, cron entries and runs; `Scheduler` is the object
that takes its steps; `ScheduleRows` says what each step leaves in the row, the index and the runs.

**Skills.** `SkillManifest` is the manifest in the kinds table against the objects in the object store, under
interleaved handlers; `SkillUpload` says what an undisturbed handler leaves; `Injection` is the delivery into a
sandbox.

`Wrappers`, `Sequences`, `Lines`, `Paths` and `TaskTypes` hold what these share. Operations that change state are
methods, some of them on classes, proved against functions; the theorems are about those functions and about all
executions. JSON, cron expressions, the clock, the sandbox and the outcome of each request are parameters.

## Where code and documentation differ

The model follows the code.

- `GetAllHistory` says it merges in chronological order (backend/internal/storage/client.go:217). It merges in
  full-key order, session by session. `Chronology.ChronologicalExactly` says when the two are the same, and
  `Chronology.OverlapBreaksOrder` gives a listing where they are not.
- `withLock` bounds a lease by 30 s (backend/internal/task/redis_lock.go:46), but a provisioning callback may poll for
  90 s and again for 60 s. Outliving the lease alone does no harm (`ProvisioningHazards.OverrunAloneKeepsRoute`); a
  write after another process has acquired the lock may. `ProvisioningProtocol.RouteLostExactly` says which, and
  `ProvisioningHazards` has a run for each.
- The write-once comment names HSETNX (backend/internal/task/store.go:140); the script compares with the empty string,
  so an absent field is not written. `TaskOps.AcceptsSession` keeps the difference.
- The skip guard is described as "a run is still active" (backend/internal/schedule/runner.go:39). It ignores runs that
  have not yet set their state, and those that have stored their error but not yet their outcome, and it counts for
  ever a run whose process died in progress. `Schedules.FiresExactly` is the exact condition,
  `Schedules.TwoFiresBeforeProvisioning` shows two runs at once, `Schedules.LostRunBlocks` the run that never ends.
- `catchUpIfMissed` is said to cover one-shots that the cron runner would never trigger
  (backend/internal/schedule/scheduler.go:63-64). One whose time falls between the two clock readings of a start is
  covered by neither; `Scheduler.OneShotPickedUpAtStart`.
- `buildMainChain` does not end on some cyclic parent links; `Chain.WalkEndsExactly` gives the exact condition.
- A create that answers with an error because the name is taken has replaced the SKILL.md of the skill of that name
  (backend/internal/api/handlers_resources.go:323-335); `SkillUpload.RefusedCreate`.

## Model

| member | source | states |
|---|---|---|
| TaskOps.BackendsAgree | backend/internal/task/store.go:80-283 | after any single-caller sequence of operations whose successful callbacks set a sandbox, a task reloaded from MySQL+Redis or from Redis alone reads like the in-process one (Info, route, error message, flag), and the next call gives the same answer |
| TaskOps.ReloadAfterStep | backend/internal/task/mysql_repository.go:72-123 | each operation of each store, read back by Get, is one operation on the visible fields; the stores differ only in what they verify before they commit |
| TaskOps.RunFollowsView | backend/internal/task/redis_repository.go:61-113 | the same for whole runs from a created task |
| TaskOps.EnsureAgreesExactly | backend/internal/task/mysql_repository.go:275-298 | when the callback is not well behaved: in-process and stored tasks stay alike after EnsureProvisioned if and only if the task was provisioned, the callback failed, or it left a running state and, for MySQL, a sandbox id |
| TaskOps.HandleMatchesReload | backend/internal/task/store.go:52-283 | after any run the live handle itself reads like a reload, but for the flag that only the store keeps |
| TaskOps.SessionSurvives | backend/internal/task/store.go:272-283 | a session id once stored survives every later operation on every store, resets included |
| TaskOps.WritesAreSeen | backend/internal/task/store.go:92-153 | on every store, read back: SetProvisioning changes the state, SetError state and message, SetSessionID an empty session id, and nothing else |
| TaskOps.ProvisioningIsSeen | backend/internal/task/store.go:199-213 | EnsureProvisioned leaves a provisioned task alone; any other takes the callback's route, is running, and is provisioned exactly when the callback succeeded |
| TaskOps.ResetsAreSeen | backend/internal/task/store.go:216-283 | a reset takes back state, route and flag and keeps session id and error; by expiry, exactly when provisioned, mapped and found dead |
| TaskOps.Task.constructor | backend/internal/task/mysql_repository.go:31-70 | a created task has state new and nothing else set, in its fields and in its store |
| TaskOps.Task.SetRunning | backend/internal/task/store.go:80-90 | fields and store hold the new route and the running state; the whole new state is stated |
| TaskOps.Task.SetProvisioning | backend/internal/task/store.go:114-121 | only the state changes, in the handle and in the store |
| TaskOps.Task.SetError | backend/internal/task/store.go:92-100 | only state and message change, in the handle and in the store |
| TaskOps.Task.PersistSessionId | backend/internal/task/mysql_repository.go:252-262 | writes, and says so, exactly when the stored id was present and empty |
| TaskOps.Task.SetSessionId | backend/internal/task/store.go:138-153 | the id goes to the store and to the handle together or to neither |
| TaskOps.Task.RunCallback | backend/internal/sandbox/manager.go:218-221 | a provisioning callback sets a route or not, and returns nil or an error |
| TaskOps.Task.EnsureProvisioned | backend/internal/task/store.go:199-213 | takes the task to the specified state on all three stores and returns nil exactly when the specification says so, verification failures included |
| TaskOps.Task.ClearSandbox | backend/internal/task/store.go:275-283 | clears state, route and flag everywhere, and neither session id nor error message |
| TaskOps.Task.ResetForReprovisioning | backend/internal/task/store.go:216-231 | clears unconditionally |
| TaskOps.Task.ResetIfExpired | backend/internal/task/store.go:237-270 | clears exactly when the store says provisioned, names a sandbox, and the check found it dead; an error of the check changes nothing |
| ProvisioningProtocol.ProvisionedHasRoute | backend/internal/task/mysql_repository.go:210-383 | in every run of any number of processes, with failures, lost answers and stops between any two store operations and bodies that outlive their leases, an existing row with provisioned=true has a sandbox hash with a non-empty sandbox_id, as long as nobody sets the flag, deletes the hash or maps the task to no sandbox after another process has acquired the lock |
| ProvisioningProtocol.RouteLostExactly | backend/internal/task/mysql_repository.go:264-383 | after such a run the next step loses the route if and only if it sets the flag over an unmapped hash, or, on a provisioned row, deletes the hash or maps it to no sandbox; and then another process has acquired the lock in between |
| ProvisioningProtocol.TimelyIsInOrder | backend/internal/task/redis_lock.go:45-78 | writes that keep to their leases are in order: a body within its lease still owns the lock, if no late release freed it |
| ProvisioningProtocol.OneBodyInLease | backend/internal/task/redis_lock.go:45-78 | in every run without a late release of another goroutine's lock, at most one process is inside a provision or reset body of an existing task and within its lease |
| ProvisioningProtocol.OneBodyAtATime | backend/internal/task/redis_lock.go:45-78 | if nobody has outlived a lease so far, at most one process is inside a body at all |
| ProvisioningProtocol.CommitsBalanceResets | backend/internal/task/mysql_repository.go:264-383 | under the same hypothesis, over every run, commits of the flag = resets that cleared it + 1 if it stands; the next step upsets that if and only if it sets a flag that is set, and then another process has acquired the lock in between |
| ProvisioningProtocol.SessionWrittenOnce | backend/internal/task/mysql_repository.go:252-262 | over every run, leases respected or not, the durable session id changes at most once, from empty, and each handle holds either nothing or that id |
| ProvisioningProtocol.StepKeepsInv | backend/internal/task/mysql_repository.go:264-383 | every single step in order keeps the invariant: what the last process to acquire the lock has verified still holds, the route, the balance, the turns, and the order of a deletion |
| ProvisioningProtocol.StepKeepsLease | backend/internal/task/redis_lock.go:36-78 | a running lease is neither taken over nor freed by others, nor by a timely release or a deletion, and its holder was the last to acquire the lock |
| ProvisioningProtocol.LeaseOfOther | backend/internal/task/redis_lock.go:16-41 | a step of one process leaves another process in a body, and its lease, untouched |
| ProvisioningProtocol.OthersKnow | backend/internal/task/mysql_repository.go:264-349 | what the last process to acquire the lock has verified stays true under the steps of all others, unlocked state writes and overrunning bodies included |
| ProvisioningProtocol.ActorKnows | backend/internal/task/mysql_repository.go:264-305 | verify before commit: whoever is about to set the flag knows that it is clear and the hash names a sandbox |
| ProvisioningProtocol.RouteKeptExactly | backend/internal/task/mysql_repository.go:264-345 | a step from the invariant keeps the route if and only if it is none of the three writes: so clearing the flag before deleting the hash, and verifying before committing, are what keeps it |
| ProvisioningProtocol.BalanceKeptExactly | backend/internal/task/mysql_repository.go:264-345 | and the balance if and only if it does not set a flag that is set |
| ProvisioningProtocol.StepKeepsSessions | backend/internal/task/store.go:138-153 | one step keeps every handle in agreement with the durable session id |
| ProvisioningProtocol.StepKeepsOrder | backend/internal/task/mysql_repository.go:189-198 | Redis keys of a deletion go only once the row is gone |
| ProvisioningRefinement.AloneEnsure | backend/internal/task/mysql_repository.go:264-305 | a process that provisions alone reaches, step by step, the state that the specification of EnsureProvisioned gives, and frees the lock |
| ProvisioningRefinement.AloneReprovision | backend/internal/task/mysql_repository.go:370-383 | the same for ResetForReprovisioning |
| ProvisioningRefinement.AloneResetIfExpired | backend/internal/task/mysql_repository.go:307-349 | the same for ResetIfExpired, whatever the liveness check answers |
| ProvisioningRefinement.AloneDelete | backend/internal/task/mysql_repository.go:189-198 | a deletion that runs alone removes row, sandbox hash and lock key, and nothing else |
| ProvisioningRefinement.FailuresUnlock | backend/internal/task/mysql_repository.go:264-383 | a failed read, callback or write, and a live sandbox, send a body to its unlock and change nothing that was not stored; a running state that could not be written is passed over |
| ProvisioningRefinement.UnlockedWritesAgree | backend/internal/task/mysql_repository.go:232-248 | SetProvisioning and SetError, which take no lock, do in any state of the other processes what their specification says, and nothing else |
| ProvisioningRefinement.SessionWriteAgrees | backend/internal/task/mysql_repository.go:252-262 | so does SetSessionId, in the row and in the handle's copy; a loaded handle has the row's id |
| ProvisioningHazards.LateFlagLosesRoute | backend/internal/task/mysql_repository.go:298-303 | the hypothesis is needed, write by write. In a run of orderly steps a body outlives its lease, another server resets the task, and the late commit leaves it provisioned without a sandbox |
| ProvisioningHazards.LateFlagCountsTwice | backend/internal/task/mysql_repository.go:298-303 | if the other server provisions the task instead, the late commit counts it twice |
| ProvisioningHazards.LateDeleteLosesRoute | backend/internal/task/mysql_repository.go:379-379 | so does a late deletion of the hash after another server has provisioned the task |
| ProvisioningHazards.LateHashLosesRoute | backend/internal/task/mysql_repository.go:219-229 | so does a late hash without a sandbox id |
| ProvisioningHazards.LateUnlockAdmitsTwo | backend/internal/task/redis_lock.go:16-41 | the key names host and pid only: a late unlock frees the running lease of another goroutine of the same server, a third process enters, and two bodies run, each within its own 30 s |
| ProvisioningHazards.OverrunAloneKeepsRoute | backend/internal/task/redis_lock.go:46-53 | a body that outlives its lease by any time while nobody else acquires the lock commits in order and leaves the task routed |
| LockRetry.WithLock | backend/internal/task/redis_lock.go:45-78 | each outcome exactly when the last attempt and wait say so; all earlier attempts found the lock busy before the deadline; at most MaxTries attempts, however much longer sleeps last; with exact sleeps a timeout comes after exactly that many and before deadline + 5 s |
| LockRetry.MaxTries | backend/internal/task/redis_lock.go:48-73 | the least number of attempts whose sleeps reach the deadline |
| LockRetry.SleptClosedForm | backend/internal/task/redis_lock.go:70-73 | delays double up to 3.2 s and then stay at 5 s; the time slept in closed form |
| LockRetry.TriesInUse | backend/internal/task/mysql_repository.go:266-266 | 30 s allow 13 attempts, 5 s allow 8 |
| LockRetry.TimedOutExactly | backend/internal/task/redis_lock.go:60-73 | with exact sleeps the deadline is overrun by less than one longest sleep |
| History.SamePartsExactly | backend/internal/storage/client.go:179-247 | for every bucket in key order, the single listing reads the part keys of listing the sessions and then each session, in the same order, if and only if no listed key is stray (a part by base name outside any session directory, or ending in a slash) |
| History.OneListingIsTwoPass | backend/internal/storage/client.go:214-279 | without stray keys the whole history is GetHistory over ListHistory put together, whatever the parts hold and whichever reads fail |
| History.PrefixBlock | backend/internal/storage/client.go:201-201 | keys sharing a prefix are one block of the sorted order |
| History.ContinuesLast | backend/internal/storage/client.go:161-175 | in key order a session once left is not entered again |
| History.BlocksInOrder | backend/internal/storage/client.go:161-201 | reading session by session visits the part keys in listing order |
| History.SortSorts | backend/internal/storage/client.go:247-247 | the sort orders and permutes |
| History.PartHasPartBase | backend/internal/storage/client.go:236-238 | a part by its full key is one by its base name |
| History.UnderSession | backend/internal/storage/client.go:161-175 | a key lies under a session prefix exactly when it is of that session |
| History.SessionsAre | backend/internal/storage/client.go:149-176 | the session list has each session of the keys once and no other |
| History.SessionsRead | backend/internal/storage/client.go:182-212 | reading the sessions in turn is reading their part keys in turn, the first failure included |
| History.HistoriesDisjoint | backend/internal/storage/client.go:133-147 | although the path encoding is not injective, no key belongs to the history of two tasks |
| History.PartsAre | backend/internal/storage/client.go:194-240 | which keys are read: for a session those under it that end in .ndjson or .jsonl, for a task those that do so but for slashes after it |
| History.HistoryPrefixIs | backend/internal/storage/client.go:133-147 | a task's history lies under {user}/history/-workspace-{user}-{task}/ |
| History.EncodeCwdAt | backend/internal/storage/client.go:133-138 | in the encoded path every slash is a dash and nothing else differs |
| Chronology.ChronologicalExactly | backend/internal/storage/client.go:214-247 | for every bucket the parts are merged in the order of their file names, which carry the time stamps, if and only if the last name of each directory is not after the first of the next |
| Chronology.DirectoryIsSession | backend/internal/storage/client.go:140-144 | the directory of a part that lies directly in its session is the session's |
| Chronology.OverlapBreaksOrder | backend/internal/storage/client.go:179-181 | under every prefix, a listing of two sessions, the first resumed after the second began, is merged out of that order |
| HistoryClient.AddPage | backend/internal/storage/client.go:161-174 | one page extends the session list as if its keys followed those before |
| HistoryClient.ListHistory | backend/internal/storage/client.go:145-177 | the session list depends on the keys and not on the pagination; the first failing page is the result |
| HistoryClient.AddParts | backend/internal/storage/client.go:234-240 | one page adds its part keys in order |
| HistoryClient.ListParts | backend/internal/storage/client.go:224-241 | the part keys of all pages in listing order; the first failing page is the result |
| HistoryClient.GetHistory | backend/internal/storage/client.go:182-212 | entries of the sorted part keys in order; the first failure is the result |
| HistoryClient.ReadPart | backend/internal/storage/client.go:284-316 | succeeds exactly when the object is fetched, reading it does not break off, and every line fits the scanner; then it holds the lines that are not empty and parse as entries that are not meta, verbatim and in order |
| HistoryClient.KeepEntries | backend/internal/storage/client.go:297-314 | the filter loop keeps exactly those lines |
| HistoryClient.KeptCount | backend/internal/storage/client.go:297-314 | each line is kept as often as it is there if it is not empty and parses as an entry that is not meta, and not at all otherwise |
| HistoryClient.KeptInOrder | backend/internal/storage/client.go:297-314 | kept lines keep their order |
| HistoryClient.FetchedAppend | backend/internal/storage/client.go:228-241 | pages follow each other, the first failure wins, and one page is what it holds |
| HistoryClient.Download | backend/internal/storage/client.go:249-279 | under every schedule of the workers: terminates, never more than 8 reads at once, the result is the sequential one when no read fails, and an error if and only if some part cannot be read |
| HistoryClient.StartOk | backend/internal/storage/client.go:260-263 | handing out a read keeps the pool invariant and makes progress |
| HistoryClient.StoreOk | backend/internal/storage/client.go:265-267 | so does a worker that stores its result |
| HistoryClient.ReleaseOk | backend/internal/storage/client.go:264-264 | so does one that gives its slot back |
| HistoryClient.ReportOk | backend/internal/storage/client.go:267-272 | so does one that reports |
| HistoryClient.Merge | backend/internal/storage/client.go:274-278 | results in slot order are the parts in key order |
| HistoryClient.GetAllHistory | backend/internal/storage/client.go:220-279 | for any pagination and any schedule: the two-pass history when no key is stray, the parts in full-key order always, an error whenever a page or part fails |
| EventStream.ParseSSE | frontend/src/hooks/useChat.ts:6-28 | for every split of a text into chunks the events are those of the whole text, the buffer is what follows its last newline, and a data line that is not JSON ends the parse at the same event |
| EventStream.ParseCut | frontend/src/hooks/useChat.ts:18-26 | the lines of one chunk continue the parse of those before |
| ParsedEvents.ParserYields | frontend/src/hooks/useChat.ts:18-26 | on any lines there is one event for each data line, in order, holding the JSON of its trimmed text under the event name in force before it; the parse throws exactly at the first data line that is not JSON, after the events of those before |
| ParsedEvents.ParserNameExactly | frontend/src/hooks/useChat.ts:19-24 | the name in force is that of the last event line, unless a data line came since |
| ParsedEvents.RelayNameExactly | backend/internal/sandbox/proxy.go:161-166 | for the relay, unless a blank line came since |
| ParsedEvents.PaddedNameIsRead | backend/internal/sandbox/proxy.go:164-165 | an event line is recognised by both sides with spaces, tabs or a carriage return around its name |
| ParsedEvents.BlankLineDiffers | backend/internal/sandbox/proxy.go:161-163 | a data line after a session.init event and a blank line is a payload for the parser only |
| EventStream.StreamMessage | backend/internal/sandbox/proxy.go:149-188 | the response is the lines relayed before the context was cancelled, the task has been given every id they recorded in order, and the call fails exactly when a line does not fit the scanner or the upstream body breaks off and the context is not cancelled |
| EventStream.RelayOne | backend/internal/sandbox/proxy.go:158-179 | one line is passed on, and the task is given the id that the line records, if any |
| EventStream.RelayEchoes | backend/internal/sandbox/proxy.go:149-184 | the output is the input if and only if every line is terminated, fits the 1 MiB scanner and does not end in a carriage return |
| EventStream.RelayScanned | backend/internal/sandbox/proxy.go:153-184 | the loop relays a prefix of the lines, up to the first look at a cancelled context |
| Trimming.TrimsAgreeExactly | backend/internal/sandbox/proxy.go:165-168 | Go and JavaScript trim a text alike if and only if, without the white space both trim, it neither begins nor ends with U+0085 or U+FEFF |
| StreamAgreement.RelayReads | backend/internal/sandbox/proxy.go:160-176 | the relay records the non-empty session ids of exactly the data texts it takes for session.init payloads, by its own rules and its own trim |
| StreamAgreement.ParserReads | frontend/src/hooks/useChat.ts:12-27 | so does the parser by its rules; a prefix of them if a data line is not JSON and ends it |
| StreamAgreement.AgreeExactly | frontend/src/hooks/useChat.ts:18-26 | on any lines, relay and parser name the same ids whatever the JSON holds if and only if their payload texts are the same |
| StreamAgreement.FirstAgreesExactly | backend/internal/sandbox/proxy.go:167-175 | they name the same first id, whatever the JSON holds, if and only if their payload texts occur for the first time in the same order |
| StreamAgreement.RelayAndParserAgree | frontend/src/hooks/useChat.ts:12-27 | for every body, cut off after any line, and every chunking: if the payload texts are the same, the browser parses the ids that the relay recorded; a prefix if a data line is not JSON |
| StreamAgreement.StoredSessionIsFirstParsed | backend/internal/sandbox/proxy.go:167-175 | a task without a session ends with the first session id the browser parses, on every store, if the payload texts occur first in the same order; if there is none and the parse ran to its end, it is unchanged |
| StreamAgreement.FirstSessionStays | backend/internal/task/store.go:138-153 | of many recorded ids the one that stays is the one the task had, or else the first |
| StreamAgreement.FramesAgree | backend/internal/sandbox/proxy.go:160-179 | streams of event, data and blank line frames have the same payload texts on both sides if both languages trim those texts alike |
| StreamAgreement.OneFrameAgreesExactly | backend/internal/sandbox/proxy.go:165-168 | for one session.init frame that is an if-and-only-if |
| StreamAgreement.ByteOrderMarkDiffers | frontend/src/hooks/useChat.ts:22-22 | a byte order mark before the JSON of a payload is trimmed by the browser and part of the text for the relay |
| StreamAgreement.SecondDataLineDiffers | frontend/src/hooks/useChat.ts:21-25 | of two data lines in one session.init frame the relay takes both for payloads, the parser the first |
| Lines.SplitAppend | frontend/src/hooks/useChat.ts:15-17 | cutting a text after a part of it needs only the unfinished line of that part |
| Lines.SplitJoin | frontend/src/hooks/useChat.ts:16-17 | cutting undoes joining |
| Lines.JoinSplit | frontend/src/hooks/useChat.ts:16-17 | joining undoes cutting |
| Lines.Scan | backend/internal/sandbox/proxy.go:149-153 | the scanner yields lines without their carriage return, up to the first that does not fit |
| Lines.AsciiLength | backend/internal/sandbox/proxy.go:150-150 | a line of ASCII characters fits if and only if it is shorter than 1 MiB |
| Lines.DropsOneReturn | backend/internal/sandbox/proxy.go:149-158 | one trailing carriage return is dropped and nothing else |
| Chain.BuildMainChain | frontend/src/lib/chainBuilder.ts:12-37 | returns the walk from the last leaf, which is its full ancestor path, oldest first and duplicate-free, or all eligible entries when there is no leaf; for all entries on which the loop ends; and no entry of a sidechain or a team or marked meta |
| Chain.Walk | frontend/src/lib/chainBuilder.ts:29-36 | every entry the walk passes, oldest first |
| Chain.IndexEntries | frontend/src/lib/chainBuilder.ts:18-23 | the Map and the Set are those of the eligible entries |
| Chain.WalkEndsExactly | frontend/src/lib/chainBuilder.ts:30-34 | for all entries, repeated uuids included, the walk ends if and only if it never comes back to an entry, and then within as many steps as there are entries |
| Chain.MainChainExistsExactly | frontend/src/lib/chainBuilder.ts:25-36 | there is a result if and only if the walk from the last leaf ends; with unique uuids, a full ancestor path of the last leaf exists if and only if it does |
| Chain.MainWalkUnique | frontend/src/lib/chainBuilder.ts:12-37 | the result is determined by the entries |
| Chain.MainWalkIsMainChain | frontend/src/lib/chainBuilder.ts:12-37 | it is an ancestor path of the last leaf, and with unique uuids the only one |
| Chain.MainWalkIsPlain | frontend/src/lib/chainBuilder.ts:15-16 | no entry of the result is of a sidechain or a team, or meta |
| Chain.NewRootIsResult | frontend/src/lib/chainBuilder.ts:15-36 | any other entry is kept: appended with no parent and a uuid of its own that nobody names, it is the whole result |
| Chain.MainWalkInFull | frontend/src/lib/chainBuilder.ts:18-36 | by the entries' fields alone: the result ends in the last entry that none names as parent, each of its entries is named by the next, and its first names none that is there |
| Chain.MainWalkWithoutEnd | frontend/src/lib/chainBuilder.ts:25-27 | if every eligible entry is named, the result is all of them in their order |
| Chain.AncestorPathExistsExactly | frontend/src/lib/chainBuilder.ts:30-34 | with unique uuids an entry has a full ancestor path if and only if the walk from it ends |
| Chain.WalkMayNotEnd | frontend/src/lib/chainBuilder.ts:30-34 | an entry that is its own parent with a leaf below it: the walk from the leaf goes on after every number of steps, and there is no chain |
| Chain.AcyclicHasMainChain | frontend/src/lib/chainBuilder.ts:25-36 | acyclic parent links always give a leaf and a walk that ends |
| Chain.LeafExists | frontend/src/lib/chainBuilder.ts:25-27 | an acyclic non-empty history has a leaf |
| Chain.LinkedPathIsDistinct | frontend/src/lib/chainBuilder.ts:29-34 | without cycles no linked path repeats an entry |
| Chain.AncestorPathUnique | frontend/src/lib/chainBuilder.ts:29-36 | an entry has one ancestor path |
| Chain.MainChainUnique | frontend/src/lib/chainBuilder.ts:12-37 | with unique uuids the ancestor path is determined by the entries |
| Chain.InsertIneligible | frontend/src/lib/chainBuilder.ts:15-16 | sidechain, team and meta entries inserted anywhere never change the result, nor whether there is one |
| Chain.AppendedIsLastLeaf | frontend/src/lib/chainBuilder.ts:25-26 | a fresh entry becomes the last leaf |
| Chain.AppendKeepsAcyclic | frontend/src/lib/chainBuilder.ts:18-23 | and closes no cycle |
| Chain.AppendExactly | frontend/src/lib/chainBuilder.ts:12-37 | for all entries: after a fresh entry the result is the walk from where that leads, if it leads anywhere, and then the entry, and nothing else; a rewind cuts |
| Chain.AppendedEndsChain | frontend/src/lib/chainBuilder.ts:25-36 | every result then ends in the fresh entry |
| Chain.AppendExtends | frontend/src/lib/chainBuilder.ts:12-37 | in terms of ancestor paths: before the fresh entry comes one of a parent of it, if there is any |
| Chain.AppendGives | frontend/src/lib/chainBuilder.ts:12-37 | conversely, any ancestor path of a parent of the fresh entry is, with the entry, one of the extended history |
| Chain.ContinuationExactly | frontend/src/lib/chainBuilder.ts:12-37 | for all entries: a fresh child of the last leaf extends the result by one, and the longer result comes from no other |
| Chain.ContinuationExtends | frontend/src/lib/chainBuilder.ts:12-37 | the same in terms of ancestor paths, which unique uuids determine |
| Messages.Separate | frontend/src/lib/chainBuilder.ts:136-154 | candidates and sidechain groups of the input |
| Messages.AddToGroup | frontend/src/lib/chainBuilder.ts:145-152 | one sidechain entry extends its own group only |
| Messages.GroupsPartition | frontend/src/lib/chainBuilder.ts:145-152 | every sidechain assistant entry with an agent lies in its agent's group as often as in the input, and in no other |
| Messages.Index | frontend/src/lib/chainBuilder.ts:174-243 | a pass over the main chain leaves, for each tool call, the value of its last answer of that sort |
| Messages.IndexEntry | frontend/src/lib/chainBuilder.ts:183-198 | the tool results of one user entry continue such a pass |
| Messages.Descriptions | frontend/src/lib/chainBuilder.ts:165-172 | the description of an agent type is that of its last metadata entry |
| Messages.LookUp | frontend/src/lib/chainBuilder.ts:159-243 | the three Maps hold traces, answered questions and result texts of the last answers |
| Messages.BuildMessages | frontend/src/lib/chainBuilder.ts:135-256 | one message per main-chain entry that is not a bare tool result, in chain order, with its tool calls looked up in those Maps; for every chain and Maps that meet their specifications, this is the result |
| Messages.MessagesFollowChain | frontend/src/lib/chainBuilder.ts:246-255 | wherever the chain is cut, the messages of the parts follow each other, and each entry gives its own message, or none if it is a bare tool result: nothing is lost, doubled, moved or mixed |
| Messages.MessagesUnique | frontend/src/lib/chainBuilder.ts:135-256 | chain, Maps and messages are determined by the entries, repeated uuids included |
| Messages.TraceShowsWholeGroup | frontend/src/lib/chainBuilder.ts:174-199 | an Agent call shows a trace exactly when a main-chain tool result names an agent for it, and then all of that agent's sidechain entries in order |
| Messages.TextIsPlainAnswer | frontend/src/lib/chainBuilder.ts:220-243 | the text shown for a tool call is of an answer that names no agent and answers no questions |
| Messages.MessageIdsDistinct | frontend/src/lib/chainBuilder.ts:246-255 | with unique uuids no two messages of the result share an id |
| MessageContents.HeadOfMessage | frontend/src/lib/chainBuilder.ts:39-51 | id, role and compact mark of a message; a user message has no calls, thoughts or questions; a plain text is taken as it is, and no blocks give nothing |
| MessageContents.TextOfMessage | frontend/src/lib/chainBuilder.ts:60-63 | the text of a message is that of its text blocks, in order |
| MessageContents.CallsOfMessage | frontend/src/lib/chainBuilder.ts:64-76 | its calls are its tool uses, in order: id, name and input, the trace for an Agent only, and the result text |
| MessageContents.ThoughtsOfMessage | frontend/src/lib/chainBuilder.ts:78-80 | its thoughts are its thinking blocks, in order |
| MessageContents.QuestionsOfMessage | frontend/src/lib/chainBuilder.ts:82-90 | its answered questions are those of its AskUserQuestion uses that were answered, in order |
| MessageContents.TracesShown | frontend/src/lib/chainBuilder.ts:174-199 | for every call in every message: a trace exactly when the call is an Agent's and an answer to it names an agent; then type, description, summary, tokens and all messages of the agent that the last such answer names |
| MessageContents.ResultsShown | frontend/src/lib/chainBuilder.ts:220-243 | for every call in every message: the text of the last answer to it that is not empty, names no agent and answers no questions, or none |
| MessageContents.QuestionsKnown | frontend/src/lib/chainBuilder.ts:201-218 | the answered questions of a call are those of the last answer to it that has any |
| MessageContents.AnswersInOrder | frontend/src/lib/chainBuilder.ts:183-198 | answers are the tool results with an id in the blocks of user entries, in chain order |
| MessageContents.LastDecides | frontend/src/lib/chainBuilder.ts:174-243 | the answer that counts is the last of its sort for the call |
| MessageContents.ShownExactly | frontend/src/lib/chainBuilder.ts:104-110 | an entry is left out exactly when it is a user's whose blocks hold a tool result and no text |
| MessageContents.CandidatesAndGroups | frontend/src/lib/chainBuilder.ts:140-154 | candidates are the user and assistant entries outside sidechains, groups the assistant entries inside by agent, each as often as it was there |
| MessageContents.SubagentMessagesAre | frontend/src/lib/chainBuilder.ts:112-132 | a subagent has one message for each of its entries, with its uuid, text and tool uses |
| MessageContents.DescriptionIs | frontend/src/lib/chainBuilder.ts:165-172 | the description of an agent type is that of the last metadata entry of the type |
| Schedules.IndexAlwaysAgrees | backend/internal/schedule/scheduler.go:42-142 | after any sequence of restarts, Create, Update, Toggle, Delete, ticks and fires, entries is a bijection onto the live cron entries, every enabled recurring schedule has exactly one, under its current expression, and a disabled schedule has none or a one-shot |
| Schedules.DisabledEntryIsHarmless | backend/internal/schedule/runner.go:33-37 | an entry that a disabled schedule still has is a one-shot, and when it comes due no run starts and no row changes |
| Schedules.DisabledKeepsEntry | backend/internal/schedule/scheduler.go:92-102 | a one-shot that was fired through the API and is then made recurring is disabled, recurring and still indexed |
| Schedules.StepKeepsIndex | backend/internal/schedule/service.go:64-216 | every single operation keeps that |
| Schedules.ReloadedCurrent | backend/internal/schedule/scheduler.go:92-102 | reloading makes one schedule current whatever was registered for it before |
| Schedules.StartIndexes | backend/internal/schedule/scheduler.go:42-57 | registering all enabled rows into an empty index gives each exactly its job |
| Schedules.OneShotFires | backend/internal/schedule/runner.go:33-148 | a schedule that stays @once creates at most 1 + (number of times it was toggled on) runs, over any mix of ticks, API fires, catch-ups and restarts |
| Schedules.StepKeepsBudget | backend/internal/schedule/runner.go:82-96 | runs + (1 if enabled) never exceeds that number, step by step |
| Schedules.GuardCountsUnfinished | backend/internal/schedule/runner.go:39-49 | a run that the skip guard counts has not finished; a finished one holds a terminal outcome; without user messages the guard counts exactly the runs between SetProvisioning and storing their result |
| Schedules.FiresExactly | backend/internal/schedule/runner.go:39-49 | an enabled skipping schedule fires if and only if no run of it blocks: untouched runs block exactly between SetProvisioning and storing their error or outcome, so not when just launched, nor between storing the error and the outcome; a run whose task a user has messaged blocks while unfinished and neither new nor in error |
| Schedules.LostRunBlocks | backend/internal/schedule/runner.go:98-120 | a run whose process died in progress stays so, and blocks its skipping schedule in every later world until a user messages it |
| Schedules.OutcomeStoredOnce | backend/internal/task/store.go:178-189 | a stored outcome never changes |
| Schedules.StepKeepsRuns | backend/internal/schedule/runner.go:98-120 | one step changes a run only along its own path |
| Schedules.TwoFiresBeforeProvisioning | backend/internal/schedule/runner.go:39-49 | the guard does not keep runs apart: two fires of a skipping schedule before the first sets its state end with two counted runs |
| ScheduleRows.NoRunsAfterToggleOff | backend/internal/schedule/service.go:201-216 | from a toggle-off to the next toggle-on of a schedule no tick, API fire, edit or restart starts a run of it |
| ScheduleRows.NoRunsWhileOff | backend/internal/schedule/runner.go:34-37 | the same from any world in which it is off |
| ScheduleRows.ToggleIs | backend/internal/schedule/service.go:201-216 | a toggle changes the flag of the row and nothing else of any row; on, the schedule is indexed by its row; off, neither entry nor live job is left of it |
| ScheduleRows.CreateIs | backend/internal/schedule/service.go:64-117 | the created row field by field, its next time, and its entry; a refused create changes nothing |
| ScheduleRows.UpdateIs | backend/internal/schedule/service.go:119-176 | each given field is taken and each other one kept; the next time follows a one-shot's new run time, or else a new expression; an enabled schedule is indexed by the new row |
| ScheduleRows.DeleteIs | backend/internal/schedule/service.go:178-184 | row, entry and live job are gone, the runs stay |
| ScheduleRows.FireIs | backend/internal/schedule/runner.go:33-96 | a fire adds one fresh run and moves the next time, or switches a one-shot off; or it changes nothing |
| ScheduleRows.TickIs | backend/internal/schedule/runner.go:139-148 | a job that comes due fires its schedule, and a one-shot leaves the index |
| ScheduleRows.JobsAreCurrent | backend/internal/schedule/scheduler.go:114-142 | in every reachable world an enabled recurring schedule runs its own expression, and an indexed one-shot its own time |
| ScheduleRows.OutcomesAre | backend/internal/schedule/runner.go:103-119 | which outcome a run stores: completed, timeout or failed by what the stream returned, failed for the provisioning |
| ScheduleRows.StatesAre | backend/internal/schedule/runner.go:173-178 | which state the task of a run takes at each step |
| Scheduler.OneShotPickedUpAtStart | backend/internal/schedule/scheduler.go:47-55 | at a restart a one-shot is fired by the catch-up or planned by the cron runner, never both, and neither exactly when its time lies between the two clock readings |
| Scheduler.MissedIs | backend/internal/schedule/scheduler.go:70-79 | a one-shot is missed when its run time has passed, a recurring schedule when its next time has |
| Scheduler.Scheduler.constructor | backend/internal/schedule/scheduler.go:26-33 | a new process has an empty index over the existing rows |
| Scheduler.Scheduler.Start | backend/internal/schedule/scheduler.go:42-83 | registers the enabled rows in query order and catches up exactly the missed ones, each once and in that order |
| Scheduler.Scheduler.Reload | backend/internal/schedule/scheduler.go:92-102 | re-registers an enabled row and leaves a disabled or missing one alone |
| Scheduler.Scheduler.Remove | backend/internal/schedule/scheduler.go:105-112 | takes one schedule out of the index and out of the runner |
| Scheduler.Scheduler.Register | backend/internal/schedule/scheduler.go:114-130 | adds the job the row asks for |
| Scheduler.Scheduler.RegisterOnce | backend/internal/schedule/scheduler.go:132-142 | a one-shot without a time is not registered |
| Scheduler.Scheduler.RunFire | backend/internal/schedule/runner.go:33-96 | creates a run exactly when the schedule is enabled and not skipped, and then moves its next time or disables it |
| Scheduler.Scheduler.RunJob | backend/internal/schedule/runner.go:139-148 | a one-shot leaves the index before it fires |
| Scheduler.Scheduler.Create | backend/internal/schedule/service.go:64-117 | refuses a one-shot without a time or with one in the past; otherwise stores and registers |
| Scheduler.Scheduler.Update | backend/internal/schedule/service.go:119-176 | the edited row, with its next time by the new kind, registered anew |
| Scheduler.Scheduler.Delete | backend/internal/schedule/service.go:178-184 | out of the index and out of the table |
| Scheduler.Scheduler.Toggle | backend/internal/schedule/service.go:201-216 | on registers, off removes |
| SkillManifest.ManifestsAlwaysOk | backend/internal/api/handlers_resources.go:298-357 | at every step of every interleaving of zip and skill creation, upsert, file deletion, replacement and row deletion, with failures and lost answers at any write, each manifest lists SKILL.md, at most 20 files, and only stored objects under valid paths |
| SkillManifest.StepKeepsInv | backend/internal/api/handlers_resources.go:592-748 | every single step keeps the invariant of rows and handlers in progress |
| SkillManifest.StepGrows | backend/internal/api/handlers_resources.go:649-665 | objects are only added or overwritten, rows keep their path and kind, ids are not reused |
| SkillManifest.PutKeeps | backend/internal/api/handlers_resources.go:323-347 | a put, stored or not, keeps the manifests |
| SkillManifest.InsertKeeps | backend/internal/api/handlers_resources.go:329-335 | so does the insert of a row, refused for a name that is taken |
| SkillManifest.SetKeeps | backend/internal/api/handlers_resources.go:348-354 | so does a manifest update, even one computed from an old manifest |
| SkillManifest.BeginKeeps | backend/internal/api/handlers_resources.go:609-647 | so do the checks that start a handler |
| SkillManifest.AcceptZip | backend/internal/api/handlers_resources.go:277-319 | the upload is accepted, with its SKILL.md and companions, or refused with the reason, as specified on the stripped entries |
| SkillManifest.AcceptedExactly | backend/internal/api/handlers_resources.go:298-319 | refused for the first of: an invalid path, no SKILL.md, more than nineteen others; the others keep their number |
| SkillManifest.PathCharsAre | backend/internal/api/handlers_resources.go:28-28 | the characters of a path |
| SkillManifest.NamesAre | backend/internal/api/handlers_resources.go:21-21 | the names of resources |
| SkillManifest.SortEntries | backend/internal/api/handlers_resources.go:298-310 | the loop finds an invalid path if there is one, and otherwise the last SKILL.md and the companions in order |
| SkillManifest.WrapperIsInvisible | backend/internal/api/handlers_resources.go:277-296 | a zip with SKILL.md at its root and the same zip inside one directory are one upload |
| SkillManifest.RootFileStaysPut | backend/internal/api/handlers_resources.go:277-296 | with SKILL.md at the root nothing is stripped |
| SkillManifest.RemovePath | backend/internal/api/handlers_resources.go:724-737 | the manifest without the path, in order, and whether it was there |
| SkillManifest.WithoutCount | backend/internal/api/handlers_resources.go:724-733 | every other path stays as often as it was listed |
| SkillUpload.ZipIsStored | backend/internal/api/handlers_resources.go:277-357 | an accepted zip, uploaded without interference or failure, leaves one new skill listing SKILL.md and the companions in order, and under its path exactly the files of the zip with their bytes (the last of a repeated path); nothing else changes |
| SkillUpload.UploadIsStored | backend/internal/api/handlers_resources.go:321-355 | the same for any SKILL.md and companions, so for a skill created without a zip too |
| SkillUpload.RefusedCreate | backend/internal/api/handlers_resources.go:321-335 | a create refused for a name that is taken has already overwritten the SKILL.md stored under that path; it leaves the stored bytes as they were if and only if it brought the same ones |
| SkillUpload.UpsertIsStored | backend/internal/api/handlers_resources.go:636-667 | an undisturbed upsert overwrites the object and appends the path to the manifest exactly when it is new |
| SkillUpload.RemovalIsStored | backend/internal/api/handlers_resources.go:724-740 | an undisturbed removal takes out the path alone and leaves the objects |
| SkillUpload.SkillIsStored | backend/internal/api/handlers_resources.go:142-180 | an undisturbed create leaves one row listing SKILL.md and its bytes |
| SkillUpload.MainFileIsReplaced | backend/internal/api/handlers_resources.go:450-469 | an undisturbed replacement changes the bytes of SKILL.md and nothing else |
| SkillUpload.RowIsDeleted | backend/internal/api/handlers_resources.go:496-520 | a deletion removes the row and leaves the objects |
| SkillUpload.RefusedChangesNothing | backend/internal/api/handlers_resources.go:609-647 | an upsert is refused exactly for an invalid path or a new one over twenty, a removal exactly for SKILL.md, an invalid path or one not listed; what is refused changes nothing |
| Injection.InjectResources | backend/internal/sandbox/manager.go:237-296 | for any manifests: nothing is written but targets of listed skill files and the configuration, and earlier commands stay; on success every listed file of every skill was written with its stored bytes, its directory made before, and the configuration names every MCP server; it fails only if a request fails or an object is missing |
| Injection.McpServersAre | backend/internal/sandbox/manager.go:278-279 | a server is bound to the configuration of the last resource of its name |
| Injection.OnlyMcpServers | backend/internal/sandbox/manager.go:278-279 | no other name is bound |
| Injection.LegacySkill | backend/internal/db/skill_meta.go:10-18 | a skill without a readable manifest is its SKILL.md alone, any other what its manifest lists |
| Injection.InjectSkill | backend/internal/sandbox/manager.go:258-277 | delivers all files of one skill, whatever its manifest lists, writes no other target, undoes nothing earlier |
| Injection.InjectFile | backend/internal/sandbox/manager.go:261-276 | directory, then bytes, then write; stops at the first failure |
| Injection.WritesStayInSkillDir | backend/internal/sandbox/manager.go:259-273 | every write of a skill leads, dots and empty segments resolved, strictly below that skill's directory |
| Injection.InjectionStaysInside | backend/internal/sandbox/manager.go:237-296 | of a whole injection, with valid paths, every write but the configuration leads below the directory of some skill |
| Injection.TargetStaysInSkillDir | backend/internal/api/handlers_resources.go:28-40 | a valid path adds its own segments to the skill directory, with nothing to resolve away |
| Injection.TargetInjective | backend/internal/sandbox/manager.go:259-273 | different files, of the same or different skills, have different target texts |
| Injection.TargetsStayApart | backend/internal/api/handlers_resources.go:28-40 | under valid names and paths they also lead to different places |
| Injection.TargetDirIsParent | backend/internal/sandbox/manager.go:262-265 | for a valid path the directory made, by Go's path.Dir, is the one the file lies in |
| Injection.SkillsStayDelivered | backend/internal/sandbox/manager.go:256-281 | injecting another skill leaves the earlier ones delivered |
| Injection.McpKeepsSkills | backend/internal/sandbox/manager.go:283-291 | the configuration file is no skill file |
| Injection.ReachableIsInjectable | backend/internal/sandbox/manager.go:238-260 | what the table holds after any run of the handlers satisfies what injection needs, lists valid paths only, and every object it lists is there |
| Injection.UploadIsDelivered | backend/internal/sandbox/manager.go:258-277 | from zip to sandbox: once an uploaded zip has been injected, each of its files lies under the skill's directory with its bytes |

## Left out

- HTTP routing, authentication, JSON, cron parsing, UTF-8 decoding and the clients of MySQL, Redis, S3 and execd: parameters, or single atomic operations that may fail.
- StateString tables, titles, task lists, extra environment, git URLs: settled by one branch, or never read by what is modelled.
- SetRunOutcome on the Task object: its write-once rule is part of `Schedules`, not of `TaskOps`.
- The 7-day expiry of the sandbox hash: no step of the protocol lets it expire.
- The all-Redis store under interleaving: only its single-caller behaviour is modelled; the interleaved machine is MySQL+Redis.
- SendMessage's order of calls (backend/internal/api/handlers_tasks.go:248-277): the machine allows its calls, and any others, in any order.
- Scheduler operations, job ticks and the database section of a fire interleave as whole steps, and their database calls succeed; catch-up fires appear as fires that may come at any time.
- The clock of the scheduler: the next time of a recurring schedule is any value, and a live entry may tick at any time.
- The download pool is a value updated step by step rather than an array shared by goroutines; the steps are those of the goroutines.
- Reading a response stream as bytes: chunks are text, so an incomplete UTF-8 sequence at the end of a chunk, and a byte order mark at the start of the stream, are not modelled.
- The message reducer of useChat and the components that show messages.
- Size limits of uploads, directory entries and the __MACOSX filter of a zip: applied before the entries reach the model.
- Raw meta in UpdateResource, which can store any manifest: excluded, as it can break what the other handlers keep.
- The object of an MCP server, and the active mark of a resource: nothing modelled depends on them.
- ZipIsStored: for an upload without failures that no other handler interleaves with; under interleaving and failures only the manifest invariant is claimed.
- UpsertIsStored: the same.
- RemovalIsStored: the same.
- StreamMessage: does not model the request before the stream and the title lookup after it.
- RelayAndParserAgree: takes the JSON readers of Go and of the browser for one function, as it does in all statements about both sides; where the two disagree on a text, its session id may too.
- Deleting the task of a run: runs of a schedule are never removed.
- InjectSkill: for manifests with invalid paths, which only raw meta can store, it speaks of the texts of paths; two of them may then lead to one file.
- BuildMainChain: asks that the walk from the last leaf ends, since the loop of the source does not end otherwise; WalkEndsExactly and WalkMayNotEnd.
- ProvisionedHasRoute: asks that three kinds of write do not come after another process has acquired the lock, which the code does not guarantee; RouteLostExactly and ProvisioningHazards show what happens otherwise.
- CommitsBalanceResets: the same hypothesis.
- OneBodyInLease: asks that no late release frees the lock of another goroutine of its server, which the code does not guarantee; LateUnlockAdmitsTwo.
