# Model of the SSH workspace: folders, migration, sessions, options

This project models the stateful core of a browser SSH workspace on Cloudflare Workers and
proves what that core promises. Run `dafny verify dfyconfig.toml` to check it.

* **Folder forest** (`Folder*.dfy`). The tables `folders` and `connections`, batches of SQL
  statements with the constraints of the schema, and every operation of the store as a method.
  The cached `recursive_host_count` is proved equal to the plain count after every operation.
* **Bootstrap** (`Bootstrap*.dfy`, `KvPaging.dfy`). The leased migration from KV to D1 as a
  protocol between any number of runners, one database or KV call per step, with stalls, lost
  leases, stale resumes, failures and retries; and the same code run by one runner and its polling loop.
* **Session, transport, client, files** (`Session*.dfy`, `RateLimiter.dfy`, `BackendSession.dfy`,
  `Transport*.dfy`, `WorkerTransport.dfy`, `ClientRequests.dfy`, `Base64.dfy`, `Sftp*.dfy`).
  State machines over messages and completions in any order, classes proved against them, and the
  chunked file transfer end to end: client loops, encoding, frames, rate limiter, session, file handles.
* **Quota** (`Quota*.dfy`, `SessionQuota.dfy`). Lazy expiry against eager expiry by timers.
* **Options** (`Tokenizer.dfy`, `SshOption*.dfy`, `OptionText.dfy`, `OptionRules.dfy`, `OptionForm.dfy`,
  `GoOptions.dfy`, `GoRules.dfy`, `OptionHop.dfy`).
  The tokenizer against a grammar of writings; validation, form and Go readers as one round trip.
* **Key cache and legacy migration** (`KeyCache*.dfy`, `Legacy*.dfy`, `ConcurrentMap.dfy`).

Each component that changes state has a value-level specification (functions over states, in the
`*Model`, `*Tables` and `*Protocol` modules), a class or methods with the loops of the source that
are proved to compute exactly it, and theorems about all its runs. The `*Effects`, `*Rules`,
`BootstrapLease` and `BootstrapRuns` modules say what single steps do in terms of the data alone.

Some decisions: an operation of `D1ConnectionStore` is one atomic step, since the source does not
serialize concurrent calls either; only the bootstrap, the session, the transport, the legacy
migration and the worker pool are interleaved. Envelopes open and seal by function parameters, of
which only "what is sealed opens to the same plaintext as v3" is assumed. A KV cursor is a position in a fixed
order of ids; at bootstrap the listed keys are the only `conn:` keys and the connections table starts empty.
Folder names are compared by a token, an arbitrary function of the trimmed name. Clocks are
parameters. Tokens of the rate limiter are counted in thousandths and percentages are rounded on
exact fractions, halves up, as `Math.round` does.

Places where the code does something its callers may not expect are stated as theorems, with the exact condition:

* A promote is refused when a child bears the name of the folder being deleted, although the result would
  have unique names (`FolderHistory.PromoteRefusedExactly`).
* The client sends the chunks of a file without pause, and the request that the rate limiter refuses closes the whole
  session: a write with no time between its requests fails above 19 MiB (`SftpRates.BurstWriteExactly`).
* A call open at `disconnect` is not settled by its response nor by the close event (`ClientRequests.DisconnectedIsDeaf`).
* An update of a connection between the second read and the put of the legacy migration is lost
  (`LegacyMigration.PutConservesExactly`).
* The continuation law of the tokenizer fails for accepted texts that end in a lone backslash
  (`Tokenizer.ConcatExactly`).

## Model

| member | source | states |
|---|---|---|
| `FolderHistory.History` | src/worker/d1-store.ts:287-726 | After any sequence of operations from the empty store, successful or refused, every cached count equals the number of connections whose folder chain passes through the folder, every folder reaches a root within 8 steps, names are unique in their scope, and every connection's folder exists. |
| `FolderHistory.CountsAreDetermined` | src/worker/d1-store.ts:827-842 | The cached counts carry no information of their own: two consistent stores with the same folders and connections are equal, so the contracts below fix the new counts too. |
| `FolderStore.D1ConnectionStore.Batch` | src/worker/d1-store.ts:317-317 | A batch runs its statements in order under the table constraints and leaves either all of their effect or none. |
| `FolderTables.OneRowNames` | src/worker/d1-bootstrap.ts:90-91 | Changing one folder row keeps the unique index on (scope, token) exactly when no other row has the new pair. |
| `FolderTables.DeleteRestricted` | src/worker/d1-bootstrap.ts:79-103 | ON DELETE RESTRICT: a folder goes exactly when nothing refers to it. |
| `FolderTables.UpdatesConstrained` | src/worker/d1-bootstrap.ts:79-103 | Foreign keys: pointing an existing row at a missing folder fails, and only then. |
| `FolderTables.NamesConstrained` | src/worker/d1-bootstrap.ts:90-91 | The unique index on scope and token, and the primary key, refuse exactly the rows that repeat one. |
| `FolderTables.InsertConnectionConstrained` | src/worker/d1-bootstrap.ts:79-103 | A connection needs a new id and an existing folder, or none. |
| `FolderStore.D1ConnectionStore.AncestorIds` | src/worker/d1-store.ts:810-825 | The recursive query ends and lists exactly the chain from the folder to its root, each folder once. |
| `FolderPaths.PathDistinct` | src/worker/d1-store.ts:810-825 | A chain never repeats a folder: no folder is its own ancestor. |
| `FolderStore.D1ConnectionStore.DescendantRows` | src/worker/d1-store.ts:848-862 | The recursive query ends and lists every folder of the subtree once, each with its depth below the top. |
| `FolderStore.D1ConnectionStore.FolderSubtreeHeight` | src/worker/d1-store.ts:864-867 | The result bounds the relative depth of every folder of the subtree and is reached by one of them. |
| `FolderStore.D1ConnectionStore.IsDescendant` | src/worker/d1-store.ts:869-877 | True exactly when the ancestor stands on the candidate's chain. |
| `FolderStore.D1ConnectionStore.CreateConnection` | src/worker/d1-store.ts:287-319 | Succeeds exactly with a credential of its kind and an existing folder, adds that one row, keeps the invariant; a refusal changes nothing. |
| `FolderCounts.InsertKeepsIndex` | src/worker/d1-store.ts:300-317 | The insert and one count update for each ancestor always succeed and leave every count equal to its plain definition. |
| `FolderStore.D1ConnectionStore.DeleteConnectionById` | src/worker/d1-store.ts:465-474 | Removes exactly that row and keeps the invariant; an unknown id changes nothing. |
| `FolderCounts.DeleteKeepsIndex` | src/worker/d1-store.ts:469-472 | Deleting a connection and lowering the counts of its ancestors leaves every count right. |
| `FolderStore.D1ConnectionStore.MoveConnections` | src/worker/d1-store.ts:491-540 | The result for every input (duplicates, more than 50, missing folder, missing connection); exactly the named connections are in the target, every payload is kept, nothing changes after a refusal. |
| `FolderStore.D1ConnectionStore.CollectDeltas` | src/worker/d1-store.ts:509-518 | The deltas the nested loops accumulate are, for every folder, the change of its plain count, overlapping and cancelling chains included. |
| `FolderHostMoves.HostMoveKeepsIndex` | src/worker/d1-store.ts:520-539 | Moves and non-zero deltas as one batch, in any order of the deltas, lead to a consistent store. |
| `FolderCounts.HostsMoved` | src/worker/d1-store.ts:509-518 | Moving one connection changes each count by membership in the new chain minus membership in the old one. |
| `FolderStore.D1ConnectionStore.CreateFolder` | src/worker/d1-store.ts:542-588 | Each refusal (empty name, missing parent, depth, taken name) happens exactly in its case; success adds the row with its parent, scope, trimmed name and token, changes no other row and keeps the invariant. |
| `FolderEdits.LeafDepthExact` | src/worker/d1-store.ts:548-553 | A leaf under a parent keeps every depth at most 8 exactly when the parent is shallower than 8. |
| `FolderStore.D1ConnectionStore.RenameFolderTo` | src/worker/d1-store.ts:608-637 | Refused exactly for an empty name or a name taken beside the folder; otherwise the trimmed name and its token are stored and nothing else changes. |
| `FolderEdits.RenameExact` | src/worker/d1-store.ts:615-631 | The unique index refuses the update exactly when a sibling has the new token. |
| `FolderStore.D1ConnectionStore.MoveFolder` | src/worker/d1-store.ts:639-678 | The result is the one MoveOutcome gives (not found, unchanged, cycle, depth, duplicate, moved). After a move the folder has its new parent and its own name and token, every other row keeps parent, scope, name and token, all counts are right; a refusal changes no table. |
| `FolderMoves.MoveDepthExact` | src/worker/d1-store.ts:646-650 | depth(target) + height(subtree) <= 8 holds exactly when every folder of the moved subtree has depth at most 8 afterwards. |
| `FolderMoves.HostsAfterMove` | src/worker/d1-store.ts:653-672 | A count changes by the source's count along the part of the chains that old and new ancestors do not share. |
| `FolderMoves.MoveKeepsIndex` | src/worker/d1-store.ts:653-672 | Re-parenting, then subtracting the cached count along the old chain and adding it along the new one, keeps the whole invariant even where the chains overlap. |
| `FolderMoves.MoveNameExact` | src/worker/d1-store.ts:672-677 | The move runs into the unique index exactly when a folder in the target scope has the same token. |
| `FolderStore.D1ConnectionStore.DeleteFolderIn` | src/worker/d1-store.ts:680-726 | Both modes: the exact result. After a promote every other folder keeps name, token and count, every connection its payload, and what was in the deleted folder is in its parent; after a recursive delete exactly the subtree and its connections are gone, whose number is the cached count. |
| `FolderStore.PromotedIsHandedOver` | src/worker/d1-store.ts:686-697 | The tables of a promote, row by row. |
| `FolderStore.RelinkedIsMovedUnder` | src/worker/d1-store.ts:652-660 | The folders after a move, row by row. |
| `FolderDeletes.RunPromote` | src/worker/d1-store.ts:686-703 | The promote batch leaves the promoted tables or fails on the unique index; ON DELETE RESTRICT never fires. |
| `FolderDeletes.PromoteKeepsIndex` | src/worker/d1-store.ts:686-703 | A successful promote keeps every connection, the count of every other folder, sibling uniqueness and depth. |
| `FolderDeletes.PromoteNamesExact` | src/worker/d1-store.ts:693-702 | The promote is refused exactly when a child's token equals that of a folder beside the deleted one or of the deleted one itself. |
| `FolderHistory.PromoteRefusedExactly` | src/worker/d1-store.ts:693-702 | Refusal is unique names of the result plus one more condition: no child bears the name of the folder being deleted. |
| `FolderHistory.PromoteRefusalExample` | src/worker/d1-store.ts:693-702 | A concrete store where the promote is refused although its result would be consistent. |
| `FolderRemoval.RunRemoval` | src/worker/d1-store.ts:706-725 | Connections first, then folders deepest first, then the counts: no statement of the recursive delete can fail. |
| `FolderRemoval.DeepestFirst` | src/worker/d1-store.ts:713-715 | In an order of descending depth every folder comes after all folders below it. |
| `FolderRemoval.SortIsSorted` | src/worker/d1-store.ts:713-713 | The sort is a descending order by depth of the same rows. |
| `FolderRemoval.RemovalKeepsIndex` | src/worker/d1-store.ts:706-725 | Exactly the subtree disappears, the cached count equals the connections removed, and all remaining counts are right. |
| `FolderBrowser.DescendantIds` | src/frontend/folder-browser-state.ts:20-33 | The fixpoint loop ends, for a list in any order, with exactly the folders that reach the root over listed parents. |
| `FolderBrowser.FolderMoveTargets` | src/frontend/folder-browser-state.ts:35-45 | The root first, then exactly the listed folders outside the moved subtree, in order by name, like names in the order of the list. |
| `FolderBrowser.SortIsStable` | src/frontend/folder-browser-state.ts:40-44 | The sort by name is in order, loses and adds nothing, and keeps targets with like names as they stood. |
| `FolderBrowser.DialogAgreesWithServer` | src/frontend/folder-browser-state.ts:35-45 | For the list the server returns, a folder is left out exactly when moveFolder would answer with a cycle error. |
| `BootstrapTheorems.CommitIsPhaseStepInRun` | src/worker/d1-bootstrap.ts:350-551 | In every interleaving of any number of runners, each change of phase, cursor, processed or total is one commit by the lease holder and is exactly the phase step of the row as it stands; in cleanup processed grows by the keys listed, up to the total. |
| `BootstrapTheorems.CommitIsPhaseStep` | src/worker/d1-bootstrap.ts:363-378 | The same for one call from any state the invariant allows. |
| `BootstrapTheorems.LostLease` | src/worker/d1-bootstrap.ts:553-566 | A runner that has lost the lease never gets it back, and none of its calls ever changes the bootstrap row. |
| `BootstrapLease.AcquireExactly` | src/worker/d1-bootstrap.ts:226-250 | A new owner takes the row exactly when it is pending or running without an unexpired lease; it then holds it for 60 seconds with its data as they were, otherwise nothing changes. |
| `BootstrapLease.RenewExactly` | src/worker/d1-bootstrap.ts:553-566 | A heartbeat moves the holder's expiry to 60 seconds from now and nothing else; anybody else's fails that runner. |
| `BootstrapLease.LeaseRunsOut` | src/worker/d1-bootstrap.ts:553-566 | In every run a running row expires exactly 60 seconds after its holder's attempt or its last heartbeat. |
| `BootstrapLease.TakeoverIsLate` | src/worker/d1-bootstrap.ts:226-250 | In every run only its holder touches a held row, or a new runner that takes it over by a clock past those 60 seconds. |
| `BootstrapRuns.StepIsARun` | src/worker/d1-bootstrap.ts:226-280 | Whenever the row is free a new runner's calls are enabled one after the other and lead to the phase step, or to the recorded failure exactly when a key of its page does not open or parse. |
| `BootstrapRuns.CanCompleteFromAnyRun` | src/worker/d1-bootstrap.ts:226-280 | No run gets the migration stuck: once the lease is out and if every key opens and parses, further runners bring it to its end. |
| `BootstrapTheorems.DeletesAreSafe` | src/worker/d1-bootstrap.ts:522-533 | In every run a KV key is deleted only when D1 holds a row of that id with the same plaintext. |
| `BootstrapTheorems.CompleteLosesNothing` | src/worker/d1-bootstrap.ts:522-551 | At complete KV holds no connection key, the ids and plaintexts in D1 are the original ones, and every envelope is the original v3 one or a v3 one of its plaintext. |
| `BootstrapSafety.StepKeeps` | src/worker/d1-bootstrap.ts:226-280 | Every call of every runner, stalls, expired leases, stale resumes, failures and retries included, keeps the invariant. |
| `BootstrapSafety.CommitMigrateStale` | src/worker/d1-bootstrap.ts:446-465 | A stale batch fails as a whole or adds only rows of original keys with their own plaintext; it leaves the rows already there, KV and the bootstrap row alone. |
| `BootstrapSafety.CommitMigrateOwned` | src/worker/d1-bootstrap.ts:446-465 | The holder's batch, unless it conflicts, puts every key of the page at the cursor into the table beside the rows already there, and advances the row by exactly that page. |
| `BootstrapSafety.CheckedKeyStale` | src/worker/d1-bootstrap.ts:394-444 | A checked key is in the table or queued with its own plaintext, whoever else has written meanwhile. |
| `BootstrapTheorems.PercentNeverDrops` | src/worker/d1-bootstrap.ts:152-165 | Along every run, failures and retries included, the rounded percentage never goes back and is 100 exactly at complete. |
| `BootstrapTheorems.PercentIsRounded` | src/worker/d1-bootstrap.ts:152-165 | In each phase the percentage is the exact fraction of the phase's share, rounded to the nearest whole number, halves up. |
| `BootstrapModel.FullList` | src/worker/d1-bootstrap.ts:355-361 | With all keys present, paging through KV goes through the key list slice by slice. |
| `BootstrapRunner.RunBootstrap` | src/frontend/bootstrap-runner.ts:22-40 | The polling loop ends; it ends well exactly when every KV key opens and parses, and then after exactly StepsLeft steps. |
| `BootstrapAlone.StepsFromStart` | src/worker/d1-bootstrap.ts:350-551 | That number is 2 max(1, ceil(n/b)) + max(1, ceil(n/v)) + ceil(n/c) + 1 for n keys and batch sizes b, v, c. |
| `BootstrapAlone.ChunksIsCeiling` | src/worker/d1-bootstrap.ts:355-361 | The recursive chunk count is the rounded-up quotient. |
| `BootstrapAlone.CleanupShrinks` | src/worker/d1-bootstrap.ts:527-531 | A cleanup page removes min(batch, remaining) keys. |
| `BootstrapRunner.DatabaseBootstrap.Step` | src/worker/d1-bootstrap.ts:226-280 | One call by a runner nobody disturbs: it stays out of a lease that is still good and out of a finished or failed row; a bad key on the page fails it and leaves stores and progress alone; otherwise it makes one phase step and releases the lease. |
| `BootstrapRunner.DatabaseBootstrap.RenewLease` | src/worker/d1-bootstrap.ts:553-566 | True exactly when the row is still running under this owner; then only the expiry moves. |
| `BootstrapRunner.DatabaseBootstrap.ScanKv` | src/worker/d1-bootstrap.ts:350-378 | A scan step by the holder. |
| `BootstrapRunner.DatabaseBootstrap.MigrateKv` | src/worker/d1-bootstrap.ts:380-466 | Fails exactly when a key of the page does not open or parse; otherwise the table gains exactly the ids of the page. |
| `BootstrapRunner.DatabaseBootstrap.CheckPage` | src/worker/d1-bootstrap.ts:394-444 | The loop over a page queues each missing key once, with its own plaintext, and heartbeats before each key. |
| `BootstrapRunner.DatabaseBootstrap.VerifyD1` | src/worker/d1-bootstrap.ts:468-520 | Never fails for a lone runner, and advances by the rows it has opened. |
| `BootstrapRunner.DatabaseBootstrap.CleanupKv` | src/worker/d1-bootstrap.ts:522-551 | Deletes exactly the listed keys and adds their number to processed, up to the total; the row is complete exactly when nothing was listed. |
| `BootstrapRunner.DatabaseBootstrap.Retry` | src/worker/d1-bootstrap.ts:211-224 | Only a failed row becomes pending again, with its progress kept. |
| `SessionTheorems.SessionIsSafe` | src/worker/backend-ssh-session.ts:161-355 | From the start, in any order of messages, completions and close: at most 4 distinct ids in flight, chunk and close calls only for handles opened and not closed, and the response books balanced. |
| `SessionTheorems.RunKeeps` | src/worker/backend-ssh-session.ts:161-355 | The same from any state the invariant allows; each owed request of an open session is in flight or answered exactly once. |
| `SessionTheorems.StepOwned` | src/worker/backend-ssh-session.ts:284-349 | Every event keeps handle ownership: handles held once, calls only on own open handles, each closed at most once. |
| `SessionTheorems.StepBalanced` | src/worker/backend-ssh-session.ts:216-242 | Every event keeps, for each id, responses plus in-flight equal to requests. |
| `SessionTheorems.StepWindow` | src/worker/backend-ssh-session.ts:223-241 | Every event keeps the window of 4. |
| `SessionTheorems.ClosedForGood` | src/worker/backend-ssh-session.ts:384-423 | After close, whatever happens, no frame is sent and no engine call is made. |
| `SessionTheorems.RefusalEnds` | src/worker/backend-ssh-session.ts:219-222 | The first request beyond the rate ends the session with code 1008: no answer, and no engine calls but those of the close. |
| `SessionTheorems.CompletionIsAnswered` | src/worker/backend-ssh-session.ts:351-354 | A completion on an open session is answered at once under its own id, as a failure exactly when the engine threw or returned too large a chunk; an answer too large for a frame ends the session instead. |
| `SessionTheorems.AcceptanceIsTheClients` | src/worker/backend-ssh-session.ts:129-159 | A host key is accepted only by the client's own answer to the pending challenge, never by a timeout, another message or a close. |
| `SessionEffects.HostKeyAnswer` | src/worker/backend-ssh-session.ts:175-187 | The client's answer to the pending challenge is recorded as given, yes as yes. |
| `SessionEffects.VerdictsExactly` | src/worker/backend-ssh-session.ts:161-242 | While the session stays open a message adds a verdict exactly if it answers the pending challenge. |
| `SessionEffects.OfferExactly` | src/worker/backend-ssh-session.ts:129-159 | An offered key is let through, blocked and reported twice, or put to the client, by what is known. |
| `SessionEffects.TimeoutRefuses` | src/worker/backend-ssh-session.ts:146-151 | An unanswered challenge is refused when its time is out, a later one is not touched. |
| `SessionEffects.ShellMessages` | src/worker/backend-ssh-session.ts:189-209 | Shell messages make exactly their own engine call on the shell held. |
| `SessionEffects.OtherMessages` | src/worker/backend-ssh-session.ts:161-214 | Garbage does nothing; a message too large ends the session with 1009, a disconnect with 1000. |
| `SessionEffects.CloseEnds` | src/worker/backend-ssh-session.ts:384-423 | A close refuses the pending challenge and makes exactly its calls in order, the socket's code last. |
| `SessionEffects.PlainStarts` | src/worker/backend-ssh-session.ts:267-285 | exec, list, stat, mkdir and the like: one engine call with the arguments as given, and the id in flight. |
| `SessionEffects.ShellStarts` | src/worker/backend-ssh-session.ts:269-281 | Opening a shell closes the one held, then opens. |
| `SessionEffects.OpensStart` | src/worker/backend-ssh-session.ts:286-314 | Opening a file asks the engine for that path. |
| `SessionEffects.ReadsStart` | src/worker/backend-ssh-session.ts:290-311 | Chunk and close requests on a read handle held; a close gives the handle up. |
| `SessionEffects.WritesStart` | src/worker/backend-ssh-session.ts:315-334 | The same for a write handle and a chunk within 512 KiB, which is handed on as it is. |
| `SessionEffects.UnservedIsRefused` | src/worker/backend-ssh-session.ts:348-354 | Handles not held, chunks that do not decode or are too large, and unknown methods are answered as failed without an engine call. |
| `SessionEffects.UnownedIsDropped` | src/worker/backend-ssh-session.ts:257-263 | Without a connection or a method a request costs its token and is dropped. |
| `SessionEffects.WindowTurnsAway` | src/worker/backend-ssh-session.ts:223-235 | With four requests in flight, or this id among them, a request is turned away and those in flight stay. |
| `SessionEffects.AnswerKept` | src/worker/backend-ssh-session.ts:351-354 | An opened shell or handle is kept, nothing else is, and the id is free again. |
| `SessionEffects.ConnectExactly` | src/worker/backend-ssh-session.ts:104-119 | Ready on a connection, or an error - told once - and the close with code 1011. |
| `SessionTheorems.OpenSessionPassed` | src/worker/backend-ssh-session.ts:216-222 | In a session still open every request so far has passed the bucket. |
| `SessionTheorems.SessionRateBound` | src/worker/backend-ssh-session.ts:244-255 | So requests of an open session in any interval [s, t] number at most 40 + 20 (t - s) / 1000. |
| `RateLimiter.IntervalBound` | src/worker/backend-ssh-session.ts:244-255 | The same for any passing sequence with a forward clock. |
| `RateLimiter.SteadySenderPasses` | src/worker/backend-ssh-session.ts:244-255 | A sender with gaps of at least 50 ms is never refused. |
| `RateLimiter.BurstDrains` | src/worker/backend-ssh-session.ts:244-255 | The bound is tight: of requests at one instant exactly 40 pass. |
| `RateLimiter.FortyAlwaysPass` | src/worker/backend-ssh-session.ts:244-255 | From a full bucket any 40 requests pass, whenever they come. |
| `RateLimiter.BurstPassesExactly` | src/worker/backend-ssh-session.ts:244-255 | Requests at one instant all pass a full bucket exactly when they are at most 40. |
| `SessionModel.ClosedInSteps` | src/worker/backend-ssh-session.ts:384-423 | Close is, in this order: refuse the challenge, close the shell, disconnect, close every handle, close the transport, close the socket with its code when it has one. |
| `BackendSession.BackendSshSession.HandleMessage` | src/worker/backend-ssh-session.ts:161-242 | The message handler does what the state machine does, for every message. |
| `BackendSession.BackendSshSession.StartCall` | src/worker/backend-ssh-session.ts:257-349 | The branches of handleRequest up to the await: which engine call is made, on which state, and when none is. |
| `BackendSession.BackendSshSession.Settle` | src/worker/backend-ssh-session.ts:351-354 | The continuation after an engine answer: handle kept, one response, id leaves the window. |
| `BackendSession.BackendSshSession.ConsumeRequestToken` | src/worker/backend-ssh-session.ts:244-255 | Refill and spend, in thousandths of a token. |
| `BackendSession.BackendSshSession.VerifyHostKey` | src/worker/backend-ssh-session.ts:129-159 | A known fingerprint decides at once; a mismatch blocks and reports; otherwise a challenge is pending. |
| `BackendSession.BackendSshSession.Close` | src/worker/backend-ssh-session.ts:384-423 | The closing sequence with its calls and its code, once. |
| `TransportTheorems.TransportIsOrdered` | src/worker/worker-tcp-transport.ts:84-197 | In every order of sends, completions, reads and close: at most one flush loop, written + in-flight + queue equals the accepted bytes while open, queuedBytes counts in-flight plus queued within the limit, and an open transport with a non-empty queue has a flush loop; reads arrive in order and bounded. |
| `TransportTheorems.StepOk` | src/worker/worker-tcp-transport.ts:84-197 | Every event keeps that invariant. |
| `TransportTheorems.CompletionsDrain` | src/worker/worker-tcp-transport.ts:161-184 | Without new sends each completion of the loop leaves less to do, and nothing left means every accepted byte is written. |
| `TransportEffects.ResolvedWriteCounts` | src/worker/worker-tcp-transport.ts:173-184 | A resolved write counts its own chunk as written. |
| `TransportEffects.RejectedWriteEnds` | src/worker/worker-tcp-transport.ts:179-183 | A rejected write fails the transport; its chunk is not counted. |
| `TransportTheorems.ClosedIsQuiet` | src/worker/worker-tcp-transport.ts:84-105 | After close nothing is accepted and nothing more is handed to the writer. |
| `TransportEffects.SendExactly` | src/worker/worker-tcp-transport.ts:84-94 | A send is accepted exactly when the transport is open and the queue has room; over the limit it fails the transport. |
| `TransportEffects.EverySendIsKept` | src/worker/worker-tcp-transport.ts:84-184 | In every run that leaves the transport open, what is written, being written and queued is, in order, exactly what was sent. |
| `TransportEffects.FirstSendIsWritten` | src/worker/worker-tcp-transport.ts:161-184 | On an idle open socket a send goes to the writer at once. |
| `TransportEffects.OpeningExactly` | src/worker/worker-tcp-transport.ts:115-125 | The opened socket starts the flush loop, unless the transport is closed. |
| `TransportEffects.EveryReadIsKept` | src/worker/worker-tcp-transport.ts:127-159 | Until close or dispose, what is delivered and buffered is, in order, exactly what was read; with a listener all of it is delivered. |
| `TransportEffects.ReadExactly` | src/worker/worker-tcp-transport.ts:129-148 | A read goes to the listener, to the buffer, or ends the transport where the buffer has no room. |
| `TransportEffects.ListenExactly` | src/worker/worker-tcp-transport.ts:52-57 | A listener gets what was buffered and then every read. |
| `TransportEffects.DisposedIsDeaf` | src/worker/worker-tcp-transport.ts:71-78 | After disposeCallbacks nothing is buffered, delivered or listened to. |
| `TransportEffects.EndsExactly` | src/worker/worker-tcp-transport.ts:96-105 | Close, failure and end of stream: what each drops and whether it counts as a failure. |
| `WorkerTransport.WorkerTcpTransport.SendData` | src/worker/worker-tcp-transport.ts:84-94 | send is the state machine's step: dropped when closed, failing over the limit, queued and scheduled otherwise. |
| `WorkerTransport.WorkerTcpTransport.ScheduleWrites` | src/worker/worker-tcp-transport.ts:161-171 | A loop is started exactly when none runs and the transport is open. |
| `WorkerTransport.WorkerTcpTransport.FlushTurn` | src/worker/worker-tcp-transport.ts:173-184 | One turn takes the head of the queue, or leaves when it is empty or the transport closed. |
| `WorkerTransport.WorkerTcpTransport.OnData` | src/worker/worker-tcp-transport.ts:52-57 | Buffered reads are handed over in order and the buffer is emptied. |
| `WorkerTransport.WorkerTcpTransport.TakeRead` | src/worker/worker-tcp-transport.ts:131-148 | A read is delivered, buffered or, over the limit, fails the transport. |
| `ClientRequests.SettledOnce` | src/frontend/backend-ssh-client.ts:412-422 | Once settled a call keeps its result, whatever repeated, stale or foreign responses arrive. |
| `ClientRequests.ResponseReachesItsCall` | src/frontend/backend-ssh-client.ts:141-144 | A response with the id of an open call settles it, with its own result, exactly when it comes over the current socket; no other call is touched. |
| `ClientRequests.RequestIsAnswered` | src/frontend/backend-ssh-client.ts:330-340 | A request over a ready socket stays open until its response arrives there, and then has that response's result: the value, or a refusal. |
| `ClientRequests.UnreadyCallsFail` | src/frontend/backend-ssh-client.ts:330-334 | Without an open socket and a ready session a request leaves no trace. |
| `ClientRequests.FailureSettlesAll` | src/frontend/backend-ssh-client.ts:303-310 | close() and a failed session settle every open call as dropped. |
| `ClientRequests.StrayResponseIgnored` | src/frontend/backend-ssh-client.ts:416-417 | A response with no open call's id settles nothing. |
| `ClientRequests.IdsDiffer` | src/frontend/backend-ssh-client.ts:335-335 | Different calls have different ids, across reconnects too. |
| `ClientRequests.LossSettlesAll` | src/frontend/backend-ssh-client.ts:145-151 | A close event leaves no call open exactly when it is the current socket's, or none was open before; what it settles is dropped, not answered. |
| `ClientRequests.DisconnectedIsDeaf` | src/frontend/backend-ssh-client.ts:295-301 | After disconnect nothing that earlier sockets deliver settles a call: calls open then stay open, until close or the loss of a later socket. |
| `ClientRequests.OpenAfterDisconnect` | src/frontend/backend-ssh-client.ts:295-301 | A call open at a disconnect is still open when its response and the close event have arrived. |
| `ClientRequests.LateResponseExample` | src/frontend/backend-ssh-client.ts:295-301 | A concrete run: open, ready, request, disconnect, response, close event; the request is never settled. |
| `ClientRequests.BackendSshClient.Request` | src/frontend/backend-ssh-client.ts:330-340 | A ready session gets a fresh id and a pending entry; otherwise nothing changes. |
| `ClientRequests.BackendSshClient.HandleResponse` | src/frontend/backend-ssh-client.ts:412-422 | Over the current socket the pending entry of the id is settled and removed; an unknown id or another socket changes nothing. |
| `Base64.DecodeEncode` | src/frontend/backend-ssh-client.ts:53-69 | Base64 of section 4 of RFC 4648: decoding inverts encoding for every byte sequence. |
| `Base64.EncodeInjective` | src/frontend/backend-ssh-client.ts:62-69 | Different byte sequences have different encodings. |
| `Base64.EncodeLength` | src/frontend/backend-ssh-client.ts:62-69 | The encoding has 4 ceil(n/3) characters. |
| `Base64.QuadIsNumber` | src/frontend/backend-ssh-client.ts:62-69 | Four characters are the base-64 digits of the number three bytes make. |
| `Base64.TestVectors` | src/frontend/backend-ssh-client.ts:62-69 | Test vectors of section 10 of RFC 4648. |
| `Base64.SpaceIgnored` | src/frontend/backend-ssh-client.ts:53-60 | White space anywhere does not change what decodes. |
| `Base64.PaddingOptional` | src/frontend/backend-ssh-client.ts:53-60 | Missing padding does not either. |
| `Base64.StrangersRefused` | src/frontend/backend-ssh-client.ts:53-60 | Any other character before the padding is refused. |
| `Base64.BytesToBase64` | src/frontend/backend-ssh-client.ts:62-69 | Building the binary string in pieces of 32 KiB gives the encoding of the whole. |
| `Base64.Base64ToBytes` | src/frontend/backend-ssh-client.ts:53-60 | The loop returns exactly the decoded bytes, or nothing for text that atob refuses. |
| `Base64.LeftoverBitsDropped` | src/frontend/backend-ssh-client.ts:53-60 | Pad bits that are not zero are dropped, as atob drops them: QR== is the one byte 65. |
| `SftpTransfer.RoundTrip` | src/frontend/backend-ssh-client.ts:208-277 | Writing any bytes and reading them back over one session gives the same bytes exactly when all requests of both pass the rate limiter at their times of arrival, no write fails and the reads run to the end, short reads or not; otherwise nothing. |
| `SftpTransfer.WriteFile` | src/frontend/backend-ssh-client.ts:249-277 | It succeeds exactly when all its requests - open, one a chunk, close - get through and no write fails; then the file holds exactly the data. |
| `SftpTransfer.ReadFile` | src/frontend/backend-ssh-client.ts:208-247 | It returns exactly when all its requests get through and the reads run to the end of the file; then it returns the whole content. |
| `SftpTransfer.SendChunks` | src/frontend/backend-ssh-client.ts:260-267 | The write loop: how it ends and after how many chunks, in terms of the requests and the failing writes. |
| `SftpTransfer.FetchChunks` | src/frontend/backend-ssh-client.ts:216-236 | The read loop: how it ends and after how many chunks, in terms of the requests and the reads the file gives. |
| `SftpTransfer.SendChunk` | src/worker/backend-ssh-session.ts:315-327 | One chunk through encoder, frame, rate limiter, session and write handle: gone with the session exactly when refused, appended exactly when the write does not fail. |
| `SftpTransfer.ServeRead` | src/worker/backend-ssh-session.ts:290-302 | A chunk read through the session is the next piece of the file, encoded, and never too large. |
| `SftpTransfer.ConcatBytes` | src/frontend/backend-ssh-client.ts:82-91 | The copies into one array are the concatenation of the chunks. |
| `SftpRequests.RequestPassesOrEnds` | src/worker/backend-ssh-session.ts:216-222 | A request of a waiting session reaches the engine exactly when it passes the bucket; otherwise it ends the session. |
| `SftpRequests.GetThroughIsAllPass` | src/worker/backend-ssh-session.ts:244-255 | Getting through request by request is passing the rate limiter as a sequence of times. |
| `SftpRequests.AnswerWaits` | src/worker/backend-ssh-session.ts:351-354 | The answer goes out under its id, the handle is kept, and the session waits for the next request. |
| `SftpRates.SmallTransferPasses` | src/worker/backend-ssh-session.ts:244-255 | From a full bucket a transfer of at most 40 requests gets through, whenever they come. |
| `SftpRates.PacedTransferPasses` | src/worker/backend-ssh-session.ts:244-255 | With at least 50 ms between its requests a transfer of any size gets through. |
| `SftpRates.BurstWriteExactly` | src/frontend/backend-ssh-client.ts:259-267 | With no time between its requests a write gets through from a full bucket exactly up to 38 chunks, that is 19 MiB. |
| `SftpRates.LargeBurstIsLost` | src/frontend/backend-ssh-client.ts:259-267 | The 42 requests of a 20 MiB write sent at once end the session. |
| `SftpRates.PlainRequests` | src/frontend/backend-ssh-client.ts:216-236 | A file that gives all it is asked for is read in one request more than it is written, and neither loop fails. |
| `SftpFrames.WriteFrameFits` | src/worker/backend-ssh-session.ts:37-41 | The frame of every chunk request is within 768 KiB. |
| `SftpFrames.ChunkFrameFits` | src/worker/backend-ssh-session.ts:37-41 | So is the frame of every chunk response. |
| `SftpFrames.ChunkTextFits` | src/worker/backend-ssh-session.ts:37-41 | A 512 KiB chunk is at most 699052 base64 characters. |
| `SftpFiles.ChunkCountIsCeiling` | src/frontend/backend-ssh-client.ts:260-260 | The write loop takes n / 512 Ki turns, rounded up. |
| `SftpFiles.SftpReadHandle.ReadChunk` | go-ssh/sftpfs.go:134-149 | An error for closed handles, bad sizes and failing reads; otherwise a prefix of the rest, and the position moves by it. |
| `SftpFiles.SftpWriteHandle.WriteChunk` | go-ssh/sftpfs.go:203-219 | An error for closed handles, large chunks and failing writes, which may leave part of the chunk; otherwise appends exactly the chunk. |
| `QuotaTheorems.LazyIsEager` | src/worker/ssh-session-quota.ts:44-116 | With a forward clock every operation of every run on the lazily purged list answers as on a map whose leases are dropped by timers that fire in time, at whatever further instants they also fire. |
| `QuotaTheorems.TimersExist` | src/worker/ssh-session-quota.ts:44-116 | Every run of operations has such timers. |
| `QuotaTheorems.ListAnswersLikeMap` | src/worker/ssh-session-quota.ts:44-116 | The list answers like a map purged at the same instants, forward clock or not. |
| `QuotaTheorems.StepRefines` | src/worker/ssh-session-quota.ts:44-102 | One operation keeps list and map in step and answers alike. |
| `QuotaTheorems.LimitsHold` | src/worker/ssh-session-quota.ts:44-70 | At every instant after every run at most sessionLimit live leases a session and globalLimit in all; keys in the list are distinct. |
| `QuotaTheorems.HeartbeatExact` | src/worker/ssh-session-quota.ts:72-85 | With a forward clock a heartbeat is answered yes exactly when some earlier acquire was granted, no release followed, and no two acquires or heartbeats in a row since then, this one included, are the lease time or more apart. |
| `QuotaTheorems.AnswersExactly` | src/worker/ssh-session-quota.ts:44-116 | Every answer of every run from the requests alone: an acquire renews a lease kept alive or is granted exactly below both limits, heartbeat and release tell whether the lease is kept alive, and the count is the number of those. |
| `QuotaTheorems.DefaultLimits` | src/worker/ssh-session-quota.ts:1-20 | With the source's limits: 3 live leases a session and 10 in all, of 30 seconds. |
| `QuotaTheorems.LiveIffKeptAlive` | src/worker/ssh-session-quota.ts:104-116 | A lease is live exactly while it is kept alive in that sense. |
| `QuotaTheorems.PurgeCommutes` | src/worker/ssh-session-quota.ts:104-116 | Purging earlier makes no difference to a later purge. |
| `SessionQuota.SshSessionQuota.AcquireLease` | src/worker/ssh-session-quota.ts:44-70 | acquire does what the list machine does: renew, refuse for the session, refuse for all, or grant. |
| `SessionQuota.SshSessionQuota.KeepAlive` | src/worker/ssh-session-quota.ts:72-85 | heartbeat renews a live lease in place and refuses any other. |
| `SessionQuota.SshSessionQuota.ReleaseLease` | src/worker/ssh-session-quota.ts:87-96 | release drops the lease and tells whether it was live. |
| `SessionQuota.SshSessionQuota.ActiveLeases` | src/worker/ssh-session-quota.ts:104-116 | Exactly the well-formed, unexpired entries, in order; anything else in storage is ignored. |
| `Tokenizer.TokenizeCommand` | src/shared/ssh-options.ts:88-133 | The loop with its look-ahead computes the same as the character-by-character scanner. |
| `Tokenizer.TokenizerIsExact` | src/shared/ssh-options.ts:88-133 | A text is read as a list of words exactly when it is a writing of them: plain, escaped, single- or double-quoted pieces joined into words kept apart by white space (a final lone backslash counting as doubled). |
| `Tokenizer.TokenizeReadsEveryWriting` | src/shared/ssh-options.ts:88-133 | However words are written, in any mixture of quoting, they are read back. |
| `Tokenizer.TokenizeQuoted` | src/shared/ssh-options.ts:95-112 | Double-quoting any list of strings with backslash escapes, empty strings included, and tokenizing gives the list back. |
| `Tokenizer.CleanConcat` | src/shared/ssh-options.ts:119-126 | If a ends outside quotes without a backslash left over, tokenize(a + space + b) is tokenize(a) followed by tokenize(b), errors included. |
| `Tokenizer.ConcatExactly` | src/shared/ssh-options.ts:113-126 | Of the accepted texts exactly those without a backslash left over have that law. |
| `SshOptions.ValidateSshOption` | src/shared/ssh-options.ts:135-189 | The branches and the token loop compute Validate. |
| `SshOptions.ValidateIsIdempotent` | src/shared/ssh-options.ts:135-189 | What is accepted is accepted again unchanged. |
| `SshOptions.CleanIsFixed` | src/shared/ssh-options.ts:135-189 | The options validation leaves alone are exactly those with a canonical key and a faultless value. |
| `SshOptions.NameIsCanonical` | src/shared/ssh-options.ts:35-37 | Each canonical name is its own canonical spelling. |
| `OptionRules.UnquoteRemoves` | src/shared/ssh-options.ts:75-85 | A matching pair of quotes around a value goes, with the spaces outside it. |
| `OptionRules.UnquoteKeeps` | src/shared/ssh-options.ts:75-85 | Any other value loses only the spaces around it. |
| `OptionRules.SpellingsExactly` | src/shared/ssh-options.ts:35-37 | A key is an option's name exactly in any letter case (the Kelvin sign counting as a K). |
| `OptionRules.AcceptedExactly` | src/shared/ssh-options.ts:135-189 | An option is accepted, under its own name, exactly when its key is such a spelling of a name other than ProxyCommand and its unquoted value has no fault. |
| `OptionRules.UnknownKeysExactly` | src/shared/ssh-options.ts:140-151 | Which keys are unsupported and which are ProxyCommand. |
| `OptionRules.NumeralsExactly` | src/shared/ssh-options.ts:157-172 | Numbers, with leading zeros or not, are accepted exactly from 0 to 600, 1 to 100 and 1 to 120. |
| `OptionRules.ListsExactly` | src/shared/ssh-options.ts:175-186 | A list is accepted exactly when it is names of letters, digits and @._+- with commas between them. |
| `OptionRules.EntriesExactly` | src/shared/ssh-options.ts:199-216 | What an entry amounts to: an option, an unknown key to be listed, or a fault. |
| `Text.TrimDrops` | src/shared/ssh-options.ts:76-76 | trim removes the white space around a text and nothing else. |
| `Text.TrimParts` | src/shared/ssh-options.ts:76-76 | Every text is its trimmed self between white space. |
| `Text.SpacesAre` | src/shared/ssh-options.ts:119-119 | Exactly the 25 characters JavaScript counts as white space. |
| `SshOptionLists.ValidateSshOptions` | src/shared/ssh-options.ts:191-227 | The loop over the entries computes ValidateAll. |
| `SshOptionLists.AcceptedExactly` | src/shared/ssh-options.ts:191-227 | A list is accepted, with given options, exactly when each entry yields the option at its place. |
| `SshOptionLists.UnsupportedExactly` | src/shared/ssh-options.ts:205-225 | Unknown keys are reported together exactly when every entry is good or an unknown key met for the first time; then each is named once. A repeated unknown key is refused on its own. |
| `SshOptionLists.FirstFaultDecides` | src/shared/ssh-options.ts:199-216 | Otherwise the first entry that does not pass decides the answer. |
| `SshOptionLists.ListIsIdempotent` | src/shared/ssh-options.ts:191-227 | A list comes back unchanged exactly when every option in it is clean. |
| `OptionText.SplitJoin` | src/frontend/connection-form-state.ts:51-64 | Splitting undoes joining when no part holds the separator. |
| `OptionForm.ParseSshOptionsText` | src/frontend/connection-form-state.ts:62-79 | The loop over the lines computes Parse, with the number of the first bad line. |
| `OptionRules.LinesExactly` | src/frontend/connection-form-state.ts:65-76 | A line is its key up to the first equals sign and its value behind it, spaces around the line aside. |
| `OptionRules.LinesWithoutKey` | src/frontend/connection-form-state.ts:65-76 | Which lines are blank and which have no key. |
| `OptionForm.FirstBadLine` | src/frontend/connection-form-state.ts:65-76 | The first bad line, counted from 1, is the one reported, with its own fault. |
| `OptionForm.ParsePrint` | src/frontend/connection-form-state.ts:51-79 | Printing an accepted list as Key=Value lines and parsing it gives the same list. |
| `OptionForm.ReopenedFormIsStable` | src/frontend/connection-form-state.ts:51-79 | Whatever text is accepted, showing the result and submitting it again changes nothing, and the server accepts it unchanged. |
| `GoOptions.SplitOptionList` | go-ssh/client.go:70-79 | The loop keeps the trimmed non-empty parts in order. |
| `GoOptions.ApplySshOptions` | go-ssh/client.go:83-101 | The configuration is the fold of Set over the options. |
| `GoOptions.KeepaliveFromOptions` | go-ssh/client.go:111-133 | The settings are the fold over the options, and nothing when the interval is not positive. |
| `GoRules.KeysExactly` | go-ssh/client.go:86-86 | An option falls into a case exactly when its key, spaces aside, is that name in any letter case. |
| `GoRules.AtoiNumerals` | go-ssh/client.go:96-96 | Numerals of 64-bit numbers with or without a sign are read as those numbers, larger ones not. |
| `GoRules.AtoiOnlyNumerals` | go-ssh/client.go:96-96 | Nothing but a sign and digits is read as a number. |
| `GoRules.PassedOver` | go-ssh/client.go:83-133 | Unknown keys and unreadable or non-positive numbers are passed over. |
| `GoRules.ListRead` | go-ssh/client.go:70-79 | A list is read as its names in order, whatever spaces and empty parts it has. |
| `GoOptions.AcceptedList` | go-ssh/client.go:70-79 | No algorithm of an accepted list is lost, added, reordered or changed. |
| `GoOptions.AppliedIsLastWins` | go-ssh/client.go:83-101 | On accepted options every setting is the last value of its key, read whole, or its default. |
| `GoOptions.KeepaliveIsLastWins` | go-ssh/client.go:111-133 | The same for the two keep-alive keys. |
| `GoOptions.GoStaysInRange` | go-ssh/client.go:83-133 | The values Go computes stay in 1..120, 0..600 and 1..100. |
| `OptionHop.AcceptedListArrives` | src/shared/ssh-options.ts:191-227 | The whole hop: a list the server accepts is accepted again unchanged, comes back unchanged from the form, and every Go reader takes the last value of each key from it. |
| `OptionHop.FormTextArrives` | src/frontend/connection-form-state.ts:62-79 | The same for every text the form accepts. |
| `KeyCacheKeys.CacheKeyInjective` | src/worker/crypto.ts:92-92 | Different inputs never share a cache key, whatever characters the key material holds. |
| `KeyCache.CacheIsTransparent` | src/worker/crypto.ts:60-86 | After any hits, misses, evictions and failures a lookup hands out a derivation of that very input, and at most 16 entries are kept. |
| `KeyCache.LookupDerivesExactly` | src/worker/crypto.ts:60-80 | A lookup starts a derivation exactly when the cache has no entry under its key; a hit hands out that entry's. |
| `KeyCache.RepeatedDerivesOnce` | src/worker/crypto.ts:60-80 | However often one key is looked up in a row it is derived once. |
| `KeyCache.FailureRemovesItsOwn` | src/worker/crypto.ts:80-85 | A failure removes the entry of that derivation and nothing else. |
| `KeyCacheOrder.CacheIsLeastRecentlyUsed` | src/worker/crypto.ts:64-78 | Without failures the cache holds exactly the 16 keys used last, in the order of their last use. |
| `KeyCacheOrder.EntriesInOrder` | src/worker/crypto.ts:64-85 | With failures too, entries stand in the order of their last use. |
| `KeyCache.DerivedKeys.CachedDerivedKey` | src/worker/crypto.ts:60-80 | A hit moves its entry to the end; a miss starts a derivation and evicts the first of 16. |
| `KeyCache.DerivedKeys.DerivationFailed` | src/worker/crypto.ts:80-85 | The entry goes only if it still holds this promise. |
| `LegacyMigration.ConnectionStore.MigrateLegacyBatch` | src/worker/store.ts:126-220 | One call computes BatchOf: size check, marker, page, carried blockers, cursor and tallies. |
| `LegacyMigration.ConnectionStore.MigrateKey` | src/worker/store.ts:161-199 | One key: skip, block, replace, or note a conflict when it changed meanwhile. |
| `LegacyMigration.KeyCases` | src/worker/store.ts:155-199 | Store and tally after one key in each of its five cases. |
| `LegacyMigration.BatchRefusals` | src/worker/store.ts:130-150 | Sizes outside 1 to 100 are refused; with the marker set a new chain is done at once. |
| `LegacyMigration.ChainConserves` | src/worker/store.ts:126-220 | After any chain of batches, whatever others write, but for writes of a key between its second read and its own put, the store has the keys and plaintexts it would have without the migration, and what does not open is untouched. |
| `LegacyMigration.PutConservesExactly` | src/worker/store.ts:180-199 | A put conserves the store exactly when nobody has changed the content of that key since the second read. |
| `LegacyMigration.LateUpdateIsLost` | src/worker/store.ts:180-199 | A concrete run where an update just before the put is overwritten by the old content and counted as migrated. |
| `LegacyMarker.MarkerIsTrue` | src/worker/store.ts:201-207 | If other writers write v3 only, a set marker means that every connection is a v3 envelope. |
| `LegacyMarker.MarkerExactly` | src/worker/store.ts:201-219 | Without other writers a finished chain sets the marker exactly when every envelope opens; one that does not blocks it across pages. |
| `LegacyMarker.ChainMigratesAll` | src/worker/store.ts:160-199 | Without other writers a finished chain has turned every envelope that opens into a v3 one. |
| `LegacyMigration.KeysTallied` | src/worker/store.ts:155-199 | A page adds its length to scanned; each key falls into at most one of migrated, failed and conflicts; blockers grow by the failures and at most the conflicts. |
| `LegacyMigration.SealingExists` | src/worker/store.ts:176-179 | The one assumption about encryption can be met. |
| `LegacyMarker.ChainEnds` | src/worker/store.ts:201-219 | Every chain of valid calls ends. |
| `ConcurrentMap.EveryItemOnce` | src/worker/store.ts:41-61 | Whatever the order in which tasks finish or fail: they start once each and in order, never more at a time than allowed, every stored result is its item's, and a worker runs out only when all have started. |
| `ConcurrentMap.ResolvesExactly` | src/worker/store.ts:41-61 | When nothing runs any more the call has resolved, with every result in its place, exactly if no task fails; otherwise it is rejected for an item whose task fails. |
| `ConcurrentMap.OutcomeStays` | src/worker/store.ts:59-60 | Once resolved or rejected, nothing still running changes the outcome. |
| `ConcurrentMap.EachCompletionStoresOne` | src/worker/store.ts:41-61 | Each task that ends stores one more result or is one more failure, so the pool ends. |

## Left out

- HTTP routing, cookies, authentication, request parsing: plumbing with one-branch facts.
- AES-GCM, HKDF, PBKDF2, HMAC name tokens, JSON and UTF-8: function parameters with a round-trip assumption.
- Columns `sort_order`, `created_at`, `updated_at`, the envelope of a folder name beside its plain name, `updateConnection`, `clearCredential`, listing and decrypting views: they do not touch folders' shape or counts.
- Concurrent calls of `D1ConnectionStore`: each call is atomic, as its reads precede its batch and the source does not serialize them.
- The unicode normalization and case folding inside a name token, and the collation by which names are shown in order: any consistent comparison of names.
- `ensureSchema` and schema versions; the `updated_at` columns of the bootstrap row.
- D1 and KV are strongly consistent in the model; eventual consistency of KV is not modelled.
- KV keys that appear during the bootstrap: the model has the keys present at its start.
- Text form of the legacy cursor (JSON in base64) and its `InvalidMigrationCursorError`: a cursor is its two fields.
- Engine calls made synchronously and `socket.send` are taken not to throw in the session and the transport.
- The moment between a synchronous refusal and the removal of its id from the in-flight set (one microtask): the id leaves at once.
- Resources whose opening completes after the session has closed, and two overlapping `openShell` calls: the session does not reclaim them, so no claim is made that every opened resource is closed.
- The contents of `exec`, `sftpList`, `sftpStat` and the like: one engine call with its arguments, one response.
- Callbacks `onOpen`, `onClosed` and `closeNotified` of the transport, and the text of its first error.
- The size of a session frame in bytes: an event says whether its frame fits; for file chunks the sizes are computed.
- The client's reconnect loop and its readiness promise.
- `closedPromise` of the session: it resolves when the closed flag is set, which is modelled.
- During a transfer the session serves no other requests, which would use up the rate limiter too; and the frame of its open request, which carries the path, is taken to fit.
- Strings are sequences of Unicode scalar values; surrogate pairs, counted as two by JavaScript, are not.
- Lower-casing knows the letters that can occur in option keys, the Kelvin sign and, on the Go side, the dotted capital I.
- `time.Duration` overflow for option values that never passed validation.
- `parseAccessProxyCommand`, `validateAccessProxy`, host normalization: field checks without state.
- Go's `main.go`, `wsconn.go`, `session.go`, `goKeepalive`: goroutines, syscall/js and library calls.
- `access-ws-transport.ts`: a thinner copy of the TCP transport without a write queue.
- All DOM, terminal, chart, preview and settings code; metric parsers and formatters.
