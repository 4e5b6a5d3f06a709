# Celerp: the parts where a step in the wrong order loses data

A Dafny model of the places in Celerp where several functions, processes or transactions have to
agree, with proofs about every input, every run or every interleaving. `dafny verify dfyconfig.toml`
checks all of it.

| file | models |
|---|---|
| `Wrappers.dfy`, `Runs.dfy` | an optional value; runs of a state machine, what every step keeps and what holds throughout |
| `Closure.dfy` | the least set closed under a relation, and the induction principle for it |
| `Catalog.dfy`, `Sql.dfy`, `UserDeletion.dfy`, `UserDeletionExact.dfy` | the catalog of tables and keys, SQL conditions and three-valued logic, the DELETE generated for users left without a company, and what the database's cascade does with it |
| `FkOrder.dfy` | ordering tables by their keys, and telling which have no order |
| `ConfigLock.dfy` | the lock file on `celerp-config.json`, one file operation at a time, for Python and Node writers that may die |
| `ClusterSetup.dfy` | the first database setup on Windows, cut off anywhere, over any sequence of starts |
| `SetupLock.dfy`, `SetupTogether.dfy` | starts at the same time: the lock that setup takes, and the lock and the folders together, one file operation at a time |
| `Sessions.dfy` | issuing session tokens against revoking them, in interleaved transactions |
| `Shutdown.dfy` | respawning the servers against stopping them once |
| `TomlText.dfy`, `ConfigText.dfy` | a reader of TOML v1.0.0 (sections Keys, String, Integer, Boolean, Array, Table), and config.toml as it is written |
| `InstallOrder.dfy` | modules ordered after their dependencies, cycles tolerated |
| `Activation.dfy` | instance id, verifier and activation, changed under the config lock by any number of processes |
| `Ownership.dfy` | whether a table holds company data, by a search limited to simple paths |
| `LockProofs.dfy` | the lock proofs a session holds, and the index each request keeps of them |
| `Reruns.dfy` | what a refused write left behind, and when the request runs a second time |
| `ServerOutput.dfy` | lines and a bounded tail out of output that streams in |
| `Updates.dfy` | the updater's state as the update card is shown it |

The last five set something kept step by step against something simple: a limited search against any
chain of references, an index against a full scan, a flag against the database, chunks against the
whole text, a card's state against the events of the run.

## What came out

- **The generated DELETE is safe.** For every schema and every database, deleting the picked users
  takes with it only those users and rows of tables outside any company; nothing else is cleared,
  nothing is refused, nothing is left dangling. Without a loop among the cascading keys it is also
  exact: a member is deleted if and only if every row naming a row of its cascade does so by a cascading
  key, and is no user and no company's row (`UserDeletionExact.DeletedExactly`). With a loop the condition takes all of
  a table's rows, as its documentation says (celerp/db_catalog.py:436-438); it is safe then too.
- **An update to the config can be lost although the second token read and the removal are one
  operation.** The lock's age is read before its token is, so a writer that measured a dead writer's
  lock can read, find unchanged, and remove the lock of the writer that took it over meanwhile
  (`ConfigLock.LostUpdate`). The comments at celerp/config_store.py:30-39 and
  electron/config-writer.js:79-83 count only the moment between the second read and the removal, and say
  that a faster successor's lock is never deleted. Two writers never own the lock, nor could at the next
  try, if and only if no takeover removes a living owner's lock; then no update is lost. A takeover
  removes one exactly when the token it read before is that owner's: so it is enough that the file removed
  is the very file measured, or that the token read was of a writer that owned no lock any more.
- **Two starts can set up the database at the same time.** `takeLock` judges a leftover lock by its
  process ID and its age and then removes whatever file is there (electron/windows-initdb.js:66-78), so a
  start can remove the lock of one that took the leftover over meanwhile (`SetupLock.BothSetUp`), although
  "a lock file keeps two starts from setting up at the same time" (:9-10). One can then remove the folder
  the other is about to move, since the owner file matches, and the other moves the folder the first has
  only begun to fill: an unfinished database is in place, and later starts take it for one
  (`SetupTogether.UnfinishedDatabase`). The same exact condition is proved: starts are kept apart if and
  only if no start removes a live one's lock, and then the folders are safe.
- **A server can outlive a shutdown that resolves true, in two ways.** `respawn` sends the old UI SIGTERM
  and forgets it, so the shutdown, which promises that every server exited (electron/shutdown.js:4-5),
  never waits for it or kills it. And a restart still opening the data when the wait for it is cut short
  spawns its API behind the shutdown's back. Resolving true means what it promises exactly when, as the
  shutdown is called, no UI let go of is left and no restart is opening the data
  (`Shutdown.ResolvesTrueExactly`); where the wait is not cut short, exactly when no UI let go of is left.
- **config.toml reads back except for U+007F.** JSON leaves that character raw and TOML does not allow
  it raw, so a value holding one makes the whole file unreadable (`ConfigText.DeletedUrlIsUnreadable`).
  Every other string reads back unchanged, and so does the text: written again it is the same.
- **The install order is an order of the dependencies exactly when nothing listed depends on itself.**
  "In topo order" (celerp/config.py:691) is more than the code keeps: with `a` needing `b`, and `b` needing
  `a` and `c`, asking for `b` lists `a` before `c`, which it needs and which needs nothing
  (`InstallOrder.CycleBreaksTheOrder`). Kept always: each direct dependency that does not depend back comes
  first, and all that a module on no cycle needs.
- **`fk_order` calls more tables unordered than its documentation says.** A table on a path from one
  cycle to another counts as unordered although it is on no cycle (celerp/db_catalog.py:353-354, 366), and
  one that only references a cycle is in neither answer (`FkOrder.TablesBetweenCycles`). The unordered
  tables are those documented exactly when no table off every cycle lies on a path between two.
- **A line longer than 65536 characters loses its beginning, never its end.** That happens exactly when
  a chunk ends inside it past that point; no line is ever missing.

## Assumptions

- A catalog is well formed: keys pair existing columns, `users` has an `id`, and that id is its primary
  key. Rows have the columns of their table.
- Time is an integer that only grows. A living owner of the config lock that only updates is done with it
  within the stale limit of creating it. One that keeps its lock has its refresher less than two thirds of
  the limit late in each round, counting from the token's writing or the last refresh what it takes to
  begin the wait, and what it is overdue (`OnTime`). A release waits for a refresh under way, and ends
  within the round it interrupts.
- A live start is done with the setup lock within ten minutes of creating it; the file's few bytes are
  written at once; two running processes have different IDs.
- Nonces, lock tokens, verifiers, folder and proof identities do not repeat. A password change is
  followed by a rotation in the same commit. The auth-state rows of every user rotated are locked first.
- A start's removal of its lock file or of an empty folder does not fail but by being cut off; that of a
  setup folder may, at anything in it. An initdb ends with the start that ran it.
- Lock proofs leave a list only when a savepoint rolls back, and a session that ends its outer
  transaction gets a new list. A refused request's transactions are over when it is run again.
- A key that can be hashed never equals the identity number of a proof whose key cannot.
- An ASGI answer begins with its one start message (`ServeWellFormed`; `OneAnswerExactly` says what
  happens without).

## Model

| member | source | states |
|---|---|---|
| Closure.InEveryClosed | celerp/db_catalog.py:373-381 | any set holding the seeds and closed under the keys followed holds all that is reached: the induction principle behind the proofs below |
| Catalog.Reach | celerp/db_catalog.py:373-381 | the loop that grows the set stops at exactly the least closed set |
| Catalog.CompanyTablesExactly | celerp/db_catalog.py:384-391 | a table is a company's if and only if some chain of keys leads from it to `companies` or a table with a company column; held back to keys that do not clear, if and only if a chain of such keys does |
| UserDeletion.PickAlias | celerp/db_catalog.py:419-423 | the loop ends, and on the alias no table of the schema has |
| Sql.PicksWhatItNames | celerp/db_catalog.py:425-427 | `(cols) IN (SELECT tcols ...)` picks a row exactly when it names, by that key, a row meeting the inner condition: nulls, several columns and outer scopes included |
| Sql.ComparesAsSql | celerp/db_catalog.py:425-427 | row values compare equal when every pair is, unequal when some pair is, and unknown otherwise |
| Sql.ReadsOnlyItsTables | celerp/db_catalog.py:435-446 | two databases with the same rows in the tables a condition is said to read give it the same truth |
| UserDeletion.CoverGoesOn | celerp/db_catalog.py:435-446 | a row naming a covered row by a carried key is itself picked, whatever tables were seen on the way |
| UserDeletion.CascadeIsOutsideCompanies | celerp/db_catalog.py:394-397 | every table of the user's cascade but users is outside the companies and holds a key the condition carries |
| UserDeletion.CascadeKeysCarry | celerp/db_catalog.py:432-433 | a cascading key between two tables of the cascade is always one the condition carries |
| UserDeletion.NothingNamesChecked | celerp/db_catalog.py:448-452 | while a NOT EXISTS holds, no row names a covered row by the key it checks |
| UserDeletion.NamingACoveredRow | celerp/db_catalog.py:435-452 | once every NOT EXISTS holds, a row naming a covered row does so by a cascading key, is no user and no company's row, and is covered too |
| UserDeletion.OneUserGoesAlone | celerp/db_catalog.py:410-418 | the cascade of one picked user holds covered rows only: that user and rows of tables outside any company |
| UserDeletion.DeletionTakesOnlyItsOwn | celerp/db_catalog.py:410-452 | for all schemas and databases, all picked users at once: the cascade is those users and rows of no company, and every row naming one of them goes too |
| UserDeletion.DeletionChangesNothingElse | celerp/db_catalog.py:410-452 | the database refuses nothing, every surviving row is as it was, and every key that held still holds |
| UserDeletion.CascadeStaysHeld | celerp/db_catalog.py:384-391 | whatever company rows are deleted, the database's cascade stays in the tables the company holds |
| UserDeletion.DeletingKeepsKeys | celerp/db_catalog.py:410-418 | the reference for what the database does: any delete it goes through with leaves every key that held holding, or cleared |
| UserDeletion.NothingIsRefused | celerp/db_catalog.py:410-418 | and it goes through where each row naming a deleted one goes too, or is cleared |
| UserDeletionExact.NothingIsMissed | celerp/db_catalog.py:435-446 | every row the cascade reaches from the user without passing another user is picked |
| UserDeletionExact.NothingIsAdded | celerp/db_catalog.py:435-446 | without a loop of cascading keys no other row is |
| UserDeletionExact.GoingIsExact | celerp/db_catalog.py:435-448 | without such a loop among the tables a table's rows go with, whatever loops there are elsewhere, its condition picks exactly the rows carried along |
| UserDeletionExact.PickedExactly | celerp/db_catalog.py:410-452 | without such a loop a member is deleted exactly when no row holds it back |
| UserDeletionExact.DeletedExactly | celerp/db_catalog.py:410-418 | without such a loop, for every database: a member is deleted if and only if every row naming, by any key, a row of the database's own cascade of it does so by a cascading key, and is no user and no company's row |
| UserDeletionExact.PickedGoesNoFurther | celerp/db_catalog.py:410-418 | loops or not, that holds of every user deleted |
| UserDeletionExact.ConditionIsWellFormed | celerp/db_catalog.py:435-446 | no generated OR is empty, and a condition reads tables of the cascade only |
| UserDeletionExact.StatementIsWellFormed | celerp/db_catalog.py:400-452 | every table the statement reads is keyed, and none can hide the alias of the users being deleted |
| UserDeletionExact.KeyedExactly | celerp/db_catalog.py:400-407 | what is keyed is the companies' tables, those the deletion goes into, and those the statement looks for rows in, and no other |
| FkOrder.Sorted | celerp/db_catalog.py:360 | a set of names comes out once each, in order |
| FkOrder.NoCycleAhead | celerp/db_catalog.py:360-365 | a table none of whose references reaches a cycle reaches none |
| FkOrder.EveryoneReferences | celerp/db_catalog.py:360-366 | where each table left references another one left, each reaches a cycle |
| FkOrder.EveryoneReferenced | celerp/db_catalog.py:367-369 | where each table left is referenced by another one left, each is reached from a cycle |
| FkOrder.BetweenHasReferrer | celerp/db_catalog.py:367-369 | a table on a cycle or between cycles is never dropped: another such table references it |
| FkOrder.OrderRounds | celerp/db_catalog.py:358-365 | the first loop ends; the tables ordered wait for none, come in order and reach no cycle |
| FkOrder.DropBehind | celerp/db_catalog.py:366-370 | the second loop ends, leaving exactly the tables that reach a cycle and are reached from one |
| FkOrder.FkOrder | celerp/db_catalog.py:352-370 | the order holds exactly the tables reaching no cycle of two or more, each after all it references, in sorted rounds; the rest are exactly those referencing themselves and those on or between cycles |
| FkOrder.AsDocumentedExactly | celerp/db_catalog.py:353-354 | the tables called unordered are those referencing themselves or on a cycle if and only if no other table lies on a path from one cycle to another |
| FkOrder.TablesBetweenCycles | celerp/db_catalog.py:352-370 | two cycles and a path between them: the table on it is called unordered though on no cycle, and one ahead of a cycle is in neither answer |
| ConfigLock.UndisturbedIsHarmless | celerp/config_store.py:88-99 | removing the very file measured stale harms no living owner |
| ConfigLock.StepKeepsExactly | celerp/config_store.py:60-118 | a step of any writer keeps the invariant if and only if it is not a takeover removing a living owner's lock |
| ConfigLock.HarmLetsTwoIn | celerp/config_store.py:88-99 | a takeover that removes a living owner's lock makes two owners at its own next try |
| ConfigLock.HarmfulExactly | celerp/config_store.py:92-99 | a takeover removes a living owner's lock if and only if the token it read before is that owner's: any other token, read again, protects it |
| ConfigLock.OldTokenHarmsNoOne | celerp/config_store.py:30-35 | a takeover that read a token whose writer owned no lock then takes no living owner's, whatever happened to the file since |
| ConfigLock.ApartExactly | celerp/config_store.py:60-118 | over every run of any number of Python and Node writers, some dying midway: two never own the lock, nor could at the next try, if and only if no takeover of the run removes a living owner's lock |
| ConfigLock.UndisturbedRunIsHarmless | electron/config-writer.js:105-119 | it is enough that each takeover of the run removes the very file it measured |
| ConfigLock.NoUpdateIsLost | celerp/config_store.py:242-285 | while no takeover removes a living owner's lock: one owner at a time, and the config is the commits merged in lock order, each update reported saved among them |
| ConfigLock.OwnersStayApart | electron/config-writer.js:85-126 | no step, a takeover included, makes a second living owner while the first is safe |
| ConfigLock.KeptLockIsNeverStale | celerp/config_store.py:121-162 | a lock its refresher keeps, each round less than two thirds of the limit late by the refresher's own schedule, is always younger than the limit, its age being the wait, what it took to begin it and what it is overdue; so no contender measures it stale |
| ConfigLock.KeptAsLongAsNeeded | celerp/config_store.py:121-124 | a lock can be kept to any time, far past the limit, by its refresher alone |
| ConfigLock.DeadOwnerGivesWay | celerp/config_store.py:83-104 | a dead owner's lock can be taken at the latest a moment past the stale limit |
| ConfigLock.UpdateIsSaved | celerp/config_store.py:242-285 | a writer nothing interrupts, finding no lock: every entry of its patch is in the config, every other entry is as it was, and its lock is gone; a config Python cannot read is left as it is, and Node starts it afresh |
| ConfigLock.LockIsKept | celerp/config_store.py:121-162 | a lock asked for is had, and kept to any time by its refresher |
| ConfigLock.KeptLockIsReleased | celerp/config_store.py:156-160 | and is gone once released |
| ConfigLock.AnothersLockIsLeft | celerp/config_store.py:107-118 | a release, a refresher and a token written late leave a lock that is another's |
| ConfigLock.FailedTokenIsNoOnes | celerp/config_store.py:70-81 | a token that cannot be written leaves no living owner: Python removes its lock, Node leaves it |
| ConfigLock.WaitsItsBudget | celerp/config_store.py:102-104 | a waiting writer tries again exactly until its deadline, and then gives up having changed nothing |
| ConfigLock.BudgetIsKept | celerp/config_store.py:60-65 | over any run that deadline is five seconds after its start |
| ConfigLock.OnlyUpdatesAreSaved | celerp/config_store.py:121-137 | over any run one that only keeps the lock saves nothing |
| ConfigLock.RefreshesAreApart | celerp/config_store.py:144-151 | two refreshes of a lock are a third of the limit apart at least |
| ConfigLock.LostUpdate | celerp/config_store.py:83-99 | a run with an atomic second read and removal in which two writers own the lock and an update reported saved is lost |
| ClusterSetup.Disk.TakeLock | electron/windows-initdb.js:58-81 | refuses exactly while another live start's lock, or a half-written one, is younger than ten minutes |
| ClusterSetup.Disk.ClearOwnStaging | electron/windows-initdb.js:88-107 | removes the setup folder this code made or an empty one; stops exactly on a folder of someone else's with anything in it, and leaves it as it is |
| ClusterSetup.Disk.MakeStaging | electron/windows-initdb.js:151-156 | cut off anywhere, a folder of its own holds nothing before its identity is recorded |
| ClusterSetup.Disk.MoveIntoPlace | electron/windows-initdb.js:114-125 | the folder is moved whole or not at all, and is moved exactly when some try of the loop, each sleep at least half a second, meets it let go of |
| ClusterSetup.MovesWithinTheWait | electron/windows-initdb.js:109-125 | a folder let go of within the wait is moved, however late the sleeps end, and one that is moved was let go of within the wait and one sleep |
| ClusterSetup.Disk.SetUp | electron/windows-initdb.js:151-166 | ends with a cluster, or with neither the setup folder nor the owner file unless the folder cannot be removed; a data folder appears only as a folder made here in which initdb finished |
| ClusterSetup.Disk.InitialiseClusterOnce | electron/windows-initdb.js:133-170 | cut off or not, no folder with anything in it that this code did not make is touched; not cut off, it ends as read off the disk it finds, and leaves nothing of the setup behind but a folder that cannot be removed |
| ClusterSetup.Start | electron/windows-initdb.js:133-170 | one start, cut off after any number of changes to the disk, leaves what `Started` allows of the disk it found, and ends as that disk decides when not cut off, sleeps between tries however late and a setup folder that cannot be removed included |
| ClusterSetup.AnyRun | electron/windows-initdb.js:133-170 | any sequence of starts cut off anywhere, with folders others put there in between, gives a run: each disk follows from the one before by its event, and each start's outcome with it |
| ClusterSetup.RunIsSound | electron/windows-initdb.js:151-156 | in every state of every run a setup folder of its own holding anything matches the owner file, and a database folder of its own is finished |
| ClusterSetup.ForeignFoldersStay | electron/windows-initdb.js:83-107 | over every run a folder with anything in it that this code did not make stays, in either place, until someone else puts another there |
| ClusterSetup.DatabasesComeFinished | electron/windows-initdb.js:4-7 | over every run of starts one at a time a database folder no one else put there is one this code made since, in which initdb finished; and a database once there is never changed |
| ClusterSetup.LeavesADatabaseExactly | electron/windows-initdb.js:133-170 | a start not cut off leaves a database if and only if it finds one, or finds the lock free and nothing of another's or stuck in its way, initdb succeeds and some try to move the folder meets it let go of |
| ClusterSetup.RecoversFromAnyStarts | electron/windows-initdb.js:58-170 | however many starts were cut off, if the lock found is stale, or its process is gone or this one, and the leftover can be removed, one that is not, whose folder may be held for the whole wait, ends with a database |
| ClusterSetup.LiveLocksAreKept | electron/windows-initdb.js:66-77 | in every run, with no database there, a start is turned away, and leaves the disk as it found it, if and only if the lock is under ten minutes old and half written or of another process that is running |
| ClusterSetup.LocksAreGivenBack | electron/windows-initdb.js:141-169 | every other start that found no database and was not cut off leaves no lock, failed or not |
| ClusterSetup.FailureLeavesNothing | electron/windows-initdb.js:162-165 | a start that fails leaves no setup folder and no owner file unless something in its own folder cannot be removed |
| SetupLock.JudgedRightly | electron/windows-initdb.js:66-77 | a file whose ID and age are both read from it is judged not held only when no live start's |
| SetupLock.StepKeepsExactly | electron/windows-initdb.js:58-81 | a step of any start keeps the invariant if and only if it does not remove a live start's lock |
| SetupLock.ApartExactly | electron/windows-initdb.js:9-10 | over every run of any number of starts, some cut off: two never set up at the same time, nor could whichever tried next, if and only if no start removes a live one's lock |
| SetupLock.UndisturbedRunIsHarmless | electron/windows-initdb.js:66-78 | it is enough that the ID and the age each start judged by were those of the file it removes |
| SetupLock.SetsUpAlone | electron/windows-initdb.js:58-81 | with no lock there a start gets inside, and its lock is gone once it is done |
| SetupLock.JudgesAlone | electron/windows-initdb.js:66-77 | with a lock there it is turned away, or may remove it, as the lock's age and its process say, the lock still as it was |
| SetupLock.TriesTwiceAtMost | electron/windows-initdb.js:59-80 | a start tries to take the lock twice at most, whatever the others do |
| SetupTogether.DatabasesComeFinishedTogether | electron/windows-initdb.js:133-170 | in every interleaving of any number of starts, cut off anywhere, while no two are inside at once: nothing this code did not make is removed, a database once there is unchanged, and one that appears is a folder made since in which initdb finished |
| SetupTogether.ApartExactly | electron/windows-initdb.js:58-81 | whatever starts do to the folders, they are kept apart if and only if no start removes a live one's lock |
| SetupTogether.HarmlessRunsAreSafe | electron/windows-initdb.js:4-12 | so in every run in which none does, the folders are safe |
| SetupTogether.UnfinishedDatabase | electron/windows-initdb.js:88-107 | otherwise they need not be: a run of two starts as coded that ends with an unfinished folder as the database |
| SetupTogether.SetsUpAlone | electron/windows-initdb.js:133-170 | a start with nothing in its way, one file operation at a time, puts a finished database in place and leaves nothing else |
| SetupTogether.FailsCleanly | electron/windows-initdb.js:155-165 | where initdb fails, or the move is given up, nothing of it is left |
| SetupLock.BothSetUp | electron/windows-initdb.js:58-81 | a run of two starts as coded in which both set up at the same time |
| Sessions.StepKeeps | celerp/credentials.py:125-149 | no step of any transaction, committed or not, breaks what the proofs below rest on |
| Sessions.EveryTokenHasALineage | celerp/credentials.py:103-114 | every token goes back, through continuations on its own nonce and user, to a fresh credential |
| Sessions.CurrentTokensDescend | celerp/credentials.py:81-149 | in every interleaving, each token on its user's current nonce descends so, all of the line issued since the last rotation, from a credential whose password is still the user's |
| Sessions.ContinuationsStayPut | celerp/middleware.py:212-255 | a continuation never lands on another nonce than the one it was authenticated on, whatever rotates meanwhile |
| Sessions.RevocationRevokes | celerp/services/session_tracker.py:119-165 | in every interleaving: once a revocation of a user has committed, each of the user's tokens out by then is off the current nonce ever after: no request is authenticated on it, and no continuation issued on it, one validated before included |
| Sessions.StaleRevocationDoesNothing | celerp/services/session_tracker.py:134-154 | a revocation expecting another nonce changes nothing |
| Sessions.ContinuationIsIssued | celerp/credentials.py:128-149 | a continuation on the nonce still current, its row held, is out with the commit; on any other none is |
| Sessions.FreshCredentialIsIssued | celerp/credentials.py:132-149 | so is a fresh credential when the password checked is still the user's, and otherwise none is |
| Sessions.CurrentTokenIsAccepted | celerp/services/session_tracker.py:105-116 | a request is authenticated on a token exactly when it is on its user's current nonce |
| Sessions.CommitMakesItSo | celerp/credentials.py:97-99 | what a transaction reads is what is there once it has committed, and what it minted is out then |
| Sessions.PasswordIsSet | celerp/credentials.py:111-114 | a password change committed with its rotation is what the next sign-in is checked against, on a new nonce |
| Sessions.Registers | celerp/credentials.py:81-149 | a run from nothing to a first session, step by step |
| Sessions.SlidesOn | celerp/middleware.py:212-255 | and from there to a second token on the same nonce, continued from the first |
| Sessions.OtherFitsAfter | celerp/services/session_tracker.py:49-71 | after a commit or an abort, what every other open transaction has locked, written and minted still fits |
| Shutdown.StepKeeps | electron/restart.js:84-111 | no step of a restart or a shutdown loses sight of a server: each is referred to, let go of or gone |
| Shutdown.ShutdownRunsOnce | electron/shutdown.js:59-62 | however often it is called it runs once, and the database is told to stop at most once |
| Shutdown.DatabaseStopsLast | electron/shutdown.js:43-51 | the database is told to stop only after each server exited or used up both its grace periods |
| Shutdown.EveryServerIsGone | electron/shutdown.js:38-69 | called with no UI let go of left, whatever happens then: if it resolves true, every server ever spawned has exited, provided no restart was opening the data at the call or the wait for it was not cut short |
| Shutdown.ResolvesTrueExactly | electron/shutdown.js:4-5 | from any state at the call, resolving true, a wait cut short or not, means every server has exited if and only if at the call no UI a restart let go of is left and no restart is opening the data |
| Shutdown.UncutResolvesTrueExactly | electron/shutdown.js:43-46 | of shutdowns whose wait for a restart is not cut short: if and only if no UI let go of is left |
| Shutdown.NoneIsSpawnedLater | electron/restart.js:84-111 | after a shutdown has resolved no server is spawned any more, its wait cut short or not, unless a restart is still opening the data |
| Shutdown.NextRestartBegins | electron/restart.js:92-111 | a restart that completes watches the API it spawned: its exit, asked for, begins the next restart |
| Shutdown.RestartCompletes | electron/restart.js:84-97 | an API's exit asked for leads to a new API and a new UI, the old UI let go of and the new API watched |
| Shutdown.RestartsGoOn | electron/restart.js:41-43 | for every k a run of k completed restarts, each begun by the exit of the API the one before spawned |
| Shutdown.OneAwaitAfterAnother | electron/restart.js:84-111 | a restart goes from one await to the next or gives up, servers are spawned only as it does, and only one that completes has an exit watched |
| Shutdown.NoRestartUnasked | electron/restart.js:99-109 | an exit while stopping, of a server not watched or not asked for begins none |
| Shutdown.RestartHasItsTime | electron/shutdown.js:44-45 | the wait for a restart is cut short only fifteen seconds after the call |
| Shutdown.GivenUpIsToldSo | electron/shutdown.js:16-27 | a server given up makes the shutdown resolve false, even if it exits later |
| Shutdown.ShutdownEnds | electron/shutdown.js:43-54 | it comes to an end, and resolves false, although no server exits, the restart never settles and the database never answers |
| Shutdown.NewApiOutlives | electron/shutdown.js:44-46 | from any state at the call in which a restart is opening the data, the shutdown can resolve true with the API it then spawns alive |
| Shutdown.OneIsOpening | electron/restart.js:84-111 | and such a state is reached with no UI let go of left |
| Shutdown.LetGoUiOutlives | electron/restart.js:86-87 | from any state at the call with such a UI left, a restart under way or not, the shutdown can go on to resolve true with it alive |
| Shutdown.OneIsLeft | electron/restart.js:84-97 | and such a state is reached: a restart lets go of a UI that ignores SIGTERM and cannot open the data |
| ConfigText.StringReadsBack | celerp/config.py:531-533 | an escaped string reads back as itself exactly when it holds no U+007F, else not at all |
| ConfigText.NamesReadBack | celerp/config.py:640-643 | so does a list of strings |
| ConfigText.ValueReadsBack | celerp/config.py:531-643 | so does any value written, integers of any sign included |
| ConfigText.FieldReadsBack | celerp/config.py:535-643 | so does a line `key = value` |
| ConfigText.TextReadsBack | celerp/config.py:519-646 | for every config of the emitted sections, the text printed parses to exactly the values emitted if none holds U+007F, and does not parse otherwise |
| ConfigText.WrittenAgainIsTheSame | celerp/config.py:519-646 | printing what was read back gives the same text |
| ConfigText.EmittedIsTheCallers | celerp/config.py:535-643 | each key of each section comes back with the caller's value, one the caller has none for with its default or not at all, and no section that was not there |
| ConfigText.UpdatesAsWritten | celerp/config.py:636-638 | one section letter by letter |
| ConfigText.DeletedUrlIsUnreadable | celerp/config.py:531-537 | a database URL of one U+007F: the config printed does not parse |
| InstallOrder.Resolver.Visit | celerp/config.py:740-746 | ends on any graph, visiting only what is needed, each module listed after its dependencies |
| InstallOrder.NothingOpenIsNeeded | celerp/config.py:740-746 | a module on no cycle needs none of those still being visited |
| InstallOrder.Circle | celerp/config.py:690-691 | a module needing another that needs it in turn, through any others, depends on itself |
| InstallOrder.ResolveInstallOrder | celerp/config.py:690-750 | lists exactly the names and all they need, once each, every module after each direct dependency that does not depend back on it, and after all it needs when it is on no cycle; an order of the dependencies if and only if nothing needed depends on itself; and the list is that of the visits one by one |
| InstallOrder.TopologicalExactly | celerp/config.py:690-691 | such a list has each module after each of its dependencies if and only if nothing in it depends on itself |
| InstallOrder.CycleBreaksTheOrder | celerp/config.py:690-691 | with `a` needing `b`, and `b` needing `a` and `c`, `a` is listed before `c`, which it needs and which does not need it |
| Activation.CloudFile.EnsureIdentity | celerp/config.py:148-229 | what is stored is kept and given back; only what is missing is made |
| Activation.CloudFile.Record | celerp/config.py:251-295 | accepts exactly when no disconnect stands and what was expected is still there, and otherwise changes nothing |
| Activation.EveryRun | celerp/config.py:148-295 | whatever any number of processes do: no verifier is consumed twice, the stored choice is the last one made, and while no accepted activation names another id, every id ever given out is the same one |
| Activation.DisconnectStands | celerp/config.py:239-261 | after a disconnect only an activation asking to stay disconnected is accepted, and it stays so |
| Activation.ConsumedIsSpent | celerp/config.py:272-289 | a consumed verifier is never accepted again, and accepting the pending one never renames the install |
| Activation.OneActivationConsumes | celerp/config.py:259-290 | over any run of any number of processes the accepted activations that consumed a verifier are one at most |
| Activation.FirstActivation | celerp/config.py:202-295 | a new install makes its identity, is activated by its verifier once, and after a disconnect not again |
| Activation.OneIdIsReturned | celerp/config.py:148-229 | while no accepted activation names another id, every call of every process returns one and the same |
| Activation.IdentityIsShared | celerp/config.py:148-165 | of two processes that remember nothing the first stores an id, unless there is one, and both are given it |
| Activation.VerifierIsShared | celerp/config.py:168-185 | so with the verifier |
| Activation.ConnectIdentityIsShared | celerp/config.py:202-229 | so with both together |
| Activation.RememberedIsGiven | celerp/config.py:148-210 | a process that remembers is given what it remembers, and nothing stored changes |
| Activation.RefreshReplaces | celerp/config.py:188-199 | a refresh replaces the pending verifier, and an activation holding the old one is refused |
| Ownership.OwnedExactly | mutation_observer.py:655-670 | on every graph, cyclic ones too, the path-limited search answers true exactly when some chain of references, loops allowed, leads to company data |
| Ownership.OwnedBeside | mutation_observer.py:655-670 | started with tables already seen, it answers whether some chain avoids them |
| Ownership.CutLoops | mutation_observer.py:661-670 | any chain can be cut to one that never comes back to its start |
| Ownership.OwnedIsACompanyTable | mutation_observer.py:655-670 | it agrees, table by table, with the set the catalog grows for the same tables |
| LockProofs.FirstsAre | mutation_observer.py:787-809 | the reference: exactly the places where a key of the kind first occurs, in order |
| LockProofs.ScanIsDistinctAndWhole | mutation_observer.py:787-809 | the reference: no key twice, and every key kept |
| LockProofs.SameExactly | mutation_observer.py:801-806 | two proofs count once when of one kind and of equal keys; one whose key cannot be compared counts by itself |
| LockProofs.Session.Note | celerp/services/company_lock.py:29-34 | a proof is added at the end, and every request's index still describes the list it read |
| LockProofs.Session.RollBack | celerp/services/company_lock.py:271-291 | exactly the proofs taken inside the savepoint go, and no index read before passes for current |
| LockProofs.Session.Here | mutation_observer.py:787-809 | the incremental answer is that of a scan of the whole list, inherited proofs left out |
| LockProofs.EveryRun | mutation_observer.py:778-809 | in every run of notes, rollbacks, ends and requests, each answer is the distinct keys noted since that request began and not taken back, in the order first noted |
| Reruns.OpenExactly | celerp/middleware.py:426-445 | a transaction holds a write exactly when a statement other than a read ran in it since it was begun, rolled back or committed |
| Reruns.DurableExactly | celerp/middleware.py:408-445 | something is durable exactly when some commit closed a transaction holding such a statement |
| Reruns.ReadByItsFirstWord | celerp/middleware.py:423-437 | whatever space is before it and whatever follows, a statement is a read exactly when its first word, in any case, is a read's |
| Reruns.WriteTracker.Heard | celerp/middleware.py:426-445 | event by event, the pending connections are those with an open write and the flag says whether anything is durable |
| Reruns.WatchRun | celerp/middleware.py:408-445 | after any trace over any connections the flag is set exactly in that case |
| Reruns.Keep | celerp/middleware.py:398-406 | messages are sent up to the first refusal and held from it on; none is dropped or moved |
| Reruns.Serve | celerp/middleware.py:357-382 | at most two runs, the second exactly when the refusal can be lifted, its stock is placed, the writer is marked and the first run kept nothing; what is durable is then the second run's alone |
| Reruns.ServeWellFormed | celerp/middleware.py:357-406 | the client hears the messages of exactly one run |
| Reruns.OneAnswerExactly | celerp/middleware.py:398-406 | a run that sends something ahead of its refusal is the one case in which it would hear two |
| ServerOutput.SplitGoesOn | electron/api-wait.js:36-43 | splitting a text and then its continuation is splitting the whole, a cut between \r and \n included |
| ServerOutput.LineEndsAtBreak | electron/api-wait.js:39 | a line ends at \n, which is no part of it |
| ServerOutput.LineEndsAtReturn | electron/api-wait.js:39 | or at \r\n, and neither is part of it |
| ServerOutput.EveryLineIsHandedOn | electron/api-wait.js:28-43 | for every way of cutting: as many lines as the text has, each the line itself exactly when no chunk ended inside it past 65536 characters, and otherwise its end |
| ServerOutput.LinesAreThoseOfTheText | electron/api-wait.js:28-43 | with no partial line over 65536 characters, the lines handed on are those of the whole text |
| ServerOutput.Stream | electron/api-wait.js:36-43 | the splitter itself, fed any stream, does this |
| ServerOutput.OutputTail.Add | electron/api-wait.js:75-78 | the tail is always the last `max` characters of all that was added, or all of it when `max` is 0 |
| ServerOutput.SliceAgain | electron/api-wait.js:75-78 | what was dropped earlier is never part of a later tail |
| Updates.NextIsConsistent | electron/update-state.js:41-118 | status, failure, release page, checking and percent stay consistent under every event |
| Updates.CheckEnds | electron/update-state.js:66-69 | from an idle card or a failed check: up to date, a download from nothing, or a failed check, and nothing else |
| Updates.DownloadGoesOn | electron/update-state.js:64-65 | a download is left as it is by checks, by the same version found again and by a result of no update; it moves on by its progress, and ends downloaded or failed |
| Updates.FailedDownloadIsLeft | electron/update-state.js:70-71 | a failed download is left as it is by all but a dismissal, a finished download and another error |
| Updates.FinishedIsWhole | electron/update-state.js:105-106 | a finished download is whole, without failure, and of the version last named |
| Updates.InstallerIsOffered | electron/update-state.js:72-73 | an installer that did not start is offered again from any state, by its version's page |
| Updates.NamedIsVerify | electron/update-state.js:41-46 | an error naming a checksum or signature, anywhere and in any case, is a failed verification or save |
| Updates.RefusedIsSave | electron/update-state.js:41-42 | an error of the file system refusing is a failed save |
| Updates.LoggedExactly | electron/update-state.js:154-200 | which line each event logs, and that no other is logged |
| Updates.WindowIsUpToDate | electron/update-state.js:150-163 | what the window was last sent is what there is to show |
| Updates.UpdateArrives | electron/update-state.js:166-185 | an update found, downloaded and ready, as the card shows it and the log tells it |
| Updates.Tracker.On | electron/update-state.js:154-205 | state, log, revision, messages and reports after each event, together |
| Updates.TrackRun | electron/update-state.js:140-206 | so after any run of events |
| Updates.EveryRun | electron/update-state.js:140-206 | every message has the next revision, a consistent state and at most 200 lines, the last ones logged; at most eleven progress lines follow a found event |
| Updates.DownloadedStands | electron/update-state.js:80-87 | only an installer that did not start moves a downloaded update |
| Updates.FailedDownloadStands | electron/update-state.js:71-72 | a failed download stays until a retried one finishes or it is dismissed |
| Updates.ReportedWhenWaiting | electron/update-state.js:190-202 | a failure is reported exactly when the user's check was waiting for its result |
| Updates.NoMoreReportsThanAsks | electron/update-state.js:136-138 | failures reported never exceed the checks asked for |
| Updates.NoInstallerForAnUnverifiedDownload | electron/update-state.js:34-52 | a failure offers the release page unless the download failed its checks |

## Left out

- Updates: the wording of log lines (rounded percent, transfer rate) and the windows they are sent to.
- ConfigLock.NoUpdateIsLost: holds while no takeover removes a living owner's lock; `ConfigLock.LostUpdate` is a run in which one does.
- ConfigLock: a config replaced although the writer then reports a failure (the folder's flush after the rename), which can only add an update nobody was told is saved.
- ClusterSetup.Disk.TakeLock: one start at a time; starts at the same time are in `SetupLock` and `SetupTogether`.
- SetupLock: a process ID of which only some digits are written yet.
- ClusterSetup: a setup path that is no folder, and an owner file half of which happens to name another folder.
- SetupTogether: folders others put in place while starts run, and an initdb that outlives the start that ran it.
- Sessions: JWT encoding and expiry, the registry of token ids, the company lock taken before the auth-state row, and users or auth-state rows deleted altogether.
- Sessions.CurrentTokensDescend: a password change is taken to be committed together with the rotation the source pairs it with.
- Shutdown: booting, crashes shown to the user, and a server process that cannot be spawned.
- ConfigText: surrogate code points on their own, values of other types than those the sections hold, and TOML the writer never emits.
- InstallOrder: finding and parsing manifests, taken as the map from a module to its dependencies.
- Activation: values taken from the environment, which outrank the file for one process.
- Ownership: reading the models and migrations; they are taken as each table's company column and references.
- LockProofs: what the lock itself does in the database, and which requests read which session.
- Reruns: reading and replaying the request body, judging a refusal from its JSON, and placing the stock.
- Reruns.IsRead: only a statement's first word is judged, as in the source, so a SELECT that writes counts as a read.
- Catalog.CompanyTables: reading the catalog from PostgreSQL and locking it.
- Catalog: partitions, inheritance and keys into other schemas; a table name stands for one table.
- Sql: quoting and SQL text; the statement is modelled as the condition it spells.
- celerp/middleware.py MaxBodySizeMiddleware, celerp/cli.py, role and tax tables, i18n and installers: settled by reading a branch, or outside calls.
