# Models of the relay, the installer, the sync, the chat server and the watchdogs

This project models the parts of the repository whose promises no finite test can settle, and proves those promises over every
input, every run and every crash point. Each part is a group of modules of its own.

**Line deltas** (`Utf8`, `LineDiff`, `LineTransform`, `LineDelta`, `LineDeltaRoundTrip`, `DeltaReader`). The relay sends each
message update as copies of the session's previous update plus new text. Strings are UTF-16 code units and streams are bytes; UTF-8
encoding and decoding, the two head patterns and JSON escaping are written out, so the only thing assumed is that `JSON.parse` reads
back what `JSON.stringify` wrote; `DeltaReader` is one parse that does. The differ and the line splitter are imperative, as they are in
the source; the encoder's and the decoder's work on one line is a function of the line and the bases they keep, and the splitter runs it.

**The installer** (`Installer`, `InstallerRuns`). A plan of links, generated files and removals, the receipt that is written ahead
of every step, the backups, the temporary files and the directories made. A crash can come between any two durable steps; a run
after it starts from what is on disk alone, and a disk that somebody else changed is refused as it is.

**State sync** (`SyncMerge`, `SyncRuns`, `StateFiles`) and **the checkout move** (`MoveCheckout`). Many boxes merge one shared state
that only moves by compare-and-swap; a main branch, an index and a worktree move to a newer commit, keep every live edit, and go
back when git refuses.

**The chat server's disk** (`DiskQueue`, `DiskRuns`, `DiskWrites`, `PostLog`). The queue that writes files later and merges writes
where it can, its promises, its reading through, its exit, and the append-only post log that lives in it.

**Group rooms** (`RoomBundles`, `RoomCrashes`, `RoomHeaders`, `RoomHops`). Deliveries under idempotency keys over failures, restarts,
outages and crashes that lose log lines; the text of an input with its headers, and how far agents can answer one another without the
owner.

**Watching the boxes** (`CpuGroups`, `SessionReaper`, `Adoption`, `Heartbeats`). Where a box's busy cores went, which ssh sessions are
dead, which subagents a moved chat lacks, and which heartbeats to re-arm.

## Where the code and what is said of it differ

The model follows the code. Each difference below is a theorem here, with the exact condition or a concrete run.

- `line-delta.ts:115` says the client can always rebuild the exact bytes. It does exactly when no update is sent as a delta under a
  session id with a control character, which JSON escapes and the head pattern then does not match (`RoundTrip`, `DeltaIsRead`); such
  a stream is one long enough update sent twice (`RepeatIsGarbled`, `AnUpdateIsLost`).
- `disk.ts:66-69` says a running append may read twice. It does exactly while some of its lines are on disk and no waiting replace
  hides them, also between its landing and the end of its turn (`LatestIsEveryCall`); the post log replays to the same list all the
  same (`RepeatIsNoOp`), because every change it holds comes after its post (`RepeatCanMatter` shows it would matter otherwise).
- `disk.ts:10` says `written(path)` settles once everything queued for the file is on disk. When a path has a waiting replace and
  then an append, which every queue can come to (`WaitsUnplain`), one more replace lets it settle before (`SettlesEarly`); in every other
  case it keeps the promise (`SettledIsWritten`).
- `disk.ts:11` lets an exit write the queue while a write still runs. That keeps the order on a path exactly when the waiting writes
  may overtake the running one there (`ExitKeepsOrder`), and two appends are enough for it not to (`ExitSwaps`). Two replaces of a path
  share one temporary file, so an exit can leave lines of both in the file (`ExitMixes`).
- `disk.ts:84` lets `written` settle when a write failed. The store then keeps in memory the posts whose lines were lost, until a
  restart reads a list without them (`Fails`).
- `agent-store.ts:67-69` and `group-rooms.ts:541-545` rely on the host keeping a requestId once. A release that bundles a post whose
  delivery was ever tried alone can make the host take that post twice, even if every failure that said the box was away was true
  (`ReleaseIsSafeExactlyWhen`, `AwayFailuresAreNotEnough`). A post delivered alone while a bundle holds it can then fail with that bundle
  and go out again (`OverExactlyWhen`).
- `manage.py:313-344` checks every operation that changes something before a run does anything. A stray temporary file under one that
  changes nothing is found only when all else is in place (`Apply`), and a missing directory of a saved file only when its turn comes
  (`Rollback`).
- `agent-store.ts:67-68` and `group-rooms.ts:543` say a bundle is saved before its submit. Its lines are queued and the submit does not
  wait for them, so from every clean release a crash can lose the bundle of posts that were sent (`SubmitBeforeSaved`), and the host can
  then take a post twice that the log still has (`CrashDoubles`), or the number of a lost post again for a new one (`NumberComesBack`).
  Neither can happen exactly when the crash keeps every bundle whole that was sent (`CrashIsSafeExactlyWhen`).
- `group-rooms.ts:11` bounds hops by `MAX_HOPS`. A post past the limit is never submitted, but a post's own hops stay within it
  exactly when no aged or bundled input quotes, in a post's text or in its context, a header line at or past the limit
  (`BoundedExactlyWhen`, `QuotedHeaderCounts`).
- `sync.py` converges (`TwoRunsEachConverge`), but a run that stops between writing its files and moving its base can change the shared
  state after every box has completed a run (`LateSkipRevives`). It can exactly when something it wrote does not give way to the shared
  state as it is then (`LateStopIsHarmlessExactlyWhen`). And a lost race can turn a deletion into an edit that beats it
  (`DeletionAfterLostRace`).
- `sync.py:235-241` puts index entries back to head's value, so a move that fails keeps files and main but not an entry staged
  otherwise (`Move`). A finished move leaves a staged copy of the target over head's file as a file that looks changed, and a
  superseded path whose target is a symlink as a regular file (`CleanExactlyWhen`).
- `adopt-moved-subagents.py:10` says parents before children. Each edge's parent does come before it (`ParentsFirst`); when two folders
  resolve to one file, a second edge of a parent can come after its children, and else none does (`NoParentComesLate`).
- `wd_heartbeats.py:191-193` tells a session that the prompts it could not re-create are in the snapshot. The next cycle that lists
  jobs forgets each one that did not come back (`NextSnapshotKnows`).

## Model

| member | source | states |
|---|---|---|
| Utf8.DecodeEncode | components/prime-relay/line-delta.ts:122-128 | UTF-8 bytes of well-formed text read back as that text |
| Utf8.DecodedIsWellFormed | components/prime-relay/line-delta.ts:122-125 | whatever bytes are read, the text has no lone surrogate, so comparing re-encoded bytes detects every invalid line |
| Utf8.DecodeCut | components/prime-relay/line-delta.ts:96-100 | the first n bytes of a text read as whole characters and at most one replacement character, for every cut |
| Utf8.DecodedNewline | components/prime-relay/line-delta.ts:88-94 | the text read from any bytes holds a newline character exactly when the bytes hold a newline byte |
| LineDiff.ApplyOps | components/prime-relay/line-delta.ts:68-72 | the loop builds the concatenation of the copied slices and inserted texts |
| LineDiff.SameRun | components/prime-relay/line-delta.ts:23-27 | the loop finds the run that `RunIsMaximal` describes |
| LineDiff.RunIsMaximal | components/prime-relay/line-delta.ts:23-27 | base and line agree over the run and differ, or one ends, right after it |
| LineDiff.Resync | components/prime-relay/line-delta.ts:30-40 | the two searches with their skip of 4 and window of 256 answer the anchor that `NextAnchorSpec` describes |
| LineDiff.NextAnchorSpec | components/prime-relay/line-delta.ts:30-40 | a hit is a place at or after both cursors where 16 characters agree within the bounds; with no hit none of the places tried is one |
| LineDiff.NextAnchorExactly | components/prime-relay/line-delta.ts:30-40 | the anchor found is the first place in the line where the base text here goes on for 16 characters, else at the first of the line places tried the first base place that has its 16; none when none of them has one |
| LineDiff.HitRuns | components/prime-relay/line-delta.ts:55-63 | after a hit the next round copies at least 16 characters, which is why the loop ends |
| LineDiff.SuffixLength | components/prime-relay/line-delta.ts:47-49 | the loop finds the whole common suffix |
| LineDiff.DiffLine | components/prime-relay/line-delta.ts:46-66 | the loop ends and answers the operations that the next four lemmas are about |
| LineDiff.DiffExactly | components/prime-relay/line-delta.ts:46-66 | a list of operations is the diff exactly when it ends with the longest common ending as one copy and every operation before it is right: the longest run, of 16 or at the line's start, where base and line stand; else the text to the next anchor, and the longest run there; text stands last only with 64 operations before it or with no anchor among the places tried |
| LineDiff.DiffRebuilds | components/prime-relay/line-delta.ts:42-72 | applying the operations to the base gives the line, for all base and line |
| LineDiff.DiffIsBounded | components/prime-relay/line-delta.ts:58-65 | a diff has at most MAX_OPS + 3 operations |
| LineDiff.DiffOfSame | components/prime-relay/line-delta.ts:46-66 | a line diffed against itself is one copy |
| LineTransform.SplitIsExact | components/prime-relay/line-delta.ts:86-104 | a stream is its newline-ended lines and one unended rest, with nothing lost |
| LineTransform.SplitIsUnique | components/prime-relay/line-delta.ts:86-104 | no other cut into lines and a rest makes the same stream |
| LineTransform.LineStream.Transform | components/prime-relay/line-delta.ts:84-106 | after any chunk the stream stands where the fold over the bytes so far says, in all three modes, also when a swap throws |
| LineTransform.LineStream.Flush | components/prime-relay/line-delta.ts:107 | after the flush the output is the fold over the whole stream, with an unended last line passed as it came |
| LineTransform.Pump | components/prime-relay/line-delta.ts:78-109 | the output, the final state and whether it threw depend only on the bytes, not on how they were chunked |
| LineTransform.ThrownStays | components/prime-relay/line-delta.ts:105 | once a swap threw, no later byte changes what came out |
| LineDeltaRoundTrip.SessionHeadExactly | components/prime-relay/line-delta.ts:12 | the session pattern matches a head, with an id and an update or end type, exactly when the head opens with the session text for them |
| LineDeltaRoundTrip.DeltaSent | components/prime-relay/line-delta.ts:119-129 | what the encoder sent as a delta had a base, was valid UTF-8 and is rebuilt by its operations |
| LineDeltaRoundTrip.DeltaIsRead | components/prime-relay/line-delta.ts:127-135 | the decoder takes a delta line for one exactly when the session id has no control character |
| LineDeltaRoundTrip.LineComesBack | components/prime-relay/line-delta.ts:117-151 | with equal bases on both sides one line comes back and the bases stay equal, exactly unless it was sent garbled |
| LineDeltaRoundTrip.RoundTrip | components/prime-relay/line-delta.ts:111-151 | for every stream with no delta head, the decoder never throws, its output is the stream exactly when no line was garbled, and then both sides hold the same bases |
| LineDeltaRoundTrip.PlainIdsRoundTrip | components/prime-relay/line-delta.ts:111-151 | with ids free of control characters, decoding what the encoder sent is the stream, byte for byte |
| LineDeltaRoundTrip.SendAndReceive | components/prime-relay/line-delta.ts:117-151 | the same through two live transforms with any chunking into each |
| LineDeltaRoundTrip.GarbledShows | components/prime-relay/line-delta.ts:127-128 | a garbled line does change the bytes, so the condition is exact |
| LineDeltaRoundTrip.RepeatIsGarbled | components/prime-relay/line-delta.ts:117-129 | any update sent twice under an id with a control character is garbled the second time, when a one-copy delta is shorter than it |
| LineDeltaRoundTrip.AnUpdateIsLost | components/prime-relay/line-delta.ts:111-151 | so it is with a given 277-character update: sent twice, the client does not get its bytes |
| DeltaReader.StringReads | components/prime-relay/line-delta.ts:127-128 | a string escaped as JSON comes back, lone surrogates, quotes and control characters included |
| DeltaReader.ReadsItBack | components/prime-relay/line-delta.ts:144 | a reader of delta lines, written out, gives back the id and the operations of every delta written, so a parse as assumed exists |
| DeltaReader.ReaderRoundTrip | components/prime-relay/line-delta.ts:111-151 | with that reader the round trip holds with nothing assumed |
| LineDeltaRoundTrip.ForgedDeltaThrows | components/prime-relay/line-delta.ts:144-146 | a source line that already has a delta head makes the decoder throw |
| Installer.BeforeIsInOnePlace | scripts/manage.py:433-443 | on every safe disk what was at a target before is in exactly one of target and backup |
| Installer.ExpectedExactly | scripts/manage.py:264-274 | the physical states and the table of allowed states say, for each state of a change, which of these a target and its backup must be: as before, moved aside, or replaced with its before saved; anything else is drift, and so is a temporary file that is no beginning of the value |
| Installer.SafeIsAccepted | scripts/manage.py:327-344 | a disk that only the installer wrote passes these checks |
| Installer.Machine.Unlink | scripts/manage.py:480-483 | only a target that holds what the plan put there is unlinked |
| Installer.Machine.MakeDirectory | scripts/manage.py:354-358 | a directory is made only when the saved receipt names it |
| Installer.Machine.MoveToBackup | scripts/manage.py:433-434 | the rename takes what the plan found, to an empty backup place |
| Installer.Machine.Make | scripts/manage.py:379-393 | a target is made only where nothing is, and a generated one only from its whole temporary file |
| InstallerRuns.ValidateReceipt | scripts/manage.py:313-344 | the loop passes exactly when every operation's target, backup and temporary file are what its state in the receipt asks, in the words of the row of `ExpectedExactly` |
| InstallerRuns.EnsureParents | scripts/manage.py:347-358 | each missing directory is recorded before it is made, outermost first, and the disk is safe at every crash between |
| InstallerRuns.WriteTemp | scripts/manage.py:386-392 | a crash leaves a beginning of the value, which is what the next check accepts |
| InstallerRuns.Publish | scripts/manage.py:379-395 | the target ends as planned with no temporary file, and is safe at every crash between |
| InstallerRuns.FillTarget | scripts/manage.py:433-441 | from original, backed up or installed, the target ends as planned with its before in the backup |
| InstallerRuns.InstallOne | scripts/manage.py:423-443 | one operation ends applied from whatever an earlier apply left of it |
| InstallerRuns.Apply | scripts/manage.py:398-452 | from any disk: refused with the disk as it was exactly when, on a first run, a target is not as the plan found it, or later the plan was rolled back or an operation's files have drifted; else it ends with every operation in place and what it replaced saved, stops at a stray temporary file under an operation that changes nothing, or crashes on a disk the next run can go on from |
| InstallerRuns.AloneCanApply | scripts/manage.py:405-419 | when nobody else writes, an apply is refused only after a rollback |
| InstallerRuns.PutBack | scripts/manage.py:475-492 | from any of the three states the target ends as it was, backup and temporary file gone |
| InstallerRuns.RestoreOne | scripts/manage.py:471-494 | one operation ends restored from whatever an apply or an earlier rollback left of it |
| InstallerRuns.Rollback | scripts/manage.py:455-505 | from any disk: refused with the disk as it was exactly when there is no receipt or an operation's files have drifted; else it ends with every operation undone and nothing else written, stops where a saved file's directory is gone, or crashes on a disk the next rollback can go on from; when nobody else wrote, every target, backup and directory is as before |
| InstallerRuns.LastMadeIsEmpty | scripts/manage.py:495-502 | with everything undone and nobody else about, each made directory is empty when its turn comes, so none stays |
| InstallerRuns.AnyHistory | scripts/manage.py:398-505 | any sequence of applies and rollbacks, each cut anywhere, keeps the disk one that the next run can go on from, and safe when nobody else writes |
| InstallerRuns.CrashesThenInstalled | scripts/manage.py:398-452 | applies that crash anywhere, then one that ends: everything is installed with its before saved |
| InstallerRuns.HistoryThenBack | scripts/manage.py:455-505 | any history, then a rollback that ends: every target, backup, temporary file and directory is as before the first run |
| SyncMerge.MergeAt | components/prime-sync/sync.py:600-620 | a merged path holds the pick of its three versions, also when the box never synced |
| SyncMerge.MergeSays | components/prime-sync/sync.py:607-619 | what a merge leaves at a path: the side that changed since the base, of an edit and a deletion the edit, of two edits the one with the newer stamp and the shared state's when they tie |
| SyncMerge.JoinIsUnion | components/prime-sync/sync.py:603-606 | a first join holds the paths of both sides, the shared bytes winning where both hold one |
| SyncMerge.MergeIsSymmetric | components/prime-sync/sync.py:608-619 | two boxes that merge each other agree exactly when no path has two edits with one stamp |
| SyncMerge.OnlyUneditedPathsGo | components/prime-sync/sync.py:610-615 | a path goes exactly when one side deleted it and the other left it as it was |
| SyncMerge.UneditedAdopts | components/prime-sync/sync.py:610-613 | a box with no edit of its own takes the shared state whole |
| SyncMerge.RetryIsIdempotent | components/prime-sync/sync.py:714-755 | merging again after a lost push changes nothing while the remote stands |
| SyncMerge.DeletionAfterLostRace | components/prime-sync/sync.py:746-755 | after a lost race a remote deletion of a path the box never touched holds exactly when the race brought no edit of it |
| SyncMerge.GuardKeepsHalf | components/prime-sync/sync.py:623-627 | the guard lets a merge through exactly when it keeps at least half of the shared entries |
| SyncRuns.NextIsStep | components/prime-sync/sync.py:700-756 | what every step of a run, an edit and each way to stop leave of the box and of the shared state, path by path and without the merge function |
| SyncRuns.EnabledExactly | components/prime-sync/sync.py:700-756 | a step can be taken exactly when the box is at that point of its run, and a pushed stop when no other box pushed since the fetch |
| SyncRuns.OneRunEachSettles | components/prime-sync/sync.py:700-756 | in any interleaving, with any lost races, edits and late stops, no box has anything to push once each completed a run after its last edit and its last late stop that wrote what its base does not hold |
| SyncRuns.SettledRemoteStays | components/prime-sync/sync.py:700-756 | from then on, and from every calm state, no step of any box changes the shared state while no late stop is harmful |
| SyncRuns.TwoRunsEachConverge | components/prime-sync/sync.py:700-756 | one more completed run each, with any lost races, skipped runs and harmless late stops, and every local, base and remote are equal |
| SyncRuns.SettledStays | components/prime-sync/sync.py:714-755 | a settled box stays settled and pushes nothing, but for its own edit or its own late stop that wrote what its base does not hold |
| SyncRuns.MarksHold | components/prime-sync/sync.py:704-755 | at every point of every run, edits and late stops included, how far a box's latest run has come says what its files and base are |
| SyncRuns.LateStopIsCleanExactlyWhen | components/prime-sync/sync.py:720-750 | a stop between files and base leaves a settled box with nothing of its own exactly when what it fetched is what its base holds, wherever it wrote |
| SyncRuns.NothingToPushExactlyWhen | components/prime-sync/sync.py:600-620 | a box's next run would push nothing exactly when each path it holds gives way to the shared state |
| SyncRuns.LateStopIsHarmlessExactlyWhen | components/prime-sync/sync.py:720-750 | a late stop in a calm system can never come to change the shared state exactly when all it wrote gives way to the shared state as it is; otherwise the box's next run changes it |
| SyncRuns.StopsThatAreHarmless | components/prime-sync/sync.py:720-750 | a run that fetched the shared state as it still is, or as its base has it, can stop anywhere |
| SyncRuns.LateSkipRevives | components/prime-sync/sync.py:720-750 | a concrete run: all three boxes complete a run, one after a late stop of another, and the stopped box then brings a deleted entry back |
| StateFiles.NameReads | components/prime-sync/sync.py:582 | a path made from kind and id gives back both |
| StateFiles.HarnessFilesWellNamed | components/prime-sync/sync.py:578-586 | every file of any state is named so that it reads back, when kinds hold no slash and none is `refinements` |
| StateFiles.HarnessRoundTrip | components/prime-sync/sync.py:578-667 | files turned into a state and back are the same files, whatever state the box held |
| StateFiles.NextRunIsStill | components/prime-sync/sync.py:700-756 | a run right after a run reads back the harness files and the corrections it wrote, and pushes nothing |
| StateFiles.KindInRefinementsFolder | components/prime-sync/sync.py:583-585 | an entry kind called `refinements` does not read back |
| StateFiles.LedgerRoundTrip | components/prime-sync/sync.py:589-674 | corrections turned into a ledger and back are the same files |
| MoveCheckout.Checkout.ReadRows | components/prime-sync/sync.py:202-222 | each changed path is read once, with the fate its disk, index, head and target give it |
| MoveCheckout.Checkout.SaveCopies | components/prime-sync/sync.py:225-230 | every file that will be rewritten is saved first |
| MoveCheckout.Checkout.WriteTargets | components/prime-sync/sync.py:231-233 | the target's bytes go under every rewritten file, as a regular file, and no other file changes |
| MoveCheckout.Checkout.SetIndex | components/prime-sync/sync.py:243-244 | the target, or head again, is staged for every path git must leave alone, and for no other |
| MoveCheckout.Checkout.WriteBack | components/prime-sync/sync.py:235-256 | merged text goes over the target, or the saved copies back, and no other file changes |
| MoveCheckout.Checkout.Undo | components/prime-sync/sync.py:235-241 | every file is as the run found it, and the staged entries are head's |
| MoveCheckout.Checkout.MoveRows | components/prime-sync/sync.py:225-256 | past the reading, a move ends at the target or back where it was, path by path |
| MoveCheckout.Checkout.Move | components/prime-sync/sync.py:193-261 | a move finishes exactly when every path git moves alone is staged as head or the target has it, every other is staged as head, target or disk has it with no folder in its place, main did not move and git is willing; then main and every entry are at the target, each file is as the row of `EditsLand` says, and what it held is head's, still there or saved; else main and every file are as they were, and the entries of paths with a live edit are head's |
| MoveCheckout.EditsLand | components/prime-sync/sync.py:212-222 | at a path a finished move changes, with no live edit what git leaves; else, when disk, head and target are files and the disk has the mode of one of the two, what `git merge-file` makes of disk over target with head as the base; else or with a clash the target's bytes for a draft of it; else the same merge keeping the live side; else the edit as it was |
| MoveCheckout.NothingIsLost | components/prime-sync/sync.py:194-199 | after a move the bytes a path had on disk are head's, still on disk, or saved |
| MoveCheckout.CleanExactlyWhen | components/prime-sync/sync.py:204-256 | whether a finished path still differs between disk and index, for each of its fates |
| DiskQueue.AfterIsPlayed | apps/chat/server/disk.ts:70-82 | the waiting writes take the replay of the calls before them to the replay of all calls |
| DiskQueue.ReplacedIs | apps/chat/server/disk.ts:36-46 | a replace goes last and takes over the promises of the one of its path that waited, which leaves the queue; all others keep their order |
| DiskQueue.AppendedIs | apps/chat/server/disk.ts:54-64 | an append joins the last waiting write when that is an append of its path, and else goes last |
| DiskRuns.ReplaceKeepsInv | apps/chat/server/disk.ts:36-46 | a replace keeps every invariant, with at most one replace of a path waiting |
| DiskRuns.AppendKeeps | apps/chat/server/disk.ts:54-64 | an append keeps every invariant, joined to the tail or not |
| DiskRuns.FinishKeeps | apps/chat/server/disk.ts:94-114 | the end of a write keeps every invariant, and a waiting write always has a run or a wake-up coming |
| DiskRuns.FailKeeps | apps/chat/server/disk.ts:106-112 | so does a write that fails, before it touched its file or with part of an append on disk; its calls then count with the lines that landed |
| DiskRuns.CutText | apps/chat/server/disk.ts:106-112 | the calls of such a write, cut, say together exactly the lines that landed |
| DiskRuns.TailTouches | apps/chat/server/disk.ts:54-59 | the tail that an append joins is the last call, so joined texts are of consecutive calls |
| DiskRuns.SettledIsWritten | apps/chat/server/disk.ts:84-87 | a promise of `written`, given while no replace of its path waits before the last write, settles only when every call so far for the path is written, failed, or replaced by one that is |
| DiskWrites.LatestIsEveryCall | apps/chat/server/disk.ts:66-82 | `readLatest` is the replay of all calls in call order, except exactly while lines of the running append would read twice |
| DiskWrites.DoubledReading | apps/chat/server/disk.ts:66-82 | what it then answers: some lines of the running append, then all of them |
| DiskWrites.DroppedDoNotMatter | apps/chat/server/disk.ts:38-42 | leaving out a replace that a later one superseded does not change the replay |
| DiskWrites.CrashIsInOrder | apps/chat/server/disk.ts:8-9 | at every moment each file is the replay of the decided calls and part of the running one; when a call has come to its file, within the running write too, every earlier one is there to its last line, failed or superseded |
| DiskWrites.ExitKeepsOrder | apps/chat/server/disk.ts:94-132 | an exit during a running write leaves the calls in order on a path exactly when the queue may overtake it there, also when a waiting replace takes the running one's temporary file or the file a running append writes to |
| DiskWrites.SettlesEarly | apps/chat/server/disk.ts:36-46 | from every state with a waiting replace and then an append of a path, one more replace makes the earlier promise settle too soon |
| DiskWrites.ReadsTwice | apps/chat/server/disk.ts:66-82 | an idle queue, a new one included, comes to a double reading by one append that has landed |
| DiskWrites.WaitsUnplain | apps/chat/server/disk.ts:36-64 | every queue comes to a state of `SettlesEarly` by a replace and an append |
| DiskWrites.ExitSwaps | apps/chat/server/disk.ts:116-132 | an idle queue comes to a state in which an exit swaps two appends, unless their texts commute |
| DiskWrites.ExitMixes | apps/chat/server/disk.ts:101-122 | an idle queue comes to an exit that leaves lines of two replaces in one file, unless what was still to write happens to be there |
| DiskWrites.WriteQueue.ReplaceLater | apps/chat/server/disk.ts:36-46 | the search, the splice and the push make exactly that step |
| DiskWrites.WriteQueue.AppendLater | apps/chat/server/disk.ts:54-64 | the join or the push makes exactly that step |
| DiskWrites.WriteQueue.ReadLatest | apps/chat/server/disk.ts:70-82 | the loop answers the file with each waiting write for it in order |
| DiskWrites.WriteQueue.Written | apps/chat/server/disk.ts:84-87 | the last waiting write's promise, or a settled one |
| DiskWrites.WriteQueue.Finish | apps/chat/server/disk.ts:106-113 | however the write ended, its promises settle and the loop takes the next one |
| DiskWrites.WriteQueue.FlushSync | apps/chat/server/disk.ts:116-132 | every waiting write is in its file, in order, and settled |
| DiskWrites.WriteQueue.Drained | apps/chat/server/disk.ts:134-137 | the queue empties, and then each file is the replay of all calls not failed |
| PostLog.ReplayLines | apps/chat/server/agent-store.ts:284-306 | the loop with its map of posts replays the lines |
| PostLog.SoundIsWellFormed | apps/chat/server/agent-store.ts:315-330 | ids and seqs are 1 to n with no gap and requestIds are unique, after every log the store writes |
| PostLog.RepeatIsNoOp | apps/chat/server/agent-store.ts:293-304 | some lines of a block, then the whole block, replay as the block once |
| PostLog.RepeatCanMatter | apps/chat/server/agent-store.ts:301-303 | without changes that refer back, a repeated block would replay differently |
| PostLog.ReplayIsPatched | apps/chat/server/agent-store.ts:293-304 | a replay is each post as first added, under all of its patches in order |
| PostLog.LatestReplays | apps/chat/server/agent-store.ts:281-306 | reading a log through the queue, whatever is half written, replays to the list of all its lines |
| PostLog.CrashLeavesAPrefix | apps/chat/server/disk.ts:8-9 | an append-only file holds a prefix of its lines at every moment |
| PostLog.FilesApart | apps/chat/server/agent-store.ts:342-345 | two rooms share a log file exactly when their ids have one length and differ only in characters that are no letters, digits, dots or dashes on either side |
| PostLog.PlainExactly | apps/chat/server/agent-store.ts:342-345 | a room's id is its file's name exactly when it has none but letters, digits, `_`, `.` and `-` |
| PostLog.AgentStore.PostsOf | apps/chat/server/agent-store.ts:281-308 | the list, from memory or from the log, is the replay of every line written or waiting |
| PostLog.AgentStore.ByRequestId | apps/chat/server/agent-store.ts:311-313 | finds the room's post with a key, or says there is none |
| PostLog.AgentStore.Append | apps/chat/server/agent-store.ts:315-329 | the post with that requestId, or a new one with the next seq, in memory and as one log line; other rooms stand |
| PostLog.AgentStore.Set | apps/chat/server/agent-store.ts:331-335 | the patched list in memory and one log line; other rooms stand |
| PostLog.AgentStore.Goes | apps/chat/server/disk.ts:94-114 | whatever the disk does next, every list in memory stays what its log replays to |
| PostLog.AgentStore.Fails | apps/chat/server/disk.ts:94-114 | after a failed write the lists in memory stand, the log lacks exactly the lines that had not landed, and its replay lacks exactly the posts those added |
| PostLog.LostPosts | apps/chat/server/agent-store.ts:293-304 | a log the store wrote, less a stretch of lines, replays to all its posts but those the stretch added |
| PostLog.Restart | apps/chat/server/agent-store.ts:281-308 | a server that starts on what a crash left reads in each room the list some earlier moment had |
| RoomBundles.InvAlways | apps/chat/server/group-rooms.ts:449-568 | over any run all members of a bundle hold it, and every key in use names deliveries that are there |
| RoomBundles.StepDoes | apps/chat/server/group-rooms.ts:437-568 | what each step leaves of every post, spelled out: a submit's answer on all posts of its key, a refusal on all that go as its head, a release, a retry and a deletion |
| RoomBundles.NewBundle | apps/chat/server/group-rooms.ts:546-560 | only a release makes a bundle, of all the waiting posts in none, and each gets it |
| RoomBundles.ReleaseDoes | apps/chat/server/group-rooms.ts:546-560 | a release lets every waiting post go: in the bundle it has, with all others that have none when there are any, or alone |
| RoomBundles.BundleForever | apps/chat/server/group-rooms.ts:542-544 | a delivery in a bundle stays in that one, over failures, outages and restarts that lose no log line |
| RoomBundles.BundledSubmits | apps/chat/server/group-rooms.ts:456-500 | over such runs every later submit for it goes under that key with those members, and no submit names a post in two bundles |
| RoomBundles.TakenOnce | apps/chat/server/group-rooms.ts:499-530 | over such runs, when every release bundles only posts never tried alone, the host takes each post at most once |
| RoomBundles.LandedForGood | apps/chat/server/group-rooms.ts:499-505 | over runs whose releases bundled no post tried alone, a post that landed stays delivered and is never in a submit again |
| RoomBundles.OverExactlyWhen | apps/chat/server/group-rooms.ts:456-530 | a delivered post stays so in every run exactly when neither it nor the post it goes as is on its way and the latter is delivered or stopped; otherwise some run fails it |
| RoomBundles.ReleaseIsSafeExactlyWhen | apps/chat/server/group-rooms.ts:546-560 | and only then: otherwise some run after the release has the host take a post twice |
| RoomBundles.UncleanDoubles | apps/chat/server/group-rooms.ts:546-566 | that run, from every such state |
| RoomBundles.AwayFailuresAreNotEnough | apps/chat/server/group-rooms.ts:506-526 | a run from the start in which each away failure is true and the host takes a post twice |
| RoomBundles.MemberDeliveries.Deliver | apps/chat/server/group-rooms.ts:456-482 | hands over to the bundle's head and starts, refuses or skips as the step does |
| RoomBundles.MemberDeliveries.Submit | apps/chat/server/group-rooms.ts:499-500 | the submit goes to the host under the key and members its start chose |
| RoomBundles.MemberDeliveries.Answered | apps/chat/server/group-rooms.ts:499-528 | the answer is written to each member in turn: landed makes it delivered, dead failed, away leaves its state and waits, again leaves its state; all other posts stand |
| RoomBundles.MemberDeliveries.Back | apps/chat/server/group-rooms.ts:546-560 | the two loops of a release make exactly that step, and leave the posts as the row of `ReleaseDoes` says |
| RoomCrashes.TakenOnceOver | apps/chat/server/group-rooms.ts:499-560 | the same over crashes that put the posts back to any earlier line of the log, while none loses the bundle of a post that was sent in one |
| RoomCrashes.SentBundleStays | apps/chat/server/agent-store.ts:67-69 | a post sent in a bundle stays in it, or is over for good, over such runs |
| RoomCrashes.CrashIsSafeExactlyWhen | apps/chat/server/group-rooms.ts:546-566 | the host takes no post's number twice in any careful run after a crash exactly when the crash tears no bundle and each post sent in one still holds it or is over |
| RoomCrashes.CrashDoubles | apps/chat/server/group-rooms.ts:546-566 | after a crash that takes a sent bundle from a post the log still has, or tears one, some run without another release has the host take that post twice |
| RoomCrashes.NumberComesBack | apps/chat/server/group-rooms.ts:400-403 | the other unsafe crashes lose a post of a sent bundle itself, and no post of it that is left is on its way; a new post can then get the number and be taken under it |
| RoomCrashes.SubmitBeforeSaved | apps/chat/server/group-rooms.ts:554-566 | from every clean release with nothing on its way, the bundle can be submitted with none of its lines saved, so such a crash is always near |
| RoomCrashes.BootIsWhole | apps/chat/server/agent-store.ts:281-308 | what these theorems ask of a state holds at a server's first start |
| RoomHops.WakesExactly | apps/chat/server/group-rooms.ts:422-433 | a post wakes exactly the registered agents that are unmuted members or mentioned from outside, never its author |
| RoomHops.PostWakes | apps/chat/server/group-rooms.ts:399-433 | a post has a delivery to each agent it wakes and to no other, none in a room that takes no posts: on its way below 6 hops, stopped from there on |
| RoomHops.StepLeaves | apps/chat/server/group-rooms.ts:437-530 | what taking an input in, settling, editing and retrying leave of every post and delivery |
| RoomHops.CanExactly | apps/chat/server/group-rooms.ts:413-482 | which steps can happen: an input and an end need deliveries on their way, a post a turn that still makes posts |
| RoomHops.ReplyHops | apps/chat/server/group-rooms.ts:676-706 | an agent's post is one hop from the owner after an input with an owner post, else past every post of its input, and one past the farthest when no text shown in it reads as a header |
| RoomHops.LimitIsNeverSubmitted | apps/chat/server/group-rooms.ts:409-420 | a post at the hop limit is in no input |
| RoomHops.BoundedExactlyWhen | apps/chat/server/group-rooms.ts:81-94 | a step keeps all hops within the limit exactly when its input was sent at once, or shows no line of header form at or past it in its posts' texts and context, or has an owner post |
| RoomHops.HopsAtMostSix | apps/chat/server/group-rooms.ts:676-706 | over any run of such inputs every post has at most 6 hops |
| RoomHops.TameWritersStayBelow | apps/chat/server/group-rooms.ts:594-615 | and every run is one when no text written and no context line has a header's form at or past the limit |
| RoomHops.QuotedHeaderCounts | apps/chat/server/group-rooms.ts:81-94 | a header line at or past the limit, quoted in a post that waited, does break the bound, whatever room, author and number it names |
| RoomHeaders.HeaderExactly | apps/chat/server/group-rooms.ts:79 | a line is read as a header, with its hops, exactly when it matches the pattern |
| RoomHeaders.InputHeaders | apps/chat/server/group-rooms.ts:85-94 | an input sent at once shows its post's hops only; one whose posts waited shows each post's hops and those of every line of header form in their texts and context |
| RoomHops.OwnerActsAgain | apps/chat/server/group-rooms.ts:395-433 | no run of inputs, failures and replies goes on for ever without the owner, however many posts each turn makes |
| RoomHops.DeliverDescends | apps/chat/server/group-rooms.ts:676-692 | taking an input in lowers the rank of the run though its turn may make any number of posts |
| CpuGroups.ParentsOf | components/prime-relay/cpu-groups.ts:50-55 | exactly the ancestors of the leaves below the root, each once |
| CpuGroups.CountProcs | components/prime-relay/cpu-groups.ts:83-89 | each holder's item is all the time of its processes, the items add up to their times, and each leaf's share is kept |
| CpuGroups.CountLeaves | components/prime-relay/cpu-groups.ts:93-100 | each holder's item grows by what its leaves used beyond their processes; each leaf is charged to its parent, and its group is noted there |
| CpuGroups.CountEnded | components/prime-relay/cpu-groups.ts:101-106 | deepest first, each parent counts what it used beyond all its children for the one group that runs units in it, else for ended units |
| CpuGroups.SharesAre | components/prime-relay/cpu-groups.ts:65-106 | what the shares of the window are, by the two readings alone: a process's ticks since its start or the first reading; a held leaf's counter growth; a by-process leaf's growth beyond its processes; a parent's growth beyond the cgroups right below it, for jobs in a user's slices, else for the one group of its live leaves, else for its place's holder; a counter that went back counts its new value, a new one its whole value up to the window's CPU time |
| CpuGroups.GrownIs | components/prime-relay/cpu-groups.ts:69-74 | what the count takes for a cgroup is the time its two readings say |
| CpuGroups.ProcTimeIs | components/prime-relay/cpu-groups.ts:85-86 | and for a process, when each pid is listed once |
| CpuGroups.UsedAddsUp | components/prime-relay/cpu-groups.ts:69-74 | over two windows in a row a cgroup whose counter never goes back counts what it counts over both together |
| CpuGroups.RanAddsUp | components/prime-relay/cpu-groups.ts:84-86 | and so does a process |
| CpuGroups.HoldsJobsExactly | components/prime-relay/cpu-groups.ts:44 | the users' slices are those the pattern names |
| CpuGroups.UnescapedIs | components/prime-relay/cpu-groups.ts:35 | the label has the dashes that systemd escaped |
| CpuGroups.ItemIsItsHolders | components/prime-relay/cpu-groups.ts:76-83 | an item's seconds are the sum of the shares whose holder it has |
| CpuGroups.ItemsTelescope | components/prime-relay/cpu-groups.ts:9-13 | with every ancestor read and no negative residual the items add up to the growth right below the root |
| CpuGroups.AllAncestorsRead | components/prime-relay/cpu-groups.ts:50-55 | which is so when the cgroups of `parentsOf` were all read |
| CpuGroups.EachPartOnce | components/prime-relay/cpu-groups.ts:90-105 | summed under each key or all at once, every part counts once |
| CpuGroups.Balance | components/prime-relay/cpu-groups.ts:107-110 | remainder and scale leave exactly the busy time |
| CpuGroups.ByGroup | components/prime-relay/cpu-groups.ts:112-118 | one entry per group, with exactly the time of its own items |
| CpuGroups.Show | components/prime-relay/cpu-groups.ts:119-121 | every group that rounds to more than nothing, and no other, with its rounded cores |
| CpuGroups.RoundingLoses | components/prime-relay/cpu-groups.ts:111-121 | rounding loses at most 0.005 cores per group, the groups rounded away included |
| CpuGroups.CountGroups | components/prime-relay/cpu-groups.ts:65-122 | each item is the sum of the process, leaf, ended and remainder shares of its holder; each group shown has its own items' time, rounded; the items add up to busyCores times the window, the groups shown miss it by at most 0.005 each; nothing for an empty window |
| SessionReaper.Look | deploy/mac/sshd-reap.py:203-217 | each session's view, and an answer for every peer a quiet session needs |
| SessionReaper.Reap | deploy/mac/sshd-reap.py:185-255 | ends exactly the sessions that have no established socket, or a peer that answered without their port, and whose bytes the state has unchanged since DEAD_FOR_S ago; saves exactly the others, each with its bytes and since when they are the same |
| SessionReaper.EntryIsRow | deploy/mac/sshd-reap.py:208-209 | a saved age is that of the unbroken row of completed runs that saw the same pid, peer and bytes |
| SessionReaper.EndsExactlyWhen | deploy/mac/sshd-reap.py:221-236 | by the readings of all completed runs: a session is ended exactly when it is gone and the unbroken row of runs before that saw the same pid, peer and bytes starts DEAD_FOR_S back |
| SessionReaper.EndedWasQuiet | deploy/mac/sshd-reap.py:13-25 | so an ended session was seen the same by every completed run since one DEAD_FOR_S earlier |
| SessionReaper.KeptWhile | deploy/mac/sshd-reap.py:24 | new bytes keep a session, and a peer that holds the connection or cannot be asked keeps an established one |
| SessionReaper.CatchesUp | deploy/mac/sshd-reap.py:258-287 | after a sleep every tick runs, up to and with the first run that reaches all it asks |
| SessionReaper.CatchingExactly | deploy/mac/sshd-reap.py:258-287 | a tick is left catching up exactly when some tick found a sleep and no run since reached all it asked |
| SessionReaper.RunsExactlyWhen | deploy/mac/sshd-reap.py:258-287 | a tick starts a run exactly after a sleep, in a catch-up, or an interval after the last run |
| SessionReaper.NoRunMeansRecent | deploy/mac/sshd-reap.py:258-287 | a tick starts no run only when the last began less than an interval ago and no catch-up is on |
| Adoption.ReadLedger | components/prime-relay/adopt-moved-subagents.py:27-41 | an edge for each key ever spawned and no other: the parent and depth of its last spawn, the last name a spawn or rename gave it, deleted exactly when a delete follows that spawn |
| Adoption.FreeName | components/prime-relay/adopt-moved-subagents.py:72-77 | the search ends, at the first name of the row that is free |
| Adoption.CandidatesDiffer | components/prime-relay/adopt-moved-subagents.py:74-77 | no two names of the row are the same |
| Adoption.Walk.Adopt | components/prime-relay/adopt-moved-subagents.py:70-79 | a child gets the first name free in its turn: its own, then that with the suffix, then with a number from 2 |
| Adoption.Walk.Visit | components/prime-relay/adopt-moved-subagents.py:60-80 | the walk meets every child without an edge once, in order, each named in its turn |
| Adoption.MissingEdges | components/prime-relay/adopt-moved-subagents.py:52-87 | all and only the children without an edge, under names free in the ledger and given once, sorted by depth |
| Adoption.AdoptsExactly | components/prime-relay/adopt-moved-subagents.py:52-87 | what is appended, by the folders and the ledger alone: the children whose file no edge has, root after root and each folder before those inside and after it, under the session name or else the id of their record or the first free name in their turn, sorted by depth with those of one depth in that order |
| Adoption.NamesExactly | components/prime-relay/adopt-moved-subagents.py:54-57 | the names taken under a parent are those of its edges that are not deleted |
| Adoption.NamesStayUnique | components/prime-relay/adopt-moved-subagents.py:11-12 | appending any of them keeps live names unique under each parent |
| Adoption.RunTwice | components/prime-relay/adopt-moved-subagents.py:12 | a second run appends nothing |
| Adoption.ParentsFirst | components/prime-relay/adopt-moved-subagents.py:10 | in the order appended every edge's parent is a root, is in the ledger, or got its edge earlier, also when folders share a file |
| Adoption.NoParentComesLate | components/prime-relay/adopt-moved-subagents.py:10 | and when each folder names a file of its own, no edge of a parent comes after one of its child |
| Heartbeats.Rearm | components/watchdog/wd_heartbeats.py:219-300 | a cycle over a session makes exactly the step `Cycle` describes |
| Heartbeats.LossIsRearmed | components/watchdog/wd_heartbeats.py:241-300 | a cycle that finds a loss keeps every job in the file and arms a lost key exactly when some heartbeat with it can be written; the loss is settled exactly when one came back or this was the third try, and else tried again |
| Heartbeats.OtherCycles | components/watchdog/wd_heartbeats.py:219-251 | what any other cycle leaves: the armed jobs it lists as the new snapshot, else the snapshot, unless it is a week old or the session deleted its heartbeats itself |
| Heartbeats.RecreateDoes | components/watchdog/wd_heartbeats.py:130-185 | one re-creation writes nothing when something stands in its way or the heartbeat is there, else one job more, active when the daemon resumed it and paused when not |
| Heartbeats.NoSecondArmed | components/watchdog/wd_heartbeats.py:130-170 | wherever a pass is cut, no second armed job of one label and schedule is made |
| Heartbeats.RecreatedAreArmed | components/watchdog/wd_heartbeats.py:256-263 | every heartbeat whose re-creation did not fail is armed after the pass |
| Heartbeats.LossIsTriedThrice | components/watchdog/wd_heartbeats.py:264-275 | over any steps until a cycle lists jobs again, at most 3 completed cycles act on a loss |
| Heartbeats.HandledLossWaits | components/watchdog/wd_heartbeats.py:236-238 | after a handled loss no step of the watchdog writes the jobs file until a cycle lists jobs again |
| Heartbeats.OwnDeletionIsFinal | components/watchdog/wd_heartbeats.py:246-251 | a session that deleted its own is forgotten and not re-armed after |
| Heartbeats.NextSnapshotKnows | components/watchdog/wd_heartbeats.py:229-233 | the next snapshot knows exactly the heartbeats that came back |

## Left out

- Processes, sockets, ssh, git, HTTP and the filesystem itself: each call is a step or a parameter. `git merge-file` is an unknown
  function, `read-tree`, `update-ref` and `push` are steps that happen whole or not at all.
- `JSON.parse` beyond reading back what was stringified, and SHA: a hash of two different inputs is taken to differ.
- Power failing between a write and its sync to the disk, and two installers at once: the installer's steps are durable one by one.
- InstallerRuns.Apply: directories are a tree, nobody else writes receipts, and with no receipt yet the backup places and temporary names,
  which carry the plan's id, are not in use.
- The installer's checks of plan, manifest and symlinked parents (`validate_plan`, `validate_owned_operations`, `safe_parents`); targets
  are disjoint and none lies inside another.
- Edits of a file by someone else while a move, a re-arming pass or an installer run is between its steps, but for main moving during a move.
- The order of entries and corrections inside the files the sync writes, its mode pushes, and `heal_index`.
- PostLog.CrashLeavesAPrefix: lines land whole; a torn last line, which a later append would join, is not modelled.
- PostLog.AgentStore.Fails: what the store does after a failed write, with lists in memory that its logs no longer replay to.
- DiskWrites.ExitKeepsOrder: the lines a running replace still writes come after all of the exit's own writes, not between them.
- PostLog.AgentStore.Set: the caller passes a post of the room's list, and a patch holds no undefined field, which JSON would drop.
- The record and room index of the store (`lookup`), which answers what the scans it replaced did.
- RoomBundles.TakenOnce: its restarts lose no line of the log; RoomCrashes.TakenOnceOver has the crashes that do.
- Images and a room's direct messages, and which earlier posts a channel's envelope shows: those lines are parameters. Labels, names and
  lines hold no newline, and a count of hops past 2^53, which JavaScript rounds, is exact here.
- RoomHops.OwnerActsAgain: notices of finished jobs, which give an agent another turn at the same hops, count as outside input.
- CpuGroups.Show: the order of the groups and each group's three busiest holders.
- The reading of /proc, lsof, netstat and cgroup files, the label rules of holders, and the patterns that find a session's process.
- Adoption.NoParentComesLate: each child's file is named by one folder only; Adoption.ParentsFirst has no such condition.
- Heartbeats.Rearm: the message to the session, dry runs, and the daemon's own scheduling.
- Threshold tables and views elsewhere in the repository, which one branch settles.
