# Verified model of Flux

Flux copies files and trees so that a target is only ever replaced by a finished, checked copy. This project models
the parts of it where that promise is made, and proves the promise.

| modules | what they model |
|---|---|
| `Protocol`, `Destination`, `Readers` | the calls a copy may make, as an automaton over the log of calls; the destination directory, the lock, the source and its reads, each of which may fail, be cut short or change under the run |
| `Policy`, `Keeping`, `Resume`, `Stage`, `Publishing` | the copy itself: the identity gate, the decision what to keep of an earlier partial, the streaming, the read-back, the metadata, the sync, the publication |
| `Barrier` | the syncing of a batch of staged files on several threads, with heartbeats on a grid of times |
| `ClaimCodec`, `ClaimStore`, `RedbStore`, `PathKey` | the claims on destination names: their stored forms, the contract of the store, the store over two tables, and the keys |
| `Utf8`, `Joining`, `DisplayPath` | the printing of paths |
| `LineBuffer`, `HardlinkSlot` | the splitter of the log writer; the lazily made hard-link index |
| `Ownership`, `CfgConstants`, `CfgPrinter`, `CfgSections` | the runner of the lock protocol's models: which process owns a label, and the constants of a configuration |

`dafny verify dfyconfig.toml` checks everything.

## How the copy is modelled

A `World` holds the destination directory (names, objects, link counts, bytes), the source, and a log of every call
made. Each primitive chooses its own failure: a heartbeat, a guard, a read, a write, a stat or a rename may fail at any
call, a failed write may have stored anything, a read may return any non-empty part of what was asked. The source may
change at any time unless the world is `stable`; the device may store other bytes than it was given unless it is
`faithful`. Nothing is assumed of the hash; where a comparison of digests stands for a comparison of bytes,
`CollisionFree` is an explicit hypothesis of the statement. A world may be `calm`: then no call fails of itself, and
what goes wrong must have a reason on the disk, and the answers about the source, the entries and the checkpoint log
are the world's own. Of calm worlds the model proves the other half: a run whose plan is to copy does succeed, the
policy alone decides whether there is such a plan, and of an earlier partial as much is kept as the log, or else the
source, vouches for (`Resume.Resumption`). So neither failing, nor skipping, nor starting over is ever a way out.

Each primitive also requires, as its precondition, that `Protocol.Next` allows the call where the run stands, and
appends it to the log. `Stage` and `Publishing` are the code; that they verify means every run, over every schedule of
faults, has a lawful log. `Protocol` then proves what a lawful log can and cannot contain, without knowing the code.
The log holds the bytes written and handed to the checkpoint sink, the sink's answers, the outcome of every removal, and
what was announced, so that an error's step, code and leftover, the metadata reported as missed, and the reason a
temporary was kept are all statements about the log.

Clocks, thread scheduling, the storage engine's failures and the answers of the filesystem are nondeterministic
choices. The hash, the text of an identity, the decoding of a stored name and the opening of a directory are
parameters.

## Where the code and its documentation differ

The model follows the code.

- `display_path` promises that two distinct names never print alike. The empty path and the path of the one component
  `.` do; no other two paths do (`DisplayPath.DistinctPathsPrintApart`).
- `cfg_constants` promises to refuse anything it cannot read, and lets two families of files through. A quote that is
  never closed is scanned as a token of its own and read as the empty string, so `X = " Y = 3` is accepted. The tokens
  of all CONSTANT sections are read as one, so `CONSTANT X = INIT Foo CONSTANT 3` assigns 3. Of an accepted file, every
  string was closed and every section is readable by itself exactly when no quote stands alone and no keyword falls
  inside an item (`CfgSections.RefusesAsPromisedIff`).
- `PreparedRecord::encode` cuts a length to 32 bits. A note comes back exactly when no field has 2^32 bytes or more
  (`ClaimCodec.RoundTrip`).
- `next_wake` never returns for a zero interval and a deadline that has passed (`Barrier.TheLoopEndsIff`); the one
  caller passes a positive constant.
- `RedbClaimStore::unsynced` is described as the commits since the last synced one. Commits that are always synced
  leave it alone: after a claim and then a note it is 1, and nothing is unsynced (`RedbStore.AnOvercount`). It is right
  exactly when, since it was last reset, no such commit was made at a count above zero, and it is never too small
  (`RedbStore.CountIsExactIff`).
- `sync_staged_many` promises a beat whenever a further interval has passed. With workers, a result that is queued is
  taken first, so a beat that is due may wait behind the missing results, or not be made at all
  (`Barrier.ADueBeatMayNeverBeMade`). It is made exactly if the calling thread finds nothing queued
  (`Barrier.ADueBeatIsMadeIffNothingIsQueued`), and is never made exactly if all the missing results are received first
  (`Barrier.ADueBeatWaitsForMissingResultsOnly`). With no worker, so for one file or no threads, the time is looked at
  after every sync and the promise is kept (`Barrier.SyncHere`, `Barrier.BeatsAreMadeWhenDue`).

## Model

| member | source | states |
|---|---|---|
| Publishing.CopyFile | crates/flux-core/src/copy.rs:1204-1246 | over every schedule of faults: an error or a skip leaves the target and every other object as they were; an error is the first failure in the log and names exactly what could not be cleared away, and the run is over, or has kept its temporary because the log failed; a skip copied nothing and claims nothing; a success has put the stream that was read under the target's name, with kept and copied bytes adding up, everything past the kept prefix written once and handed to the log where there is one; what the options say of times, permissions and durability is what the calls were, and what is reported missed is what failed; the published identity is the one announced; under Strict safety a run that opened its temporary, however it ended, had a target that was absent or another object; every call up to and including the rename found the old target; where nothing fails of itself the plan decides, the file is skipped exactly if the policy wants what is there kept, and the kept prefix and the reason for it are those of the files and the log |
| Publishing.TheTargetIsTheSource | crates/flux-core/src/copy.rs:1204-1246 | over an unchanged source a successful copy equals it, on a faithful device, or if it was verified and digests do not collide |
| Publishing.PublishStaged | crates/flux-core/src/copy.rs:1252-1308 | heartbeat, guard, rename; a failed guard keeps the temporary and names it, a failed heartbeat or rename clears up; success moves the temporary's object to the target's name and, without replacement, needs it free |
| Publishing.AnnounceOrDiscard | crates/flux-core/src/copy.rs:1230-1245 | a refused announcement discards the temporary and is returned as it came, with its own leftover unless the temporary could not be cleared away |
| Publishing.Deliver | crates/flux-core/src/copy.rs:1230-1246 | announcement and publication together: delivered, or failed cleanly; delivered whenever nothing fails of itself and the name is free if it must be |
| Publishing.MoveDelivers | crates/flux-core/src/copy.rs:1287-1307 | what was staged is what the target holds after the rename, and nothing else changed |
| Protocol.MutationsAreGuarded | crates/flux-core/src/copy.rs:816-894 | every sweep, create, reopen, cut, removal and rename of a run follows a passed guard with no failed guard between |
| Protocol.OwnGuardComesFirst | crates/flux-core/src/copy.rs:222-257 | a sweep, a reopen, a removal and the rename come immediately after a guard of their own |
| Protocol.NothingAfterALostLock | crates/flux-core/src/copy.rs:816-894 | after the first failed guard the run makes no call at all |
| Protocol.OnlyRemovalAfterALostHeartbeat | crates/flux-core/src/copy.rs:222-257 | after a failed heartbeat the only mutation still possible is a guarded removal of the temporary |
| Protocol.HeldIsChecked | crates/flux-core/src/copy.rs:816-894 | the automaton's lock bit is exactly "a guard passed and none has failed since" in the log |
| Protocol.OpenIsLogged | crates/flux-core/src/copy.rs:869-894 | the automaton's open bit is exactly "the temporary was created, or reopened and cut" in the log |
| Protocol.StepsComeInOrder | crates/flux-core/src/copy.rs:797-1142 | plan, claim, opening, writes, read-backs, metadata, sync, announcement and rename come in this order, and nothing but writes comes twice |
| Protocol.ARenameHasItsWholeRun | crates/flux-core/src/copy.rs:1001-1126 | a run that reaches the rename has claimed, streamed, read back and read again as its options ask, applied each kind of metadata the source had, synced if staged so, and found the source unchanged |
| Protocol.TheLastFourCalls | crates/flux-core/src/copy.rs:1236-1290 | the four calls before a rename are a look that found the planned length and the planned time, the announcement, a heartbeat, a guard |
| Protocol.PublishedEndsInTheRename | crates/flux-core/src/copy.rs:1287-1307 | the last call of a published run is its successful rename |
| Protocol.TheFirstFaultIsTheOneReported | crates/flux-core/src/copy.rs:222-257 | the failure a run reports is the first in its log; clearing up never displaces it |
| Protocol.KeptIffTheLogFailed | crates/flux-core/src/copy.rs:573-597 | a run keeps its temporary for a resume exactly if a call on the sink answered that the log failed |
| Protocol.ADataFailureDiscards | crates/flux-core/src/copy.rs:573-597 | a failed sync of the data is the durability failure reported, and the temporary is not kept |
| Protocol.DoomedIsClearedAway | crates/flux-core/src/copy.rs:222-257 | a run that must clear away its temporary is over exactly with a removal or a lost lock |
| Protocol.LeftoverIsLogged | crates/flux-core/src/copy.rs:222-257 | what an error names: the temporary exactly if the last call, a guard or a removal, could not clear it away, else what the one refusal named |
| Protocol.NothingIsNamedFalsely | crates/flux-core/src/copy.rs:222-257 | without a refusal, and with the temporary cleared away, nothing is named as left behind |
| Protocol.MissedIsLogged | crates/flux-core/src/copy.rs:1066-1099 | the metadata reported as missed is what was tried without success where that is allowed, and nothing else |
| Policy.CopyBufferLen | crates/flux-core/src/copy.rs:185-196 | the buffer's length is the one within its bounds that is nearest to the file's |
| Policy.WeakerIsTheLeastTrusted | crates/flux-core/src/copy.rs:426-434 | the identity reported is one of the two and no more trusted than either; of two weak ones the destination's |
| Policy.StrictGateIsExact | crates/flux-core/src/copy.rs:313-367 | Strict safety passes exactly an absent target, or a replaceable one that is strongly another object |
| Policy.DefaultGateIsExact | crates/flux-core/src/copy.rs:313-367 | what Default safety passes, that it says "degraded" exactly when strong identities were not compared, and with which identity |
| Policy.RefusalsAreExact | crates/flux-core/src/copy.rs:313-420 | which files are refused, in which order of reasons, and with which step and code |
| Policy.SkipNeverReplaces | crates/flux-core/src/copy.rs:401-418 | an existing target that the gate lets through is never copied over under `skip`, and always under `overwrite` |
| Policy.UpdateFollowsTheSource | crates/flux-core/src/copy.rs:377-420 | over a target that is a copy of the source as it was, a later run under `update` that the gate lets through copies again exactly when the source has got another length or is known to be newer; without a time the lengths alone decide |
| Policy.ACurrentCopyIsNotRepeated | crates/flux-core/src/copy.rs:377-420 | a copy that kept the source's time is not made again under `update` |
| Stage.PassedGateIsDistinct | crates/flux-core/src/copy.rs:377-420 | a plan that was not degraded knows the target's object to be another than the source's |
| Stage.RunPrelude | crates/flux-core/src/copy.rs:810-844 | before the claim only a leftover of the temporary's name may go; under Strict safety a run that goes on has a target that is absent or another object; where nothing fails of itself the outcome is the plan's, and a run goes on exactly if a copy over what is there is warranted |
| Stage.SamePlan | crates/flux-core/src/copy.rs:816-844 | sweeping a leftover does not change the plan, even if the leftover was a second name of the target |
| Stage.PlanIsWarranted | crates/flux-core/src/copy.rs:401-418 | a plan proceeds only over a target it may replace: any under `overwrite`, none under `skip`, one of another length or an older time under `update`; and skips only where it may not |
| Stage.StagePlanned | crates/flux-core/src/copy.rs:846-1142 | from the claim to the last look at the source: staged completely or failed cleanly, and staged with all metadata whenever nothing fails of itself |
| Stage.Discarded | crates/flux-core/src/copy.rs:222-257 | clearing up keeps the first failure, removes the temporary under a guard of its own, and is over then; it names the temporary exactly if that guard or the removal failed |
| Stage.Acquire | crates/flux-core/src/copy.rs:846-894 | one claim under a checked lock; then the temporary holds exactly the kept prefix, the source is read past it by exactly the carry, the digest has been fed exactly the prefix; where nothing fails of itself, what is kept and why no more are what `Resumption` says |
| Stage.OpenExisting | crates/flux-core/src/copy.rs:869-882 | a validated partial is reopened by its identity under a guard and cut to the kept prefix |
| Stage.OpenFresh | crates/flux-core/src/copy.rs:883-894 | a fresh temporary is made empty and exclusive, after a guarded sweep when the run checkpoints |
| Stage.CopyLoop | crates/flux-core/src/copy.rs:946-986 | however reads are fragmented, the temporary holds kept prefix, carry and rest in order, and the digest has been fed each source byte once |
| Stage.WriteChunk | crates/flux-core/src/copy.rs:930-957 | one chunk goes to the digest, the temporary and the count alike |
| Stage.BeginSink | crates/flux-core/src/checkpoint/sink.rs:92-135 | the sink is opened from a resume offset that is aligned or the whole length, as its assertions demand, with the proven digests if there are any |
| Stage.OneChunk | crates/flux-core/src/copy.rs:946-980 | a chunk is written, then handed to the log where there is one, then a heartbeat; what was written and what was handed over stay the same bytes |
| Stage.SinkAnswer | crates/flux-core/src/copy.rs:573-597 | a failed checkpoint log keeps the temporary for a resume; a failed heartbeat or data sync does not; each is reported as what it is |
| Stage.StreamAll | crates/flux-core/src/copy.rs:896-999 | everything past the kept prefix is written, once and in order, and the sink is closed over the same bytes; or the sink, if it was opened, is aborted, and the failure is on record |
| Stage.StreamOrDiscard | crates/flux-core/src/copy.rs:988-999 | a failed stream discards the temporary, unless the checkpoint log is what failed |
| Stage.RecheckSource | crates/flux-core/src/copy.rs:722-746 | goes on exactly if the look, the first call it makes, finds the planned length and the planned time; a failed look is reported as it failed, any difference as a changed source, and the temporary goes |
| Stage.HashStream | crates/flux-core/src/copy.rs:755-772 | the digest is of the whole stream, to its end |
| Stage.Verify | crates/flux-core/src/copy.rs:1001-1064 | `verified` means the temporary's bytes, and under full verification those of a second read of the source, hash like the stream that was copied |
| Stage.ApplyTimes | crates/flux-core/src/copy.rs:1066-1082 | a Strict item that cannot be applied fails the copy, a Default one is listed |
| Stage.ApplyPermissions | crates/flux-core/src/copy.rs:1083-1099 | the same for permissions, after the times |
| Stage.Finish | crates/flux-core/src/copy.rs:1066-1126 | metadata, the sync of a Strict file staged inline, and the last look at the source, with the disk unchanged |
| Stage.StageFile | crates/flux-core/src/copy.rs:797-1142 | a staged file is complete in a temporary of the run's own, the target untouched; a failure leaves the target alone and accounts for the temporary; the calls were what the options ask for |
| Stage.StagedAsAsked | crates/flux-core/src/copy.rs:1066-1116 | what is Off was not touched; what is Strict was applied from the source as planned; what is Default was tried, and is missed exactly if that failed; the file was synced exactly if Strict and staged inline |
| Stage.StreamIsWhole | crates/flux-core/src/copy.rs:969-986 | kept prefix and copied bytes add up to the stream, and the digest has been fed all of it |
| Resume.DecideFull | crates/flux-core/src/checkpoint/decide.rs:152-194 | without a log the kept prefix is the longest run of whole chunks on which partial and source hash alike, and the digests returned are of both; the carry is what was read past it; the reason given for stopping is a fact |
| Resume.DecideByLog | crates/flux-core/src/checkpoint/decide.rs:99-144 | the kept prefix of the source and of the partial both have the recorded digests; the carry is what was read past it; over known files it is the longest such run of chunks, and the reason given is the one the files call for |
| Resume.Decide | crates/flux-core/src/checkpoint/decide.rs:75-144 | a source that changed since the log began the file is a fresh start before anything is read, with the part that changed; else what is kept is what the log and the files call for |
| Resume.FindPartial | crates/flux-core/src/copy.rs:660-685 | only an identified regular file of exactly one name can be continued, and where nothing fails of itself every such file is |
| Resume.PlanResume | crates/flux-core/src/copy.rs:614-715 | planning changes nothing on disk, every verdict it hands on can be used by the copy, and where nothing fails of itself a covered file resumes what `Resumption` says |
| Resume.PlanOver | crates/flux-core/src/copy.rs:686-715 | with the log consulted, or the source itself as the oracle, the verdict fits both open files |
| Resume.PlanByState | crates/flux-core/src/copy.rs:686-697 | over the state of the log, what is kept is what that state and the files call for |
| Resume.DifferenceIsReal | crates/flux-core/src/checkpoint/decide.rs:177-183 | chunks that hash differently differ |
| Keeping.KeptIsThere | crates/flux-core/src/checkpoint/decide.rs:99-194 | what is kept lies within the partial and, if digests do not collide, is the source's own |
| Keeping.EverythingIsKept | crates/flux-core/src/checkpoint/decide.rs:152-194 | of a partial equal to the source everything is kept |
| Keeping.StopsThere | crates/flux-core/src/checkpoint/decide.rs:99-194 | a reading that stops at the first chunk not alike has found all that is kept |
| Readers.ReadFull | crates/flux-core/src/checkpoint/decide.rs:55-66 | short reads are joined and interruptions retried: fewer bytes than asked for means the end of the stream |
| Destination.World.Rename | crates/flux-fs/src/fs.rs:425-445 | the publishing rename is all or nothing, and without replacement needs a free name |
| Destination.World.Create | crates/flux-fs/src/fs.rs:344-350 | the exclusive create needs a free name and gives a new object |
| Destination.World.WriteAll | crates/flux-core/src/copy.rs:929-967 | a write that succeeds on a faithful device stores its bytes at the position; one that fails may have stored anything in the temporary only |
| Destination.World.CutTo | crates/flux-fs/src/fs.rs:149-152 | a cut that succeeds leaves the prefix asked for and stands at its end; one that fails may have cut something; neither extends |
| Destination.World.Recheck | crates/flux-core/src/copy.rs:722-746 | a second look at the source, with the planned length and time spelled out |
| Destination.World.Remove | crates/flux-core/src/copy.rs:222-257 | the removal of a failed copy's temporary: gone, or the failure is on record and the temporary named |
| Destination.WriteIsSafe | crates/flux-core/src/copy.rs:930-957 | writing the run's own temporary changes neither the target nor any object of before |
| Destination.CreateIsSafe | crates/flux-core/src/copy.rs:883-894 | nor does making it |
| Destination.SweepIsSafe | crates/flux-core/src/copy.rs:816-844 | nor does removing the temporary's name |
| Barrier.NextWake | crates/flux-core/src/copy.rs:1314-1319 | the loop stops at the grid point `GridAfter` names |
| Barrier.GridAfterIsFirst | crates/flux-core/src/copy.rs:1314-1319 | that point is on the grid, past now, and the one before it is not |
| Barrier.TheLoopEndsIff | crates/flux-core/src/copy.rs:1314-1319 | the loop ends exactly for a positive interval or a deadline not yet passed |
| Barrier.AZeroIntervalNeverEnds | crates/flux-core/src/copy.rs:1314-1319 | an interval of zero on which it does not end |
| Barrier.EveryScheduleIsFit | crates/flux-core/src/copy.rs:1349-1422 | the barrier's invariant holds after every interleaving of any number of workers |
| Barrier.EveryWriterIsSyncedOnce | crates/flux-core/src/copy.rs:1349-1422 | once all is received every writer was synced exactly once and its slot holds that sync's own result |
| Barrier.NeverDisconnectedEarly | crates/flux-core/src/copy.rs:1402-1416 | the channel is never found closed with a result missing |
| Barrier.NeverStuck | crates/flux-core/src/copy.rs:1349-1422 | while a result is missing some thread can take a working step |
| Barrier.WorkIsConserved | crates/flux-core/src/copy.rs:1349-1422 | the work a schedule has done and what it leaves add up to `4n + k` for `k` workers |
| Barrier.WorkIsBounded | crates/flux-core/src/copy.rs:1349-1422 | no schedule, however unfair, does more |
| Barrier.BeatsFollowTheGrid | crates/flux-core/src/copy.rs:1388-1396 | beats never outnumber the intervals that have passed |
| Barrier.AFailedBeatIsTheLast | crates/flux-core/src/copy.rs:1388-1396 | after a failed beat there is none, and that failure is the one reported |
| Barrier.SyncHere | crates/flux-core/src/copy.rs:1388-1406 | with no worker the recorded syncs are one per writer, in index order, with the results returned; the record of calls is a completed one, and no beat is left due |
| Barrier.CallsFit | crates/flux-core/src/copy.rs:1388-1418 | over every record of calls the deadline is on the grid, and the beats counted and the failure known are those of the record |
| Barrier.BeatsAreMadeWhenDue | crates/flux-core/src/copy.rs:1388-1418 | in every completed record the time is looked at after every sync made on the calling thread, and there is a beat exactly right after it has seen, by such a look or by a wait that timed out, that its deadline has passed, unless a beat has failed |
| Barrier.SyncOneHere | crates/flux-core/src/copy.rs:1400-1404 | one writer's turn: its sync, a look at the time, and a beat if the deadline has passed |
| Barrier.BeatIfDue | crates/flux-core/src/copy.rs:1388-1395 | beats unless a beat has failed, looks at the time again, and moves the deadline on along the grid |
| Barrier.RunWorkers | crates/flux-core/src/copy.rs:1349-1422 | the threads, in any order, until every result is in: each writer synced once, its result in its slot, the record of the calling thread's calls a completed one |
| Barrier.SpawnWorkers | crates/flux-core/src/copy.rs:1362-1387 | threads are asked for one by one until enough run or one is refused |
| Barrier.ReceiveOrBeat | crates/flux-core/src/copy.rs:1409-1418 | one turn of the receiving loop: a result is put in its slot, or, the wait having run out at the deadline, a beat is made if none has failed |
| Barrier.ADueBeatIsMadeIffNothingIsQueued | crates/flux-core/src/copy.rs:1409-1418 | when a beat is due the calling thread beats exactly if no result is queued |
| Barrier.ADueBeatWaitsForMissingResultsOnly | crates/flux-core/src/copy.rs:1409-1418 | a beat that is due and not made stays due behind no more receives than results are missing, and is never made exactly when all of those come first |
| Barrier.ADueBeatMayNeverBeMade | crates/flux-core/src/copy.rs:1409-1418 | a schedule in which an interval passes and the batch ends without a beat |
| Barrier.SyncStagedMany | crates/flux-core/src/copy.rs:1349-1422 | whatever number of workers runs, the recorded syncs are one per writer with the result returned in its place, the calling thread beat whenever it had seen its deadline pass, and the recorded beats end with the one failure that is reported |
| ClaimCodec.KeyCodec | crates/flux-platform/src/claims.rs:369-379 | reading a stored key is the exact inverse of storing it, on every byte string |
| ClaimCodec.KeysAreInjective | crates/flux-fs/src/claims.rs:64-71 | two keys have one stored form only if they are the same |
| ClaimCodec.StoredOrderIsKeyOrder | crates/flux-fs/src/claims.rs:64-71 | the byte order of stored keys is the order by volume, index and name bytes |
| ClaimCodec.NumbersAreOrderedAsBytes | crates/flux-fs/src/claims.rs:64-71 | big-endian numbers of one width are ordered as their bytes are |
| ClaimCodec.Bounds | crates/flux-fs/src/claims.rs:64-71 | the widths in use hold exactly the 32, 64 and 128 bit integers |
| ClaimCodec.ClaimCodecIsExact | crates/flux-fs/src/claims.rs:86-107 | a byte string reads as a claim if and only if it is that claim's stored form |
| ClaimCodec.Encode | crates/flux-fs/src/claims.rs:133-149 | the loop over the fields builds the stored form of a note |
| ClaimCodec.NextField | crates/flux-fs/src/claims.rs:154-163 | a field is read off the cursor, or the bytes are no note's |
| ClaimCodec.Decode | crates/flux-fs/src/claims.rs:153-187 | bytes are read if and only if they are the stored form of a storable note, and as that note |
| ClaimCodec.FieldsAreSelfDelimiting | crates/flux-fs/src/claims.rs:133-163 | fields cannot be confused with what follows them |
| ClaimCodec.StoredNotesDelimitThemselves | crates/flux-fs/src/claims.rs:131-187 | no stored note is a strict prefix or an extension of another |
| ClaimCodec.RoundTrip | crates/flux-fs/src/claims.rs:131-187 | the note a note's stored form is read as is that note, if and only if no field has 2^32 bytes or more |
| ClaimCodec.AnOverlongNoteIsLost | crates/flux-fs/src/claims.rs:133-149 | a note whose length is cut to zero |
| ClaimStore.ClaimsOnlyGrow | crates/flux-fs/src/claims.rs:196-235 | over every run of operations a claim is never removed, never changes target, never goes back from Created to Existing |
| ClaimStore.CommitMeans | crates/flux-fs/src/claims.rs:214-227 | a commit is refused exactly when a claim of another target or an unreadable one is in the way, and with which error; what it makes, and that all else stays |
| ClaimStore.InsertMeans | crates/flux-fs/src/claims.rs:196-197 | an insert is taken exactly at a key without a claim, and what is then there is the record given; all else stays |
| ClaimStore.UpgradeMeans | crates/flux-fs/src/claims.rs:199-204 | an upgrade is taken exactly of a readable claim of this target, which is then Created; all else stays |
| ClaimStore.DiscardMeans | crates/flux-fs/src/claims.rs:228-229 | a discard is always taken; the note is gone and nothing else with it |
| ClaimStore.BatchesAreSequential | crates/flux-fs/src/claims.rs:232-235 | a recovery batch leads where its operations lead one by one, and fails exactly where one of them fails |
| ClaimStore.NotesAreAllOrNothing | crates/flux-fs/src/claims.rs:210-213 | a batch of notes is taken if and only if every key is fresh in the store and in the batch |
| ClaimStore.NotesAreStored | crates/flux-fs/src/claims.rs:210-213 | each note of a taken batch is stored, no other note or claim changes |
| ClaimStore.RecoveryIsIdempotent | crates/flux-fs/src/claims.rs:232-235 | a recovery that took effect and is run again changes nothing |
| ClaimCodec.NoteOfIsExact | crates/flux-fs/src/claims.rs:131-187 | the note a stored value stands for is the one it was made of |
| ClaimStore.ViewPut | crates/flux-platform/src/claims.rs:213-231 | a write under a stored key is a write under that key and no other |
| ClaimStore.ViewRemove | crates/flux-platform/src/claims.rs:382-436 | so is a removal |
| RedbStore.Store.InsertIfAbsent | crates/flux-platform/src/claims.rs:213-231 | follows the contract unless the medium failed during the call; a call that does not insert changes nothing; fewer than 1000 commits can be lost, under Strict none, and what a crash leaves is an earlier state |
| RedbStore.Store.Get | crates/flux-platform/src/claims.rs:195-209 | the stored claim, none, or a corrupt store |
| RedbStore.InsertThenGet | crates/flux-platform/src/claims.rs:195-231 | what was inserted is read back, at a key that had no claim; at another, what was there |
| RedbStore.Store.UpgradeOwnClaim | crates/flux-platform/src/claims.rs:237-263 | upgrades its own claim only; a failed call changes nothing |
| RedbStore.UpgradeThenGet | crates/flux-platform/src/claims.rs:195-263 | a claim of ours that was upgraded is read back as Created; the claim of another as it was |
| RedbStore.Store.Flush | crates/flux-platform/src/claims.rs:265-273 | after a flush a crash undoes nothing |
| RedbStore.Store.Prepare | crates/flux-platform/src/claims.rs:285-299 | one note, refused where there is one, durable when taken |
| RedbStore.Store.PrepareMany | crates/flux-platform/src/claims.rs:301-320 | all the notes or none; a store of format 1 refuses |
| RedbStore.Store.ApplyIn | crates/flux-platform/src/claims.rs:382-436 | one recovery operation inside a transaction does what the contract says of it |
| RedbStore.Store.OwnedByOther | crates/flux-platform/src/claims.rs:395-410 | absent, ours, another's or unreadable, as the contract sees it |
| RedbStore.Store.ApplyRecovery | crates/flux-platform/src/claims.rs:362-365 | all the operations in one transaction, or nothing |
| RedbStore.Store.CommitPrepared | crates/flux-platform/src/claims.rs:322-335 | the commit of one note follows the contract |
| RedbStore.Store.DiscardPrepared | crates/flux-platform/src/claims.rs:337-341 | the removal of one note follows the contract |
| RedbStore.Store.Calls | crates/flux-platform/src/claims.rs:212-366 | any calls one after another are a run of the contract, so claims only grow in this store, and `unsynced` is exact exactly when the commits made say so |
| RedbStore.CountIsExactIff | crates/flux-platform/src/claims.rs:170-193 | over every history of commits `unsynced` is the number a crash would undo exactly when, since its last reset, no always-synced commit was made at a count above zero; it is never less |
| RedbStore.AnOvercount | crates/flux-platform/src/claims.rs:170-193 | a store where it is one more |
| RedbStore.Store.CommitNow | crates/flux-platform/src/claims.rs:173-179 | a transaction that is always synced: nothing is left to lose, and `unsynced` stays |
| RedbStore.Store.CommitClaim | crates/flux-platform/src/claims.rs:187-193 | a transaction on the claims is synced under Strict and when it would make 1000 unsynced commits, and resets the count then |
| RedbStore.Store.Prepared | crates/flux-platform/src/claims.rs:343-360 | all the notes, each under its own key, in the order of the keys; an unreadable one is an error and never left out; a failure of the medium is an I/O error or a corrupt store |
| RedbStore.ListedInOrder | crates/flux-platform/src/claims.rs:343-360 | a listing in byte order is a listing in key order |
| PathKey.FromRelative | crates/flux-fs/src/claims.rs:26-49 | the normal components joined by NUL, or an error if one holds a NUL |
| PathKey.AnchorParent | crates/flux-core/src/hardlinks.rs:198-218 | the directory and name the split key leads to, if the name is not empty and every component decodes and opens |
| PathKey.KeyRoundTrip | crates/flux-core/src/hardlinks.rs:198-218 | splitting the key of a path gives its components back |
| PathKey.KeysAreInjective | crates/flux-fs/src/claims.rs:26-49 | distinct lists of names have distinct keys |
| PathKey.TheAnchorOfAPath | crates/flux-core/src/hardlinks.rs:198-218 | where all opens, the key of a path leads to that path |
| PathKey.FoundAnchorsSpellTheKey | crates/flux-core/src/hardlinks.rs:198-218 | an anchor that is found spells the key it was looked up by |
| PathKey.NoAnchorForAnEmptyName | crates/flux-core/src/hardlinks.rs:198-218 | the empty key, and any that ends in a separator, has no anchor |
| DisplayPath.EscapeChars | crates/flux-cli/src/verify_report.rs:35-48 | the loop over characters appends the printing of a valid string |
| DisplayPath.EscapeComponent | crates/flux-cli/src/verify_report.rs:52-72 | the loop over valid and invalid parts ends on every input and appends the printing of the name |
| DisplayPath.Display | crates/flux-cli/src/verify_report.rs:85-94 | components joined by a slash, and a dot for nothing |
| DisplayPath.EscapedInParts | crates/flux-cli/src/verify_report.rs:52-72 | cutting at the end of the valid part does not change the printing |
| DisplayPath.AsciiForms | crates/flux-cli/src/verify_report.rs:35-48 | how each byte of ASCII is printed, wherever it stands: most as they are, four by a letter, the other control characters in hex |
| DisplayPath.UnescapeUndoesEscape | crates/flux-cli/src/verify_report.rs:35-72 | every name, valid or not, can be read back from its printing |
| DisplayPath.PrintingIsClean | crates/flux-cli/src/verify_report.rs:35-72 | a printing is valid UTF-8, holds no control character and adds no separator |
| DisplayPath.OnlyOrdinaryNamesStayAsTheyAre | crates/flux-cli/src/verify_report.rs:80-84 | the printing is the identity on exactly the ordinary names, and longer than any other |
| DisplayPath.DistinctPathsPrintApart | crates/flux-cli/src/verify_report.rs:80-94 | two paths print alike exactly if they are the same, or are the empty path and the dot |
| DisplayPath.TheEmptyPathPrintsAsTheDot | crates/flux-cli/src/verify_report.rs:85-94 | the two paths that do |
| DisplayPath.EveryPathIsOneLine | crates/flux-cli/src/verify_report.rs:80-94 | a printed path is non-empty valid text on one line |
| Utf8.FirstUnitIsTheGrammar | crates/flux-cli/src/verify_report.rs:56-68 | the validation finds exactly the characters of section 4 of RFC 3629 |
| Utf8.ValidUpToIsTheLongest | crates/flux-cli/src/verify_report.rs:56-68 | the valid part ends where no character begins, and is everything exactly if the input is valid |
| LineBuffer.Buffer.Write | crates/flux-cli/src/logging.rs:148-156 | every complete line so far is delivered, the buffer holds the open piece and no newline |
| LineBuffer.Buffer.Flush | crates/flux-cli/src/logging.rs:158-171 | the lines of everything written since the last flush, with a non-empty tail once |
| LineBuffer.Buffer.WriteAll | crates/flux-cli/src/logging.rs:136-171 | however a stream is cut into writes, one flush after them has delivered its lines, each once and in order |
| LineBuffer.SplitGoesOn | crates/flux-cli/src/logging.rs:148-156 | more bytes only extend the open piece |
| HardlinkSlot.Slot.Create | crates/flux-core/src/hardlinks.rs:95-133 | the calls of a creation, the home it leaves, and the code it fails with; the arms marked unreachable are |
| HardlinkSlot.Slot.With | crates/flux-core/src/hardlinks.rs:73-91 | the first call creates and no other does; the callback runs in an open slot only; a failure is every later call's answer |
| HardlinkSlot.Slot.Close | crates/flux-core/src/hardlinks.rs:135-165 | an unused slot touches nothing; a removing close takes the private directory away unless the removal fails |
| HardlinkSlot.CreationIsSingle | crates/flux-core/src/hardlinks.rs:95-133 | a creation makes the directory, removes a stale file and makes the index at most once each |
| HardlinkSlot.Life | crates/flux-core/src/hardlinks.rs:40-174 | over any calls and a close: at most one creation, of the shape a creation has, so the directory and the index are made at most once; then either every callback runs or none does |
| Ownership.Search | models/lockproto/run.py:675-688 | the worklist from one process adds it to the labels its calls reach, and ends on cyclic calls |
| Ownership.OwnersOf | models/lockproto/run.py:673-691 | a process is listed for a label if and only if a block defining it is reachable from the process through calls |
| Ownership.IsExempt | models/lockproto/run.py:586-599 | exempt exactly if the label has owners, all set-declared with an empty set |
| Ownership.Gate | models/lockproto/run.py:586-691 | both together: exempt exactly if some process reaches the label and none of those runs |
| CfgConstants.ReadValue | models/lockproto/run.py:269-307 | reads a value of the grammar, or there is none at this place |
| CfgConstants.ReadListing | models/lockproto/run.py:271-295 | reads a set of identifiers to its brace, or there is none |
| CfgConstants.ParseConstants | models/lockproto/run.py:244-308 | accepts exactly the sequences of `NAME = VALUE` with distinct names, and gives what they assign |
| CfgConstants.FormIsDetermined | models/lockproto/run.py:269-307 | one value at most begins at any place |
| CfgConstants.ALoneQuoteIsRead | models/lockproto/run.py:269-270 | a quote that is never closed is read as the empty string |
| CfgConstants.FailsClosedIffNoLoneQuote | models/lockproto/run.py:269-270 | every string that was read was closed if and only if no quote stands alone among the tokens |
| CfgPrinter.CommentsAreUnseen | models/lockproto/run.py:193-242 | of the tokens that are no keywords, exactly the comments make no difference to what is read, wherever they stand |
| CfgPrinter.Select | models/lockproto/run.py:232-242 | the tokens of the CONSTANT sections, without comments and keywords |
| CfgPrinter.CfgConstantsOf | models/lockproto/run.py:221-308 | the whole parse of a file's tokens |
| CfgPrinter.SpellingIsDetermined | models/lockproto/run.py:246-308 | there is one way to read a sequence of tokens |
| CfgPrinter.PrintFile | models/lockproto/run.py:221-308 | every map of safe names to integers, truth values, strings and sets of safe identifiers is printed to a file that can be read in one way only, as that map |
| CfgPrinter.PrintAndRead | models/lockproto/run.py:221-308 | the parser reads it so |
| CfgSections.SectionsAreReadAsOne | models/lockproto/run.py:232-242 | what is read is all the CONSTANT sections, one after another |
| CfgSections.InOneSectionIff | models/lockproto/run.py:232-308 | of an accepted file each section is readable by itself exactly when no keyword falls inside an item |
| CfgSections.RefusesAsPromisedIff | models/lockproto/run.py:221-308 | an accepted file has only closed strings and sections readable by themselves exactly when no quote stands alone and no keyword falls inside an item |
| CfgSections.ACutAssignmentIsRead | models/lockproto/run.py:232-308 | an assignment cut in two by another section is read, with no lone quote |

## Left out

- Policy.StrictGateIsExact: a plan without a destination directory, which only a preview makes, passes no gate and is not modelled.
- Other actors in the destination directory: between two calls of a run nothing else changes it.
- Readers.ReadFull: a reader answers only finitely often without an end or an error, which stands for "every run that ends".
- Destination.World.WriteAll: data writes are not guarded one by one, in the code or here.
- Destination.World.Sink: behind the sink there is only what it was handed and what it answered; the log's writer thread, its record format and its replay are not modelled. That a loaded log is honest is not assumed, the digests decide.
- Resume.DecideByLog: without collision-freedom a kept prefix is only known to have the recorded digests.
- Barrier.SyncStagedMany: a worker that panics, memory ordering and real time; steps are atomic, the clock only moves forward, the workers' steps fall into the calling thread's waits, and finitely many waits run out.
- RedbStore.Store.Prepared: the storage engine is a map whose iteration is in byte order and whose transactions happen or do not; its file format, its opening and `count` are not modelled.
- PathKey.FromRelative: the splitting of a path into components is the platform's.
- DisplayPath.Display: the Windows branch, which is lossy on purpose, and absolute paths, whose root component prints as a separator of its own.
- LineBuffer.Buffer.Write: the lossy rendering of a line as text, applied line by line, and the sink it goes to.
- HardlinkSlot.Slot.With: what the callback does to the index.
- Ownership.OwnersOf: the recognition of blocks, labels and calls in the text of a module; the model starts from what was recognised.
- CfgConstants.ParseConstants: the scanning of text into tokens, digits outside ASCII, and the wording of errors.
- Planning, trees, workspaces, locks, recovery, argument parsing, reports, live display and benchmarks: they would add members, not harder properties.
- The publication of a batch: `sync_staged_many` and `publish_staged` are modelled, the loop over a batch that calls them is not.
