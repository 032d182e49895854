# NetHack learning environment: a verified model

NetHack turned into a library: many games in one process, each a coroutine over
its own block of globals and its own bump arena, with in-memory snapshots,
difficulty knobs and a browser front end. This project models the parts that
carry the library's promises and proves those promises for every input, every
run and every schedule. `dafny verify dfyconfig.toml` checks all of it.

| file | models |
|---|---|
| `Environment.dfy` | one environment alone: the game as a coroutine that loads, stores, allocates, frees, reads and writes files and yields; start, step, snapshot, restore |
| `Memory.dfy` | what the operations of a game alone tell it, over a whole run, from the run's own history |
| `Isolation.dfy` | many environments in one flat memory, many threads, the two thread-local pointers, `nle_anchor`, `nle_start`, `nle_step`, `nle_end`, `nle_fr_snapshot`, `nle_fr_restore` |
| `Sharing.dfy` | what the environments of one process share, and the conditions on a schedule under which that does no harm |
| `Recursion.dfy` | the vision code's recursion and its guard, one variable for all threads, as a game: which orders of calls it survives |
| `Hackdirs.dfy` | two environments in one writable directory |
| `Replay.dfy` | what a restore brings back, alone and among other environments |
| `Arena.dfy` | `alloc`, `nle_arena_calloc`, lazy mapping, saving and rewinding the arena |
| `LevelFiles.dfy` | the level files on disk: lock names, paths, bundling, restoring, with a file system that may fail, and the blob that carries them |
| `KnobQueue.dfy` | the browser API's queue of knob overrides, and overlaying knobs |
| `WebSession.dfy` | the browser session over start, step, set, clear and live tuning |
| `Glyphs.dfy` | the glyph numbering, its decoders, hallucination |
| `Track.dfy` | the hero's trail and the search a pursuing monster makes in it |
| `PackedWords.dfy`, `Bits.dfy` | packed coordinates, regions, indices, versions and colours, over C's bit operations on integers of any width |

## How to read it

**Isolation.** The game is any deterministic program: a function from what is on
its stack to its next operation. On the machine an operation lands at an address
computed from the thread's `nh_g` and `current_nle_ctx`, in a memory shared by
all environments, or in the directory that the context names; alone it acts on the
environment's own globals, arena and files. What an operation then tells the game is
spelled out from the run's history in `Memory.ToldWhatIsDue`.

Two things remain shared, and the machine has them: `vision_recur_depth`
(`src/src/vision.c:1212`), a plain static that all threads count up and down
without atomics, and the directories, which a caller may give to two
environments. So isolation is proved in layers.

- `Isolation.EnvironmentsIsolated`: for every schedule of any number of threads
  over any number of environments, started and ended at will, interleaved
  micro-step by micro-step, in which nobody is disturbed in those two
  (`Isolation.Quiet`), each environment is and shows what its own part of the
  schedule gives alone. `Isolation.CallsDecideObservations`: the calls made on an
  environment then decide everything it shows.
- `Sharing.QuietWhenExclusive`: a schedule is quiet if no two calls that use the
  variable overlap, nobody starts in a directory in use, and the game stores to the
  variable in every call before it reads it, as `view_from` does. Calls made one at
  a time never overlap (`Sharing.SerialIsExclusive`); a game that does not use the
  variable has no such calls.
- `Recursion.SafeExactly`: seen from the calls alone, this is exact. The calls of
  any schedule leave every such game isolated if and only if no two of them overlap
  and nobody starts in a directory in use. For the other half, whatever game made
  the calls, the first offence can be played out by a game that rewrites one file
  and then recurses as the vision code does, with its limit of 64 and never deeper
  than the 20 rows of the map allow.
- `Recursion.GuardIsShared` and `Hackdirs.DirectoryIsShared` are short runs
  in which callers see the difference: two threads with one call each, and one
  thread with three.

The source's reason for leaving the variable shared is that environments never
yield inside a vision recursion (`src/src/vision.c:1204-1210`). That holds for
coroutines that take turns on one thread, the serial case; the repository's README
lets any pool thread step any environment. No call is more than 20 deep, but counting
up and down is a load and a store: if a second call loads the variable when the first
is at the edge of the map and stores when it is back at its first side, what the
first counted down in between is lost (`Recursion.LoseDecrements`). Three times is
enough for the fourth opening of the first call to be cut short (`Recursion.Race`);
alone it never is (`Recursion.AloneUnharmed`).

What is assumed, all of it in `Isolation.CanDo`: a thread makes one call at a
time; no two threads are in calls on the same environment; a new context block
and arena overlap nothing in use; the game touches only its globals and the part
of its arena it has allocated. Two more assumptions are in the form of
`Environment.Game`: the game is deterministic, and it sees arena addresses only
relative to the arena's base.

**Replay.** `alloc` does not clear what it hands out, a restore does not clear
what lies beyond the rewound bump pointer, it leaves files alone that a snapshot
does not own, and it does not touch the shared variable. For every game and run
that reads none of these before writing it, `Replay.RestoreReplays` gives the same
micro-steps, observations and addresses again. Over all states
the abandoned run may leave, the proviso is exact: `Replay.MovesAlikeExactlyWhenKnown`
says that a run moves alike from all environments that agree on what is brought back
if and only if it reads only that and what it wrote, for games that take notice of
what they read.
`Replay.StaleBytesShow` is a game that breaks it.

**Where the code does less than one would think.** Each of these has its exact
condition:

- `alloc` rounds its argument up in 32-bit arithmetic. A block is as long as was
  asked for exactly when the request is at most 2^32 - 16
  (`Arena.NeedSuffices`); the comment that allocation panics when it fails does
  not cover this. The cleared allocation casts its size to 32 bits, gets a block
  that holds what was meant exactly under the same bound, and otherwise clears past
  its block (`Arena.CallocExact`, `Arena.CallocOverruns`).
- The knob queue drops what does not fit. It stands for the calls that were made
  exactly when they name at most 64 distinct knobs since the last clear
  (`KnobQueue.QueueReplaysLogExactly`); the catalog has 17.
- The last nine map symbols and the dark explosion share glyphs, and no other
  two things do (`Glyphs.GlyphsCollide`). The display code reads such a glyph as
  the explosion; the predicate for map symbols accepts it too.
- The predicate for traps accepts one glyph too many, that of the vertical zap
  beam, which decodes to `TRAPNUM` (`Glyphs.TrapGlyphs`).
- A zap type that is too large is caught, a negative one is not
  (`Glyphs.ZapGlyphs`).
- The level file name code replaces everything from the last dot, so the base it
  is inverted to is the original name exactly when that has no dot
  (`LevelFiles.LockBaseInvertsRename`).
- The trail search is exact for every pursuer, in the ring as it was at every moment,
  exactly when the hero moved at most one square between recorded positions
  (`Track.ChaseExactlyWhenWalked`); hasted heroes and teleports break that.
- The loader of level files does not ask whether the lock owns what a blob names, nor
  where a name leads. What the lock does not own is left alone, anywhere on the disk,
  exactly if every place that a name leads to is owned or holds that already
  (`LevelFiles.InstallExact`); a blob may name the lock file
  (`LevelFiles.InstallOverwritesLock`). A restore or installation that reports success
  has left what was asked for exactly if all names are names of files in a directory,
  with no slash (`LevelFiles.RestoreExactly`). A bundle has only such names, but a blob
  may have others: "./perm" overwrites the lock file, "./record" is written and then
  removed (`LevelFiles.DotSlashName`), "../b/x" is written in the directory beside
  (`LevelFiles.DotDotName`).
- After a file could not be written, no later file of a restore is stamped
  (`LevelFiles.Written`); the return code says 0 exactly if nothing failed
  (`LevelFiles.Hackdir.RestoreFiles`).
- Biased indices survive exactly in [-10, 65525], versions exactly when every part
  fits its field (`PackedWords.BiasedRoundTrip`, `NoticeRoundTrip`). Humidity flags
  survive exactly when bit 24 is clear, unless no other bit is set: such a word
  reads as the default, and so survives exactly when it is the default
  (`PackedWords.RandomCoordRoundTrip`). The level compiler does pack the word 0
  (`PackedWords.NoFlagsMeanDefault`).

## Model

| member | source | states |
|---|---|---|
| Isolation.EnvironmentsIsolated | src/include/nle.h:72-77 | for every legal schedule that disturbs nobody in what is shared, and every environment, its history is a legal run alone, what it showed is what that run shows, and while it lives its registers, globals, arena, bump pointer, files and snapshots on the machine are those of that run |
| Isolation.CallsDecideObservations | tests/README.md:19-22 | two environments, in any two schedules that disturb nobody, on which the same calls were made show the same observations |
| Isolation.ScheduleSimulates | README.md:42-51 | over every such schedule the shared machine simulates its environments one by one, layouts and directories stay apart, no two threads are in the same environment |
| Isolation.StepSimulates | src/src/nle.c:882-925 | every event that disturbs nobody is exactly one event of the environment it is about, and none of any other |
| Isolation.StartMatches | src/src/nle.c:315-360 | a start makes the environment its fresh state: template globals, zero arena, empty bump pointer, the files put in its directory, whatever the memory held, and points both thread-local pointers at it |
| Isolation.StepMatches | src/src/nle.c:57-62 | anchoring an environment leads the thread to its own context, globals and suspended coroutine |
| Isolation.RunMatches | src/include/nh_globals.h:1128-1131 | a micro-step through `nh_g` and `current_nle_ctx` does to shared memory what it does to the environment alone, and writes only in the environment's two regions |
| Isolation.PerformMatches | src/src/files.c:510-560 | a file operation in the directory that the context names does what it does to the environment's own files; a read of the shared variable gives what it would alone if the environment stored to it last |
| Isolation.SnapshotMatches | src/src/nle_fast_reset.c:354-394 | a snapshot read from shared memory and the directory is the snapshot of the environment alone |
| Isolation.RestoreMatches | src/src/nle_fast_reset.c:435-473 | the copies a restore makes in shared memory, and the files it puts back, have the effect of a restore of the environment alone |
| Isolation.RestoreFrame | src/src/nle_fast_reset.c:435-473 | a restore touches no byte, file, thread or coroutine of another environment |
| Isolation.NotCalledAtRest | src/src/nle.c:899-925 | an environment no thread is in, live or ended, is at rest between two calls |
| Isolation.CallPossible | src/src/nle.c:882-925 | a thread in no call can step, snapshot and restore an environment on the machine exactly when the environment alone can be |
| Isolation.AnswerPossible | src/src/nle.c:882-925 | a thread in a call can take its next micro-step, or return, exactly when the environment alone can |
| Sharing.QuietWhenExclusive | src/src/vision.c:1204-1212 | no schedule disturbs anybody in which no two calls that use the shared variable overlap and nobody starts in a directory in use, for games that store to the variable in every call before reading it |
| Sharing.IsolatedWhenExclusive | README.md:42-51 | in those schedules every environment is isolated |
| Sharing.SerialIsExclusive | tests/test_interleave.c:3-12 | calls made one at a time are such schedules for every game, also when the environments take turns |
| Sharing.UnusedIsExclusive | src/src/vision.c:1204-1212 | in every schedule no two calls of a game that never uses the variable overlap in using it |
| Recursion.RecursingResetsFirst | src/src/vision.c:2820-2821 | the vision code, alone, stores to the variable before it reads it, in every call |
| Recursion.SafeExactly | src/src/vision.c:1204-1212 | the calls of any schedule leave every game that resets the variable first isolated if and only if no two calls overlap and nobody starts in a directory in use |
| Recursion.OffenceBreaks | src/src/vision.c:2462-2476 | whatever game made the calls, if two overlap or a start shares a directory then the same calls, up to there, can be made on the recursing game so that an environment is not what it is alone |
| Recursion.Race | src/src/vision.c:2462-2476 | from any state with two calls just made, neither ever deeper than 20, the second can make the first lose what it counted down three times, and the first is cut short in its fourth opening |
| Recursion.Climb | src/src/vision.c:2466-2476 | from a side at any row, if the variable is low enough for the rows left, the recursion goes down to the map's edge, counts each row once, and is not cut |
| Recursion.Unwind | src/src/vision.c:2639-2647 | from the map's edge it comes back to the first side, counts each row down once, and goes on to the next opening |
| Recursion.LoseDecrements | src/src/vision.c:2467 | one count up by another call, its load at the edge of the map and its store after the way back, leaves the variable higher by the whole descent and one |
| Recursion.Refused | src/src/vision.c:2466 | with the variable too high for the rows left, a side is sent back at the limit |
| Recursion.AloneUnharmed | src/src/vision.c:2462-2467 | in any run alone, with snapshots and restores, the variable counts the open sides, no side is ever sent back, and the file the call rewrites is there between calls |
| Recursion.ShareShows | src/src/nle.c:419-426 | a start in the directory of a live environment, with one micro-step, takes a file from it that it has alone |
| Recursion.GuardIsShared | src/src/vision.c:1212 | two threads, two environments, one call on each: the first shows what it does not show when the same call is made with nobody else about |
| Hackdirs.DirectoryIsShared | src/src/nle.c:419-426 | two environments in one directory, called one at a time by one thread: the first shows what the second wrote |
| Environment.CallsDetermineRun | tests/test_interleave.c:3-12 | two runs from one state with the same calls, both at rest, are the same run, micro-step by micro-step |
| Environment.CallsExact | tests/test_interleave.c:3-12 | the calls of a run are exactly its events but the micro-steps and returns |
| Environment.RunConcat | src/src/nle.c:882-925 | a run in two parts leads where and shows what its parts do in turn |
| Environment.FilesAsTheCode | src/src/nle_fast_reset.c:280-289 | the files a restore brings back in this model are those that bundling and restoring them by the code's loops brings back, in any order of listing |
| Environment.LevelsBundled | src/src/nle_fast_reset.c:96-111 | whatever level the lock was last renamed for, a snapshot has every level file of the lock and a restore brings it back as it was |
| Memory.ToldWhatIsDue | src/src/alloc.c:190-211 | over every run that puts nothing back, a load tells the game what the run last stored there, a file read the byte of the file as last written, an allocation the block the arena owes it, and nothing else tells it anything |
| Memory.AllocatedIsAnswered | src/src/alloc.c:190-211 | the addresses a run is told are the arena's answers to its requests, one by one, from where the bump pointer was; a refusal is no address; the pointer ends where the requests take it |
| Memory.AllocationsDisjoint | src/include/global.h:291-297 | any two blocks a run is told of, whatever it freed in between, are aligned, behind what was in use, long enough, disjoint and inside the arena in use |
| Memory.BlocksUsable | src/src/alloc.c:190-211 | after any run every byte of every block it was told of, and every global, can be loaded and stored |
| Memory.HistoryHeld | src/include/nh_globals.h:1128-1131 | after every run each global, arena byte and file, and the shared variable, is what the run last wrote there, or what was there |
| Memory.StartsFresh | src/src/nle.c:315-360 | a new environment has the template globals, an empty arena of zeros, the caller's files and no snapshot |
| Replay.RestoreReplays | src/src/nle_fast_reset.c:1-9 | after any life, any continuation and a restore, the same calls give the same micro-steps, observations and allocated addresses as right after the snapshot, if that run reads only its globals, the arena and the owned files as saved, and what it wrote |
| Replay.RestoreReplaysAmongOthers | README.md:47-51 | the same micro-steps, observations and addresses in any schedule of other threads and environments that disturbs nobody |
| Replay.RunsAgree | src/include/nle.h:102-106 | the relational invariant: two runs that differ only in what neither knows stay that way, and show and allocate the same |
| Replay.RestoredAgrees | src/src/nle_fast_reset.c:440-442 | a restored environment differs from the one the snapshot was taken of at most beyond the saved bump pointer, in files a snapshot does not own and in the shared variable |
| Replay.RestoredExact | src/src/nle_fast_reset.c:435-473 | what every restore has in common with the environment at the snapshot is exactly the arena in use then and the files owned then, besides globals and stack |
| Replay.MovesAlikeExactlyWhenKnown | src/src/nle_fast_reset.c:435-473 | for a game that takes notice of what it reads, a run has the same registers after every prefix from all environments that agree on what is known if and only if it reads only what is known or written since |
| Replay.StaleBytesShow | src/src/alloc.c:209-210 | a game that reads before it writes shows 0 after the snapshot and 7 after the restore |
| Replay.CarelessReadsUnknown | src/src/alloc.c:209-210 | that run reads what a restore does not bring back |
| Arena.NeedSuffices | src/src/alloc.c:190-196 | the bump is at least the request, and less than 16 above it, exactly for requests up to 2^32 - 16; a longer one gets 16 bytes |
| Arena.BumpExact | src/src/alloc.c:194-206 | a request is answered exactly if some whole number of alignment units that holds it fits, at the bump pointer, which moves by the least such number; a refused one moves nothing |
| Arena.BlocksAdjacent | src/src/alloc.c:190-211 | of two answered requests in a row the second block begins less than one alignment unit behind the end of the first, or at it |
| Arena.BlocksDisjoint | src/src/alloc.c:199-211 | over every run of requests, the blocks of any two that were not cut by the wrap-around are aligned, long enough, inside the used arena and disjoint |
| Arena.Ctx.MapArena | src/src/alloc.c:169-188 | mapping the arena on first use is not observable |
| Arena.Ctx.Alloc | src/src/alloc.c:190-211 | the block is where the bump pointer was, or the arena is exhausted and nothing moves; no byte changes |
| Arena.Ctx.Clear | src/src/alloc.c:279-286 | clearing sets exactly the given bytes to zero |
| Arena.Ctx.Calloc | src/src/alloc.c:279-286 | the block is the one that the request cut to 32 bits gets; as many bytes as were asked for are zero, as far as the arena goes, and `beyond` more are cleared after its end; every other byte of the arena is as before; up to 2^32 - 16 the cleared bytes lie in the block |
| Arena.CallocExact | src/src/alloc.c:279-286 | a cleared allocation gets a block that holds count times size bytes exactly if that is at most 2^32 - 16 |
| Arena.CallocOverruns | src/src/alloc.c:282-284 | a request of 2^32 bytes gets 16 and clears them all |
| Arena.Ctx.Save | src/src/nle_fast_reset.c:382-394 | a snapshot holds exactly the bytes in use |
| Arena.Ctx.Restore | src/src/nle_fast_reset.c:440-467 | the saved bytes and bump pointer are back, the mapping and all bytes beyond are as they were |
| LevelFiles.LockBaseInvertsRename | src/src/files.c:493-508 | the base recovered from a renamed lock is the original name up to its last dot; renaming twice is renaming once; every level file of the lock is recognised by the base |
| LevelFiles.LockBaseExact | src/src/nle_fast_reset.c:120-146 | the base of a lock is what stands before a dot and digits at the end of its name, or the whole name if nothing does |
| LevelFiles.FindLockBase | src/src/nle_fast_reset.c:120-146 | the two loops compute that base |
| LevelFiles.SnapshotFileExact | src/src/nle_fast_reset.c:180-193 | a snapshot owns exactly the names that are the base, a dot and digits, those that begin with bon, base.bn, record, logfile and xlogfile |
| LevelFiles.LevelfileExact | src/src/nle_fast_reset.c:148-167 | the level files of a base are the names that are the base, a dot and at least one digit and only digits |
| LevelFiles.LevelNamesDiffer | src/src/files.c:493-508 | no two levels have the same file |
| LevelFiles.DecimalExact | src/src/files.c:493-508 | a level is written as the decimal number it is, with no leading zeros |
| LevelFiles.LevelsOwned | src/src/nle_fast_reset.c:107-111 | every level file of a lock is owned, whatever level the lock was last renamed for |
| LevelFiles.Hackdir.Bundle | src/src/nle_fast_reset.c:205-278 | the bundle is exactly the owned files, in any listing order, under names with no slash; it fails exactly when the directory cannot be listed, or an owned file cannot be read or has too long a name |
| LevelFiles.Hackdir.WriteFiles | src/src/nle_fast_reset.c:303-324 | the bundled files are written in turn to where their names lead, with the process id in front of those long enough when stamping; each may lead nowhere, not open, be cut short, or lose its stamp |
| LevelFiles.WrittenOk | src/src/nle_fast_reset.c:303-324 | writing goes well exactly if every name leads to a file and none fails to open, to be written or to be stamped |
| LevelFiles.WrittenLands | src/src/nle_fast_reset.c:303-324 | then every place that a name leads to holds its file, whole and stamped; whether it goes well or not, all other files of the disk are untouched |
| LevelFiles.WrittenPlain | src/src/nle_fast_reset.c:303-324 | under names with no slash only the directory is written, in it only files of the bundle, and if it goes well it holds all of them |
| LevelFiles.LeftExact | src/src/nle_fast_reset.c:309-322 | a file whose writing failed holds its beginning, or all of it with the beginning of the stamp |
| LevelFiles.FailsExact | src/src/nle_fast_reset.c:303-324 | writing a file fails exactly if it does not open, bytes of it are missing afterwards, or bytes of a stamp that was due are |
| LevelFiles.SplitExact | src/src/nle_fast_reset.c:307 | the parts of a path have no slash, and with slashes between them are the path |
| LevelFiles.ReachStep | src/src/nle_fast_reset.c:307-308 | empty parts and single dots of a path stay, two dots go up and not above the root, names go down; a path that ends in none of these but a name is that file |
| LevelFiles.Hackdir.RemoveStale | src/src/nle_fast_reset.c:328-350 | exactly the owned files not in the bundle go, but those that cannot be removed; it goes well exactly if there are none of those and the directory can be listed |
| LevelFiles.Hackdir.RestoreFiles | src/src/nle_fast_reset.c:290-352 | the return code is 0 exactly if nothing failed; then the disk is as asked for exactly if no name has a slash or is no file name; under such names nothing else on the disk changes, and files neither owned nor bundled stay in any case |
| LevelFiles.RestoreExactly | src/src/nle_fast_reset.c:280-352 | for all names: a restore in which nothing fails leaves the directory as the bundle and the files not owned, and the rest of the disk alone, if and only if all names are names of files in a directory |
| LevelFiles.RestoreExact | src/src/nle_fast_reset.c:96-111 | after a restore the owned files are exactly those at snapshot time and all other files are untouched |
| LevelFiles.RestoreLevels | src/src/nle_fast_reset.c:96-111 | after a restore the files named base.digits are exactly those at the snapshot, with their contents, and so are bones, base.bn, record, logfile and xlogfile; no other file has moved |
| LevelFiles.LevelfilesBlob | src/src/nle_fast_reset.c:606-659 | the loop writes the encoding of the files |
| LevelFiles.LoadFile | src/src/nle_fast_reset.c:691-719 | one turn of the loader reads the entry at its position, or rejects with 4 |
| LevelFiles.LevelfilesLoad | src/src/nle_fast_reset.c:665-725 | the loader returns the files parsed or the code of the failure, 3 where it has no room for the entries, and never reads past the blob |
| LevelFiles.ParseExact | src/src/nle_fast_reset.c:676-719 | the loader accepts exactly the encodings of files with names below 64 bytes, with anything behind, and keeps each name up to its first NUL |
| LevelFiles.Hackdir.Load | src/src/nle_fast_reset.c:661-725 | a blob that is rejected, with 1 to 4, leaves the disk alone; otherwise 0 is returned exactly if nothing failed, else 5, and the disk is what the restore of its files leaves, for any names |
| LevelFiles.BlobRoundTrip | src/src/nle_fast_reset.c:553-564 | loading an encoding gives the files back, also with bytes behind it |
| LevelFiles.CutBlobRejected | src/src/nle_fast_reset.c:661-664 | every encoding that was cut short is rejected, with code 1 below 12 bytes and 4 above |
| LevelFiles.CheckpointExact | src/src/nle_fast_reset.c:661-664 | bundle, encode, parse and install in a process with any lock: what arrives of the files its lock owns is exactly what it owns then; other files are left alone exactly if the checkpoint adds nothing to them, and with the same lock base they are |
| LevelFiles.InstallExact | src/src/nle_fast_reset.c:661-725 | installing files of any names leaves all that the loader's lock does not own, anywhere on the disk, alone exactly if every place that a name leads to is owned or holds already what the blob puts there |
| LevelFiles.DotSlashName | src/src/nle_fast_reset.c:691-719 | a blob that names "./n" writes n: if the lock does not own n it is overwritten, if it does it is removed again, and success is reported |
| LevelFiles.DotDotName | src/src/nle_fast_reset.c:303-307 | a blob that names "../b/n" writes n in the directory b beside |
| LevelFiles.InstallOverwritesLock | src/src/nle_fast_reset.c:181-193 | the lock file is owned by no lock, and is overwritten by a blob that names it |
| KnobQueue.KnobList.SetTune | src/nleweb.c:51-63 | the search and append loop does to the two arrays what enqueueing does to the list |
| KnobQueue.KnobList.ClearTune | src/nleweb.c:49 | the queue is empty |
| KnobQueue.KnobList.CopyFrom | src/nleweb.c:144-148 | the settings hold the queue entry by entry |
| KnobQueue.QueueRefinesLog | src/nleweb.c:41-63 | over every run of set and clear calls and every catalog size, an index is queued iff it is among the first 64 distinct valid ones set since the last clear, once, with the last value set for it |
| KnobQueue.QueuedValue | src/include/nleobs.h:97-103 | knob by knob, overlaying the queue gives the last value set if the index was among the first 64, and leaves the knob alone if not |
| KnobQueue.OverlayAnyOrder | src/include/nleobs.h:97-103 | the entries may be applied in any order |
| KnobQueue.QueueReplaysLog | src/include/nleobs.h:83-84 | for a catalog of at most 64, overlaying the queue in any order on any knobs is replaying every accepted call in call order |
| KnobQueue.QueueReplaysLogExactly | src/nleweb.c:51-63 | for any catalog, that holds on all knobs iff at most 64 distinct knobs were set since the last clear |
| WebSession.Game.NleStart | src/src/nle.c:744-756 | a new game's knobs are the defaults overlaid with the settings' entries |
| WebSession.WebSession.SetTune | src/nleweb.c:51-63 | the session moves as its state machine does |
| WebSession.WebSession.ClearTune | src/nleweb.c:49 | the session moves as its state machine does |
| WebSession.WebSession.LiveTune | src/nleweb.c:179 | only the live game's block changes, at one index |
| WebSession.WebSession.Step | src/nleweb.c:158-163 | a live context is stepped and stays the live one |
| WebSession.WebSession.Start | src/nleweb.c:130-156 | the live context, if any, is ended, once and while alive; the settings are refilled from the queue; the new context is fresh and becomes the live one |
| WebSession.OneLiveGame | src/nleweb.c:128-163 | over every run, the contexts started and not ended are exactly the live one, none is used after its end or ended twice, each is started once before any use |
| WebSession.QueueSurvivesGames | src/nleweb.c:130-156 | the queue depends on the set and clear calls alone |
| WebSession.FreshGameKnobs | src/nleweb.c:143-148 | a fresh game's knobs, one by one, are the defaults or the last values set since the last clear, whatever was written live to earlier games |
| WebSession.RestartsAgree | src/nleweb.c:143-156 | two starts with no set or clear between them pass identical overrides and give identical knobs |
| WebSession.EndedGamesFrozen | src/nleweb.c:176-179 | no later call changes the knobs of a game that was replaced |
| WebSession.LiveKnobs | src/nleweb.c:130-179 | over every run each knob of the live game is the value of the last live write to it since the last start, or else what that start gave it |
| WebSession.LiveWriteExact | src/nleweb.c:179 | a live write sets one knob of the last game started, and no other knob, game or entry |
| WebSession.EveryCallSeen | src/nleweb.c:128-163 | as many games are started as start calls made, each is stepped as often as step was called while it was the last one started |
| WebSession.LegalExact | src/nleweb.c:158-179 | the runs spoken of are exactly those that step and live-tune only after a first start, and live-tune only knobs there are |
| Glyphs.MapGlyphInvertsEncode | src/src/mapglyph.c:84-209 | for all table sizes the display code's cascade reads back whatever was encoded, up to the one overlap, and every encoding lies in [0, MAX_GLYPH) |
| Glyphs.EncodeInvertsMapGlyph | src/include/display.h:284-302 | every glyph encodes back from an in-range reading: none is unused |
| Glyphs.GlyphsCollide | src/include/display.h:294-340 | two things share a glyph iff they are equal or a map symbol among the last nine and the dark explosion of that symbol |
| Glyphs.FamiliesTile | src/include/display.h:284-302 | the thirteen families tile [0, MAX_GLYPH) between strictly increasing borders |
| Glyphs.OffsetsSum | src/include/display.h:284-299 | MAX_GLYPH is 14 NUMMONS + NUM_OBJECTS + 189 |
| Glyphs.TablesExact | src/include/display.h:284-302 | the table sizes spoken of are exactly those that leave no family empty |
| Glyphs.PredicatesMatchFamilies | src/include/display.h:407-440 | on every integer each range predicate accepts exactly its own family, but for map symbols, which take the dark explosions too, and traps |
| Glyphs.DecodersAgree | src/include/display.h:373-401 | on every integer the decoders say what the cascade reads, or NO_GLYPH |
| Glyphs.DecodersReencode | src/include/display.h:361-397 | a decoder says NO_GLYPH iff its family predicates fail; otherwise a valid index that gives the glyph back within its family, bodies and statues collapsing in the object decoder only |
| Glyphs.TrapGlyphs | src/include/display.h:430-432 | trap glyphs decode to their trap; the accepted glyphs are those and one more, which decodes to TRAPNUM |
| Glyphs.ZapGlyphs | src/src/display.c:1929-1941 | a beam looks the same from both ends, the four directions are told apart, and the result is a zap glyph iff the type is not negative |
| Glyphs.SwallowGlyphs | src/src/display.c:1904-1915 | for the monster chosen, monster and position come back by shift and mask; a bad position is drawn as the last |
| Glyphs.GlyphsFitObservation | src/include/nleobs.h:53 | with at most 382 monsters and 454 objects every glyph is at most 5990 and fits a signed 16-bit cell |
| Glyphs.ObjectGlyphs | src/include/display.h:321-328 | without hallucination an object's type, and for statues and corpses the monster, come back from its glyph |
| Glyphs.DreamtGlyphs | src/include/display.h:316-335 | whatever the generator yields, a hallucinated statue is a wild monster and anything else a body or an object, never the generic corpse |
| Glyphs.DreamsExactly | src/include/display.h:314-335 | over all generators a hallucinated statue looks like every wild monster and nothing else, any other object like every object but the generic corpse and every body, and nothing else |
| Glyphs.DreamCost | src/include/display.h:314-319 | a dream takes one word of the generator, and a second one for whose body a dreamt corpse is |
| Glyphs.EveryMonsterDreamt | src/include/display.h:305-312 | for each monster and family some generator makes a hallucinating hero see it |
| Glyphs.EveryTrapDreamt | src/include/display.h:341-342 | for each real trap some generator makes a hallucinating hero see it, and it reads back as that trap |
| Glyphs.Painter.Rn2OnDisplayRng | src/src/rnd.c:125-130 | the number in [0, x) that is the next word of the generator less a multiple of x, and the generator one word further |
| Glyphs.Painter.RandomObjToGlyph | src/include/display.h:314-319 | the glyph, `otg_temp` and the draws used up |
| Glyphs.Painter.ObjToGlyph | src/include/display.h:321-335 | the glyph is that of the object or of what is dreamt; `otg_temp` and the generator's state afterwards are those of the draws made, and a clear head draws nothing |
| Glyphs.Painter.MonToGlyph | src/include/display.h:305-312 | the monster, or the one drawn, in the family asked for, and the generator one draw further if one was made |
| Glyphs.Painter.SwallowGlyph | src/src/display.c:1904-1915 | the swallowing monster, or the one drawn, at the place asked for, read back by the display code; a bad place is drawn as the last; the generator one draw further if one was made |
| Glyphs.Painter.TrapGlyph | src/include/display.h:341-342 | the trap's glyph, or a random one that is always a real trap's, and the generator one draw further if one was made |
| Track.ChaseExactlyWhenWalked | src/src/track.c:34-62 | of the rings of all moments since the trail was begun, the search with skips equals the plain search for every pursuer iff consecutive positions are at most one apart |
| Track.ChaseSound | src/src/track.c:34-62 | on any trail, what is found is a recorded position on one of the eight squares around the pursuer, and none of the positions looked at before it is |
| Track.DistMinIsSteps | src/src/hacklib.c:595-610 | the distance is the least number of steps to neighbouring squares: none to where one is, one to the eight squares around, and one less from some neighbour |
| Track.ScanIsFirst | src/src/track.c:34-62 | the plain search finds the newest position on a neighbouring square, unless the pursuer stands on a newer one |
| Track.JumpIsMissed | src/src/track.c:48-57 | behind every jump there is a pursuer that the plain search serves and the skipping one does not |
| Track.HeroTrack.SetTrack | src/src/track.c:22-32 | the ring holds the last 50 of all positions recorded, newest first |
| Track.HeroTrack.GetTrack | src/src/track.c:34-62 | the index arithmetic in the ring performs the search, never reads a slot that holds no recorded position, and returns a position on a neighbouring square |
| PackedWords.CoordRoundTrip | src/include/sp_lev.h:235-237 | a packed coordinate reads back modulo 256 and is never taken for a random one |
| PackedWords.RandomCoordRoundTrip | src/src/sp_lev.c:975-995 | a random coordinate gives its flags less 2^24 if that bit is set, or the default where nothing is left; the word read back is the one packed iff bit 24 is clear, or, where nothing is left, iff it is the default |
| PackedWords.NoFlagsMeanDefault | src/src/sp_lev.c:3173 | the word packed for no flags at all is read as the default |
| PackedWords.FixedAndRandomNeverCollide | src/include/sp_lev.h:224-238 | no fixed coordinate equals a random one |
| PackedWords.RegionRoundTrip | src/include/sp_lev.h:240-246 | all four components come back modulo 256, also when the packed int is negative |
| PackedWords.BiasedRoundTrip | src/include/sp_lev.h:248-261 | the class comes back modulo 256, the index iff it is in [-10, 65525] |
| PackedWords.BiasedInjective | src/include/sp_lev.h:248-261 | in range, the packed word determines index and class |
| PackedWords.NoticeRoundTrip | src/include/hack.h:471-479 | the three extractors invert the packing iff every part fits, for every width of unsigned long from 32 bits |
| PackedWords.NoticeOrder | src/src/options.c:807-820 | comparing packed words compares versions lexicographically |
| PackedWords.RgbColor.FromTty | src/include/mttypriv.h:24-28 | the three channels are set to the spread bytes, fit 16 bits, and read back as the colour modulo 2^24 |
| PackedWords.TtyRoundTrip | src/include/mactty.h:134-137 | terminal colour to screen colour and back is the identity modulo 2^24 |
| PackedWords.ScreenQuantised | src/include/mactty.h:134-137 | screen colour to terminal colour and back keeps the high bytes, moves a channel by at most 255, and is idempotent |
| Bits.MaskIsMod | src/include/sp_lev.h:235-246 | masking with 2^k - 1 is the remainder modulo 2^k, for negative words too |
| Bits.OrFields | src/include/sp_lev.h:253 | or-ing a field into the zero bits below another is adding it |
| Bits.MaskAtIsField | src/include/hack.h:476-479 | masking a field in place and shifting is shifting and masking |

## Left out

- Isolation.EnvironmentsIsolated: the arena is mapped at the start instead of at the first allocation, which `Arena.Ctx.MapArena` shows cannot be observed; the coroutine's stack is one value kept per context, not bytes; the context's other fields, the display mirror, the terminal and the recording are not in the machine. The directory is prepared by the caller and given to the start with its contents. Of the statics that stay process-wide only `vision_recur_depth` is in the machine; the others in tools/collect_globals/whitelist.txt are thread-local, set once, or diagnostic.
- Replay.RestoreReplays: the run that is replayed takes no snapshot and makes no restore of its own. A snapshot whose bundle fails, and a restore whose files fail, are no events here; `LevelFiles.Hackdir` says exactly when they do.
- Environment.FilesAsTheCode: scores are taken to be kept in the hackdir, as they are when no score directory is set.
- Arena.Ctx.Calloc: how many bytes are cleared after the end of the arena is stated, but what lies there is not modelled.
- LevelFiles.Hackdir.WriteFiles: links and path lengths are not modelled; which of a bundle's files open, and how much of each is written, is given from outside; the same file given twice in a bundle may fare differently each time, but one that cannot be removed is so for the whole call.
- The wall clock: the game is deterministic here, as it is with the clock frozen.
- Machine, schedules and single environments are values and functions rather than classes: a schedule interleaves many threads, and its proof needs states to compare. The heap objects of the code are classes where one owner updates them.
- The live handles a restore keeps (window port, observation, recording, sentinel) and the terminal and mirror buffers: copies with nothing to decide.
- The registry of arenas and the routing of `free` for pointers of other arenas: a lock-free table whose interleavings are not modelled. Freeing inside an arena is a no-op in `Environment.dfy`.
- The legacy arena used before any environment exists.
- Knob values are opaque; floating point and the string options of the settings are not modelled.
- Level and player blobs, the host-call unwind, the curriculum API, the sentinel.
- Free-rectangle splitting, the rest of the vision code, the isaac64 generator's words, level generation, and the rest of the game: the game is an arbitrary program here.
- Static tables and small enum conversions, plain accessors, buffer allocation, window ports.
