# Stitch: verified model of the editor core

Stitch edits a video project by small typed commands. Every accepted command becomes a revision whose hash
covers its parent and its bytes; a store keeps the revisions in five tables and rebuilds the project by
replaying them; a C ABI lets many threads drive cores, submit batches and lease frames. This project models
those layers in Dafny and proves what they promise together:

- **Time** (`Euclid`, `Rationals`, `Adapter`): lowest-terms fractions with 64-bit fields and 128-bit
  intermediates, three rounding policies, and the sequence adapter.
- **Projects** (`Projects`, `Validation`, `Independence`, `Replays`): the five commands, the reducer, the
  consistency check, the reordering of independent commands, and what a log means read off the log itself.
- **Bytes** (`Bytes`, `OrderedMaps`, `Wire`, `Codec`, `ProjectCodec`, `Readers`, `Layouts`, `Decoding`): the canonical
  encodings and the cursor that reads them back. The pure readers and writers are the specification; the class
  `Reader` and the appending methods are proved against it, `Layouts` gives the bytes offset by offset, and
  `Decoding` says which bytes are accepted.
- **Revisions** (`Revisions`, `Histories`): the hash chain, and undo and redo against a zipper of commands.
- **The store** (`Databases`, `Tampering`, `Logs`, `StoreMachine`, `StoreAnswers`, `Stores`, `Receipts`): tables, the
  `restore` loop and what it notices, a machine over command logs with faults, crashes, snapshots and compactions,
  what it answers in any run, and the class `Store` that refines it statement by statement.
- **The C ABI** (`Cores`, `Steps`, `LeaseProofs`, `Interleavings`, `Instants`, `Destroys`, `Answers`,
  `Registrations`, `Drains`, `Races`, `Batches`, `BatchRuns`, `Staleness`, `CoreStates`, `Locks`): every exported call split at its
  lock sections (`destroy` at the point where it lets go of the core but not of the table), run by any
  number of threads in any order. `Cores` is the machine; the others say what holds in every run, at which
  instant of a call, and under which condition a race is lost. The class `CoreState` is the object behind a
  core's mutex, and its methods are proved to do what the machine's sections do.

SHA-256 (section 6.2 of FIPS 180-4) is a parameter: each theorem holds for every function from byte strings to
32 bytes, collisions included. Where a property would need an injective digest, the proof hands out the two
colliding preimages instead.

## Where the code does less than one might expect

- The doc comment of `Project::from_canonical_bytes` says that only the exact canonical representation is
  decoded. The code also accepts unsorted identifiers and unreduced rationals, because it inserts into ordered
  maps and normalises fractions. `ProjectCodec.DecodeProjectNormalises` and `Codec.DecodeCommandNormalises`
  prove what it does: decoding normalises, and is exact precisely on bytes in normal form.
  `Codec.UnreducedIsAccepted` and `ProjectCodec.UnsortedIsAccepted` are accepted bytes outside it.
- The receipt check of `restore` compares two counts and joins receipts to revisions. It lets a database pass
  in which one revision has two receipts and another none (`Receipts.DoubledIsAccepted`). Every revision has
  its receipt exactly if no two receipts carry one number (`Receipts.PairedExactlyIfNumbersDiffer`), which
  commits keep (`Receipts.CommittedReceiptsPair`).
- `acquire` compares its own arguments with the core, not the lease, and lets go of the core before it marks the
  lease. So an acquired lease may be stale, because the arguments were not its own
  (`Races.AcquiredLeaseCanBeStale`) or because the core moved in between (`Races.AcquireCanBeOvertaken`). It is
  current exactly if the arguments agree with it and the core has not changed since the check
  (`Staleness.AcquiredIsCurrentExactly`); for a thread that owns the core, exactly if the arguments agree with it
  (`Instants.OwnAcquireIsCurrentExactly`). Only `submit` compares the lease itself.
- `destroy` checks that its core has no leases, lets go of the core, and only then takes it out of the table. A
  `register` that looked the core up before the check can come in between, so a core can leave the table with a
  lease in it (`Races.CoreCanLeaveWithALease`). It leaves with exactly the leases registered since the check
  (`Destroys.CoreLeavesAfterItsCheck`), and can come to leave with one exactly if it has one already or some
  thread stands at a `register` that the core would accept (`Destroys.LeavesWithALeaseExactly`).
- For the same reason a core that has left the table can still gain a lease (`Races.RemovedCoreCanGainALease`).
  A thread at a `register` that its core would accept can lose its lease in one of these ways exactly if a
  `destroy` has passed its check already, or the thread neither owns the core nor has a lease on it and the owner is
  not just moving the core, save for a log that repeats a revision (`Drains.RegisterCanLoseExactly`). Such a
  lease is worth nothing: every later call on it answers `UnknownHandle` (`Registrations.LaterCallsFindNothing`)
  and it stays registered for ever (`Registrations.LostLeaseIsStuck`).
- A commit that makes the log a multiple of 128 long is not always followed by a snapshot; the exact condition
  is `StoreMachine.AutomaticSnapshotExactlyIf`, and `StoreMachine.SnapshotCanBeMissing` gives a run for each
  multiple that ends without one.
- Times at least one tick apart may still collapse under nearest-even rounding: 1.5 and 2.5 both become 2
  (`Adapter.OneTickCanCollapse`). They do exactly if they are one tick apart with an even tick half-way between
  them (`Adapter.CollapsesExactlyAroundEvenTicks`), and that alone makes a sequence so spaced fail
  (`Adapter.TickApartAcceptedExactly`).

## Model

| member | source | states |
|---|---|---|
| `Euclid.Gcd` | crates/contracts/src/lib.rs:339-346 | The loop computes the greatest common divisor of its arguments, zero included |
| `Euclid.GcdIsGreatest` | crates/contracts/src/lib.rs:339-346 | Every common divisor of two numbers divides the result of the loop (by Bezout coefficients) |
| `Euclid.LowestTermsAreUnique` | crates/contracts/src/lib.rs:129-154 | Two coprime fractions with positive denominators and equal value are the same pair |
| `Rationals.FromI128` | crates/contracts/src/lib.rs:129-154 | A zero denominator is the only `ZeroDenominator`; a result is in lowest terms and proportional to the arguments; every other refusal is `Overflow` |
| `Rationals.FromI128IsComplete` | crates/contracts/src/lib.rs:129-154 | If any canonical rational with 64-bit fields has the value, it is returned: nothing representable is refused |
| `Rationals.AddIsExact` | crates/contracts/src/lib.rs:78-83 | The sum succeeds exactly if some canonical rational equals it, returns that one, and no 128-bit intermediate overflows |
| `Rationals.SubIsExact` | crates/contracts/src/lib.rs:91-96 | The same for the difference |
| `Rationals.MulIsExact` | crates/contracts/src/lib.rs:104-109 | The same for the product |
| `Rationals.ReciprocalIsExact` | crates/contracts/src/lib.rs:116-118 | Zero has no reciprocal; otherwise exact, and `Overflow` only for the least 64-bit numerator |
| `Rationals.ValueDeterminesRational` | crates/contracts/src/lib.rs:19-22 | Two canonical rationals of equal value have identical fields |
| `Rationals.SubtractUndoesAdd` | crates/contracts/src/lib.rs:78-96 | Whenever a + b succeeds, (a + b) - b succeeds and is a, although intermediates may not fit the fields |
| `Rationals.CmpOrdersValues` | crates/contracts/src/lib.rs:157-162 | The cross-multiplied comparison is the order of the values and says equal only for identical fields |
| `Adapter.RoundQuotientRounds` | crates/contracts/src/lib.rs:317-337 | The Euclidean quotient and remainder give the policy's rounding of the real quotient, negative numerators and ties included |
| `Adapter.AdaptationIsExact` | crates/contracts/src/lib.rs:265-283 | On success the ticks are the rounding of the exact position, and ticks over rate plus error is the input exactly |
| `Adapter.HnsIsTenMillion` | crates/contracts/src/lib.rs:226-247 | In Hns a time is adapted at ten million ticks a second: the ticks are the rounding of the value times 10000000, the error completes them, and `Overflow` is answered exactly if no such ticks and error fit |
| `Adapter.RateIsTicksPerSecond` | crates/contracts/src/lib.rs:234-247 | In a timescale or sample rate n the same holds at n ticks a second; `InvalidUnit` is answered exactly for 0, and a rate of 2^63 or more is `Overflow` |
| `Adapter.ErrorIsBounded` | crates/contracts/src/lib.rs:265-337 | The error in ticks lies in [0, 1) for Floor, (-1, 0] for Ceil, [-1/2, 1/2] for NearestEven with even ticks at both ends |
| `Adapter.AdaptationFailsOnlyByOverflow` | crates/contracts/src/lib.rs:265-283 | For a valid unit adaptation succeeds exactly if a 64-bit tick count and a representable error complete each other; the only error is `Overflow` |
| `Adapter.AdaptationIsMonotone` | crates/contracts/src/lib.rs:265-283 | A time not later never gets more ticks, for each policy and negative times |
| `Adapter.AdaptAbsoluteSequence` | crates/contracts/src/lib.rs:293-315 | Succeeds exactly if times and ticks strictly increase and each time is adaptable; each element equals its own absolute adaptation; otherwise the error is that of the first bad element |
| `Adapter.FirstErrorInOrder` | crates/contracts/src/lib.rs:295-315 | The error of a refused sequence is that of its first element in the way: `InvalidRange` if it is not later than the one before, else its own adaptation error, else `NonMonotonicAdaptedTicks`; all elements before it grow in time and ticks |
| `Adapter.CollapsesExactlyAroundEvenTicks` | crates/contracts/src/lib.rs:293-315 | For times at least one tick apart: equal or falling ticks come exactly under NearestEven, at a gap of exactly one tick, with an even tick half-way between |
| `Adapter.TickApartAcceptedExactly` | crates/contracts/src/lib.rs:293-315 | A sequence of adaptable times at least one tick apart is accepted exactly if NearestEven meets no such even tick; otherwise the error is `NonMonotonicAdaptedTicks` |
| `Adapter.WellSpacedIsNeverNonMonotonic` | crates/contracts/src/lib.rs:293-315 | With gaps of one tick (more than one for NearestEven) a sequence is never refused for collapsed ticks, adaptable or not |
| `Adapter.OneTickCanCollapse` | crates/contracts/src/lib.rs:317-337 | Two times exactly one tick apart that nearest-even rounding sends to the same tick |
| `Projects.NewTimeRange` | crates/contracts/src/lib.rs:183-188 | A range is accepted exactly if its start is before its end |
| `Projects.ReduceKeepsSound` | crates/contracts/src/lib.rs:805-891 | Every command keeps a project consistent, and no consistent project is ever reported corrupt |
| `Projects.ReplayKeepsSound` | crates/contracts/src/lib.rs:805-891 | The same for every command list, so for every reachable project |
| `Projects.RemoveUndoesAdd` | crates/contracts/src/lib.rs:805-891 | Removing the clip just added gives back the project before the add |
| `Replays.RefusedExactly` | crates/contracts/src/lib.rs:805-893 | A consistent project refuses a command exactly for the stated reason: a duplicate or a missing identifier, looked for in this order |
| `Replays.ReplayMeans` | crates/contracts/src/lib.rs:805-893 | Read off a log that replays: its assets and tracks are those it adds; a clip is there exactly if a command adds it that no later one removes, keeps its asset, track and source, and stands where it was placed last; a track lists its living clips in the order of their commands |
| `Replays.SoundIsReachable` | crates/contracts/src/lib.rs:634-663 | A project is consistent exactly if some log of commands builds it from the empty one |
| `Validation.Validate` | crates/contracts/src/lib.rs:634-661 | The loops and the count comparison accept exactly the consistent projects: track lists partition the clips, keys agree, references resolve |
| `Validation.ValidateTrack` | crates/contracts/src/lib.rs:636-649 | One track is accepted exactly if its key agrees, it lists no clip twice or after another track, and its clips exist and name it |
| `Validation.CountDecidesCoverage` | crates/contracts/src/lib.rs:650-652 | Given good tracks, equal counts mean that every clip is listed |
| `Independence.SwapIndependent` | crates/contracts/src/lib.rs:805-891 | On a consistent project two independent commands give the same project in either order |
| `Independence.IndependentExactly` | crates/contracts/src/lib.rs:805-893 | The order of two commands matters on no consistent project exactly if they are independent, can never both succeed, or are the same move |
| `Independence.RearrangementKeepsReplay` | crates/contracts/src/lib.rs:805-891 | Any chain of adjacent swaps of independent commands in a successful list succeeds too and gives the same project, hence the same canonical bytes |
| `Codec.CommandRoundTrip` | crates/contracts/src/lib.rs:707-797 | Every command decodes from its own encoding to itself |
| `Codec.EncodeCommandIsInjective` | crates/contracts/src/lib.rs:707-751 | Different commands have different encodings |
| `Codec.AcceptedCommandsArePrefixFree` | crates/contracts/src/lib.rs:759-797 | No accepted byte string accepts a nonempty tail, so no proper prefix of an encoding is accepted |
| `Layouts.CommandLayout` | crates/contracts/src/lib.rs:707-753 | The bytes of a command, offset by offset: the text STITCH-COMMAND and a zero, version 1 in four bytes, the kind byte 1 to 5, then each field at its place, numbers big-endian |
| `Layouts.GoldenBytes` | crates/contracts/src/lib.rs:1273-1293 | The encodings of any track addition and of the empty project, byte for byte as the fixed test vectors have them |
| `Codec.DecodeCommandNormalises` | crates/contracts/src/lib.rs:759-797 | Accepted bytes re-encode to the same length and decode to the same command, and are unchanged exactly if all their rationals are reduced |
| `Codec.UnreducedIsAccepted` | crates/contracts/src/lib.rs:759-797 | The bytes of a move to the range from 0/2 to 2/2 are accepted, as the range from 0/1 to 1/1, which encodes differently |
| `Decoding.CommandAcceptedExactly` | crates/contracts/src/lib.rs:759-797 | Bytes decode to a command exactly if they write it with fractions of the right values, reduced or not |
| `ProjectCodec.ProjectRoundTrip` | crates/contracts/src/lib.rs:534-627 | Every sound project whose counts fit 64 bits decodes from its own encoding to itself |
| `ProjectCodec.EncodeProjectIsInjective` | crates/contracts/src/lib.rs:534-564 | Different such projects have different encodings |
| `ProjectCodec.AcceptedProjectsArePrefixFree` | crates/contracts/src/lib.rs:571-627 | No accepted byte string accepts a nonempty tail |
| `Layouts.ProjectLayout` | crates/contracts/src/lib.rs:534-564 | The bytes of a project, offset by offset: tag, version 1, and three counted lists of records, each in ascending order of the identifiers as 128-bit numbers; every byte belongs to one of these |
| `Bytes.LessIsNumerical` | crates/contracts/src/lib.rs:350-361 | Identifiers are ordered as big-endian numbers, which is the order of their first different bytes |
| `ProjectCodec.DecodeProjectNormalises` | crates/contracts/src/lib.rs:571-627 | Accepted bytes decode to a sound project whose encoding has the same length and decodes to it again; they equal it exactly if ids ascend in each section and rationals are reduced |
| `ProjectCodec.UnsortedIsAccepted` | crates/contracts/src/lib.rs:571-627 | The bytes of any two assets in descending order are accepted as the project of these two assets, which encodes differently |
| `Decoding.ProjectAcceptedExactly` | crates/contracts/src/lib.rs:571-627 | Bytes decode to a project exactly if it is consistent and they list its assets, tracks and clips, each once, in any order and with fractions in any spelling |
| `ProjectCodec.ListedLengthIsClipCount` | crates/contracts/src/lib.rs:571-661 | In any order of the tracks, the lists together are as long as there are clips: why normalisation keeps the length |
| `Readers.Reader.TakeBytes` | crates/contracts/src/lib.rs:990-1002 | The cursor advances over exactly the bytes it returns, or stays and refuses |
| `Readers.Reader.Assets` | crates/contracts/src/lib.rs:577-588 | The loop over a counted section reads what the specification reads and refuses a repeated identifier |
| `Readers.Reader.Tracks` | crates/contracts/src/lib.rs:590-601 | The same for tracks with their inner clip lists |
| `Readers.Reader.Clips` | crates/contracts/src/lib.rs:603-616 | The same for clips, normalising each as it is read |
| `Readers.ProjectFromCanonicalBytes` | crates/contracts/src/lib.rs:571-627 | The cursor-driven decoder with its map inserts and final check computes the specified decoding of any bytes |
| `Readers.CommandFromCanonicalBytes` | crates/contracts/src/lib.rs:759-797 | The same for commands: tag dispatch, errors and trailing bytes |
| `Readers.ProjectCanonicalBytes` | crates/contracts/src/lib.rs:534-564 | The appending encoder produces the specified encoding |
| `Revisions.PreimageIsInjective` | crates/contracts/src/lib.rs:898-911 | The tagged, length-prefixed preimage determines parent and command |
| `Layouts.PreimageLayout` | crates/contracts/src/lib.rs:898-911 | What is hashed for a revision, offset by offset: the text STITCH-REVISION and a zero, version 1, a byte for the presence of a parent, its hash, eight bytes with the length of the command and its bytes |
| `Revisions.HeadBindsHistory` | crates/contracts/src/lib.rs:898-911 | Two different command logs with one head hash contain two different preimages with one digest, which the proof returns |
| `Revisions.HeadDeterminesLog` | crates/contracts/src/lib.rs:898-911 | If the digest tells the revisions of two logs apart, their heads are equal exactly if the logs are |
| `Histories.EditorHistory.GetProject` | crates/editor-core/src/lib.rs:25-30 | What the cursor shows is the replay of the commands done |
| `Histories.EditorHistory.ApplyCommand` | crates/editor-core/src/lib.rs:51-63 | Succeeds exactly if the commands done plus the new one replay; then it joins them, the undone ones are lost, and the returned hash is the chain hash; otherwise the error is the replay's and nothing changes |
| `Histories.EditorHistory.UndoOnce` | crates/editor-core/src/lib.rs:66-72 | Moves one command from done to undone exactly if there is one; the log they form together stays |
| `Histories.EditorHistory.RedoOnce` | crates/editor-core/src/lib.rs:75-81 | Moves one command back exactly if one was undone; the log they form together stays |
| `Histories.ApplyRefines` | crates/editor-core/src/lib.rs:51-63 | Apply succeeds exactly if the done commands plus the new one replay; then it drops exactly the undone list |
| `Histories.EditsRefineZipper` | crates/editor-core/src/lib.rs:23-82 | Any mix of apply, undo and redo keeps the revision vector a picture of a done/undone zipper |
| `Histories.EveryHistoryShowsReplay` | crates/editor-core/src/lib.rs:23-82 | After any edits, project and hash at the cursor are the replay and the chain hash of the done commands |
| `Histories.RedosUndoUndos` | crates/editor-core/src/lib.rs:66-81 | On the revision vector, k undos then k redos change nothing, for every k up to the cursor |
| `Histories.UndosShowEarlierReplay` | crates/editor-core/src/lib.rs:66-72 | After k undos the project and hash shown are those of the log without its last k commands |
| `Databases.Restore` | crates/project-store/src/lib.rs:627-714 | The loop over the rows accepts exactly the databases that meet the declarative predicate `Acceptable`, returns the replay, the chain hash and the length, and otherwise says `CorruptStore` |
| `Tampering.ReceiptsAcceptedExactly` | crates/project-store/src/lib.rs:963-979 | With everything else as accepted, a receipts table is accepted exactly if it has as many receipts as there are revisions, each with the number, hash and command of one of them |
| `Tampering.TamperedReceiptIsRefused` | crates/project-store/src/lib.rs:963-979 | A receipt with another command, with another hash, or removed is refused |
| `Tampering.HeadAcceptedExactly` | crates/project-store/src/lib.rs:704-713 | No other head is accepted with these tables: it is the number and hash of the last revision, or none |
| `Tampering.SnapshotsAcceptedExactly` | crates/project-store/src/lib.rs:635-701 | With everything else as accepted, a snapshots table is accepted exactly if its newest snapshot, if any, has the hash, the replayed project and the digest of its revision |
| `Tampering.RowAcceptedExactly` | crates/project-store/src/lib.rs:668-685 | A revision row with the same command is accepted in its place only with its number, parent and hash |
| `Tampering.TruncationIsRefused` | crates/project-store/src/lib.rs:627-714 | A database without its last revisions is refused |
| `Tampering.OneHeadOneHistory` | crates/project-store/src/lib.rs:627-714 | Two accepted databases with one head hold the same commands, or two of their revisions have different preimages with one digest |
| `Databases.ChainGrows` | crates/project-store/src/lib.rs:668-685 | A row that passes the loop's checks extends the verified chain by its command |
| `Databases.MatchingSnapshotLooksSound` | crates/project-store/src/lib.rs:635-654 | A snapshot that repeats the replay passes the checks made before the rows are read |
| `Databases.ReplayedIsEncodable` | crates/project-store/src/lib.rs:780-817 | Any project replayed from as many commands as can be numbered is consistent and its counts fit the encoding, the two things the project round trip asks for |
| `Logs.CommitStands` | crates/project-store/src/lib.rs:742-766 | The three inserts of one commit turn tables standing for a log into tables standing for the log with one more entry |
| `Logs.StandingIsAcceptable` | crates/project-store/src/lib.rs:627-714 | Tables that stand for a log are accepted, whatever snapshots of its prefixes they hold |
| `StoreMachine.EachRequestCommitsOnce` | crates/project-store/src/lib.rs:716-778 | In every run with faults, crashes and retries, a request id stands at most once in the log |
| `StoreMachine.LogsAreDurable` | crates/project-store/src/lib.rs:408-485 | Whatever work follows, the log so far stays a prefix |
| `StoreMachine.AnswersAreTruthful` | crates/project-store/src/lib.rs:716-778 | A receipt names an entry with this request and command; an ambiguous outcome means the entry is in the log; any other answer adds nothing |
| `StoreMachine.AcknowledgedSurvives` | crates/project-store/src/lib.rs:408-485 | An acknowledged command is in the log after any further faults, crashes and compactions |
| `StoreMachine.ReceiptIsStable` | crates/project-store/src/lib.rs:981-1000 | The receipt of an entry is the same in every longer log |
| `StoreMachine.RetriesAreIdempotent` | crates/project-store/src/lib.rs:716-734 | An unblocked retry returns the first receipt and adds nothing; with another command it is `RequestConflict` and adds nothing |
| `StoreMachine.AutomaticSnapshotExactlyIf` | crates/project-store/src/lib.rs:427-440 | At a multiple of 128 a snapshot is left exactly if the commit is not ambiguous and the snapshot's statements succeed; if they fail the worker is blocked |
| `StoreMachine.CommittingAllHoldsAll` | crates/project-store/src/lib.rs:716-778 | Any list of commands that replays can be committed under distinct requests, one entry each |
| `StoreMachine.SnapshotCanBeMissing` | crates/project-store/src/lib.rs:427-440 | For every multiple of 128 there is a run that commits so many entries and ends without a snapshot there and without a block |
| `StoreAnswers.CommitSnapshotsExactly` | crates/project-store/src/lib.rs:420-440 | After any work, a commit leaves a new snapshot exactly if it is answered with success, the log is then a multiple of 128 long, and the snapshot is found or written; if it fails, and only then, the worker is blocked |
| `StoreAnswers.FreshRequestAnswers` | crates/project-store/src/lib.rs:716-778 | After any work, a request that is not in the log: a command that does not replay gets the reducer's error, a failing statement or injected fault its own, and otherwise the entry is added with the last receipt, or an ambiguous answer |
| `StoreAnswers.RepeatedRequestAnswers` | crates/project-store/src/lib.rs:716-734 | After any work, a request that is in the log gets the receipt of its entry, or `RequestConflict` with another command, and adds nothing |
| `StoreAnswers.LookUpAnswers` | crates/project-store/src/lib.rs:441-446 | A look-up answers with the receipt of the entry or with none, blocked or not, and changes nothing |
| `StoreAnswers.BlockedUntilReopened` | crates/project-store/src/lib.rs:426-480 | A blocked worker changes nothing, whatever it is asked, until the store is opened again |
| `StoreAnswers.ReopeningUnblocks` | crates/project-store/src/lib.rs:487-529 | Opening the store again lifts the block and keeps log and snapshots |
| `StoreAnswers.OnlySnapshotsBlock` | crates/project-store/src/lib.rs:426-480 | Nothing but a failed snapshot, requested or after a commit, blocks the worker, and the answer names the cause |
| `StoreAnswers.SnapshotAnswers` | crates/project-store/src/lib.rs:780-817 | A requested snapshot is written exactly if there is none and nothing fails or is injected before; the answer is the first failure |
| `StoreAnswers.NoSnapshotOfNothing` | crates/project-store/src/lib.rs:780-783 | On an empty log a requested snapshot succeeds and changes nothing, whatever would fail |
| `StoreAnswers.UnansweredQueryRefuses` | crates/project-store/src/lib.rs:716-734 | A commit whose first query fails is answered with the error of the database and changes nothing |
| `StoreAnswers.CheckpointAnswers` | crates/project-store/src/lib.rs:819-838 | A checkpoint changes nothing and is answered with the first failure, or success |
| `StoreAnswers.ArchiveAnswers` | crates/project-store/src/lib.rs:866-902 | An archive changes nothing and succeeds exactly if its place is free, the copy and the rename succeed and nothing is injected |
| `StoreAnswers.CompactionLeavesTheNewest` | crates/project-store/src/lib.rs:840-864 | After any work, a compaction that is answered with success leaves exactly the snapshot of the head, or none of an empty log; the log never changes |
| `StoreAnswers.CompactionAnswers` | crates/project-store/src/lib.rs:840-864 | Where a compaction stops, and with which snapshots: all, all and the head's, or the head's alone |
| `Stores.Store.Open` | crates/project-store/src/lib.rs:487-529 | On the tables of a fresh store `restore` succeeds, and the new store stands for the empty log |
| `Stores.Store.CrashThenOpen` | crates/project-store/src/lib.rs:487-529 | Reopening after a crash accepts the tables and finds the project, head and sequence lost with the memory; the block is gone |
| `Stores.Store.Commit` | crates/project-store/src/lib.rs:716-778 | The statements of `commit` on the tables and the memory do what the log machine says, for every fault and failing statement, and keep memory equal to replay |
| `Stores.Store.PersistSnapshot` | crates/project-store/src/lib.rs:780-817 | The same for snapshots |
| `Stores.Store.Compact` | crates/project-store/src/lib.rs:840-864 | The same for compaction; on success exactly the snapshot of the head is left in the table, or none, and no other table changes |
| `Stores.Store.ArchiveTo` | crates/project-store/src/lib.rs:866-934 | A published archive is a copy of the tables on which `restore` returned the live state; validation of a faithful copy never fails |
| `Stores.Store.Handle` | crates/project-store/src/lib.rs:420-483 | One turn of the worker, with the gate of a blocked store, does what the log machine says |
| `Stores.Store.Serve` | crates/project-store/src/lib.rs:408-485 | After any run of work, `restore` accepts the tables left behind and returns exactly the memory, which is the replay of the committed log |
| `Stores.HistoryAgreesWithStore` | crates/editor-core/src/lib.rs:23-82 | A store holding the done commands of an edited history shows the same project, hash and position |
| `Receipts.PairedExactlyIfNumbersDiffer` | crates/project-store/src/lib.rs:963-979 | In an accepted database every revision has a receipt exactly if no two receipts carry the same number |
| `Receipts.CommittedReceiptsPair` | crates/project-store/src/lib.rs:963-979 | In a database left by commits each revision has exactly one receipt, that of its request |
| `Receipts.DoubledIsAccepted` | crates/project-store/src/lib.rs:963-979 | Overwriting the second receipt with the first leaves an accepted database with an unreceipted revision |
| `Receipts.TwoCommitsStand` | crates/project-store/src/lib.rs:716-778 | Such databases exist: two tracks committed under two requests |
| `CoreStates.CoreState.Submit` | native/c-abi/rust/src/lib.rs:604-630 | The loop over a cloned history accepts a batch exactly if it is the owner's, names the core's epoch and chain hash, parses, and replays after all accepted commands; then history and diff are those of the longer log. Otherwise the core stays and the answer is `InvalidArgument`, `StaleEpoch`, `StaleRevision`, or the error of the first command in the way |
| `CoreStates.CoreState.Acquire` | native/c-abi/rust/src/lib.rs:841-861 | Uninterrupted, a lease is acquired exactly if its owner asks, it is registered, and the arguments are the core's epoch and chain hash; its terms and all other leases stay |
| `CoreStates.CoreState.SubmitLease` | native/c-abi/rust/src/lib.rs:910-932 | Uninterrupted, a lease is submitted exactly if its owner asks, it is acquired, and it carries the core's epoch and chain hash; its terms and all other leases stay |
| `CoreStates.CoreState.Retire` | native/c-abi/rust/src/lib.rs:966-983 | Uninterrupted, exactly a completed lease of the caller is removed, and no other lease changes |
| `Answers.StartAnswers` | native/c-abi/rust/src/lib.rs:475-985 | Before any lock: inside a callback all but create is `ReentrantMutation`; a batch of no or more than 4096 commands is `InvalidBatch`; a lease that is not new is `InvalidArgument`; every other call begins at its first section |
| `Answers.LookUpAnswers` | native/c-abi/rust/src/lib.rs:301-308 | A look-up waits for the table, then goes on exactly if the core is in it, and else answers `UnknownHandle` |
| `Answers.CreateAnswers` | native/c-abi/rust/src/lib.rs:475-498 | A new core has the caller as owner, the given epoch, no commands and no leases, under a handle never given out |
| `Answers.DestroyAnswers` | native/c-abi/rust/src/lib.rs:500-528 | In every run destroy answers `UnknownHandle`, `InvalidArgument` or `BadLeaseState` for a core that is gone, not the caller's, or not without leases, in this order, and else goes on |
| `Answers.SetEpochAnswers` | native/c-abi/rust/src/lib.rs:530-554 | In every run the epoch is set exactly by the owner and not backwards; the refusals are `InvalidArgument` and `StaleEpoch` |
| `Answers.SubmitAnswers` | native/c-abi/rust/src/lib.rs:604-646 | In every run a batch is answered with `InvalidArgument` to all but the owner, `StaleEpoch` for another epoch, `StaleRevision` for another revision than that of the accepted commands, the error of its first command in the way, and else accepted as a whole |
| `Answers.CallbackEnds` | native/c-abi/rust/src/lib.rs:640-646 | The return of the callback lets its thread call again, and changes nothing else |
| `Answers.RegisterAnswers` | native/c-abi/rust/src/lib.rs:785-806 | In every run a lease is registered exactly for the core's epoch and revision, else `StaleEpoch` or `StaleRevision` |
| `Answers.AcquireAnswers` | native/c-abi/rust/src/lib.rs:841-854 | In every run the check of acquire compares its arguments with the core, epoch first |
| `Answers.SubmitLeaseAnswers` | native/c-abi/rust/src/lib.rs:910-925 | In every run the check of a lease's submit answers `UnknownHandle`, `StaleEpoch` or `StaleRevision` for the lease itself, and else goes on |
| `Answers.DiscardAnswers` | native/c-abi/rust/src/lib.rs:865-898 | In every run a lease is discarded exactly by its owner, with its device and before it was submitted; the refusals come in the stated order |
| `Answers.TransitionAnswers` | native/c-abi/rust/src/lib.rs:727-755 | In every run acquire, submit, complete and retire each take a lease from one state to the next, exactly for its owner, with its device and in the right state; the refusals come in the stated order |
| `Answers.RemovalAnswers` | native/c-abi/rust/src/lib.rs:966-983 | In every run the last section of retire removes its lease and nothing else |
| `LeaseProofs.EveryInterleavingIsInOrder` | native/c-abi/rust/src/lib.rs:500-985 | The invariant of leases, trace, table and pending retires holds after every interleaving of lock sections, and the table is kept exactly by a thread between the two sections of its own destroy |
| `Interleavings.EveryLeaseFollowsProtocol` | native/c-abi/rust/src/lib.rs:727-985 | The successful operations on a lease id are always a prefix of register (discard, or acquire (discard, or submit complete retire)), on one core and by one thread |
| `Interleavings.LeaseStateIsItsHistory` | native/c-abi/rust/src/lib.rs:727-755 | While a lease exists, its state, the state in its metadata and its owner are those its operations lead to |
| `Interleavings.EpochsNeverDecrease` | native/c-abi/rust/src/lib.rs:530-554 | Over every continuation of every run a core's epoch does not fall |
| `Interleavings.NoLeaseFromTheFuture` | native/c-abi/rust/src/lib.rs:786-804 | No lease carries an epoch above its core's |
| `Interleavings.CoreLeavesByItsOwner` | native/c-abi/rust/src/lib.rs:500-528 | A core leaves the table only in the last section of its owner's destroy, and never while a thread is between the sections of a call on a lease of its own in it |
| `Interleavings.TableIsGivenBack` | native/c-abi/rust/src/lib.rs:508-525 | The next step of the thread that keeps the table takes its own core out, gives the table back and changes nothing else |
| `Destroys.DestroyWasChecked` | native/c-abi/rust/src/lib.rs:508-525 | Every thread between the two sections of destroy found its core in the table, its own and without leases, in that very call, and has kept the table since |
| `Destroys.CoreLeavesAfterItsCheck` | native/c-abi/rust/src/lib.rs:508-525 | The leases that a core holds when it leaves the table are exactly those registered since its owner's check, all by other threads that had looked the core up before the check; nothing else happened on it since |
| `Destroys.LeavesWithALeaseExactly` | native/c-abi/rust/src/lib.rs:508-525 | Between check and removal, the core can still come to leave with a lease exactly if it has one or some thread stands at a register that the core would accept |
| `Instants.LeaseAndCoreStay` | native/c-abi/rust/src/lib.rs:900-985 | From the section in which a call finds a lease of its own thread to every later state of that call, whatever other threads do: the lease is in its core on the same terms and the core is in the table |
| `Interleavings.OnlyTheOwnerMovesALease` | native/c-abi/rust/src/lib.rs:727-985 | No step of a thread changes or removes a lease that it does not own |
| `Interleavings.RetireAlwaysFinishes` | native/c-abi/rust/src/lib.rs:956-985 | Once retire has marked its lease, its second look-up succeeds, at most after waiting for the table, and its last section removes the lease |
| `Instants.EverySubmitWasCurrent` | native/c-abi/rust/src/lib.rs:900-934 | Every successful submit of a lease had an instant in that very call at which the lease's epoch and revision were the core's; from then on the lease was held on the same terms and its core stayed in the table |
| `Instants.EveryAcquireWasChecked` | native/c-abi/rust/src/lib.rs:841-861 | Every successful acquire had an instant in that very call at which its arguments were the core's epoch and revision; from then on the lease was held |
| `Staleness.AcquiredIsCurrentExactly` | native/c-abi/rust/src/lib.rs:829-863 | An acquired lease is current exactly if the arguments agree with it and epoch and revision have not changed since the check, unless the log repeats a revision |
| `Instants.OwnAcquireIsCurrentExactly` | native/c-abi/rust/src/lib.rs:829-863 | For a thread that owns the core, exactly if the arguments agree with the lease |
| `Races.AcquiredLeaseCanBeStale` | native/c-abi/rust/src/lib.rs:829-863 | A run whose last step is a successful acquire of a lease that is not current, by a call that passed its check with arguments other than the lease's epoch and revision |
| `Races.AcquireCanBeOvertaken` | native/c-abi/rust/src/lib.rs:829-863 | A run whose last step is a successful acquire of a lease that is not current, by a call that passed its check with the lease's own epoch and revision |
| `Races.CoreCanLeaveWithALease` | native/c-abi/rust/src/lib.rs:500-528 | A run whose last step takes a core with a lease in it out of the table |
| `Races.RemovedCoreCanGainALease` | native/c-abi/rust/src/lib.rs:785-804 | A run whose last step registers a lease on a core that left the table without leases |
| `Registrations.OwnRegisterFindsItsCore` | native/c-abi/rust/src/lib.rs:757-807 | In every run, a lease registered by the owner of the core is on a core in the table that no destroy is about to take out |
| `Registrations.RegisteredCoreStays` | native/c-abi/rust/src/lib.rs:500-528 | As long as a lease on a core in the table that no destroy has checked exists, the core stays that way, whatever runs |
| `Registrations.SafeThreadsNeverLose` | native/c-abi/rust/src/lib.rs:785-804 | In no continuation does the owner of such a core, or a thread with a lease on it, lose the lease it is about to register there |
| `Drains.RegisterCanLoseExactly` | native/c-abi/rust/src/lib.rs:785-804 | From any reachable state in which a thread stands at a register that its core would accept: some continuation puts that lease on a core outside the table exactly if a destroy has already passed its check or taken the core out, or the thread neither owns the core nor has a lease on it and the owner is not inside a set_epoch or submit that will raise the epoch or add to the log; the only exception is a log that repeats a revision |
| `Drains.OthersCondemn` | native/c-abi/rust/src/lib.rs:500-985 | In the second case the other threads alone, wherever they stand, finish their calls, end every lease of the core and take its destroy past the check |
| `Drains.LeaseDrains` | native/c-abi/rust/src/lib.rs:865-985 | Whatever state a lease is in, unless retired, its owner, outside any call and with the table free, ends it by discard, or by complete and retire, and changes nothing else |
| `Drains.RetiredAreRemoved` | native/c-abi/rust/src/lib.rs:956-985 | In every run a retired lease belongs to a thread inside retire that is about to remove it |
| `Registrations.LaterCallsFindNothing` | native/c-abi/rust/src/lib.rs:301-308 | Every call that has not yet looked up a core that left the table ends with `UnknownHandle` and changes nothing, at most after waiting for the table |
| `Registrations.LostLeaseIsStuck` | native/c-abi/rust/src/lib.rs:727-985 | Once its owner is past no look-up of the core, a lease on such a core never changes again and is never removed |
| `Interleavings.OnlyTheOwnerChangesACore` | native/c-abi/rust/src/lib.rs:500-630 | No other thread changes a core's history or epoch or takes it out of the table |
| `Interleavings.OperationsNameOwnerAndDevice` | native/c-abi/rust/src/lib.rs:727-755 | Every successful operation after registration is by the lease's owner and names its device |
| `Interleavings.CallbacksMutateNothing` | native/c-abi/rust/src/lib.rs:434-445 | In every run a thread inside its callback changes no core, ends none and moves no lease |
| `Batches.BatchReplays` | native/c-abi/rust/src/lib.rs:615-620 | A batch is applied exactly if every command parses and the log extended by all of them replays |
| `Batches.BatchEqualsSingles` | native/c-abi/rust/src/lib.rs:604-630 | A batch succeeds exactly if its commands do one by one, with the same history, and fails with the same error |
| `BatchRuns.BatchCallEqualsSingleCalls` | native/c-abi/rust/src/lib.rs:579-646 | As runs from any reachable state: one call with a batch, and calls that carry its commands one by one up to the first refused, give the thread the same answer, and on success the core the same history |
| `Staleness.RevisionNamesTheLog` | native/c-abi/rust/src/lib.rs:611-613 | If a core shows a revision it showed before, its log is the same, or the log repeats a revision |
| `Staleness.RepeatIsCollision` | crates/contracts/src/lib.rs:898-911 | A log that repeats a revision hands out two different preimages with one digest, or a preimage of the zero digest |
| `Staleness.OneBatchPerRevision` | native/c-abi/rust/src/lib.rs:604-630 | Of all nonempty batches on one core that expect one revision at most one is ever accepted, unless the log repeats a revision |
| `Staleness.CurrentMeansUnchanged` | native/c-abi/rust/src/lib.rs:916-924 | A lease that is current was current at every earlier moment of its life and no command was accepted in between, unless the log repeats a revision |
| `Staleness.LeasesNameTheirLog` | native/c-abi/rust/src/lib.rs:786-804 | In every run the revision of every lease is one that its core's log has been at |
| `Batches.DiffsTellTheHistory` | native/c-abi/rust/src/lib.rs:614-629 | After every interleaving a core's diffs chain from the zero digest to its revision, and the last project digest is that of the replay of all accepted commands |
| `Batches.AcceptedStays` | native/c-abi/rust/src/lib.rs:604-630 | Accepted commands and diffs stay whatever runs next |
| `Batches.RefusedSectionChangesNothing` | native/c-abi/rust/src/lib.rs:500-985 | A lock section that ends its call with an error changes no core, table or trace |
| `Locks.SectionsFollowPoints` | native/c-abi/rust/src/lib.rs:500-985 | The thread machine takes each call through the listed points in order or ends it; at most the call waits for the table |
| `Locks.SectionsListWhatIsHeld` | native/c-abi/rust/src/lib.rs:475-985 | The lock sections listed for a call are its points with the locks held there, destroy being one hold of the table with the core inside |
| `Locks.ChangesAreLocked` | native/c-abi/rust/src/lib.rs:475-985 | A section changes the table only under the table's lock and a core only under that core's lock |
| `Locks.TableIsReadLocked` | native/c-abi/rust/src/lib.rs:475-985 | A section without the table's lock does the same whatever the table holds |
| `Locks.CoresAreReadLocked` | native/c-abi/rust/src/lib.rs:475-985 | A section without a core's lock does the same whatever that core holds |
| `Locks.EveryCallIsDisciplined` | native/c-abi/rust/src/lib.rs:475-985 | Every path through every exported call takes locks in the order core table, core, snapshot or diff table, drops them all, and runs callbacks holding none |
| `Locks.NoDeadlock` | native/c-abi/rust/src/lib.rs:475-985 | In every run of any number of threads, while a call is unfinished some thread can step |
| `Locks.EveryCallCanFinish` | native/c-abi/rust/src/lib.rs:475-985 | From every such state the running calls can all be brought to their ends, with every lock free |

## Left out

- SQLite: WAL, PRAGMAs, `VACUUM`, schema text, runtime version, quick check and foreign key check. A transaction is one atomic update of the tables and a failing one leaves no trace; a checkpoint or a vacuum does not change table contents.
- Snapshots are kept per sequence number: the primary key also has the hash, but the foreign key to `revisions` leaves one hash for each sequence.
- Which statement of an operation fails is an input (`StoreMachine.Io`). A crash in the middle of an operation is that operation with the failing statement or fault, followed by the crash.
- The computation of SHA-256, an arbitrary function here.
- The threads, channels and shutdown of `ProjectStore`; the worker is a serial loop over any list of work.
- Archive file handling: temporary names, fsync, rename. Checkpoint receipts' frame counts.
- Rationals.FromI128: its domain leaves out the least 128-bit integer, which no caller produces and whose magnitude does not fit.
- ProjectCodec.ProjectRoundTrip: asks for counts below 2^64, as the fixed-width count fields do; `usize` is 64 bits.
- `TimeRange::contains`, getters, `revision_count` and the text of errors, which would add only easy members.
- The C ABI's null and header checks, `catch_unwind`, lock poisoning, struct layouts, and the field-by-field checks of `command` and of pixel data in `register`; a raw command either parses or carries its error.
- Cores.State: the global tables are values rather than objects, so aliasing of a core through its reference count appears as a core that stays in `objects` after it left the table.
- The snapshot and diff tables' contents, their reference counters, and lease metadata reads; only their locks are modelled. A diff is recorded with its core when the batch is committed.
- Handle numbers are unbounded; wrap-around at 2^64 is not modelled.
- `desktop/qt` and the build, policy and toolchain files.
