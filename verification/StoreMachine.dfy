/** What the store promises, as a machine over logs: no tables, no bytes, no replay from disk. */
module StoreMachine {
  import opened Wrappers
  import opened Bytes
  import opened OrderedMaps
  import opened Projects
  import opened Databases
  import opened Logs

  const SNAPSHOT_INTERVAL: int := 128

  /** Which of the SQL statements of one operation succeed. A transaction that fails leaves no trace. */
  datatype Io = Io(queryOk: bool, insertOk: bool, commitOk: bool, deleteOk: bool, checkpointOk: bool, vacuumOk: bool,
                   copyOk: bool, publishOk: bool)

  /** The committed log, the sequences that have a snapshot, and the blocked state of the worker. */
  datatype Abstract = Abstract(log: seq<Entry>, snapshots: set<i64>, failure: Option<MaintenanceError>)

  const NEW_STORE: Abstract := Abstract([], {}, None)

  /** The position of a request in the log. */
  function Find(log: seq<Entry>, request: Id): (i: Option<nat>)
    ensures i.Some? ==> i.value < |log| && log[i.value].request == request
    ensures i.None? ==> forall j :: 0 <= j < |log| ==> log[j].request != request
  {
    if log == [] then None
    else if log[|log| - 1].request == request then Some(|log| - 1)
    else Find(log[..|log| - 1], request)
  }

  function PersistOutcome(m: Abstract, fault: Option<FaultPoint>, io: Io): (Abstract, Result<(), StoreError>)
    requires Numberable(m.log)
  {
    if m.log == [] then (m, Ok(()))
    else if fault == Some(BeforeSnapshot) then (m, Err(Maintenance(Fault(BeforeSnapshot))))
    else if !io.queryOk then (m, Err(Maintenance(Snapshot)))
    else if |m.log| in m.snapshots then (m, Ok(()))
    else if fault == Some(DuringSnapshot) then (m, Err(Maintenance(Fault(DuringSnapshot))))
    else if !io.insertOk || !io.commitOk then (m, Err(Maintenance(Snapshot)))
    else
      var taken := m.(snapshots := m.snapshots + {|m.log|});
      (taken, if fault == Some(AfterSnapshot) then Err(Maintenance(Fault(AfterSnapshot))) else Ok(()))
  }

  function CommitOutcome(sha: Hash, m: Abstract, request: Id, command: Command, fault: Option<FaultPoint>, io: Io)
    : (Abstract, Result<CommitReceipt, StoreError>)
    requires Numberable(m.log)
  {
    if !io.queryOk then (m, Err(Sql))
    else
      var found := Find(m.log, request);
      if found.Some? then
        (m,
         if m.log[found.value].command == command then Ok(ReceiptAt(sha, m.log, found.value))
         else Err(RequestConflict(request)))
      else
        var replayed := Replay(EMPTY, LogCommands(m.log) + [command]);
        if replayed.Err? then (m, Err(Model(replayed.error)))
        else
          var longer := m.log + [Entry(request, command)];
          if !Numberable(longer) then (m, Err(CorruptStore))
          else if !io.insertOk then (m, Err(Sql))
          else if fault == Some(BeforeCommit) then (m, Err(Injected(BeforeCommit)))
          else if !io.commitOk then (m, Err(Sql))
          else
            (m.(log := longer),
             if fault == Some(AfterCommitBeforeResponse) then Err(Ambiguous(request))
             else Ok(ReceiptAt(sha, longer, |longer| - 1)))
  }

  lemma CommitStaysNumberable(sha: Hash, m: Abstract, request: Id, command: Command, fault: Option<FaultPoint>, io: Io)
    requires Numberable(m.log)
    ensures Numberable(CommitOutcome(sha, m, request, command, fault, io).0.log)
  {
    hide Replay;
  }

  function CheckpointOutcome(fault: Option<FaultPoint>, io: Io): Result<(), StoreError> {
    if fault == Some(BeforeCheckpoint) then Err(Maintenance(Fault(BeforeCheckpoint)))
    else if fault == Some(DuringCheckpoint) then Err(Maintenance(Fault(DuringCheckpoint)))
    else if !io.checkpointOk then Err(Maintenance(Checkpoint))
    else if fault == Some(AfterCheckpoint) then Err(Maintenance(Fault(AfterCheckpoint)))
    else Ok(())
  }

  /** Only the newest snapshot survives a compaction. */
  function NewestOnly(snapshots: set<i64>): set<i64> {
    set k | k in snapshots && forall j | j in snapshots :: j <= k
  }

  function CompactOutcome(m: Abstract, fault: Option<FaultPoint>, io: Io): (Abstract, Result<(), StoreError>)
    requires Numberable(m.log)
  {
    if fault == Some(BeforeCompaction) then (m, Err(Maintenance(Fault(BeforeCompaction))))
    else
      var (taken, persisted) := PersistOutcome(m, None, io);
      if persisted.Err? then (taken, persisted)
      else if !io.deleteOk then (taken, Err(Maintenance(Compaction)))
      else
        var pruned := taken.(snapshots := NewestOnly(taken.snapshots));
        (pruned,
         if fault == Some(DuringCompaction) then Err(Maintenance(Fault(DuringCompaction)))
         else if CheckpointOutcome(None, io).Err? then CheckpointOutcome(None, io)
         else if !io.vacuumOk then Err(Maintenance(Compaction))
         else if fault == Some(AfterCompaction) then Err(Maintenance(Fault(AfterCompaction)))
         else Ok(()))
  }

  function ArchiveOutcome(fault: Option<FaultPoint>, destinationFree: bool, io: Io): Result<(), StoreError> {
    if !destinationFree then Err(Maintenance(Archive))
    else if fault == Some(BeforeArchive) then Err(Maintenance(Fault(BeforeArchive)))
    else if !io.copyOk then Err(Maintenance(Archive))
    else if fault == Some(DuringArchive) then Err(Maintenance(Fault(DuringArchive)))
    else if fault == Some(AfterArchive) then Err(Maintenance(Fault(AfterArchive)))
    else if !io.publishOk then Err(Maintenance(Archive))
    else Ok(())
  }

  // The worker: one request after the other, with crashes in between.

  datatype Work =
    | CommitWork(request: Id, command: Command, fault: Option<FaultPoint>, io: Io, snapshotIo: Io)
    | ReceiptWork(request: Id, io: Io)
    | SnapshotWork(fault: Option<FaultPoint>, io: Io)
    | CheckpointWork(fault: Option<FaultPoint>, io: Io)
    | CompactWork(fault: Option<FaultPoint>, io: Io)
    | ArchiveWork(fault: Option<FaultPoint>, destinationFree: bool, io: Io)
    | CrashAndReopen

  datatype Response =
    | Committed(commit: Result<CommitReceipt, StoreError>)
    | Looked(receipt: Result<Option<CommitReceipt>, StoreError>)
    | Maintained(done: Result<(), StoreError>)
    | Reopened

  /** A failed snapshot blocks the worker; nothing else does. */
  function Blocked(m: Abstract, r: Result<(), StoreError>): Abstract {
    if r.Err? && r.error.Maintenance? then m.(failure := Some(r.error.cause)) else m
  }

  function Gate(m: Abstract): Result<(), StoreError> {
    if m.failure.Some? then Err(Maintenance(m.failure.value)) else Ok(())
  }

  function CommitStep(sha: Hash, m: Abstract, w: Work): (Abstract, Response)
    requires Numberable(m.log) && w.CommitWork?
  {
    if Gate(m).Err? then (m, Committed(Err(Gate(m).error)))
    else
      var (next, result) := CommitOutcome(sha, m, w.request, w.command, w.fault, w.io);
      CommitStaysNumberable(sha, m, w.request, w.command, w.fault, w.io);
      if result.Ok? && |next.log| % SNAPSHOT_INTERVAL == 0 then
        var (taken, persisted) := PersistOutcome(next, None, w.snapshotIo);
        (Blocked(taken, persisted), Committed(result))
      else (next, Committed(result))
  }

  function Step(sha: Hash, m: Abstract, w: Work): (Abstract, Response)
    requires Numberable(m.log)
  {
    match w
    case CommitWork(_, _, _, _, _) => CommitStep(sha, m, w)
    case ReceiptWork(request, io) =>
      (m, Looked(if !io.queryOk then Err(Sql)
                 else if Find(m.log, request).Some? then Ok(Some(ReceiptAt(sha, m.log, Find(m.log, request).value)))
                 else Ok(None)))
    case SnapshotWork(fault, io) =>
      if Gate(m).Err? then (Blocked(m, Gate(m)), Maintained(Gate(m)))
      else
        var (taken, persisted) := PersistOutcome(m, fault, io);
        (Blocked(taken, persisted), Maintained(persisted))
    case CheckpointWork(fault, io) =>
      (m, Maintained(if Gate(m).Err? then Gate(m) else CheckpointOutcome(fault, io)))
    case CompactWork(fault, io) =>
      if Gate(m).Err? then (m, Maintained(Gate(m)))
      else
        var (pruned, result) := CompactOutcome(m, fault, io);
        (pruned, Maintained(result))
    case ArchiveWork(fault, destinationFree, io) =>
      (m, Maintained(if Gate(m).Err? then Gate(m) else ArchiveOutcome(fault, destinationFree, io)))
    case CrashAndReopen => (m.(failure := None), Reopened)
  }

  /** The log only ever grows, by at most the entry of a fresh commit. */
  ghost predicate Grows(log: seq<Entry>, longer: seq<Entry>, w: Work) {
    || longer == log
    || (w.CommitWork? && Find(log, w.request).None? && longer == log + [Entry(w.request, w.command)])
  }

  lemma StepGrows(sha: Hash, m: Abstract, w: Work)
    requires Numberable(m.log)
    ensures Numberable(Step(sha, m, w).0.log)
    ensures Grows(m.log, Step(sha, m, w).0.log, w)
  {
    hide Replay, ReceiptAt;
  }

  function Run(sha: Hash, m: Abstract, work: seq<Work>): (end: Abstract)
    requires Numberable(m.log)
    ensures Numberable(end.log)
    decreases |work|
  {
    if work == [] then m
    else
      StepGrows(sha, m, work[0]);
      Run(sha, Step(sha, m, work[0]).0, work[1..])
  }

  lemma {:induction false} RunConcatenates(sha: Hash, m: Abstract, a: seq<Work>, b: seq<Work>)
    requires Numberable(m.log)
    ensures Run(sha, m, a + b) == Run(sha, Run(sha, m, a), b)
    decreases |a|
  {
    hide Step;
    if a == [] {
      assert a + b == b;
    } else {
      assert (a + b)[1..] == a[1..] + b;
      StepGrows(sha, m, a[0]);
      RunConcatenates(sha, Step(sha, m, a[0]).0, a[1..], b);
    }
  }

  /** Whatever happens later, a committed entry stays where it is. */
  lemma {:induction false} LogsAreDurable(sha: Hash, m: Abstract, work: seq<Work>)
    requires Numberable(m.log)
    ensures m.log <= Run(sha, m, work).log
    decreases |work|
  {
    hide Step;
    if work != [] {
      StepGrows(sha, m, work[0]);
      LogsAreDurable(sha, Step(sha, m, work[0]).0, work[1..]);
    }
  }

  lemma {:induction false} RequestsStayDistinct(sha: Hash, m: Abstract, work: seq<Work>)
    requires Numberable(m.log) && Distinct(Requests(m.log))
    ensures Distinct(Requests(Run(sha, m, work).log))
    decreases |work|
  {
    hide Step;
    if work != [] {
      StepGrows(sha, m, work[0]);
      var next := Step(sha, m, work[0]).0;
      if next.log != m.log {
        forall i, j | 0 <= i < j < |next.log| ensures Requests(next.log)[i] != Requests(next.log)[j] {
          if j < |m.log| { assert Requests(m.log)[i] != Requests(m.log)[j]; }
        }
      }
      RequestsStayDistinct(sha, next, work[1..]);
    }
  }

  /** In every run each request id adds at most one revision. */
  lemma EachRequestCommitsOnce(sha: Hash, work: seq<Work>, i: nat, j: nat)
    requires var log := Run(sha, NEW_STORE, work).log;
      i < |log| && j < |log| && log[i].request == log[j].request
    ensures i == j
  {
    hide Run;
    RequestsStayDistinct(sha, NEW_STORE, work);
    var log := Run(sha, NEW_STORE, work).log;
    assert Requests(log)[i] == Requests(log)[j];
  }

  lemma {:induction false} FindLocates(log: seq<Entry>, i: nat)
    requires i < |log| && Distinct(Requests(log))
    ensures Find(log, log[i].request) == Some(i)
    decreases |log|
  {
    var n := |log| - 1;
    if i < n {
      var front := log[..n];
      var ids := Requests(log);
      assert ids[i] != ids[n];
      assert Requests(front) == ids[..n];
      assert Distinct(ids[..n]);
      FindLocates(front, i);
    }
  }

  /** The worker says that the entry is in the log: a receipt, or an ambiguous outcome. */
  predicate Acknowledges(w: Work, r: Response) {
    && w.CommitWork? && r.Committed?
    && (r.commit.Ok? || r.commit == Err(Ambiguous(w.request)))
  }

  /** The receipt names entry `i`, which is the request with its command. */
  predicate IsReceiptOf(sha: Hash, log: seq<Entry>, w: Work, receipt: CommitReceipt, i: nat)
    requires Numberable(log) && w.CommitWork?
  {
    i < |log| && log[i] == Entry(w.request, w.command) && receipt == ReceiptAt(sha, log, i)
  }

  /** An acknowledged commit is in the log with its own command; any other answer adds nothing. */
  lemma AnswersAreTruthful(sha: Hash, m: Abstract, w: Work)
    requires Numberable(m.log) && w.CommitWork?
    ensures
      var (next, r) := Step(sha, m, w);
      && r.Committed?
      && Numberable(next.log)
      && (Acknowledges(w, r) ==> Entry(w.request, w.command) in next.log)
      && (r.commit.Ok? ==> exists i :: IsReceiptOf(sha, next.log, w, r.commit.value, i))
      && (!Acknowledges(w, r) ==> next.log == m.log)
  {
    hide Replay, EntryHash;
    var (next, r) := Step(sha, m, w);
    StepGrows(sha, m, w);
    if r.commit.Ok? {
      var found := Find(m.log, w.request);
      if found.Some? {
        assert IsReceiptOf(sha, next.log, w, r.commit.value, found.value);
      } else {
        assert IsReceiptOf(sha, next.log, w, r.commit.value, |next.log| - 1);
      }
    }
  }

  /** An acknowledged command survives everything that can follow: faults, crashes, compactions. */
  lemma AcknowledgedSurvives(sha: Hash, before: seq<Work>, w: Work, after: seq<Work>)
    requires w.CommitWork? && Acknowledges(w, Step(sha, Run(sha, NEW_STORE, before), w).1)
    ensures Entry(w.request, w.command) in Run(sha, NEW_STORE, before + [w] + after).log
  {
    hide Step, Run;
    var m := Run(sha, NEW_STORE, before);
    var next := Step(sha, m, w).0;
    AnswersAreTruthful(sha, m, w);
    RunConcatenates(sha, NEW_STORE, before + [w], after);
    RunConcatenates(sha, NEW_STORE, before, [w]);
    assert Run(sha, m, [w]) == next by { RunOfOne(sha, m, w); }
    LogsAreDurable(sha, next, after);
  }

  lemma RunOfOne(sha: Hash, m: Abstract, w: Work)
    requires Numberable(m.log)
    ensures Run(sha, m, [w]) == Step(sha, m, w).0
  {
    hide Step;
    StepGrows(sha, m, w);
    assert [w][1..] == [];
  }

  lemma ReceiptIsStable(sha: Hash, log: seq<Entry>, longer: seq<Entry>, i: nat)
    requires i < |log| && log <= longer && Numberable(longer)
    ensures Numberable(log) && ReceiptAt(sha, longer, i) == ReceiptAt(sha, log, i)
  {
    hide EntryHash;
    assert longer == log + longer[|log|..];
    HashAfterExtended(sha, log, longer[|log|..], i);
  }

  /**
   * Exactly once. After a commit was acknowledged and anything happened since, an unblocked retry of the
   * same command returns the receipt of the first commit and adds nothing; the same request with another
   * command is a conflict and adds nothing.
   */
  lemma RetriesAreIdempotent(sha: Hash, m: Abstract, i: nat, since: seq<Work>, retry: Work)
    requires Numberable(m.log) && Distinct(Requests(m.log)) && i < |m.log|
    requires retry.CommitWork? && retry.request == m.log[i].request && retry.io.queryOk
    requires Run(sha, m, since).failure.None?
    ensures
      var later := Run(sha, m, since);
      var (end, r) := Step(sha, later, retry);
      && end.log == later.log
      && (retry.command == m.log[i].command ==> r == Committed(Ok(ReceiptAt(sha, m.log, i))))
      && (retry.command != m.log[i].command ==> r == Committed(Err(RequestConflict(retry.request))))
  {
    hide Run, EntryHash, Replay;
    LogsAreDurable(sha, m, since);
    RequestsStayDistinct(sha, m, since);
    var later := Run(sha, m, since);
    FindLocates(later.log, i);
    ReceiptIsStable(sha, m.log, later.log, i);
  }

  // Automatic snapshots.

  predicate SnapshotsWithin(m: Abstract) {
    forall k | k in m.snapshots :: 1 <= k <= |m.log|
  }

  lemma StepKeepsSnapshotsWithin(sha: Hash, m: Abstract, w: Work)
    requires Numberable(m.log) && SnapshotsWithin(m)
    ensures SnapshotsWithin(Step(sha, m, w).0)
  {
    hide Replay, ReceiptAt, Find, Requests;
  }

  lemma {:induction false} SnapshotsStayWithin(sha: Hash, m: Abstract, work: seq<Work>)
    requires Numberable(m.log) && SnapshotsWithin(m)
    ensures SnapshotsWithin(Run(sha, m, work))
    decreases |work|
  {
    hide Step, SnapshotsWithin;
    if work != [] {
      StepGrows(sha, m, work[0]);
      StepKeepsSnapshotsWithin(sha, m, work[0]);
      SnapshotsStayWithin(sha, Step(sha, m, work[0]).0, work[1..]);
    }
  }

  /**
   * A commit that makes the log a multiple of 128 long leaves a snapshot there exactly if its outcome is not
   * ambiguous and the snapshot's own statements succeed. If it fails, the worker is blocked.
   */
  lemma AutomaticSnapshotExactlyIf(sha: Hash, before: seq<Work>, w: Work)
    requires w.CommitWork?
    requires
      var m := Run(sha, NEW_STORE, before);
      var log := Step(sha, m, w).0.log;
      |log| == |m.log| + 1 && |log| % SNAPSHOT_INTERVAL == 0
    ensures
      var (next, r) := Step(sha, Run(sha, NEW_STORE, before), w);
      var saved := w.snapshotIo.queryOk && w.snapshotIo.insertOk && w.snapshotIo.commitOk;
      && (|next.log| in next.snapshots <==> w.fault != Some(AfterCommitBeforeResponse) && saved)
      && (next.failure.Some? <==> w.fault != Some(AfterCommitBeforeResponse) && !saved)
  {
    hide Run, Replay, ReceiptAt, Find;
    SnapshotsStayWithin(sha, NEW_STORE, before);
  }

  // Without faults.

  const NO_FAILURE: Io := Io(true, true, true, true, true, true, true, true)

  function CommitAll(entries: seq<Entry>): seq<Work> {
    if entries == [] then []
    else
      var e := entries[|entries| - 1];
      CommitAll(entries[..|entries| - 1]) + [CommitWork(e.request, e.command, None, NO_FAILURE, NO_FAILURE)]
  }

  lemma PersistWithoutFault(m: Abstract)
    requires Numberable(m.log)
    ensures PersistOutcome(m, None, NO_FAILURE).1.Ok? && PersistOutcome(m, None, NO_FAILURE).0.log == m.log
    ensures PersistOutcome(m, None, NO_FAILURE).0.failure == m.failure
  {
  }

  lemma CommitWithoutFault(sha: Hash, m: Abstract, e: Entry)
    requires m.failure.None? && Numberable(m.log + [e]) && Find(m.log, e.request).None?
    requires Replay(EMPTY, LogCommands(m.log) + [e.command]).Ok?
    ensures Numberable(m.log)
    ensures
      var next := Step(sha, m, CommitWork(e.request, e.command, None, NO_FAILURE, NO_FAILURE)).0;
      next.log == m.log + [e] && next.failure.None?
  {
    hide Replay, Find, ReceiptAt, PersistOutcome;
    PersistWithoutFault(m.(log := m.log + [e]));
  }

  /** Any command list that replays can be committed under distinct requests, one entry for each. */
  lemma {:induction false} CommittingAllHoldsAll(sha: Hash, entries: seq<Entry>)
    requires Numberable(entries) && Distinct(Requests(entries)) && Replay(EMPTY, LogCommands(entries)).Ok?
    ensures Run(sha, NEW_STORE, CommitAll(entries)).log == entries
    ensures Run(sha, NEW_STORE, CommitAll(entries)).failure.None?
    decreases |entries|
  {
    hide Step, Run, Replay, Find;
    if entries == [] {
      assert Run(sha, NEW_STORE, []) == NEW_STORE by { RunOfNothing(sha, NEW_STORE); }
    } else {
      var front, e := entries[..|entries| - 1], entries[|entries| - 1];
      assert entries == front + [e];
      CommandsOfExtended(front, e);
      FrontFacts(front, e);
      CommittingAllHoldsAll(sha, front);
      CommitWithoutFault(sha, Run(sha, NEW_STORE, CommitAll(front)), e);
      var w := CommitWork(e.request, e.command, None, NO_FAILURE, NO_FAILURE);
      RunConcatenates(sha, NEW_STORE, CommitAll(front), [w]);
      RunOfOne(sha, Run(sha, NEW_STORE, CommitAll(front)), w);
    }
  }

  lemma RunOfNothing(sha: Hash, m: Abstract)
    requires Numberable(m.log)
    ensures Run(sha, m, []) == m
  {
  }

  lemma FrontFacts(front: seq<Entry>, e: Entry)
    requires Distinct(Requests(front + [e])) && Replay(EMPTY, LogCommands(front + [e])).Ok?
    ensures Distinct(Requests(front)) && Replay(EMPTY, LogCommands(front)).Ok? && Find(front, e.request).None?
  {
    hide Replay;
    CommandsOfExtended(front, e);
    var ids := Requests(front + [e]);
    assert forall i :: 0 <= i < |front| ==> ids[i] == front[i].request;
    assert ids[|front|] == e.request;
    PrefixReplays(LogCommands(front + [e]), |front|);
    assert LogCommands(front + [e])[..|front|] == LogCommands(front);
  }

  // Logs of every length, and runs that leave no snapshot.

  function NumberedId(i: u64): Id {
    ToBe(0, 8) + ToBe(i, 8)
  }

  lemma NumberedIdsDiffer(i: u64, j: u64)
    requires i != j
    ensures NumberedId(i) != NumberedId(j)
  {
    hide ToBe;
    U64RoundTrip(i);
    U64RoundTrip(j);
    assert NumberedId(i)[8..] == ToBe(i, 8) && NumberedId(j)[8..] == ToBe(j, 8);
  }

  /** New tracks, one after the other. */
  function NumberedTracks(n: i64): seq<Entry>
    requires n >= 0
  {
    seq(n, i requires 0 <= i < n => Entry(NumberedId(i), AddTrack(NumberedId(i))))
  }

  lemma {:induction false} NumberedTracksReplay(n: i64)
    requires n >= 0
    ensures
      var r := Replay(EMPTY, LogCommands(NumberedTracks(n)));
      r.Ok? && forall i: u64 :: i >= n ==> NumberedId(i) !in r.value.tracks
    decreases n
  {
    hide NumberedId;
    if n > 0 {
      NumberedTracksReplay(n - 1);
      var front, e := NumberedTracks(n - 1), Entry(NumberedId(n - 1), AddTrack(NumberedId(n - 1)));
      assert NumberedTracks(n) == front + [e];
      CommandsOfExtended(front, e);
      ReplayExtended(LogCommands(front), e.command);
      forall i: u64 | i >= n ensures NumberedId(i) != NumberedId(n - 1) {
        NumberedIdsDiffer(i, n - 1);
      }
    }
  }

  lemma NumberedTracksCommit(n: i64)
    requires n >= 0
    ensures
      var entries := NumberedTracks(n);
      && |entries| == n && Numberable(entries) && Distinct(Requests(entries))
      && Replay(EMPTY, LogCommands(entries)).Ok?
  {
    hide NumberedId, Replay;
    NumberedTracksReplay(n);
    var ids := Requests(NumberedTracks(n));
    forall i, j | 0 <= i < j < |ids| ensures ids[i] != ids[j] {
      NumberedIdsDiffer(i, j);
    }
  }

  lemma AmbiguousCommit(sha: Hash, m: Abstract, e: Entry)
    requires m.failure.None? && Numberable(m.log + [e]) && Find(m.log, e.request).None?
    requires Replay(EMPTY, LogCommands(m.log) + [e.command]).Ok?
    ensures Numberable(m.log)
    ensures
      var w := CommitWork(e.request, e.command, Some(AfterCommitBeforeResponse), NO_FAILURE, NO_FAILURE);
      Step(sha, m, w) == (m.(log := m.log + [e]), Committed(Err(Ambiguous(e.request))))
  {
    hide Replay, Find, ReceiptAt;
  }

  /** A log of any length, its last commit ambiguous: no snapshot is left at a multiple of 128, and no block. */
  lemma SnapshotCanBeMissing(sha: Hash, n: i64) returns (work: seq<Work>)
    requires n > 0 && n % SNAPSHOT_INTERVAL == 0
    ensures
      var end := Run(sha, NEW_STORE, work);
      |end.log| == n && n !in end.snapshots && end.failure.None?
  {
    hide Step, Run, Replay, NumberedId;
    NumberedTracksCommit(n);
    var entries := NumberedTracks(n);
    var front, e := entries[..n - 1], entries[n - 1];
    assert entries == front + [e];
    CommandsOfExtended(front, e);
    FrontFacts(front, e);
    CommittingAllHoldsAll(sha, front);
    var w := CommitWork(e.request, e.command, Some(AfterCommitBeforeResponse), NO_FAILURE, NO_FAILURE);
    AmbiguousCommit(sha, Run(sha, NEW_STORE, CommitAll(front)), e);
    AutomaticSnapshotExactlyIf(sha, CommitAll(front), w);
    work := CommitAll(front) + [w];
    RunConcatenates(sha, NEW_STORE, CommitAll(front), [w]);
    RunOfOne(sha, Run(sha, NEW_STORE, CommitAll(front)), w);
  }
}
