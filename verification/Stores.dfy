/** The store's worker over its tables, proved against the machine over logs. */
module Stores {
  import opened Wrappers
  import opened Bytes
  import opened OrderedMaps
  import opened Projects
  import opened Codec
  import opened ProjectCodec
  import opened Revisions
  import opened Databases
  import opened Logs
  import opened StoreMachine
  import opened Histories

  /** The receipts table answers like a search of the log. */
  lemma ReceiptsAnswer(sha: Hash, receipts: map<Id, ReceiptRow>, log: seq<Entry>, request: Id)
    requires HoldsReceipts(sha, receipts, log)
    ensures request in receipts <==> Find(log, request).Some?
    ensures request in receipts ==> receipts[request] == ReceiptRowAt(sha, log, Find(log, request).value)
    ensures request in receipts ==>
      receipts[request].command == EncodeCommand(log[Find(log, request).value].command)
  {
    hide EntryHash, EncodeCommand;
    if request in receipts {
      assert request in Elements(Requests(log));
      var i :| 0 <= i < |log| && Requests(log)[i] == request;
      assert log[i].request == request;
    }
  }

  lemma NewestOnlyKeys(sha: Hash, snapshots: map<i64, SnapshotRow>, log: seq<Entry>)
    requires HoldsSnapshots(sha, snapshots, log)
    ensures
      var kept := map k | k in snapshots && IsNewest(snapshots, k) :: snapshots[k];
      HoldsSnapshots(sha, kept, log) && kept.Keys == NewestOnly(snapshots.Keys)
  {
    hide SnapshotOf, Replay;
  }

  /** The tables after the three inserts of a commit, in the values that `commit` computes. */
  function Transaction(sha: Hash, db: Database, log: seq<Entry>, e: Entry): Database
    requires Numberable(log + [e])
  {
    var head := ChainHash(sha, LogCommands(log));
    var hash, bytes, next: i64 := RevisionHash(sha, head, e.command), EncodeCommand(e.command), |log| + 1;
    Database(
      db.revisions + [RevisionRow(next, hash, head, bytes)],
      db.receipts[e.request := ReceiptRow(hash, next, bytes)],
      Some(HeadRow(next, hash)),
      db.snapshots)
  }

  lemma TransactionStands(sha: Hash, db: Database, log: seq<Entry>, e: Entry)
    requires StandsFor(sha, db, log) && Numberable(log + [e]) && e.request !in db.receipts
    requires Replay(EMPTY, LogCommands(log) + [e.command]).Ok?
    ensures
      var hash := RevisionHash(sha, ChainHash(sha, LogCommands(log)), e.command);
      && StandsFor(sha, Transaction(sha, db, log, e), log + [e])
      && ReceiptAt(sha, log + [e], |log|) == CommitReceipt(e.request, hash, |log| + 1)
      && ChainHash(sha, LogCommands(log + [e])) == Some(hash)
      && LogCommands(log + [e]) == LogCommands(log) + [e.command]
  {
    hide StandsFor, EntryHash, HashAfter, ChainHash, RevisionHash, EncodeCommand, Replay, LogCommands;
    NewEntryHash(sha, log, e);
    CommandsOfExtended(log, e);
    CommitStands(sha, db, log, e);
  }

  /** Nothing is kept but the greatest number. */
  ghost predicate IsPruned(keys: set<i64>, kept: set<i64>) {
    forall k: i64 :: k in kept <==> k in keys && forall j | j in keys :: j <= k
  }

  lemma HeadIsLeft(keys: set<i64>, kept: set<i64>, n: i64)
    requires IsPruned(keys, kept) && (forall k | k in keys :: 1 <= k <= n) && (n != 0 ==> n in keys)
    ensures kept == if n == 0 then {} else {n}
  {
  }

  class Store {
    const sha: Hash
    /** Durable. */
    var db: Database
    /** Volatile: lost in a crash. */
    var project: Project
    var head: Option<Digest>
    var sequence: i64
    var maintenanceFailure: Option<MaintenanceError>
    /** The log the database stands for. */
    ghost var model: Abstract

    /** The tables stand for the log, and the memory is the replay of that log. */
    ghost predicate Valid()
      reads this
    {
      && StandsFor(sha, db, model.log)
      && db.snapshots.Keys == model.snapshots
      && maintenanceFailure == model.failure
      && Replay(EMPTY, LogCommands(model.log)) == Ok(project)
      && head == ChainHash(sha, LogCommands(model.log))
      && sequence == |model.log|
    }

    /** A fresh store: empty tables, then `restore`. */
    constructor Open(sha: Hash)
      ensures Valid() && this.sha == sha && model == NEW_STORE && db == NEW_DATABASE
    {
      hide StandsFor, Acceptable;
      EmptyStands(sha);
      StandingIsAcceptable(sha, NEW_DATABASE, []);
      var restored :- assert Restore(sha, NEW_DATABASE);
      this.sha := sha;
      db := NEW_DATABASE;
      project, head, sequence := restored.0, restored.1, restored.2;
      maintenanceFailure := None;
      model := NEW_STORE;
    }

    /** What `restore` would say of the tables as they are: accepted, and equal to the memory. */
    method RestoreNow() returns (restored: Result<Restored, StoreError>)
      requires Valid()
      ensures restored == Ok((project, head, sequence))
      ensures Replay(EMPTY, LogCommands(model.log)) == Ok(project)
      ensures head == ChainHash(sha, LogCommands(model.log)) && sequence == |model.log|
    {
      hide StandsFor, Replay, ChainHash, Acceptable, LogCommands, Commands;
      StandingIsAcceptable(sha, db, model.log);
      restored := Restore(sha, db);
    }

    /** A crash drops the memory; opening replays the tables and finds the same state again. */
    method CrashThenOpen() returns (r: Result<(), StoreError>)
      requires Valid()
      modifies this
      ensures Valid() && db == old(db)
      ensures r == Ok(()) && model == old(model).(failure := None)
      ensures project == old(project) && head == old(head) && sequence == old(sequence)
    {
      hide StandsFor, Replay, ChainHash, LogCommands;
      var restored := RestoreNow();
      r := if restored.Ok? then Ok(()) else Err(CorruptStore);
      if restored.Ok? {
        project, head, sequence := restored.value.0, restored.value.1, restored.value.2;
        maintenanceFailure := None;
        model := model.(failure := None);
      }
    }

    method LookUp(request: Id, io: Io) returns (r: Result<Option<CommitReceipt>, StoreError>)
      requires Valid()
      ensures Looked(r) == Step(sha, model, ReceiptWork(request, io)).1
    {
      hide EntryHash, EncodeCommand, Replay, ChainHash, HoldsRevisions, HoldsSnapshots, HoldsReceipts, LogCommands,
        Find;
      if !io.queryOk {
        return Err(Sql);
      }
      ReceiptsAnswer(sha, db.receipts, model.log, request);
      if request !in db.receipts {
        return Ok(None);
      }
      var row := db.receipts[request];
      if !HashLength(row.hash) {
        return Err(CorruptStore);
      }
      return Ok(Some(CommitReceipt(request, row.hash, row.sequence)));
    }

    method Commit(request: Id, command: Command, fault: Option<FaultPoint>, io: Io)
      returns (r: Result<CommitReceipt, StoreError>)
      requires Valid()
      modifies this
      ensures Valid()
      ensures (model, r) == CommitOutcome(sha, old(model), request, command, fault, io)
    {
      hide StandsFor, EntryHash, EncodeCommand, Replay, ChainHash, HashAfter, RevisionHash, LogCommands, Find, Reduce,
        ReceiptRowAt, ReceiptAt, RevisionAt, HoldsReceipts, HoldsRevisions, HoldsSnapshots;
      StandsForParts(sha, db, model.log);
      var receipt :- LookUp(request, io);
      ReceiptsAnswer(sha, db.receipts, model.log, request);
      if receipt.Some? {
        var stored := db.receipts[request].command;
        SameBytesSameCommand(command, model.log[Find(model.log, request).value].command);
        if stored == EncodeCommand(command) {
          return Ok(receipt.value);
        } else {
          return Err(RequestConflict(request));
        }
      }
      var reduced := Reduce(project, command);
      ReplayExtended(LogCommands(model.log), command);
      if reduced.Err? {
        return Err(Model(reduced.error));
      }
      var hash := RevisionHash(sha, head, command);
      if sequence == 0x7fff_ffff_ffff_ffff {
        return Err(CorruptStore);
      }
      var next: i64 := sequence + 1;
      if !io.insertOk {
        return Err(Sql);
      }
      // The transaction: nothing below is visible until it is assigned to `db`.
      var bytes := EncodeCommand(command);
      var transaction := Database(
        db.revisions + [RevisionRow(next, hash, head, bytes)],
        db.receipts[request := ReceiptRow(hash, next, bytes)],
        Some(HeadRow(next, hash)),
        db.snapshots);
      if fault == Some(BeforeCommit) {
        return Err(Injected(BeforeCommit));
      }
      if !io.commitOk {
        return Err(Sql);
      }
      ghost var e := Entry(request, command);
      TransactionStands(sha, db, model.log, e);
      db := transaction;
      model := model.(log := model.log + [e]);
      project := reduced.value;
      head := Some(hash);
      sequence := next;
      if fault == Some(AfterCommitBeforeResponse) {
        return Err(Ambiguous(request));
      }
      return Ok(CommitReceipt(request, hash, next));
    }

    method PersistSnapshot(fault: Option<FaultPoint>, io: Io) returns (r: Result<(), StoreError>)
      requires Valid()
      modifies this
      ensures Valid()
      ensures (model, r) == PersistOutcome(old(model), fault, io)
      ensures r.Err? ==> r.error.Maintenance?
      ensures db == old(db).(snapshots := db.snapshots) && sequence == old(sequence)
      ensures r.Ok? && sequence != 0 ==> sequence in db.snapshots
    {
      hide StandsFor, EntryHash, EncodeProject, Replay, ChainHash, LogCommands;
      StandsForParts(sha, db, model.log);
      if sequence == 0 {
        return Ok(());
      }
      if fault == Some(BeforeSnapshot) {
        return Err(Maintenance(Fault(BeforeSnapshot)));
      }
      HeadOfNonempty(sha, model.log);
      if !io.queryOk {
        return Err(Maintenance(Snapshot));
      }
      if sequence in db.snapshots && db.snapshots[sequence].hash == head.value {
        return Ok(());
      }
      SnapshotAtHead(sha, db, model.log);
      if fault == Some(DuringSnapshot) {
        return Err(Maintenance(Fault(DuringSnapshot)));
      }
      if !io.insertOk || !io.commitOk {
        return Err(Maintenance(Snapshot));
      }
      var bytes := EncodeProject(project);
      SnapshotStands(sha, db, model.log);
      PresentSnapshot(sha, model.log, project);
      db := db.(snapshots := db.snapshots[sequence := SnapshotRow(head.value, bytes, sha(bytes))]);
      model := model.(snapshots := model.snapshots + {sequence});
      if fault == Some(AfterSnapshot) {
        return Err(Maintenance(Fault(AfterSnapshot)));
      }
      return Ok(());
    }

    /** A checkpoint moves pages between files; the tables do not change. */
    method CheckpointTables(fault: Option<FaultPoint>, io: Io) returns (r: Result<(), StoreError>)
      ensures r == CheckpointOutcome(fault, io)
    {
      if fault == Some(BeforeCheckpoint) {
        return Err(Maintenance(Fault(BeforeCheckpoint)));
      }
      if fault == Some(DuringCheckpoint) {
        return Err(Maintenance(Fault(DuringCheckpoint)));
      }
      if !io.checkpointOk {
        return Err(Maintenance(Checkpoint));
      }
      if fault == Some(AfterCheckpoint) {
        return Err(Maintenance(Fault(AfterCheckpoint)));
      }
      return Ok(());
    }

    /** `DELETE FROM snapshots WHERE sequence < (SELECT max(sequence) FROM snapshots)`. */
    method PruneSnapshots(io: Io) returns (r: Result<(), StoreError>)
      requires Valid()
      modifies this
      ensures Valid()
      ensures io.deleteOk ==> r == Ok(()) && model == old(model).(snapshots := NewestOnly(old(model).snapshots))
      ensures !io.deleteOk ==> r == Err(Maintenance(Compaction)) && model == old(model)
      ensures db == old(db).(snapshots := db.snapshots) && sequence == old(sequence)
      ensures r.Ok? ==> IsPruned(old(db).snapshots.Keys, db.snapshots.Keys)
    {
      hide StandsFor, Replay, ChainHash, LogCommands, NewestOnly;
      if !io.deleteOk {
        return Err(Maintenance(Compaction));
      }
      PruneStands(sha, db, model.log);
      db := db.(snapshots := map k | k in db.snapshots && IsNewest(db.snapshots, k) :: db.snapshots[k]);
      model := model.(snapshots := NewestOnly(model.snapshots));
      return Ok(());
    }

    method Compact(fault: Option<FaultPoint>, io: Io) returns (r: Result<(), StoreError>)
      requires Valid()
      modifies this
      ensures Valid()
      ensures (model, r) == CompactOutcome(old(model), fault, io)
      ensures db == old(db).(snapshots := db.snapshots)
      ensures r.Ok? ==> db.snapshots.Keys == if sequence == 0 then {} else {sequence}
    {
      hide Valid, PersistOutcome, CheckpointOutcome, NewestOnly, IsPruned;
      LogIsNumberable();
      if fault == Some(BeforeCompaction) {
        return Err(Maintenance(Fault(BeforeCompaction)));
      }
      var _ :- PersistSnapshot(None, io);
      SnapshotsAreOfTheLog();
      ghost var saved := db.snapshots.Keys;
      var _ :- PruneSnapshots(io);
      HeadIsLeft(saved, db.snapshots.Keys, sequence);
      if fault == Some(DuringCompaction) {
        return Err(Maintenance(Fault(DuringCompaction)));
      }
      var _ :- CheckpointTables(None, io);
      if !io.vacuumOk {
        return Err(Maintenance(Compaction));
      }
      if fault == Some(AfterCompaction) {
        return Err(Maintenance(Fault(AfterCompaction)));
      }
      return Ok(());
    }

    lemma SnapshotsAreOfTheLog()
      requires Valid()
      ensures forall k | k in db.snapshots :: 1 <= k <= sequence
    {
      StandsForParts(sha, db, model.log);
      hide SnapshotOf, Replay;
    }

    lemma LogIsNumberable()
      requires Valid()
      ensures Numberable(model.log)
    {
      StandsForParts(sha, db, model.log);
    }

    /** The body of the worker's loop. */
    method Handle(w: Work) returns (response: Response)
      requires Valid()
      modifies this
      ensures Valid() && Numberable(old(model).log)
      ensures (model, response) == Step(sha, old(model), w)
    {
      hide Valid, PersistOutcome, CommitOutcome, CheckpointOutcome, CompactOutcome, ArchiveOutcome, Find;
      LogIsNumberable();
      match w {
        case CommitWork(request, command, fault, io, snapshotIo) =>
          response := HandleCommit(w);
        case ReceiptWork(request, io) =>
          var found := LookUp(request, io);
          response := Looked(found);
        case SnapshotWork(fault, io) =>
          var failure := CurrentFailure();
          var result: Result<(), StoreError>;
          if failure.Some? {
            result := Err(Maintenance(failure.value));
          } else {
            result := PersistSnapshot(fault, io);
          }
          if result.Err? && result.error.Maintenance? {
            Block(result.error.cause);
          }
          response := Maintained(result);
        case CheckpointWork(fault, io) =>
          var failure := CurrentFailure();
          if failure.Some? {
            response := Maintained(Err(Maintenance(failure.value)));
          } else {
            var result := CheckpointTables(fault, io);
            response := Maintained(result);
          }
        case CompactWork(fault, io) =>
          var failure := CurrentFailure();
          if failure.Some? {
            response := Maintained(Err(Maintenance(failure.value)));
          } else {
            var result := Compact(fault, io);
            response := Maintained(result);
          }
        case ArchiveWork(fault, destinationFree, io) =>
          var failure := CurrentFailure();
          if failure.Some? {
            response := Maintained(Err(Maintenance(failure.value)));
          } else {
            var result, _ := ArchiveTo(fault, destinationFree, io);
            response := Maintained(result);
          }
        case CrashAndReopen =>
          var _ := CrashThenOpen();
          response := Reopened;
      }
    }

    method HandleCommit(w: Work) returns (response: Response)
      requires Valid() && w.CommitWork?
      modifies this
      ensures Valid() && Numberable(old(model).log)
      ensures (model, response) == CommitStep(sha, old(model), w)
    {
      hide Valid, PersistOutcome, CommitOutcome;
      LogIsNumberable();
      var failure := CurrentFailure();
      if failure.Some? {
        return Committed(Err(Maintenance(failure.value)));
      }
      var result := Commit(w.request, w.command, w.fault, w.io);
      response := Committed(result);
      var number := CurrentSequence();
      if result.Ok? && number % SNAPSHOT_INTERVAL == 0 {
        var persisted := PersistSnapshot(None, w.snapshotIo);
        if persisted.Err? {
          Block(persisted.error.cause);
        }
      }
    }

    method CurrentFailure() returns (failure: Option<MaintenanceError>)
      requires Valid()
      ensures failure == model.failure
    {
      return maintenanceFailure;
    }

    method CurrentSequence() returns (number: i64)
      requires Valid()
      ensures number == |model.log|
    {
      return sequence;
    }

    method Block(cause: MaintenanceError)
      requires Valid()
      modifies this
      ensures Valid() && model == old(model).(failure := Some(cause))
    {
      hide StandsFor, Replay, ChainHash, LogCommands;
      maintenanceFailure := Some(cause);
      model := model.(failure := Some(cause));
    }

    /**
     * The worker's loop over any work at all. After every item the memory is the replay of the committed log;
     * at the end `Restore` accepts the tables left behind and returns exactly that memory.
     */
    method Serve(work: seq<Work>) returns (restored: Result<Restored, StoreError>)
      requires Valid()
      modifies this
      ensures Valid() && Numberable(old(model).log)
      ensures model == Run(sha, old(model), work)
      ensures restored == Ok((project, head, sequence))
      ensures Replay(EMPTY, LogCommands(model.log)) == Ok(project)
      ensures head == ChainHash(sha, LogCommands(model.log)) && sequence == |model.log|
    {
      hide Valid, Step, Run, Replay, ChainHash, LogCommands;
      LogIsNumberable();
      ghost var start := model;
      assert work[..0] == [];
      RunOfNothing(sha, start);
      for i := 0 to |work|
        invariant Valid() && Numberable(start.log)
        invariant model == Run(sha, start, work[..i])
      {
        var _ := Handle(work[i]);
        assert work[..i + 1] == work[..i] + [work[i]];
        RunConcatenates(sha, start, work[..i], [work[i]]);
        RunOfOne(sha, Run(sha, start, work[..i]), work[i]);
      }
      assert work[..|work|] == work;
      restored := RestoreNow();
    }

    /** The copy is opened and compared with the live state before it is published; it always agrees. */
    method ArchiveTo(fault: Option<FaultPoint>, destinationFree: bool, io: Io)
      returns (r: Result<(), StoreError>, published: Option<Database>)
      requires Valid()
      ensures r == ArchiveOutcome(fault, destinationFree, io)
      ensures published == if r.Ok? then Some(db) else None
    {
      hide StandsFor, Replay, ChainHash, LogCommands, Acceptable, Commands, EncodeProject;
      if !destinationFree {
        return Err(Maintenance(Archive)), None;
      }
      if fault == Some(BeforeArchive) {
        return Err(Maintenance(Fault(BeforeArchive))), None;
      }
      if !io.copyOk {
        return Err(Maintenance(Archive)), None;
      }
      var temporary := db;
      if fault == Some(DuringArchive) {
        return Err(Maintenance(Fault(DuringArchive))), None;
      }
      StandingIsAcceptable(sha, db, model.log);
      var restored := Restore(sha, temporary);
      if restored.Err? || restored.value.2 != sequence || restored.value.1 != head
        || sha(EncodeProject(restored.value.0)) != sha(EncodeProject(project))
      {
        return Err(Maintenance(Archive)), None;
      }
      if fault == Some(AfterArchive) {
        return Err(Maintenance(Fault(AfterArchive))), None;
      }
      if !io.publishOk {
        return Err(Maintenance(Archive)), None;
      }
      return Ok(()), Some(temporary);
    }
  }

  lemma StandsForParts(sha: Hash, db: Database, log: seq<Entry>)
    requires StandsFor(sha, db, log)
    ensures HoldsReceipts(sha, db.receipts, log) && Numberable(log)
    ensures HoldsSnapshots(sha, db.snapshots, log)
    ensures HoldsRevisions(sha, db.revisions, log)
  {
  }

  lemma SameBytesSameCommand(c: Command, d: Command)
    ensures EncodeCommand(c) == EncodeCommand(d) <==> c == d
  {
    hide EncodeCommand;
    if EncodeCommand(c) == EncodeCommand(d) {
      EncodeCommandIsInjective(c, d);
    }
  }

  lemma HeadOfNonempty(sha: Hash, log: seq<Entry>)
    requires log != []
    ensures ChainHash(sha, LogCommands(log)) == Some(EntryHash(sha, log, |log| - 1))
  {
    hide RevisionHash, ChainHash;
    WholePrefix(log);
    EntryHashIsChain(sha, log, |log| - 1);
  }

  /** A stored snapshot at the head has the head's hash. */
  lemma SnapshotAtHead(sha: Hash, db: Database, log: seq<Entry>)
    requires log != [] && Numberable(log) && HoldsSnapshots(sha, db.snapshots, log)
    ensures |log| in db.snapshots ==> db.snapshots[|log|].hash == EntryHash(sha, log, |log| - 1)
  {
    hide EntryHash, EncodeProject, Replay;
  }

  lemma PresentSnapshot(sha: Hash, log: seq<Entry>, project: Project)
    requires log != [] && Replay(EMPTY, LogCommands(log)) == Ok(project)
    ensures SnapshotOf(sha, log, |log|)
      == SnapshotRow(EntryHash(sha, log, |log| - 1), EncodeProject(project), sha(EncodeProject(project)))
  {
    hide EntryHash, EncodeProject, Replay;
    WholePrefix(log);
  }

  lemma PruneStands(sha: Hash, db: Database, log: seq<Entry>)
    requires StandsFor(sha, db, log)
    ensures
      var kept := map k | k in db.snapshots && IsNewest(db.snapshots, k) :: db.snapshots[k];
      StandsFor(sha, db.(snapshots := kept), log) && kept.Keys == NewestOnly(db.snapshots.Keys)
  {
    hide HoldsReceipts, HoldsRevisions, Replay, HoldsSnapshots, NewestOnly, HeadOf;
    NewestOnlyKeys(sha, db.snapshots, log);
  }

  /** The editor's history and a store that holds its done commands show the same project and hash. */
  lemma HistoryAgreesWithStore(sha: Hash, edits: seq<Edit>, store: Store)
    requires store.Valid() && store.sha == sha
    requires LogCommands(store.model.log) == RunZipper(Zipper([], []), edits).done
    ensures
      var h := RunEdits(sha, NEW_HISTORY, edits);
      store.project == CurrentProject(h) && store.head == CurrentHash(h) && store.sequence == h.cursor
  {
    hide StandsFor, Replay, ChainHash, LogCommands;
    EveryHistoryShowsReplay(sha, edits);
    EditsRefineZipper(sha, NEW_HISTORY, Zipper([], []), edits);
    assert |LogCommands(store.model.log)| == |store.model.log|;
  }
}
