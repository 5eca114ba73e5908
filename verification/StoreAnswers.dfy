/** What the worker answers to each piece of work in any run, and what is left in the tables. */
module StoreAnswers {
  import opened Wrappers
  import opened Bytes
  import opened OrderedMaps
  import opened Projects
  import opened Revisions
  import opened Databases
  import opened Logs
  import opened StoreMachine

  /** The store after some work. */
  function Reached(sha: Hash, work: seq<Work>): (m: Abstract)
    ensures Numberable(m.log)
  {
    Run(sha, NEW_STORE, work)
  }

  lemma ReachedInOrder(sha: Hash, work: seq<Work>)
    ensures SnapshotsWithin(Reached(sha, work)) && Distinct(Requests(Reached(sha, work).log))
  {
    hide Run;
    SnapshotsStayWithin(sha, NEW_STORE, work);
    RequestsStayDistinct(sha, NEW_STORE, work);
  }

  // The block.

  /** The answer is the failure that blocks the worker. */
  predicate AnswersBlock(w: Work, r: Response, e: MaintenanceError) {
    match w
    case CommitWork(_, _, _, _, _) => r == Committed(Err(Maintenance(e)))
    case ReceiptWork(_, _) => true
    case CrashAndReopen => true
    case _ => r == Maintained(Err(Maintenance(e)))
  }

  /** A blocked worker changes nothing and answers everything but look-ups with the failure that blocks it. */
  lemma BlockedRefuses(sha: Hash, m: Abstract, w: Work, e: MaintenanceError)
    requires Numberable(m.log) && m.failure == Some(e) && !w.CrashAndReopen?
    ensures Step(sha, m, w).0 == m && AnswersBlock(w, Step(sha, m, w).1, e)
  {
  }

  /** It stays so until the store is opened again. */
  lemma {:induction false} BlockedUntilReopened(sha: Hash, m: Abstract, work: seq<Work>, e: MaintenanceError)
    requires Numberable(m.log) && m.failure == Some(e) && CrashAndReopen !in work
    ensures Run(sha, m, work) == m
    decreases |work|
  {
    hide Step;
    if work != [] {
      BlockedRefuses(sha, m, work[0], e);
      BlockedUntilReopened(sha, m, work[1..], e);
    }
  }

  lemma ReopeningUnblocks(sha: Hash, m: Abstract)
    requires Numberable(m.log)
    ensures Step(sha, m, CrashAndReopen).0 == Abstract(m.log, m.snapshots, None)
  {
  }

  /** Nothing but a failed snapshot blocks the worker: one that was asked for, or one that follows a commit. */
  lemma OnlySnapshotsBlock(sha: Hash, m: Abstract, w: Work)
    requires Numberable(m.log) && m.failure.None?
    ensures
      var (next, r) := Step(sha, m, w);
      match w
      case SnapshotWork(_, _) => next.failure.Some? <==> r.Maintained? && r.done.Err?
      case CommitWork(_, _, _, _, _) => next.failure.Some? ==> next.failure == Some(Snapshot) && r.commit.Ok?
      case _ => next.failure.None?
    ensures
      var (next, r) := Step(sha, m, w);
      w.SnapshotWork? && r.done.Err? ==> next.failure.Some? && r.done == Err(Maintenance(next.failure.value))
  {
    hide Replay, ReceiptAt, Find;
  }

  // Snapshots.

  /** The statements of a snapshot succeed: it is found, or written. */
  predicate Saves(io: Io, present: bool) {
    io.queryOk && (present || (io.insertOk && io.commitOk))
  }

  /**
   * A snapshot at the head of a nonempty log is there after a request that was not made to fail early and whose
   * statements succeed; no other snapshot comes or goes. It is answered with success except for injected faults.
   */
  lemma SnapshotAnswers(sha: Hash, m: Abstract, fault: Option<FaultPoint>, io: Io)
    requires Numberable(m.log) && m.failure.None? && m.log != []
    ensures
      var (next, r) := Step(sha, m, SnapshotWork(fault, io));
      var n: i64 := |m.log|;
      var present := n in m.snapshots;
      var written := !present && fault != Some(BeforeSnapshot) && fault != Some(DuringSnapshot) && Saves(io, false);
      && next.log == m.log && next.snapshots == (if written then m.snapshots + {n} else m.snapshots)
      && r == Maintained(
           if fault == Some(BeforeSnapshot) then Err(Maintenance(Fault(BeforeSnapshot)))
           else if !io.queryOk then Err(Maintenance(Snapshot))
           else if present then Ok(())
           else if fault == Some(DuringSnapshot) then Err(Maintenance(Fault(DuringSnapshot)))
           else if !written then Err(Maintenance(Snapshot))
           else if fault == Some(AfterSnapshot) then Err(Maintenance(Fault(AfterSnapshot)))
           else Ok(()))
  {
  }

  /** On the empty log there is nothing to save, whatever fails. */
  lemma NoSnapshotOfNothing(sha: Hash, m: Abstract, fault: Option<FaultPoint>, io: Io)
    requires Numberable(m.log) && m.failure.None? && m.log == []
    ensures Step(sha, m, SnapshotWork(fault, io)) == (m, Maintained(Ok(())))
  {
  }

  /**
   * A commit leaves a snapshot exactly if it was answered with success, the log is then a multiple of 128 long,
   * and the snapshot's statements succeed. If they fail, and only then, the worker is blocked.
   */
  lemma CommitSnapshotsExactly(sha: Hash, before: seq<Work>, w: Work)
    requires w.CommitWork? && Reached(sha, before).failure.None?
    ensures
      var m := Reached(sha, before);
      var (next, r) := Step(sha, m, w);
      && r.Committed? && Numberable(next.log)
      && var n: i64 := |next.log|;
         var due := r.commit.Ok? && n % 128 == 0;
         var saved := Saves(w.snapshotIo, n in m.snapshots);
         && next.snapshots == (if due && saved then m.snapshots + {n} else m.snapshots)
         && next.failure == (if due && !saved then Some(Snapshot) else None)
  {
    hide Replay, ReceiptAt, Run;
    StepGrows(sha, Reached(sha, before), w);
    ReachedInOrder(sha, before);
  }

  // Commits.

  /** The receipt of entry `i`: its request, its place counted from one, and the head after it. */
  predicate IsReceiptAt(sha: Hash, log: seq<Entry>, i: nat, receipt: CommitReceipt)
    requires i < |log|
  {
    && receipt.requestId == log[i].request && receipt.sequence == i + 1
    && ChainHash(sha, LogCommands(log)[..i + 1]) == Some(receipt.revisionHash)
  }

  lemma ReceiptIsAt(sha: Hash, log: seq<Entry>, i: nat)
    requires i < |log| && Numberable(log)
    ensures IsReceiptAt(sha, log, i, ReceiptAt(sha, log, i))
  {
    hide RevisionHash;
    var commands := LogCommands(log);
    assert commands[..i + 1][..i] == commands[..i];
  }

  /** A request that is in the log is answered from the log, and adds nothing. */
  lemma RepeatedRequestAnswers(sha: Hash, before: seq<Work>, w: Work, i: nat)
    requires w.CommitWork? && w.io.queryOk && Reached(sha, before).failure.None?
    requires i < |Reached(sha, before).log| && Reached(sha, before).log[i].request == w.request
    ensures
      var m := Reached(sha, before);
      var (next, r) := Step(sha, m, w);
      && next.log == m.log && r.Committed?
      && if w.command == m.log[i].command then r.commit.Ok? && IsReceiptAt(sha, m.log, i, r.commit.value)
         else r.commit == Err(RequestConflict(w.request))
  {
    hide Run, Replay, ReceiptAt, IsReceiptAt, Requests, PersistOutcome;
    var m := Reached(sha, before);
    ReachedInOrder(sha, before);
    FindLocates(m.log, i);
    ReceiptIsAt(sha, m.log, i);
    PersistKeepsLog(m, w.snapshotIo);
  }

  lemma PersistKeepsLog(m: Abstract, io: Io)
    requires Numberable(m.log)
    ensures PersistOutcome(m, None, io).0.log == m.log
  {
  }

  /** No entry has the request. */
  predicate IsFresh(log: seq<Entry>, request: Id) {
    forall i :: 0 <= i < |log| ==> log[i].request != request
  }

  /** What the statements of a commit do with a command that replays. */
  function Fate(w: Work): Result<bool, StoreError>
    requires w.CommitWork?
  {
    if !w.io.insertOk then Err(Sql)
    else if w.fault == Some(BeforeCommit) then Err(Injected(BeforeCommit))
    else if !w.io.commitOk then Err(Sql)
    else Ok(w.fault == Some(AfterCommitBeforeResponse))
  }

  /**
   * A fresh request: a command that does not replay after the log is refused with the reducer's error; one that
   * does is added exactly if its statements succeed, and then has the last receipt or an ambiguous answer.
   */
  lemma FreshRequestAnswers(sha: Hash, before: seq<Work>, w: Work)
    requires w.CommitWork? && w.io.queryOk && Reached(sha, before).failure.None?
    requires IsFresh(Reached(sha, before).log, w.request)
    ensures
      var m := Reached(sha, before);
      var (next, r) := Step(sha, m, w);
      var longer := m.log + [Entry(w.request, w.command)];
      var replayed := Replay(EMPTY, LogCommands(longer));
      && r.Committed?
      && if replayed.Err? then next == m && r.commit == Err(Model(replayed.error))
         else if |longer| == 0x8000_0000_0000_0000 then next == m && r.commit == Err(CorruptStore)
         else if Fate(w).Err? then next == m && r.commit == Err(Fate(w).error)
         else
           && next.log == longer
           && if Fate(w).value then r.commit == Err(Ambiguous(w.request))
              else r.commit.Ok? && IsReceiptAt(sha, longer, |m.log|, r.commit.value)
  {
    hide Run, Replay, ReceiptAt, IsReceiptAt, Requests, PersistOutcome;
    var m := Reached(sha, before);
    var longer := m.log + [Entry(w.request, w.command)];
    assert Find(m.log, w.request).None?;
    CommandsOfExtended(m.log, Entry(w.request, w.command));
    if Numberable(longer) {
      ReceiptIsAt(sha, longer, |m.log|);
      PersistKeepsLog(m.(log := longer), w.snapshotIo);
    }
  }

  /** Without an answer from the tables nothing is done. */
  lemma UnansweredQueryRefuses(sha: Hash, m: Abstract, w: Work)
    requires Numberable(m.log) && m.failure.None? && w.CommitWork? && !w.io.queryOk
    ensures Step(sha, m, w) == (m, Committed(Err(Sql)))
  {
  }

  /** A look-up answers even when the worker is blocked, and changes nothing. */
  lemma LookUpAnswers(sha: Hash, before: seq<Work>, request: Id, io: Io)
    ensures
      var m := Reached(sha, before);
      var (next, r) := Step(sha, m, ReceiptWork(request, io));
      && next == m && r.Looked?
      && if !io.queryOk then r.receipt == Err(Sql)
         else
           && (IsFresh(m.log, request) ==> r.receipt == Ok(None))
           && forall i :: 0 <= i < |m.log| && m.log[i].request == request ==>
                r.receipt.Ok? && r.receipt.value.Some? && IsReceiptAt(sha, m.log, i, r.receipt.value.value)
  {
    hide Run, ReceiptAt, IsReceiptAt, Requests;
    var m := Reached(sha, before);
    ReachedInOrder(sha, before);
    forall i | 0 <= i < |m.log| && m.log[i].request == request
      ensures Find(m.log, request) == Some(i) && IsReceiptAt(sha, m.log, i, ReceiptAt(sha, m.log, i))
    {
      FindLocates(m.log, i);
      ReceiptIsAt(sha, m.log, i);
    }
  }

  // Maintenance.

  /** A checkpoint changes nothing and succeeds exactly if nothing fails. */
  lemma CheckpointAnswers(sha: Hash, m: Abstract, fault: Option<FaultPoint>, io: Io)
    requires Numberable(m.log) && m.failure.None?
    ensures
      Step(sha, m, CheckpointWork(fault, io)) ==
        (m, Maintained(
          if fault == Some(BeforeCheckpoint) || fault == Some(DuringCheckpoint) then
            Err(Maintenance(Fault(fault.value)))
          else if !io.checkpointOk then Err(Maintenance(Checkpoint))
          else if fault == Some(AfterCheckpoint) then Err(Maintenance(Fault(AfterCheckpoint)))
          else Ok(())))
  {
  }

  /** An archive changes nothing and succeeds exactly if its place is free and nothing fails. */
  lemma ArchiveAnswers(sha: Hash, m: Abstract, fault: Option<FaultPoint>, destinationFree: bool, io: Io)
    requires Numberable(m.log) && m.failure.None?
    ensures
      var (next, r) := Step(sha, m, ArchiveWork(fault, destinationFree, io));
      var injected := fault == Some(BeforeArchive) || fault == Some(DuringArchive) || fault == Some(AfterArchive);
      && next == m && r.Maintained?
      && (r.done.Ok? <==> destinationFree && io.copyOk && io.publishOk && !injected)
      && (r.done.Err? ==> r.done.error.Maintenance?)
      && (!destinationFree ==> r.done == Err(Maintenance(Archive)))
      && (destinationFree && fault == Some(BeforeArchive) ==> r.done == Err(Maintenance(Fault(BeforeArchive))))
      && (destinationFree && fault != Some(BeforeArchive) && !io.copyOk ==> r.done == Err(Maintenance(Archive)))
      && (destinationFree && io.copyOk && injected ==> r.done == Err(Maintenance(Fault(fault.value))))
      && (destinationFree && io.copyOk && !injected && !io.publishOk ==> r.done == Err(Maintenance(Archive)))
  {
  }

  lemma NewestOfTheseIs(snapshots: set<i64>, n: i64)
    requires n in snapshots && forall k | k in snapshots :: k <= n
    ensures NewestOnly(snapshots) == {n}
  {
  }

  /** The log never changes, and success leaves exactly the snapshot of its head. */
  lemma CompactionLeavesTheNewest(sha: Hash, before: seq<Work>, fault: Option<FaultPoint>, io: Io)
    requires Reached(sha, before).failure.None?
    ensures
      var m := Reached(sha, before);
      var (next, r) := Step(sha, m, CompactWork(fault, io));
      && next.log == m.log && next.failure.None? && r.Maintained?
      && (r.done.Ok? ==> next.snapshots == if m.log == [] then {} else {|m.log|})
  {
    hide Run;
    var m := Reached(sha, before);
    ReachedInOrder(sha, before);
    if m.log != [] {
      NewestOfTheseIs(m.snapshots + {|m.log|}, |m.log|);
      assert |m.log| in m.snapshots ==> m.snapshots + {|m.log|} == m.snapshots;
    }
  }

  /**
   * Where a compaction stops, with the snapshots it leaves: all, all and the head's, or the head's alone. After
   * the snapshots are deleted only an injected fault, the checkpoint or the vacuum can still fail.
   */
  lemma CompactionAnswers(sha: Hash, before: seq<Work>, fault: Option<FaultPoint>, io: Io)
    requires Reached(sha, before).failure.None? && Reached(sha, before).log != []
    ensures
      var m := Reached(sha, before);
      var (next, r) := Step(sha, m, CompactWork(fault, io));
      var n: i64 := |m.log|;
      && r.Maintained?
      && if fault == Some(BeforeCompaction) then
           next.snapshots == m.snapshots && r.done == Err(Maintenance(Fault(BeforeCompaction)))
         else if !Saves(io, n in m.snapshots) then
           next.snapshots == m.snapshots && r.done == Err(Maintenance(Snapshot))
         else if !io.deleteOk then
           next.snapshots == m.snapshots + {n} && r.done == Err(Maintenance(Compaction))
         else
           && next.snapshots == {n}
           && r.done ==
                if fault == Some(DuringCompaction) then Err(Maintenance(Fault(DuringCompaction)))
                else if !io.checkpointOk then Err(Maintenance(Checkpoint))
                else if !io.vacuumOk then Err(Maintenance(Compaction))
                else if fault == Some(AfterCompaction) then Err(Maintenance(Fault(AfterCompaction)))
                else Ok(())
  {
    hide Run;
    var m := Reached(sha, before);
    ReachedInOrder(sha, before);
    NewestOfTheseIs(m.snapshots + {|m.log|}, |m.log|);
    assert |m.log| in m.snapshots ==> m.snapshots + {|m.log|} == m.snapshots;
  }
}
