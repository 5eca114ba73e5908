/** The log a healthy database stands for: requests with their commands, in commit order. */
module Logs {
  import opened Wrappers
  import opened Bytes
  import opened OrderedMaps
  import opened Projects
  import opened Codec
  import opened ProjectCodec
  import opened Revisions
  import opened Databases

  datatype Entry = Entry(request: Id, command: Command)

  function LogCommands(log: seq<Entry>): (c: seq<Command>)
    ensures |c| == |log|
  {
    seq(|log|, i requires 0 <= i < |log| => log[i].command)
  }

  function Requests(log: seq<Entry>): (r: seq<Id>)
    ensures |r| == |log|
  {
    seq(|log|, i requires 0 <= i < |log| => log[i].request)
  }

  /** The head hash after the first `n` entries. */
  function HashAfter(sha: Hash, log: seq<Entry>, n: nat): Option<Digest>
    requires n <= |log|
  {
    ChainHash(sha, LogCommands(log)[..n])
  }

  function EntryHash(sha: Hash, log: seq<Entry>, i: nat): Digest
    requires i < |log|
  {
    RevisionHash(sha, HashAfter(sha, log, i), log[i].command)
  }

  /** Sequence numbers are `i64`, so this many entries can be numbered. */
  predicate Numberable(log: seq<Entry>) {
    |log| < TWO_TO_THE_63
  }

  function RevisionAt(sha: Hash, log: seq<Entry>, i: nat): RevisionRow
    requires i < |log| && Numberable(log)
  {
    RevisionRow(i + 1, EntryHash(sha, log, i), HashAfter(sha, log, i), EncodeCommand(log[i].command))
  }

  function ReceiptRowAt(sha: Hash, log: seq<Entry>, i: nat): ReceiptRow
    requires i < |log| && Numberable(log)
  {
    ReceiptRow(EntryHash(sha, log, i), i + 1, EncodeCommand(log[i].command))
  }

  function ReceiptAt(sha: Hash, log: seq<Entry>, i: nat): CommitReceipt
    requires i < |log| && Numberable(log)
  {
    CommitReceipt(log[i].request, EntryHash(sha, log, i), i + 1)
  }

  /** The project after the first `k` entries of a log that replays. */
  function ProjectAfter(log: seq<Entry>, k: nat): Project
    requires k <= |log|
  {
    var r := Replay(EMPTY, LogCommands(log)[..k]);
    if r.Ok? then r.value else EMPTY
  }

  function SnapshotOf(sha: Hash, log: seq<Entry>, k: nat): SnapshotRow
    requires 1 <= k <= |log|
  {
    var bytes := EncodeProject(ProjectAfter(log, k));
    SnapshotRow(EntryHash(sha, log, k - 1), bytes, sha(bytes))
  }

  predicate HoldsRevisions(sha: Hash, rows: seq<RevisionRow>, log: seq<Entry>) {
    && Numberable(log)
    && |rows| == |log|
    && forall i :: 0 <= i < |log| ==> rows[i] == RevisionAt(sha, log, i)
  }

  /** The receipts and the revisions correspond one to one. */
  ghost predicate HoldsReceipts(sha: Hash, receipts: map<Id, ReceiptRow>, log: seq<Entry>) {
    && Numberable(log)
    && Distinct(Requests(log))
    && receipts.Keys == Elements(Requests(log))
    && forall i :: 0 <= i < |log| ==>
      log[i].request in receipts && receipts[log[i].request] == ReceiptRowAt(sha, log, i)
  }

  predicate HoldsSnapshots(sha: Hash, snapshots: map<i64, SnapshotRow>, log: seq<Entry>) {
    forall k | k in snapshots ::
      && 1 <= k <= |log|
      && Replay(EMPTY, LogCommands(log)[..k]).Ok?
      && snapshots[k] == SnapshotOf(sha, log, k)
  }

  function HeadOf(sha: Hash, log: seq<Entry>): Option<HeadRow>
    requires Numberable(log)
  {
    if log == [] then None else Some(HeadRow(|log|, EntryHash(sha, log, |log| - 1)))
  }

  /** The database stands for the log; its snapshots are a cache of replayed prefixes. */
  ghost predicate StandsFor(sha: Hash, db: Database, log: seq<Entry>) {
    && HoldsRevisions(sha, db.revisions, log)
    && HoldsReceipts(sha, db.receipts, log)
    && HoldsSnapshots(sha, db.snapshots, log)
    && db.head == HeadOf(sha, log)
    && Replay(EMPTY, LogCommands(log)).Ok?
  }

  lemma EmptyStands(sha: Hash)
    ensures StandsFor(sha, NEW_DATABASE, [])
  {
  }

  // Growing the log.

  lemma CommandsOfExtended(log: seq<Entry>, e: Entry)
    ensures LogCommands(log + [e]) == LogCommands(log) + [e.command]
    ensures Requests(log + [e]) == Requests(log) + [e.request]
  {
  }

  lemma HashAfterExtended(sha: Hash, log: seq<Entry>, more: seq<Entry>, n: nat)
    requires n <= |log|
    ensures LogCommands(log + more)[..n] == LogCommands(log)[..n]
    ensures HashAfter(sha, log + more, n) == HashAfter(sha, log, n)
    ensures n < |log| ==> EntryHash(sha, log + more, n) == EntryHash(sha, log, n)
  {
    hide ChainHash, RevisionHash;
    assert LogCommands(log + more)[..n] == LogCommands(log)[..n];
  }

  lemma RevisionsGrow(sha: Hash, rows: seq<RevisionRow>, log: seq<Entry>, e: Entry)
    requires HoldsRevisions(sha, rows, log) && Numberable(log + [e])
    ensures HoldsRevisions(sha, rows + [RevisionAt(sha, log + [e], |log|)], log + [e])
  {
    hide HashAfter, EntryHash;
    forall i | 0 <= i < |log| ensures rows[i] == RevisionAt(sha, log + [e], i) {
      HashAfterExtended(sha, log, [e], i);
    }
  }

  lemma FreshStaysDistinct(ids: seq<Id>, id: Id)
    requires Distinct(ids) && id !in Elements(ids)
    ensures Distinct(ids + [id]) && Elements(ids + [id]) == Elements(ids) + {id}
  {
    forall i | 0 <= i < |ids| ensures ids[i] != id {
      assert ids[i] in Elements(ids);
    }
  }

  lemma ReceiptsGrow(sha: Hash, receipts: map<Id, ReceiptRow>, log: seq<Entry>, e: Entry)
    requires HoldsReceipts(sha, receipts, log) && Numberable(log + [e]) && e.request !in receipts
    ensures HoldsReceipts(sha, receipts[e.request := ReceiptRowAt(sha, log + [e], |log|)], log + [e])
  {
    hide HashAfter, EntryHash, EncodeCommand, Distinct, Elements, Requests, LogCommands;
    CommandsOfExtended(log, e);
    forall i | 0 <= i < |log|
      ensures log[i].request != e.request && receipts[log[i].request] == ReceiptRowAt(sha, log + [e], i)
    {
      HashAfterExtended(sha, log, [e], i);
    }
    FreshStaysDistinct(Requests(log), e.request);
  }

  lemma SnapshotsKeep(sha: Hash, snapshots: map<i64, SnapshotRow>, log: seq<Entry>, e: Entry)
    requires HoldsSnapshots(sha, snapshots, log)
    ensures HoldsSnapshots(sha, snapshots, log + [e])
  {
    hide HashAfter, EntryHash, EncodeProject, Replay;
    forall k | k in snapshots
      ensures 1 <= k <= |log| + 1 && Replay(EMPTY, LogCommands(log + [e])[..k]).Ok?
      ensures snapshots[k] == SnapshotOf(sha, log + [e], k)
    {
      HashAfterExtended(sha, log, [e], k);
      HashAfterExtended(sha, log, [e], k - 1);
    }
  }

  /** The three inserts of a commit, as one update. */
  lemma CommitStands(sha: Hash, db: Database, log: seq<Entry>, e: Entry)
    requires StandsFor(sha, db, log) && Numberable(log + [e]) && e.request !in db.receipts
    requires Replay(EMPTY, LogCommands(log) + [e.command]).Ok?
    ensures StandsFor(sha, Database(
      db.revisions + [RevisionAt(sha, log + [e], |log|)],
      db.receipts[e.request := ReceiptRowAt(sha, log + [e], |log|)],
      Some(HeadRow(|log| + 1, EntryHash(sha, log + [e], |log|))),
      db.snapshots), log + [e])
  {
    hide HoldsRevisions, HoldsReceipts, HoldsSnapshots, RevisionAt, ReceiptRowAt, EntryHash, Replay;
    RevisionsGrow(sha, db.revisions, log, e);
    ReceiptsGrow(sha, db.receipts, log, e);
    SnapshotsKeep(sha, db.snapshots, log, e);
    CommandsOfExtended(log, e);
  }

  lemma NewEntryHash(sha: Hash, log: seq<Entry>, e: Entry)
    ensures EntryHash(sha, log + [e], |log|) == RevisionHash(sha, ChainHash(sha, LogCommands(log)), e.command)
    ensures HashAfter(sha, log + [e], |log|) == ChainHash(sha, LogCommands(log))
    ensures ChainHash(sha, LogCommands(log + [e])) == Some(EntryHash(sha, log + [e], |log|))
  {
    hide RevisionHash, ChainHash;
    CommandsOfExtended(log, e);
    assert LogCommands(log + [e])[..|log|] == LogCommands(log);
    ChainExtended(sha, LogCommands(log), e.command);
  }

  // A database that stands for a log is accepted.

  lemma EntryHashIsChain(sha: Hash, log: seq<Entry>, i: nat)
    requires i < |log|
    ensures HashAfter(sha, log, i + 1) == Some(EntryHash(sha, log, i))
  {
    hide RevisionHash;
    var c := LogCommands(log);
    assert c[..i + 1] == c[..i] + [c[i]];
    ChainExtended(sha, c[..i], c[i]);
  }

  lemma StandingRowsDecode(sha: Hash, rows: seq<RevisionRow>, log: seq<Entry>)
    requires HoldsRevisions(sha, rows, log)
    ensures Decodes(rows) && Commands(rows) == LogCommands(log)
  {
    hide DecodeCommand, EncodeCommand, EntryHash, HashAfter;
    forall i | 0 <= i < |rows| ensures DecodeCommand(rows[i].command) == Ok(log[i].command) {
      assert rows[i] == RevisionAt(sha, log, i);
      CommandRoundTrip(log[i].command);
    }
  }

  lemma StandingRowsChain(sha: Hash, rows: seq<RevisionRow>, log: seq<Entry>)
    requires HoldsRevisions(sha, rows, log) && Replay(EMPTY, LogCommands(log)).Ok?
    ensures Chained(sha, rows)
  {
    hide DecodeCommand, EncodeCommand, RevisionHash, ChainHash, Replay, Decodes;
    StandingRowsDecode(sha, rows, log);
    forall i | 0 <= i < |rows| ensures Linked(sha, rows, i) {
      assert rows[i] == RevisionAt(sha, log, i);
    }
  }

  lemma StandingReceiptsMatch(sha: Hash, db: Database, log: seq<Entry>)
    requires HoldsRevisions(sha, db.revisions, log) && HoldsReceipts(sha, db.receipts, log)
    ensures ReceiptsMatch(db)
  {
    hide EncodeCommand, EntryHash, HashAfter;
    DistinctCount(Requests(log));
    assert |db.receipts.Keys| == |db.receipts|;
    forall id | id in db.receipts ensures !Mismatched(db.receipts[id], db.revisions) {
      assert id in Elements(Requests(log));
      var i :| 0 <= i < |log| && Requests(log)[i] == id;
      assert db.revisions[i] == RevisionAt(sha, log, i);
      assert Joins(db.receipts[id], db.revisions[i]);
      forall j | 0 <= j < |db.revisions| && Joins(db.receipts[id], db.revisions[j]) ensures j == i {
        assert db.revisions[j] == RevisionAt(sha, log, j);
      }
    }
  }

  lemma StandingSnapshotMatches(sha: Hash, db: Database, log: seq<Entry>, k: i64)
    requires StandsFor(sha, db, log) && k in db.snapshots && Chained(sha, db.revisions)
    ensures SnapshotMatches(sha, db.revisions, k, db.snapshots[k])
  {
    hide EncodeCommand, EncodeProject, HashAfter, EntryHash, Replay, Chained, HoldsReceipts, DecodeCommand;
    StandingRowsDecode(sha, db.revisions, log);
    assert db.revisions[k - 1] == RevisionAt(sha, log, k - 1);
  }

  /** Replay, head and length of the log are what `Restore` returns for its database. */
  lemma StandingIsAcceptable(sha: Hash, db: Database, log: seq<Entry>)
    requires StandsFor(sha, db, log)
    ensures Acceptable(sha, db)
    ensures Decodes(db.revisions) && Commands(db.revisions) == LogCommands(log)
    ensures |db.revisions| == |log|
  {
    hide EncodeCommand, EncodeProject, HashAfter, EntryHash, Replay, Chained, HoldsReceipts, HoldsSnapshots,
      SnapshotMatches, ReceiptsMatch, Commands, LogCommands, Decodes;
    StandingRowsDecode(sha, db.revisions, log);
    StandingRowsChain(sha, db.revisions, log);
    StandingReceiptsMatch(sha, db, log);
    forall k | k in db.snapshots ensures SnapshotMatches(sha, db.revisions, k, db.snapshots[k]) {
      StandingSnapshotMatches(sha, db, log, k);
    }
    if log != [] {
      assert db.revisions[|log| - 1] == RevisionAt(sha, log, |log| - 1);
    }
  }

  lemma WholePrefix(log: seq<Entry>)
    ensures LogCommands(log)[..|log|] == LogCommands(log)
  {
  }

  /** A snapshot of the present state keeps the picture. */
  lemma SnapshotStands(sha: Hash, db: Database, log: seq<Entry>)
    requires StandsFor(sha, db, log) && log != []
    ensures StandsFor(sha, db.(snapshots := db.snapshots[|log| := SnapshotOf(sha, log, |log|)]), log)
  {
    hide EncodeCommand, EncodeProject, HashAfter, EntryHash, Replay, HoldsReceipts, HoldsRevisions, LogCommands,
      SnapshotOf;
    WholePrefix(log);
  }
}
