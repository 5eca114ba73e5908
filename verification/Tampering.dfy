/** What `restore` notices: changes to tables that it accepts, table by table. */
module Tampering {
  import opened Wrappers
  import opened Bytes
  import opened Projects
  import opened Codec
  import opened ProjectCodec
  import opened Revisions
  import opened Databases

  lemma AcceptedParts(sha: Hash, db: Database)
    requires Acceptable(sha, db)
    ensures Chained(sha, db.revisions) && ReceiptsMatch(db) && HeadMatches(db)
  {
  }

  lemma RowFacts(sha: Hash, rows: seq<RevisionRow>, i: nat)
    requires Chained(sha, rows) && i < |rows|
    ensures rows[i].sequence == i + 1
    ensures rows[i].parent == ChainHash(sha, Commands(rows)[..i])
    ensures rows[i].hash == RevisionHash(sha, ChainHash(sha, Commands(rows)[..i]), Commands(rows)[i])
  {
    hide DecodeCommand, Replay, ChainHash, RevisionHash;
    assert Linked(sha, rows, i);
  }

  // Receipts.

  /** The receipt names revision `i` by number and hash, and carries its command. */
  predicate IsReceiptOf(receipt: ReceiptRow, rows: seq<RevisionRow>, i: nat)
    requires i < |rows|
  {
    receipt.sequence == i + 1 && receipt.hash == rows[i].hash && receipt.command == rows[i].command
  }

  lemma MatchedIsReceipt(sha: Hash, rows: seq<RevisionRow>, receipt: ReceiptRow)
    requires Chained(sha, rows)
    ensures !Mismatched(receipt, rows) <==> exists i :: 0 <= i < |rows| && IsReceiptOf(receipt, rows, i)
  {
    hide Chained;
    forall i | 0 <= i < |rows| ensures rows[i].sequence == i + 1 {
      RowFacts(sha, rows, i);
    }
    if i :| 0 <= i < |rows| && IsReceiptOf(receipt, rows, i) {
      assert Joins(receipt, rows[i]);
    }
    if !Mismatched(receipt, rows) {
      var i :| 0 <= i < |rows| && Joins(receipt, rows[i]);
      assert IsReceiptOf(receipt, rows, i);
    }
  }

  lemma OnlyReceiptsDecide(sha: Hash, db: Database, receipts: map<Id, ReceiptRow>)
    requires Acceptable(sha, db)
    ensures Acceptable(sha, db.(receipts := receipts)) <==> ReceiptsMatch(db.(receipts := receipts))
  {
    hide Chained, SnapshotMatches, ReceiptsMatch;
  }

  /** Of all receipt tables, exactly those are accepted that have as many receipts as revisions, each of a revision. */
  lemma ReceiptsAcceptedExactly(sha: Hash, db: Database, receipts: map<Id, ReceiptRow>)
    requires Acceptable(sha, db)
    ensures Acceptable(sha, db.(receipts := receipts)) <==>
      && |receipts| == |db.revisions|
      && forall id | id in receipts ::
           exists i :: 0 <= i < |db.revisions| && IsReceiptOf(receipts[id], db.revisions, i)
  {
    AcceptedParts(sha, db);
    OnlyReceiptsDecide(sha, db, receipts);
    hide Acceptable, Chained, Mismatched, IsReceiptOf;
    forall id | id in receipts
      ensures !Mismatched(receipts[id], db.revisions)
        <==> exists i :: 0 <= i < |db.revisions| && IsReceiptOf(receipts[id], db.revisions, i)
    {
      MatchedIsReceipt(sha, db.revisions, receipts[id]);
    }
  }

  /** A receipt is refused with another command, with another hash, and if it is missing. */
  lemma TamperedReceiptIsRefused(sha: Hash, db: Database, id: Id, hash: seq<byte>, command: seq<byte>)
    requires Acceptable(sha, db) && id in db.receipts
    ensures
      var r := db.receipts[id];
      && (command != r.command ==> !Acceptable(sha, db.(receipts := db.receipts[id := r.(command := command)])))
      && (hash != r.hash ==> !Acceptable(sha, db.(receipts := db.receipts[id := r.(hash := hash)])))
      && !Acceptable(sha, db.(receipts := db.receipts - {id}))
  {
    hide Acceptable, IsReceiptOf;
    var r := db.receipts[id];
    ReceiptsAcceptedExactly(sha, db, db.receipts);
    assert db.(receipts := db.receipts) == db;
    var i :| 0 <= i < |db.revisions| && IsReceiptOf(r, db.revisions, i);
    if command != r.command {
      ReceiptsAcceptedExactly(sha, db, db.receipts[id := r.(command := command)]);
      NoReceiptOf(r, r.(command := command), db.revisions, i);
      assert db.receipts[id := r.(command := command)][id] == r.(command := command);
    }
    if hash != r.hash {
      ReceiptsAcceptedExactly(sha, db, db.receipts[id := r.(hash := hash)]);
      NoReceiptOf(r, r.(hash := hash), db.revisions, i);
      assert db.receipts[id := r.(hash := hash)][id] == r.(hash := hash);
    }
    ReceiptsAcceptedExactly(sha, db, db.receipts - {id});
    assert (db.receipts - {id}).Keys == db.receipts.Keys - {id};
    assert |(db.receipts - {id}).Keys| == |db.receipts - {id}| && |db.receipts.Keys| == |db.receipts|;
  }

  lemma NoReceiptOf(r: ReceiptRow, s: ReceiptRow, rows: seq<RevisionRow>, i: nat)
    requires i < |rows| && IsReceiptOf(r, rows, i) && s != r && s.sequence == r.sequence
    ensures forall j :: 0 <= j < |rows| ==> !IsReceiptOf(s, rows, j)
  {
  }

  // The head.

  /** No other head is accepted with these tables. */
  lemma HeadAcceptedExactly(sha: Hash, db: Database, head: Option<HeadRow>)
    requires Acceptable(sha, db)
    ensures Acceptable(sha, db.(head := head)) <==> head == db.head
    ensures
      var rows := db.revisions;
      if rows == [] then db.head == None
      else db.head == Some(HeadRow(rows[|rows| - 1].sequence, rows[|rows| - 1].hash))
  {
    hide Chained, SnapshotMatches, ReceiptsMatch;
    if db.revisions != [] {
      RowFacts(sha, db.revisions, |db.revisions| - 1);
    }
  }

  // Snapshots.

  /** The snapshot is that of the first `k` revisions: the hash of the last of them, the replay, and its digest. */
  predicate IsSnapshotOf(sha: Hash, s: SnapshotRow, rows: seq<RevisionRow>, k: i64)
    requires Decodes(rows)
  {
    && 1 <= k <= |rows| && s.hash == rows[k - 1].hash
    && var replayed := Replay(EMPTY, Commands(rows)[..k]);
       replayed.Ok? && s.project == EncodeProject(replayed.value) && s.digest == sha(EncodeProject(replayed.value))
  }

  lemma MatchingIsSnapshot(sha: Hash, rows: seq<RevisionRow>, k: i64, s: SnapshotRow)
    requires Chained(sha, rows)
    ensures SnapshotMatches(sha, rows, k, s) <==> IsSnapshotOf(sha, s, rows, k)
  {
    hide EncodeProject, Replay, DecodeCommand, Linked;
  }

  /** Of all snapshot tables, exactly the empty one and those are accepted whose newest snapshot is right. */
  lemma SnapshotsAcceptedExactly(sha: Hash, db: Database, snapshots: map<i64, SnapshotRow>)
    requires Acceptable(sha, db)
    ensures Decodes(db.revisions)
    ensures Acceptable(sha, db.(snapshots := snapshots)) <==>
      forall k | k in snapshots ::
        (forall j | j in snapshots :: j <= k) ==> IsSnapshotOf(sha, snapshots[k], db.revisions, k)
  {
    AcceptedParts(sha, db);
    DecodesIfChained(sha, db.revisions);
    hide Chained, SnapshotMatches, IsSnapshotOf, ReceiptsMatch, HeadMatches;
    forall k | k in snapshots
      ensures SnapshotMatches(sha, db.revisions, k, snapshots[k]) <==> IsSnapshotOf(sha, snapshots[k], db.revisions, k)
      ensures IsNewest(snapshots, k) <==> forall j | j in snapshots :: j <= k
    {
      MatchingIsSnapshot(sha, db.revisions, k, snapshots[k]);
    }
    assert ReceiptsMatch(db.(snapshots := snapshots)) by { SnapshotsApart(db, snapshots); }
    assert HeadMatches(db.(snapshots := snapshots)) by { SnapshotsApart(db, snapshots); }
  }

  lemma SnapshotsApart(db: Database, snapshots: map<i64, SnapshotRow>)
    requires ReceiptsMatch(db) && HeadMatches(db)
    ensures ReceiptsMatch(db.(snapshots := snapshots)) && HeadMatches(db.(snapshots := snapshots))
  {
  }

  // Revisions.

  lemma AcceptedRowsAreEqual(sha: Hash, rows: seq<RevisionRow>, rows': seq<RevisionRow>, i: nat)
    requires Chained(sha, rows) && Chained(sha, rows') && |rows| == |rows'| && i < |rows|
    requires forall k :: 0 <= k < |rows| ==> rows'[k].command == rows[k].command
    ensures rows'[i] == rows[i]
  {
    hide Chained, ChainHash, RevisionHash;
    SameCommands(sha, rows, rows');
    RowFacts(sha, rows, i);
    RowFacts(sha, rows', i);
  }

  /** With the same command, a revision row is accepted in its place only as it is. */
  lemma RowAcceptedExactly(sha: Hash, db: Database, i: nat, row: RevisionRow)
    requires Acceptable(sha, db) && i < |db.revisions| && row.command == db.revisions[i].command
    ensures Acceptable(sha, db.(revisions := db.revisions[i := row])) <==> row == db.revisions[i]
  {
    hide Acceptable, Chained, ReceiptsMatch, HeadMatches;
    var rows := db.revisions;
    var rows' := rows[i := row];
    if row == rows[i] {
      assert rows' == rows;
    } else if Acceptable(sha, db.(revisions := rows')) {
      AcceptedParts(sha, db);
      AcceptedParts(sha, db.(revisions := rows'));
      AcceptedRowsAreEqual(sha, rows, rows', i);
    }
  }

  lemma SameCommands(sha: Hash, rows: seq<RevisionRow>, rows': seq<RevisionRow>)
    requires Chained(sha, rows) && Chained(sha, rows') && |rows| == |rows'|
    requires forall k :: 0 <= k < |rows| ==> rows'[k].command == rows[k].command
    ensures Commands(rows) == Commands(rows')
  {
    hide DecodeCommand, Replay, Linked;
  }

  /** Without its last revisions a database is refused. */
  lemma TruncationIsRefused(sha: Hash, db: Database, n: nat)
    requires Acceptable(sha, db) && n < |db.revisions|
    ensures !Acceptable(sha, db.(revisions := db.revisions[..n]))
  {
    hide Chained, SnapshotMatches;
  }

  /**
   * The head binds everything: two accepted databases with one head restore to one project, or two of their
   * revisions have different preimages with one digest.
   */
  lemma OneHeadOneHistory(sha: Hash, a: Database, b: Database) returns (i: nat, j: nat)
    requires Acceptable(sha, a) && Acceptable(sha, b) && a.head == b.head
    ensures Decodes(a.revisions) && Decodes(b.revisions)
    ensures
      var c, d := Commands(a.revisions), Commands(b.revisions);
      c == d || (i < |c| && j < |d| && Collides(sha, PreimageAt(sha, c, i), PreimageAt(sha, d, j)))
  {
    AcceptedParts(sha, a);
    AcceptedParts(sha, b);
    DecodesIfChained(sha, a.revisions);
    DecodesIfChained(sha, b.revisions);
    hide Chained, ReceiptsMatch, ChainHash, Collides, PreimageAt;
    var c, d := Commands(a.revisions), Commands(b.revisions);
    HeadIsChain(sha, a);
    HeadIsChain(sha, b);
    i, j := 0, 0;
    if c != d {
      i, j := HeadBindsHistory(sha, c, d);
    }
  }

  lemma DecodesIfChained(sha: Hash, rows: seq<RevisionRow>)
    requires Chained(sha, rows)
    ensures Decodes(rows)
  {
  }

  lemma HeadIsChain(sha: Hash, db: Database)
    requires Chained(sha, db.revisions) && HeadMatches(db)
    ensures Decodes(db.revisions)
    ensures ChainHash(sha, Commands(db.revisions)) == None <==> db.head.None?
    ensures db.head.Some? ==> ChainHash(sha, Commands(db.revisions)) == Some(db.head.value.hash)
  {
    hide DecodeCommand, Replay, RevisionHash;
    var rows := db.revisions;
    if rows != [] {
      RowFacts(sha, rows, |rows| - 1);
      var log := Commands(rows);
      assert log == log[..|log| - 1] + [log[|log| - 1]];
    }
  }
}
