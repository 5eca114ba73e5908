/** What the receipt check of `restore` decides, and what it does not. */
module Receipts {
  import opened Wrappers
  import opened Bytes
  import opened OrderedMaps
  import opened Projects
  import opened Codec
  import opened ProjectCodec
  import opened Revisions
  import opened Databases
  import opened Logs

  // Counting.

  predicate Injective<K, V(==)>(m: map<K, V>) {
    forall j, k | j in m && k in m && m[j] == m[k] :: j == k
  }

  function Image<K, V>(m: map<K, V>): set<V> {
    set k | k in m :: m[k]
  }

  lemma ImageWithout<K, V>(m: map<K, V>, k: K)
    requires k in m
    ensures Image(m) == Image(m - {k}) + {m[k]}
  {
    forall v | v in Image(m) ensures v in Image(m - {k}) + {m[k]} {
      var j :| j in m && m[j] == v;
      if j != k {
        assert (m - {k})[j] == v;
      }
    }
    forall v | v in Image(m - {k}) + {m[k]} ensures v in Image(m) {
      if v != m[k] {
        var j :| j in m - {k} && (m - {k})[j] == v;
        assert m[j] == v;
      }
    }
  }

  /** A map has as many values as keys exactly if it is injective. */
  lemma {:induction false} ImageCount<K, V>(m: map<K, V>)
    ensures |Image(m)| <= |m|
    ensures |Image(m)| == |m| <==> Injective(m)
    decreases |m|
  {
    if m != map[] {
      var k :| k in m;
      var rest := m - {k};
      assert rest.Keys == m.Keys - {k};
      assert |rest| == |m| - 1 by {
        assert |rest.Keys| == |rest| && |m.Keys| == |m|;
      }
      ImageCount(rest);
      ImageWithout(m, k);
      if m[k] in Image(rest) {
        var j :| j in rest && rest[j] == m[k];
        assert Image(m) == Image(rest);
        assert m[j] == m[k];
      } else {
        assert |Image(m)| == |Image(rest)| + 1;
        if Injective(rest) {
          forall i, j | i in m && j in m && m[i] == m[j] ensures i == j {
            assert i != k ==> rest[i] in Image(rest);
            assert j != k ==> rest[j] in Image(rest);
          }
        }
        if Injective(m) {
          assert Injective(rest);
        }
      }
    } else {
      assert Image(m) == {};
    }
  }

  /** The numbers one to `n`. */
  function OneTo(n: nat): (s: set<int>)
    ensures |s| == n
    ensures forall i :: i in s <==> 1 <= i <= n
  {
    if n == 0 then {} else OneTo(n - 1) + {n}
  }

  // Revisions and their receipts.

  /** Receipt `id` belongs to revision `i`. */
  predicate BelongsTo(db: Database, id: Id, i: nat)
    requires i < |db.revisions|
  {
    id in db.receipts && Joins(db.receipts[id], db.revisions[i])
  }

  predicate HasReceipt(db: Database, i: nat)
    requires i < |db.revisions|
  {
    exists id | id in db.receipts :: BelongsTo(db, id, i)
  }

  predicate EveryRevisionHasAReceipt(db: Database) {
    forall i :: 0 <= i < |db.revisions| ==> HasReceipt(db, i)
  }

  function Numbers(db: Database): map<Id, int> {
    map id | id in db.receipts :: db.receipts[id].sequence
  }

  /** In an accepted database each receipt belongs to the one revision with its number. */
  lemma ReceiptsPoint(sha: Hash, db: Database, id: Id)
    requires Acceptable(sha, db) && id in db.receipts
    ensures 1 <= db.receipts[id].sequence <= |db.revisions|
    ensures forall i :: 0 <= i < |db.revisions| ==> (BelongsTo(db, id, i) <==> db.receipts[id].sequence == i + 1)
  {
    hide RevisionHash, ChainHash, Replay, DecodeCommand, EncodeProject, SnapshotMatches, HeadMatches;
    assert !Mismatched(db.receipts[id], db.revisions);
    var j :| 0 <= j < |db.revisions| && Joins(db.receipts[id], db.revisions[j]);
    assert Linked(sha, db.revisions, j);
    forall i | 0 <= i < |db.revisions| ensures BelongsTo(db, id, i) <==> db.receipts[id].sequence == i + 1 {
      assert Linked(sha, db.revisions, i);
    }
  }

  lemma NumbersCount(db: Database)
    ensures |Numbers(db)| == |db.receipts|
  {
    assert Numbers(db).Keys == db.receipts.Keys;
    assert |Numbers(db).Keys| == |Numbers(db)|;
    assert |db.receipts.Keys| == |db.receipts|;
  }

  lemma NumbersAreRevisions(sha: Hash, db: Database)
    requires Acceptable(sha, db)
    ensures Image(Numbers(db)) <= OneTo(|db.revisions|)
    ensures EveryRevisionHasAReceipt(db) <==> Image(Numbers(db)) == OneTo(|db.revisions|)
  {
    hide Acceptable, BelongsTo;
    forall id | id in db.receipts
      ensures 1 <= db.receipts[id].sequence <= |db.revisions|
      ensures forall i :: 0 <= i < |db.revisions| ==> (BelongsTo(db, id, i) <==> db.receipts[id].sequence == i + 1)
    {
      ReceiptsPoint(sha, db, id);
    }
    if EveryRevisionHasAReceipt(db) {
      forall n | n in OneTo(|db.revisions|) ensures n in Image(Numbers(db)) {
        assert HasReceipt(db, n - 1);
        var id :| id in db.receipts && BelongsTo(db, id, n - 1);
        assert Numbers(db)[id] == n;
      }
    }
    if Image(Numbers(db)) == OneTo(|db.revisions|) {
      forall i | 0 <= i < |db.revisions| ensures HasReceipt(db, i) {
        assert i + 1 in Image(Numbers(db));
        var id :| id in Numbers(db) && Numbers(db)[id] == i + 1;
        assert BelongsTo(db, id, i);
      }
    }
  }

  /**
   * In an accepted database every revision has its receipt exactly if no two receipts carry the same number:
   * the counts and the join decide nothing more.
   */
  lemma PairedExactlyIfNumbersDiffer(sha: Hash, db: Database)
    requires Acceptable(sha, db)
    ensures EveryRevisionHasAReceipt(db) <==> Injective(Numbers(db))
  {
    NumbersCount(db);
    NumbersAreRevisions(sha, db);
    ImageCount(Numbers(db));
    assert ReceiptsMatch(db);
    hide Acceptable, EveryRevisionHasAReceipt, Injective, Numbers;
    if Injective(Numbers(db)) {
      SubsetOfSameSize(Image(Numbers(db)), OneTo(|db.revisions|));
    }
  }

  /** Databases that commits leave behind are paired: each revision has one receipt, under its own request. */
  lemma CommittedReceiptsPair(sha: Hash, db: Database, log: seq<Entry>, i: nat, id: Id)
    requires StandsFor(sha, db, log) && i < |log|
    ensures |db.revisions| == |log|
    ensures BelongsTo(db, id, i) <==> id == log[i].request
  {
    hide EntryHash, HashAfter, EncodeCommand, Replay, HoldsSnapshots;
    assert db.revisions[i] == RevisionAt(sha, log, i);
    if id in db.receipts {
      assert id in Elements(Requests(log));
      var j :| 0 <= j < |log| && Requests(log)[j] == id;
      assert db.receipts[id] == ReceiptRowAt(sha, log, j);
      assert j != i ==> Requests(log)[j] != Requests(log)[i];
    }
  }

  /** The database with the second commit's receipt made to repeat the first's. */
  function Doubled(sha: Hash, db: Database, log: seq<Entry>): Database
    requires |log| >= 2 && Numberable(log)
  {
    db.(receipts := db.receipts[log[1].request := ReceiptRowAt(sha, log, 0)])
  }

  /** `restore` accepts it all the same, though the second revision has no receipt any more. */
  lemma DoubledIsAccepted(sha: Hash, db: Database, log: seq<Entry>)
    requires StandsFor(sha, db, log) && |log| >= 2
    ensures Acceptable(sha, Doubled(sha, db, log))
    ensures !EveryRevisionHasAReceipt(Doubled(sha, db, log))
  {
    hide StandsFor, Acceptable, ReceiptsMatch, EveryRevisionHasAReceipt, Numbers, Injective, ReceiptRowAt;
    StandingIsAcceptable(sha, db, log);
    assert ReceiptsMatch(db) by { AcceptedReceiptsMatch(sha, db); }
    DoubledMatches(sha, db, log);
    DoubledRepeats(sha, db, log);
    OtherReceipts(sha, db, Doubled(sha, db, log).receipts);
    PairedExactlyIfNumbersDiffer(sha, Doubled(sha, db, log));
  }

  lemma AcceptedReceiptsMatch(sha: Hash, db: Database)
    requires Acceptable(sha, db)
    ensures ReceiptsMatch(db)
  {
    hide ReceiptsMatch, Chained, SnapshotMatches, HeadMatches;
  }

  lemma OtherReceipts(sha: Hash, db: Database, receipts: map<Id, ReceiptRow>)
    requires Acceptable(sha, db) && ReceiptsMatch(db.(receipts := receipts))
    ensures Acceptable(sha, db.(receipts := receipts))
  {
    hide ReceiptsMatch, Chained, SnapshotMatches;
  }

  lemma DoubledRepeats(sha: Hash, db: Database, log: seq<Entry>)
    requires StandsFor(sha, db, log) && |log| >= 2
    ensures !Injective(Numbers(Doubled(sha, db, log)))
  {
    hide EntryHash, HashAfter, EncodeCommand, Replay, HoldsSnapshots, HoldsRevisions;
    var numbers := Numbers(Doubled(sha, db, log));
    assert Requests(log)[0] != Requests(log)[1];
    assert db.receipts[log[0].request] == ReceiptRowAt(sha, log, 0);
    assert numbers[log[0].request] == numbers[log[1].request];
  }

  lemma DoubledMatches(sha: Hash, db: Database, log: seq<Entry>)
    requires StandsFor(sha, db, log) && |log| >= 2 && ReceiptsMatch(db)
    ensures Numberable(log) && ReceiptsMatch(Doubled(sha, db, log))
  {
    hide EntryHash, HashAfter, EncodeCommand, Replay, HoldsSnapshots, HoldsRevisions, Mismatched;
    var db' := Doubled(sha, db, log);
    var first := ReceiptRowAt(sha, log, 0);
    assert db.receipts[log[1].request] == ReceiptRowAt(sha, log, 1);
    assert db.receipts[log[0].request] == first;
    assert !Mismatched(first, db.revisions);
    assert db'.receipts.Keys == db.receipts.Keys;
    assert |db'.receipts.Keys| == |db'.receipts| && |db.receipts.Keys| == |db.receipts|;
    forall id | id in db'.receipts ensures !Mismatched(db'.receipts[id], db'.revisions) {
      assert id == log[1].request || db'.receipts[id] == db.receipts[id];
    }
  }

  /** Such databases exist: two tracks, committed under two requests. */
  lemma TwoCommitsStand(sha: Hash, r0: Id, r1: Id, a: Id, b: Id) returns (db: Database)
    requires r0 != r1 && a != b
    ensures StandsFor(sha, db, [Entry(r0, AddTrack(a)), Entry(r1, AddTrack(b))])
  {
    hide StandsFor, EntryHash, RevisionAt, ReceiptRowAt;
    var e0, e1 := Entry(r0, AddTrack(a)), Entry(r1, AddTrack(b));
    var log0: seq<Entry> := [];
    EmptyStands(sha);
    TwoTracksReplay(a, b);
    assert LogCommands(log0) == [];
    assert LogCommands(log0) + [e0.command] == [AddTrack(a)];
    CommitStands(sha, NEW_DATABASE, log0, e0);
    var first := Database(
      [RevisionAt(sha, log0 + [e0], 0)], map[r0 := ReceiptRowAt(sha, log0 + [e0], 0)],
      Some(HeadRow(1, EntryHash(sha, log0 + [e0], 0))), map[]);
    assert NEW_DATABASE.revisions + [RevisionAt(sha, log0 + [e0], 0)] == first.revisions;
    assert log0 + [e0] == [e0];
    assert LogCommands([e0]) + [e1.command] == [AddTrack(a), AddTrack(b)];
    CommitStands(sha, first, [e0], e1);
    assert [e0] + [e1] == [e0, e1];
    db := Database(
      first.revisions + [RevisionAt(sha, [e0] + [e1], 1)], first.receipts[r1 := ReceiptRowAt(sha, [e0] + [e1], 1)],
      Some(HeadRow(2, EntryHash(sha, [e0] + [e1], 1))), first.snapshots);
  }

  lemma TwoTracksReplay(a: Id, b: Id)
    requires a != b
    ensures Replay(EMPTY, [AddTrack(a)]).Ok? && Replay(EMPTY, [AddTrack(a), AddTrack(b)]).Ok?
  {
    var one, two := [AddTrack(a)], [AddTrack(a), AddTrack(b)];
    assert one[..0] == [] && two[..1] == one;
    assert Replay(EMPTY, one) == Ok(EMPTY.(tracks := map[a := Track(a, [])]));
  }
}
