/** The store's tables, what `restore` accepts, and the log a healthy database stands for. */
module Databases {
  import opened Wrappers
  import opened Bytes
  import opened OrderedMaps
  import opened Rationals
  import opened Projects
  import opened Codec
  import opened ProjectCodec
  import opened Revisions

  datatype FaultPoint =
    | BeforeCommit | AfterCommitBeforeResponse
    | BeforeSnapshot | DuringSnapshot | AfterSnapshot
    | BeforeCheckpoint | DuringCheckpoint | AfterCheckpoint
    | BeforeCompaction | DuringCompaction | AfterCompaction
    | BeforeArchive | DuringArchive | AfterArchive

  datatype MaintenanceError = Snapshot | Checkpoint | Compaction | Archive | Fault(point: FaultPoint)

  datatype StoreError =
    | Sql
    | Model(error: ModelError)
    | Ambiguous(requestId: Id)
    | RequestConflict(requestId: Id)
    | Injected(point: FaultPoint)
    | Maintenance(cause: MaintenanceError)
    | CorruptStore

  datatype CommitReceipt = CommitReceipt(requestId: Id, revisionHash: Digest, sequence: i64)

  // Tables. Blobs are byte strings of any length; `revisions` stands in the order of its primary key.

  datatype RevisionRow = RevisionRow(sequence: i64, hash: seq<byte>, parent: Option<seq<byte>>, command: seq<byte>)
  datatype ReceiptRow = ReceiptRow(hash: seq<byte>, sequence: i64, command: seq<byte>)
  datatype HeadRow = HeadRow(sequence: i64, hash: seq<byte>)
  datatype SnapshotRow = SnapshotRow(hash: seq<byte>, project: seq<byte>, digest: seq<byte>)

  datatype Database = Database(
    revisions: seq<RevisionRow>,
    receipts: map<Id, ReceiptRow>,
    head: Option<HeadRow>,
    snapshots: map<i64, SnapshotRow>)

  const NEW_DATABASE: Database := Database([], map[], None, map[])

  // What a database must say to be accepted.

  predicate Decodes(rows: seq<RevisionRow>) {
    forall i :: 0 <= i < |rows| ==> DecodeCommand(rows[i].command).Ok?
  }

  function Commands(rows: seq<RevisionRow>): (log: seq<Command>)
    requires Decodes(rows)
    ensures |log| == |rows|
  {
    seq(|rows|, i requires 0 <= i < |rows| => DecodeCommand(rows[i].command).value)
  }

  /** Row `i` has the next number, its parent's hash, and its own. */
  predicate Linked(sha: Hash, rows: seq<RevisionRow>, i: nat)
    requires Decodes(rows) && i < |rows|
  {
    var log := Commands(rows);
    && rows[i].sequence == i + 1
    && rows[i].parent == ChainHash(sha, log[..i])
    && rows[i].hash == RevisionHash(sha, ChainHash(sha, log[..i]), log[i])
  }

  predicate Chained(sha: Hash, rows: seq<RevisionRow>) {
    && Decodes(rows)
    && (forall i :: 0 <= i < |rows| ==> Linked(sha, rows, i))
    && Replay(EMPTY, Commands(rows)).Ok?
  }

  predicate IsNewest(snapshots: map<i64, SnapshotRow>, k: i64) {
    k in snapshots && forall j | j in snapshots :: j <= k
  }

  /** The snapshot repeats the replay of the first `k` commands. */
  predicate SnapshotMatches(sha: Hash, rows: seq<RevisionRow>, k: i64, s: SnapshotRow)
    requires Chained(sha, rows)
  {
    && 1 <= k <= |rows|
    && s.hash == rows[k - 1].hash
    && Replay(EMPTY, Commands(rows)[..k]).Ok?
    && s.project == EncodeProject(Replay(EMPTY, Commands(rows)[..k]).value)
    && s.digest == sha(s.project)
  }

  predicate HeadMatches(db: Database) {
    match db.head
    case None => db.revisions == []
    case Some(h) =>
      && db.revisions != []
      && h.sequence == |db.revisions| && h.hash == db.revisions[|db.revisions| - 1].hash
  }

  predicate Joins(receipt: ReceiptRow, row: RevisionRow) {
    row.sequence == receipt.sequence && row.hash == receipt.hash
  }

  /** The join of `validate_receipts` finds a receipt without its revision or with another command. */
  predicate Mismatched(receipt: ReceiptRow, rows: seq<RevisionRow>) {
    || (forall i :: 0 <= i < |rows| ==> !Joins(receipt, rows[i]))
    || (exists i :: 0 <= i < |rows| && Joins(receipt, rows[i]) && rows[i].command != receipt.command)
  }

  predicate ReceiptsMatch(db: Database) {
    && |db.receipts| == |db.revisions|
    && forall id | id in db.receipts :: !Mismatched(db.receipts[id], db.revisions)
  }

  predicate Acceptable(sha: Hash, db: Database) {
    && Chained(sha, db.revisions)
    && (forall k | k in db.snapshots ::
          IsNewest(db.snapshots, k) ==> SnapshotMatches(sha, db.revisions, k, db.snapshots[k]))
    && ReceiptsMatch(db)
    && HeadMatches(db)
  }

  // Replays of prefixes.

  lemma {:induction false} PrefixReplays(log: seq<Command>, k: nat)
    requires k <= |log| && Replay(EMPTY, log).Ok?
    ensures Replay(EMPTY, log[..k]).Ok?
    decreases |log|
  {
    hide Reduce;
    if k == |log| {
      assert log[..k] == log;
    } else {
      var front := log[..|log| - 1];
      PrefixReplays(front, k);
      assert front[..k] == log[..k];
    }
  }

  lemma {:induction false} CountsBounded(log: seq<Command>)
    requires Replay(EMPTY, log).Ok?
    ensures
      var p := Replay(EMPTY, log).value;
      |p.assets| <= |log| && |p.tracks| <= |log| && |p.clips| <= |log|
  {
    if log != [] {
      CountsBounded(log[..|log| - 1]);
      ReduceGrowsByOne(Replay(EMPTY, log[..|log| - 1]).value, log[|log| - 1]);
    }
  }

  lemma UpdateCount<V>(m: map<Id, V>, k: Id, v: V)
    ensures |m[k := v]| <= |m| + 1
    ensures k in m ==> |m[k := v]| == |m|
  {
    assert m[k := v].Keys == m.Keys + {k};
    assert |m[k := v].Keys| == |m[k := v]|;
    assert k in m ==> m.Keys + {k} == m.Keys;
  }

  lemma RemoveCount<V>(m: map<Id, V>, k: Id)
    ensures |m - {k}| <= |m|
  {
    assert (m - {k}).Keys == m.Keys - {k};
    SubsetIsSmaller((m - {k}).Keys, m.Keys);
  }

  lemma ReduceGrowsByOne(p: Project, command: Command)
    requires Reduce(p, command).Ok?
    ensures
      var q := Reduce(p, command).value;
      |q.assets| <= |p.assets| + 1 && |q.tracks| <= |p.tracks| + 1 && |q.clips| <= |p.clips| + 1
  {
    hide Before, Canonical, Without;
    var q := Reduce(p, command).value;
    match command
    case AddAsset(asset) => UpdateCount(p.assets, asset.id, asset);
    case AddTrack(trackId) => UpdateCount(p.tracks, trackId, q.tracks[trackId]);
    case AddClip(clipId, _, trackId, _, _) =>
      UpdateCount(p.clips, clipId, q.clips[clipId]);
      UpdateCount(p.tracks, trackId, q.tracks[trackId]);
    case MoveClip(clipId, _) => UpdateCount(p.clips, clipId, q.clips[clipId]);
    case RemoveClip(clipId) =>
      RemoveCount(p.clips, clipId);
      UpdateCount(p.tracks, p.clips[clipId].trackId, q.tracks[p.clips[clipId].trackId]);
  }

  /** A project replayed from as many commands as an `i64` can number is sound and fits its encoding. */
  lemma ReplayedIsEncodable(log: seq<Command>)
    requires Replay(EMPTY, log).Ok? && |log| < TWO_TO_THE_63
    ensures Sound(Replay(EMPTY, log).value) && Storable(Replay(EMPTY, log).value)
  {
    hide Replay, Before, Canonical;
    assert Sound(EMPTY);
    ReplayKeepsSound(EMPTY, log);
    CountsBounded(log);
  }

  // Restore.

  type Restored = (Project, Option<Digest>, i64)

  predicate HashLength(b: seq<byte>) {
    |b| == 32
  }

  /** The checks on the newest snapshot before the rows are read. */
  predicate SnapshotLooksSound(sha: Hash, rows: seq<RevisionRow>, k: i64, s: SnapshotRow) {
    && DecodeProject(s.project).Ok?
    && sha(EncodeProject(DecodeProject(s.project).value)) == s.digest
    && HashLength(s.hash)
    && exists i :: 0 <= i < |rows| && rows[i].sequence == k && rows[i].hash == s.hash
  }

  lemma {:induction false} NewestExists(keys: set<i64>) returns (k: i64)
    requires keys != {}
    ensures k in keys && forall j | j in keys :: j <= k
  {
    var x :| x in keys;
    var rest := keys - {x};
    if rest == {} {
      assert forall j | j in keys :: j == x || j in rest;
      k := x;
    } else {
      var y := NewestExists(rest);
      k := if x > y then x else y;
      assert forall j | j in keys :: j == x || j in rest;
    }
  }

  /** `SELECT ... FROM snapshots ORDER BY sequence DESC LIMIT 1`. */
  function NewestSnapshot(snapshots: map<i64, SnapshotRow>): (newest: Option<i64>)
    ensures newest.None? <==> snapshots == map[]
    ensures newest.Some? ==> IsNewest(snapshots, newest.value)
  {
    if snapshots == map[] then None
    else
      assert exists k :: k in snapshots.Keys && IsNewest(snapshots, k) by {
        assert snapshots.Keys != {};
        var w := NewestExists(snapshots.Keys);
        assert IsNewest(snapshots, w);
      }
      var k :| k in snapshots.Keys && IsNewest(snapshots, k);
      Some(k)
  }

  /** What the loop checks of row `i` once the rows before it have been replayed. */
  predicate RowContinues(sha: Hash, row: RevisionRow, i: nat, project: Project, head: Option<Digest>) {
    && row.sequence == i + 1
    && DecodeCommand(row.command).Ok?
    && row.parent == head
    && row.hash == RevisionHash(sha, head, DecodeCommand(row.command).value)
    && Reduce(project, DecodeCommand(row.command).value).Ok?
  }

  lemma CommandsPrefix(rows: seq<RevisionRow>, n: nat)
    requires n <= |rows| && Decodes(rows)
    ensures Decodes(rows[..n]) && Commands(rows[..n]) == Commands(rows)[..n]
  {
  }

  lemma LinkedInPrefix(sha: Hash, rows: seq<RevisionRow>, n: nat, i: nat)
    requires i < n <= |rows| && Decodes(rows)
    ensures Decodes(rows[..n])
    ensures Linked(sha, rows[..n], i) <==> Linked(sha, rows, i)
  {
    CommandsPrefix(rows, n);
    assert Commands(rows)[..n][..i] == Commands(rows)[..i];
  }

  lemma ChainedPrefix(sha: Hash, rows: seq<RevisionRow>, n: nat)
    requires n <= |rows| && Chained(sha, rows)
    ensures Chained(sha, rows[..n]) && Commands(rows[..n]) == Commands(rows)[..n]
  {
    hide Linked, Commands, DecodeCommand, Replay;
    CommandsPrefix(rows, n);
    forall i | 0 <= i < n ensures Linked(sha, rows[..n], i) {
      LinkedInPrefix(sha, rows, n, i);
    }
    PrefixReplays(Commands(rows), n);
  }

  lemma CommandsExtended(rows: seq<RevisionRow>, i: nat)
    requires i < |rows| && Decodes(rows[..i]) && DecodeCommand(rows[i].command).Ok?
    ensures Decodes(rows[..i + 1])
    ensures Commands(rows[..i + 1]) == Commands(rows[..i]) + [DecodeCommand(rows[i].command).value]
  {
    hide DecodeCommand;
    assert rows[..i + 1] == rows[..i] + [rows[i]];
    assert forall j :: 0 <= j < i ==> rows[..i + 1][j] == rows[..i][j];
  }

  /** One turn of the loop: the chain grows by row `i` exactly when its checks pass. */
  lemma ChainGrows(sha: Hash, rows: seq<RevisionRow>, i: nat, project: Project, head: Option<Digest>)
    requires i < |rows| && Chained(sha, rows[..i])
    requires Replay(EMPTY, Commands(rows[..i])) == Ok(project) && head == ChainHash(sha, Commands(rows[..i]))
    requires RowContinues(sha, rows[i], i, project, head)
    ensures Chained(sha, rows[..i + 1])
    ensures Replay(EMPTY, Commands(rows[..i + 1])) == Reduce(project, DecodeCommand(rows[i].command).value)
    ensures ChainHash(sha, Commands(rows[..i + 1]))
      == Some(RevisionHash(sha, head, DecodeCommand(rows[i].command).value))
  {
    hide DecodeCommand, RevisionHash, Reduce, Replay, ChainHash, Commands;
    var log, c := Commands(rows[..i]), DecodeCommand(rows[i].command).value;
    CommandsExtended(rows, i);
    ReplayExtended(log, c);
    ChainExtended(sha, log, c);
    var longer := rows[..i + 1];
    forall j | 0 <= j < i + 1 ensures Linked(sha, longer, j) {
      if j < i {
        assert longer[..i] == rows[..i];
        LinkedInPrefix(sha, longer, i, j);
      } else {
        assert Commands(longer)[..i] == log;
      }
    }
  }

  lemma ChainContinues(sha: Hash, rows: seq<RevisionRow>, i: nat)
    requires i < |rows| && Chained(sha, rows)
    ensures Chained(sha, rows[..i])
    ensures RowContinues(sha, rows[i], i,
      Replay(EMPTY, Commands(rows[..i])).value, ChainHash(sha, Commands(rows[..i])))
  {
    hide DecodeCommand, RevisionHash, Reduce, ChainHash, Commands, Replay;
    ChainedPrefix(sha, rows, i);
    var log := Commands(rows);
    assert Linked(sha, rows, i);
    PrefixReplays(log, i);
    PrefixReplays(log, i + 1);
    assert log[..i + 1] == log[..i] + [log[i]];
    ReplayExtended(log[..i], log[i]);
    assert log[i] == DecodeCommand(rows[i].command).value by { CommandAt(rows, i); }
  }

  lemma CommandAt(rows: seq<RevisionRow>, i: nat)
    requires Decodes(rows) && i < |rows|
    ensures Commands(rows)[i] == DecodeCommand(rows[i].command).value
  {
  }

  lemma SnapshotMatchesInPrefix(sha: Hash, rows: seq<RevisionRow>, n: nat, k: i64, s: SnapshotRow)
    requires n <= |rows| && Chained(sha, rows) && k <= n
    ensures Chained(sha, rows[..n])
    ensures SnapshotMatches(sha, rows[..n], k, s) <==> SnapshotMatches(sha, rows, k, s)
  {
    hide Linked, EncodeProject, Replay, Commands;
    ChainedPrefix(sha, rows, n);
    assert k >= 0 ==> Commands(rows)[..n][..k] == Commands(rows)[..k];
  }

  /** A chain is short enough for its numbers, so its projects can be encoded. */
  lemma ChainedFits(sha: Hash, rows: seq<RevisionRow>)
    requires Chained(sha, rows)
    ensures |rows| < TWO_TO_THE_63
  {
    if rows != [] {
      assert Linked(sha, rows, |rows| - 1);
    }
  }

  /** A snapshot that repeats the replay passes the first checks: by the project round trip. */
  lemma MatchingSnapshotLooksSound(sha: Hash, rows: seq<RevisionRow>, k: i64, s: SnapshotRow)
    requires Chained(sha, rows) && SnapshotMatches(sha, rows, k, s)
    ensures SnapshotLooksSound(sha, rows, k, s)
  {
    hide DecodeProject, EncodeProject, RevisionHash, Replay, Commands, Sound, Storable;
    var log := Commands(rows)[..k];
    ChainedFits(sha, rows);
    ReplayedIsEncodable(log);
    ProjectRoundTrip(Replay(EMPTY, log).value);
    assert Linked(sha, rows, k - 1);
    assert rows[k - 1].sequence == k;
  }

  predicate SnapshotDone(sha: Hash, rows: seq<RevisionRow>, snapshot: Option<i64>, snapshots: map<i64, SnapshotRow>)
    requires Chained(sha, rows)
    requires snapshot.Some? ==> snapshot.value in snapshots
  {
    snapshot.Some? ==> SnapshotMatches(sha, rows, snapshot.value, snapshots[snapshot.value])
  }

  lemma NewestDecides(sha: Hash, db: Database)
    requires Chained(sha, db.revisions)
    ensures
      var newest := NewestSnapshot(db.snapshots);
      && (newest.Some? ==> newest.value in db.snapshots)
      && (SnapshotDone(sha, db.revisions, newest, db.snapshots) <==>
          forall k | k in db.snapshots ::
            IsNewest(db.snapshots, k) ==> SnapshotMatches(sha, db.revisions, k, db.snapshots[k]))
  {
    hide SnapshotMatches, Chained;
    var newest := NewestSnapshot(db.snapshots);
    if newest.Some? {
      forall k | k in db.snapshots && IsNewest(db.snapshots, k) ensures k == newest.value {
        assert k <= newest.value && newest.value <= k;
      }
    }
  }

  /** The loop reads the rows once, in order; the snapshot is compared when its row comes by. */
  method Restore(sha: Hash, db: Database) returns (r: Result<Restored, StoreError>)
    ensures r.Ok? <==> Acceptable(sha, db)
    ensures r.Ok? ==> r.value.0 == Replay(EMPTY, Commands(db.revisions)).value
    ensures r.Ok? ==> r.value.1 == ChainHash(sha, Commands(db.revisions))
    ensures r.Ok? ==> r.value.2 == |db.revisions|
    ensures r.Err? ==> r.error == CorruptStore
  {
    hide Linked, SnapshotMatches, SnapshotLooksSound, DecodeProject, EncodeProject, DecodeCommand, RevisionHash, Reduce,
      Replay, ChainHash, Commands, ReceiptsMatch, HeadMatches, NewestSnapshot, Decodes, IsNewest;
    var rows := db.revisions;
    var snapshot := NewestSnapshot(db.snapshots);
    assert snapshot.Some? ==> snapshot.value in db.snapshots by { NewestIsStored(db.snapshots); }
    if snapshot.Some? && !SnapshotLooksSound(sha, rows, snapshot.value, db.snapshots[snapshot.value]) {
      UnsoundSnapshotRefuses(sha, db);
      return Err(CorruptStore);
    }
    var project, head, sequence: i64 := EMPTY, None, 0;
    var matched := snapshot.None?;
    EmptyChain(sha, rows, snapshot, db.snapshots);
    for i := 0 to |rows|
      invariant sequence == i
      invariant Chained(sha, rows[..i])
      invariant Replay(EMPTY, Commands(rows[..i])) == Ok(project)
      invariant head == ChainHash(sha, Commands(rows[..i]))
      invariant matched <==> SnapshotDone(sha, rows[..i], snapshot, db.snapshots)
    {
      var row := rows[i];
      var command := DecodeCommand(row.command);
      if !(row.sequence == sequence + 1) || command.Err?
        || (row.parent.Some? && !HashLength(row.parent.value)) || row.parent != head
        || !HashLength(row.hash) || RevisionHash(sha, head, command.value) != row.hash
        || Reduce(project, command.value).Err?
      {
        BrokenChainRefuses(sha, db, i, project, head);
        return Err(CorruptStore);
      }
      ChainGrows(sha, rows, i, project, head);
      project := Reduce(project, command.value).value;
      head := Some(RevisionHash(sha, head, command.value));
      sequence := row.sequence;
      if snapshot.Some? && sequence == snapshot.value {
        var s := db.snapshots[snapshot.value];
        SnapshotAtItsRow(sha, rows, i + 1, s, project);
        if !HashLength(s.hash) || head != Some(s.hash) || EncodeProject(project) != s.project
          || sha(EncodeProject(project)) != s.digest
        {
          MismatchedSnapshotRefuses(sha, db, i + 1);
          return Err(CorruptStore);
        }
        matched := true;
      } else {
        SnapshotStaysDone(sha, rows, i, snapshot, db.snapshots);
      }
    }
    assert rows[..|rows|] == rows;
    NewestDecides(sha, db);
    if !matched || !ReceiptsMatch(db) {
      return Err(CorruptStore);
    }
    HeadAgrees(sha, db);
    match db.head {
      case None =>
        if sequence != 0 { return Err(CorruptStore); }
      case Some(h) =>
        if h.sequence != sequence || !HashLength(h.hash) || head != Some(h.hash) { return Err(CorruptStore); }
    }
    r := Ok((project, head, sequence));
  }

  lemma NewestIsStored(snapshots: map<i64, SnapshotRow>)
    ensures
      var newest := NewestSnapshot(snapshots);
      newest.Some? ==> newest.value in snapshots && IsNewest(snapshots, newest.value)
  {
  }

  lemma UnsoundSnapshotRefuses(sha: Hash, db: Database)
    requires
      var newest := NewestSnapshot(db.snapshots);
      newest.Some? && newest.value in db.snapshots
        && !SnapshotLooksSound(sha, db.revisions, newest.value, db.snapshots[newest.value])
    ensures !Acceptable(sha, db)
  {
    hide SnapshotMatches, SnapshotLooksSound, Chained;
    var k := NewestSnapshot(db.snapshots).value;
    if Acceptable(sha, db) {
      MatchingSnapshotLooksSound(sha, db.revisions, k, db.snapshots[k]);
    }
  }

  lemma EmptyChain(sha: Hash, rows: seq<RevisionRow>, snapshot: Option<i64>, snapshots: map<i64, SnapshotRow>)
    requires snapshot.Some? ==> snapshot.value in snapshots
    ensures rows[..0] == [] && Chained(sha, []) && Commands([]) == []
    ensures Replay(EMPTY, []) == Ok(EMPTY) && ChainHash(sha, []) == None
    ensures SnapshotDone(sha, [], snapshot, snapshots) <==> snapshot.None?
  {
  }

  lemma BrokenChainRefuses(sha: Hash, db: Database, i: nat, project: Project, head: Option<Digest>)
    requires i < |db.revisions| && Chained(sha, db.revisions[..i])
    requires Replay(EMPTY, Commands(db.revisions[..i])) == Ok(project)
    requires head == ChainHash(sha, Commands(db.revisions[..i]))
    requires !RowContinues(sha, db.revisions[i], i, project, head)
    ensures !Acceptable(sha, db)
  {
    hide Chained, RowContinues, ReceiptsMatch, HeadMatches, Replay, Commands, ChainHash;
    if Acceptable(sha, db) {
      ChainContinues(sha, db.revisions, i);
    }
  }

  lemma SnapshotAtItsRow(sha: Hash, rows: seq<RevisionRow>, n: i64, s: SnapshotRow, project: Project)
    requires 1 <= n <= |rows| && Chained(sha, rows[..n])
    requires Replay(EMPTY, Commands(rows[..n])) == Ok(project)
    ensures SnapshotMatches(sha, rows[..n], n, s) <==>
      s.hash == rows[n - 1].hash && EncodeProject(project) == s.project && sha(EncodeProject(project)) == s.digest
    ensures ChainHash(sha, Commands(rows[..n])) == Some(rows[n - 1].hash)
  {
    hide EncodeProject, RevisionHash, Replay, DecodeCommand;
    var log := Commands(rows[..n]);
    assert log[..n] == log;
    assert Linked(sha, rows[..n], n - 1);
  }

  lemma MismatchedSnapshotRefuses(sha: Hash, db: Database, k: i64)
    requires 1 <= k <= |db.revisions| && Chained(sha, db.revisions[..k])
    requires NewestSnapshot(db.snapshots) == Some(k) && k in db.snapshots
    requires !SnapshotMatches(sha, db.revisions[..k], k, db.snapshots[k])
    ensures !Acceptable(sha, db)
  {
    hide SnapshotMatches, Chained, ReceiptsMatch, HeadMatches;
    if Acceptable(sha, db) {
      NewestIsStored(db.snapshots);
      SnapshotMatchesInPrefix(sha, db.revisions, k, k, db.snapshots[k]);
    }
  }

  lemma SnapshotStaysDone(
      sha: Hash, rows: seq<RevisionRow>, i: nat, snapshot: Option<i64>, snapshots: map<i64, SnapshotRow>)
    requires i < |rows| && Chained(sha, rows[..i]) && Chained(sha, rows[..i + 1])
    requires snapshot.Some? ==> snapshot.value in snapshots && snapshot.value != i + 1
    ensures SnapshotDone(sha, rows[..i + 1], snapshot, snapshots) <==> SnapshotDone(sha, rows[..i], snapshot, snapshots)
  {
    hide Chained, EncodeProject, Replay, Commands;
    if snapshot.Some? && snapshot.value <= i {
      var longer := rows[..i + 1];
      assert longer[..i] == rows[..i];
      SnapshotMatchesInPrefix(sha, longer, i, snapshot.value, snapshots[snapshot.value]);
    }
  }

  lemma HeadAgrees(sha: Hash, db: Database)
    requires Chained(sha, db.revisions)
    ensures HeadMatches(db) <==>
      match db.head
      case None => |db.revisions| == 0
      case Some(h) => h.sequence == |db.revisions| && ChainHash(sha, Commands(db.revisions)) == Some(h.hash)
  {
    hide RevisionHash, Replay, DecodeCommand;
    if db.revisions != [] {
      var n := |db.revisions|;
      assert Linked(sha, db.revisions, n - 1);
      assert Commands(db.revisions)[..n] == Commands(db.revisions);
    }
  }
}
