/** Undo and redo: a vector of revisions with a cursor, against a zipper of commands. */
module Histories {
  import opened Wrappers
  import opened Bytes
  import opened Projects
  import opened Revisions

  datatype HistoryRevision = HistoryRevision(project: Project, hash: Digest)

  /** The fields of `EditorHistory` as a value, as `clone` sees them. */
  datatype History = History(revisions: seq<HistoryRevision>, cursor: nat)

  const NEW_HISTORY: History := History([], 0)

  predicate InBounds(h: History) {
    h.cursor <= |h.revisions|
  }

  function CurrentProject(h: History): Project
    requires InBounds(h)
  {
    if h.cursor == 0 then EMPTY else h.revisions[h.cursor - 1].project
  }

  function CurrentHash(h: History): Option<Digest>
    requires InBounds(h)
  {
    if h.cursor == 0 then None else Some(h.revisions[h.cursor - 1].hash)
  }

  function Apply(sha: Hash, h: History, command: Command): (r: Result<History, ModelError>)
    requires InBounds(h)
    ensures r.Ok? ==> InBounds(r.value) && r.value.cursor == h.cursor + 1 == |r.value.revisions|
  {
    var next :- Reduce(CurrentProject(h), command);
    var revision := HistoryRevision(next, RevisionHash(sha, CurrentHash(h), command));
    Ok(History(h.revisions[..h.cursor] + [revision], h.cursor + 1))
  }

  function Undo(h: History): (r: History)
    requires InBounds(h)
    ensures InBounds(r)
  {
    if h.cursor == 0 then h else h.(cursor := h.cursor - 1)
  }

  function Redo(h: History): (r: History)
    requires InBounds(h)
    ensures InBounds(r)
  {
    if h.cursor == |h.revisions| then h else h.(cursor := h.cursor + 1)
  }

  // The zipper: commands done, and commands undone that redo would bring back.

  datatype Zipper = Zipper(done: seq<Command>, undone: seq<Command>)

  function ZipApply(z: Zipper, command: Command): Zipper {
    if Replay(EMPTY, z.done + [command]).Ok? then Zipper(z.done + [command], []) else z
  }

  function ZipUndo(z: Zipper): Zipper {
    if z.done == [] then z
    else Zipper(z.done[..|z.done| - 1], [z.done[|z.done| - 1]] + z.undone)
  }

  function ZipRedo(z: Zipper): Zipper {
    if z.undone == [] then z
    else Zipper(z.done + [z.undone[0]], z.undone[1..])
  }

  /** Revision `i` of the vector is the replay of the first `i + 1` commands, done and undone alike. */
  ghost predicate HoldsReplay(sha: Hash, revisions: seq<HistoryRevision>, log: seq<Command>) {
    && |revisions| == |log|
    && forall i :: 0 < i <= |log| ==>
      && Replay(EMPTY, log[..i]) == Ok(revisions[i - 1].project)
      && ChainHash(sha, log[..i]) == Some(revisions[i - 1].hash)
  }

  ghost predicate Zips(sha: Hash, h: History, z: Zipper) {
    && h.cursor == |z.done|
    && HoldsReplay(sha, h.revisions, z.done + z.undone)
  }

  /** What the cursor shows is the replay of the done commands. */
  lemma CursorShowsReplay(sha: Hash, h: History, z: Zipper)
    requires Zips(sha, h, z)
    ensures InBounds(h)
    ensures Replay(EMPTY, z.done) == Ok(CurrentProject(h))
    ensures ChainHash(sha, z.done) == CurrentHash(h)
  {
    assert (z.done + z.undone)[..h.cursor] == z.done;
  }

  /** `apply` drops exactly the undone commands and adds one, or refuses and changes nothing. */
  lemma ApplyRefines(sha: Hash, h: History, z: Zipper, command: Command)
    requires Zips(sha, h, z) && InBounds(h)
    ensures
      var applied := Apply(sha, h, command);
      && (applied.Ok? <==> Replay(EMPTY, z.done + [command]).Ok?)
      && Zips(sha, if applied.Ok? then applied.value else h, ZipApply(z, command))
      && (applied.Err? ==> applied.error == Replay(EMPTY, z.done + [command]).error)
  {
    hide Reduce, RevisionHash, Replay, ChainHash;
    CursorShowsReplay(sha, h, z);
    ReplayExtended(z.done, command);
    ChainExtended(sha, z.done, command);
    var applied := Apply(sha, h, command);
    if applied.Ok? {
      var log := z.done + [command];
      assert log + [] == log;
      forall i | 0 < i <= |log|
        ensures Replay(EMPTY, log[..i]) == Ok(applied.value.revisions[i - 1].project)
        ensures ChainHash(sha, log[..i]) == Some(applied.value.revisions[i - 1].hash)
      {
        if i <= |z.done| {
          assert log[..i] == (z.done + z.undone)[..i];
        } else {
          assert log[..i] == log;
        }
      }
    }
  }

  lemma UndoRefines(sha: Hash, h: History, z: Zipper)
    requires Zips(sha, h, z) && InBounds(h)
    ensures Zips(sha, Undo(h), ZipUndo(z))
  {
    if z.done != [] {
      assert ZipUndo(z).done + ZipUndo(z).undone == z.done + z.undone;
    }
  }

  lemma RedoRefines(sha: Hash, h: History, z: Zipper)
    requires Zips(sha, h, z) && InBounds(h)
    ensures Zips(sha, Redo(h), ZipRedo(z))
  {
    if z.undone != [] {
      assert ZipRedo(z).done + ZipRedo(z).undone == z.done + z.undone;
    }
  }

  /** The vector is determined by the commands done and undone. */
  lemma ZipperDeterminesHistory(sha: Hash, g: History, h: History, z: Zipper)
    requires Zips(sha, g, z) && Zips(sha, h, z)
    ensures g == h
  {
    var log := z.done + z.undone;
    forall i | 0 <= i < |log| ensures g.revisions[i] == h.revisions[i] {
      assert Replay(EMPTY, log[..i + 1]) == Ok(g.revisions[i].project);
      assert Replay(EMPTY, log[..i + 1]) == Ok(h.revisions[i].project);
    }
  }

  lemma ZipsInBounds(sha: Hash, h: History, z: Zipper)
    requires Zips(sha, h, z)
    ensures InBounds(h) && |h.revisions| == |z.done| + |z.undone|
  {
  }

  lemma NothingZips(sha: Hash)
    ensures Zips(sha, NEW_HISTORY, Zipper([], []))
  {
  }

  class EditorHistory {
    const sha: Hash
    var revisions: seq<HistoryRevision>
    var cursor: nat
    /** The commands the cursor shows, and those that redo would bring back. */
    ghost var done: seq<Command>
    ghost var undone: seq<Command>

    ghost function Value(): History
      reads this
    {
      History(revisions, cursor)
    }

    /** The vector is the replay of every prefix of the commands done and undone. */
    ghost predicate Valid()
      reads this
    {
      Zips(sha, Value(), Zipper(done, undone))
    }

    constructor (sha: Hash)
      ensures Valid() && this.sha == sha && done == undone == []
    {
      this.sha := sha;
      revisions := [];
      cursor := 0;
      done, undone := [], [];
      new;
      NothingZips(sha);
    }

    /** `clone`. */
    constructor Clone(other: EditorHistory)
      requires other.Valid()
      ensures Valid() && sha == other.sha && done == other.done && undone == other.undone
    {
      sha := other.sha;
      revisions := other.revisions;
      cursor := other.cursor;
      done, undone := other.done, other.undone;
    }

    method GetProject() returns (p: Project)
      requires Valid()
      ensures Replay(EMPTY, done) == Ok(p)
    {
      hide Zips, Replay;
      CursorShowsReplay(sha, Value(), Zipper(done, undone));
      p := if cursor == 0 then EMPTY else revisions[cursor - 1].project;
    }

    method GetHash() returns (hash: Option<Digest>)
      requires Valid()
      ensures hash == ChainHash(sha, done)
    {
      hide Zips, ChainHash;
      CursorShowsReplay(sha, Value(), Zipper(done, undone));
      hash := if cursor == 0 then None else Some(revisions[cursor - 1].hash);
    }

    /** The command joins those done and the undone ones are lost; or it does not replay and nothing changes. */
    method ApplyCommand(command: Command) returns (r: Result<Digest, ModelError>)
      requires Valid()
      modifies this
      ensures Valid()
      ensures r.Ok? <==> Replay(EMPTY, old(done) + [command]).Ok?
      ensures r.Ok? ==> done == old(done) + [command] && undone == [] && Some(r.value) == ChainHash(sha, done)
      ensures r.Err? ==> r.error == Replay(EMPTY, old(done) + [command]).error
      ensures r.Err? ==> done == old(done) && undone == old(undone)
    {
      hide Zips, Replay, ChainHash, Reduce, RevisionHash;
      ghost var z := Zipper(done, undone);
      ZipsInBounds(sha, Value(), z);
      CursorShowsReplay(sha, Value(), z);
      ApplyRefines(sha, Value(), z, command);
      ReplayExtended(done, command);
      ChainExtended(sha, done, command);
      var project := GetProject();
      var next :- Reduce(project, command);
      var parent := GetHash();
      var revision := HistoryRevision(next, RevisionHash(sha, parent, command));
      revisions := revisions[..cursor];
      revisions := revisions + [revision];
      cursor := cursor + 1;
      done, undone := done + [command], [];
      r := Ok(revision.hash);
    }

    /** The last command done becomes the first one undone; the log they form together stays. */
    method UndoOnce() returns (moved: bool)
      requires Valid()
      modifies this
      ensures Valid() && done + undone == old(done + undone)
      ensures moved <==> old(done) != []
      ensures |done| == |old(done)| - if moved then 1 else 0
    {
      hide Replay, ChainHash;
      if cursor == 0 {
        return false;
      }
      cursor := cursor - 1;
      done, undone := done[..|done| - 1], [done[|done| - 1]] + undone;
      assert done + undone == old(done + undone);
      return true;
    }

    /** The first command undone is done again; the log they form together stays. */
    method RedoOnce() returns (moved: bool)
      requires Valid()
      modifies this
      ensures Valid() && done + undone == old(done + undone)
      ensures moved <==> old(undone) != []
      ensures |done| == |old(done)| + if moved then 1 else 0
    {
      hide Replay, ChainHash;
      if cursor == |revisions| {
        return false;
      }
      cursor := cursor + 1;
      done, undone := done + [undone[0]], undone[1..];
      assert done + undone == old(done + undone);
      return true;
    }
  }

  datatype Edit = ApplyEdit(command: Command) | UndoEdit | RedoEdit

  /** One edit; a refused command changes nothing. */
  function Edited(sha: Hash, h: History, edit: Edit): (r: History)
    requires InBounds(h)
    ensures InBounds(r)
  {
    match edit
    case ApplyEdit(command) => (var applied := Apply(sha, h, command); if applied.Ok? then applied.value else h)
    case UndoEdit => Undo(h)
    case RedoEdit => Redo(h)
  }

  function RunEdits(sha: Hash, h: History, edits: seq<Edit>): (r: History)
    requires InBounds(h)
    ensures InBounds(r)
    decreases |edits|
  {
    if edits == [] then h else RunEdits(sha, Edited(sha, h, edits[0]), edits[1..])
  }

  function ZipEdited(z: Zipper, edit: Edit): Zipper {
    match edit
    case ApplyEdit(command) => ZipApply(z, command)
    case UndoEdit => ZipUndo(z)
    case RedoEdit => ZipRedo(z)
  }

  function RunZipper(z: Zipper, edits: seq<Edit>): Zipper
    decreases |edits|
  {
    if edits == [] then z else RunZipper(ZipEdited(z, edits[0]), edits[1..])
  }

  lemma EditRefines(sha: Hash, h: History, z: Zipper, edit: Edit)
    requires InBounds(h) && Zips(sha, h, z)
    ensures Zips(sha, Edited(sha, h, edit), ZipEdited(z, edit))
  {
    hide Zips, Apply, Undo, Redo, ZipApply, ZipUndo, ZipRedo;
    match edit
    case ApplyEdit(command) => ApplyRefines(sha, h, z, command);
    case UndoEdit => UndoRefines(sha, h, z);
    case RedoEdit => RedoRefines(sha, h, z);
  }

  /** Every mix of edits keeps the history a picture of the zipper. */
  lemma {:induction false} EditsRefineZipper(sha: Hash, h: History, z: Zipper, edits: seq<Edit>)
    requires InBounds(h) && Zips(sha, h, z)
    ensures Zips(sha, RunEdits(sha, h, edits), RunZipper(z, edits))
    decreases |edits|
  {
    hide Zips, Edited, ZipEdited;
    if edits != [] {
      EditRefines(sha, h, z, edits[0]);
      EditsRefineZipper(sha, Edited(sha, h, edits[0]), ZipEdited(z, edits[0]), edits[1..]);
    }
  }

  /** From the empty history, after any edits: project and hash are the replay of the done commands. */
  lemma EveryHistoryShowsReplay(sha: Hash, edits: seq<Edit>)
    ensures
      var h := RunEdits(sha, NEW_HISTORY, edits);
      var done := RunZipper(Zipper([], []), edits).done;
      Replay(EMPTY, done) == Ok(CurrentProject(h)) && ChainHash(sha, done) == CurrentHash(h)
  {
    EditsRefineZipper(sha, NEW_HISTORY, Zipper([], []), edits);
    CursorShowsReplay(sha, RunEdits(sha, NEW_HISTORY, edits), RunZipper(Zipper([], []), edits));
  }

  function Times(edit: Edit, k: nat): (edits: seq<Edit>)
    ensures |edits| == k
  {
    seq(k, _ => edit)
  }

  lemma {:induction false} EditsConcatenate(sha: Hash, h: History, a: seq<Edit>, b: seq<Edit>)
    requires InBounds(h)
    ensures RunEdits(sha, h, a + b) == RunEdits(sha, RunEdits(sha, h, a), b)
    decreases |a|
  {
    hide Edited;
    if a == [] {
      assert a + b == b;
    } else {
      assert (a + b)[1..] == a[1..] + b;
      EditsConcatenate(sha, Edited(sha, h, a[0]), a[1..], b);
    }
  }

  lemma {:induction false} UndosMoveCursor(sha: Hash, h: History, k: nat)
    requires InBounds(h) && k <= h.cursor
    ensures RunEdits(sha, h, Times(UndoEdit, k)) == h.(cursor := h.cursor - k)
    decreases k
  {
    hide Apply;
    if k > 0 {
      assert Times(UndoEdit, k)[1..] == Times(UndoEdit, k - 1);
      UndosMoveCursor(sha, Undo(h), k - 1);
    }
  }

  lemma {:induction false} RedosMoveCursor(sha: Hash, h: History, k: nat)
    requires InBounds(h) && h.cursor + k <= |h.revisions|
    ensures RunEdits(sha, h, Times(RedoEdit, k)) == h.(cursor := h.cursor + k)
    decreases k
  {
    hide Apply;
    if k > 0 {
      assert Times(RedoEdit, k)[1..] == Times(RedoEdit, k - 1);
      RedosMoveCursor(sha, Redo(h), k - 1);
    }
  }

  /** On the revision vector, `k` undos then `k` redos change nothing, for every `k` up to the cursor. */
  lemma RedosUndoUndos(sha: Hash, h: History, k: nat)
    requires InBounds(h) && k <= h.cursor
    ensures RunEdits(sha, h, Times(UndoEdit, k) + Times(RedoEdit, k)) == h
  {
    EditsConcatenate(sha, h, Times(UndoEdit, k), Times(RedoEdit, k));
    UndosMoveCursor(sha, h, k);
    RedosMoveCursor(sha, h.(cursor := h.cursor - k), k);
  }

  /** After `k` undos the project and hash shown are those of the log without its last `k` commands. */
  lemma UndosShowEarlierReplay(sha: Hash, h: History, z: Zipper, k: nat)
    requires Zips(sha, h, z) && k <= |z.done|
    ensures InBounds(h)
    ensures
      var back := RunEdits(sha, h, Times(UndoEdit, k));
      && Replay(EMPTY, z.done[..|z.done| - k]) == Ok(CurrentProject(back))
      && ChainHash(sha, z.done[..|z.done| - k]) == CurrentHash(back)
  {
    hide Replay, ChainHash;
    UndosMoveCursor(sha, h, k);
    var n := |z.done| - k;
    var earlier := Zipper(z.done[..n], z.done[n..] + z.undone);
    assert earlier.done + earlier.undone == z.done + z.undone;
    CursorShowsReplay(sha, h.(cursor := n), earlier);
  }
}
