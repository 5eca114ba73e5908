/** The project model, its edit commands, and the reducer. */
module Projects {
  import opened Wrappers
  import opened Bytes
  import opened OrderedMaps
  import opened Rationals

  datatype Range = Range(start: Rational, end: Rational)

  /** Half-open and never empty. */
  type TimeRange = r: Range | Before(r.start, r.end) witness UNIT_RANGE

  const UNIT_RANGE: Range := Range(Fraction(0, 1), Fraction(1, 1))

  predicate Before(a: Rational, b: Rational) {
    Cmp(a, b) == Ordering.Less
  }

  function NewTimeRange(start: Rational, end: Rational): (r: Result<TimeRange, TimeError>)
    ensures r.Ok? <==> Value(start) < Value(end)
    ensures r.Ok? ==> r.value == Range(start, end)
    ensures r.Err? ==> r.error == InvalidRange
  {
    CmpOrdersValues(start, end);
    if Cmp(start, end) != Ordering.Less then Err(InvalidRange) else Ok(Range(start, end))
  }

  datatype AssetIdentity = AssetIdentity(contentSha256: Digest, byteLength: u64, providerId: Id)
  datatype Asset = Asset(id: Id, identity: AssetIdentity)
  datatype Track = Track(id: Id, clipIds: seq<Id>)
  datatype Clip = Clip(id: Id, assetId: Id, trackId: Id, timelineRange: TimeRange, sourceRange: TimeRange)

  const SCHEMA_VERSION: nat := 1

  datatype Project = Project(schemaVersion: nat, assets: map<Id, Asset>, tracks: map<Id, Track>, clips: map<Id, Clip>)

  const EMPTY: Project := Project(SCHEMA_VERSION, map[], map[], map[])

  datatype Command =
    | AddAsset(asset: Asset)
    | AddTrack(trackId: Id)
    | AddClip(clipId: Id, assetId: Id, onTrackId: Id, timelineRange: TimeRange, sourceRange: TimeRange)
    | MoveClip(clipId: Id, timelineRange: TimeRange)
    | RemoveClip(clipId: Id)

  datatype ModelError =
    | DuplicateAsset(id: Id) | MissingAsset(id: Id)
    | DuplicateTrack(id: Id) | MissingTrack(id: Id)
    | DuplicateClip(id: Id) | MissingClip(id: Id)
    | CorruptProject

  /** `filter(|entry| entry != clip_id)`. */
  function Without(ids: seq<Id>, id: Id): seq<Id> {
    if ids == [] then []
    else if ids[0] == id then Without(ids[1..], id)
    else [ids[0]] + Without(ids[1..], id)
  }

  function Reduce(p: Project, command: Command): (r: Result<Project, ModelError>) {
    match command
    case AddAsset(asset) =>
      if asset.id in p.assets then Err(DuplicateAsset(asset.id))
      else Ok(p.(assets := p.assets[asset.id := asset]))
    case AddTrack(trackId) =>
      if trackId in p.tracks then Err(DuplicateTrack(trackId))
      else Ok(p.(tracks := p.tracks[trackId := Track(trackId, [])]))
    case AddClip(clipId, assetId, trackId, timelineRange, sourceRange) =>
      if clipId in p.clips then Err(DuplicateClip(clipId))
      else if assetId !in p.assets then Err(MissingAsset(assetId))
      else if trackId !in p.tracks then Err(MissingTrack(trackId))
      else
        var track := p.tracks[trackId];
        Ok(p.(tracks := p.tracks[trackId := track.(clipIds := track.clipIds + [clipId])],
              clips := p.clips[clipId := Clip(clipId, assetId, trackId, timelineRange, sourceRange)]))
    case MoveClip(clipId, timelineRange) =>
      if clipId !in p.clips then Err(MissingClip(clipId))
      else Ok(p.(clips := p.clips[clipId := p.clips[clipId].(timelineRange := timelineRange)]))
    case RemoveClip(clipId) =>
      if clipId !in p.clips then Err(MissingClip(clipId))
      else
        var clip := p.clips[clipId];
        if clip.trackId !in p.tracks then Err(CorruptProject)
        else
          var track := p.tracks[clip.trackId];
          Ok(p.(tracks := p.tracks[clip.trackId := track.(clipIds := Without(track.clipIds, clipId))],
                clips := p.clips - {clipId}))
  }

  function Replay(p: Project, log: seq<Command>): (r: Result<Project, ModelError>) {
    if log == [] then Ok(p)
    else
      var before :- Replay(p, log[..|log| - 1]);
      Reduce(before, log[|log| - 1])
  }

  lemma ReplayExtended(log: seq<Command>, c: Command)
    requires Replay(EMPTY, log).Ok?
    ensures Replay(EMPTY, log + [c]) == Reduce(Replay(EMPTY, log).value, c)
  {
    hide Reduce;
    assert (log + [c])[..|log|] == log;
  }

  // Consistency: what `validate` is for, stated without counting.

  predicate TracksAgree(p: Project) {
    forall t | t in p.tracks :: p.tracks[t].id == t
  }

  /** A listed clip exists and names the track that lists it. */
  predicate ListsOwnClips(p: Project) {
    forall t, c | t in p.tracks && c in p.tracks[t].clipIds :: c in p.clips && p.clips[c].trackId == t
  }

  predicate ListsDistinctClips(p: Project) {
    forall t | t in p.tracks :: Distinct(p.tracks[t].clipIds)
  }

  /** Every clip is listed by the track it names, and its asset exists. */
  predicate ClipsArePlaced(p: Project) {
    forall c | c in p.clips ::
      && p.clips[c].assetId in p.assets
      && p.clips[c].trackId in p.tracks
      && c in p.tracks[p.clips[c].trackId].clipIds
  }

  /** The track lists partition the clips: each clip stands once, in the list of its own track. */
  predicate Consistent(p: Project) {
    TracksAgree(p) && ListsOwnClips(p) && ListsDistinctClips(p) && ClipsArePlaced(p)
  }

  /** The map keys repeat the identifiers inside, as the private constructors guarantee. */
  predicate Keyed(p: Project) {
    && p.schemaVersion == SCHEMA_VERSION
    && (forall a | a in p.assets :: p.assets[a].id == a)
    && (forall c | c in p.clips :: p.clips[c].id == c)
  }

  predicate Sound(p: Project) {
    Consistent(p) && Keyed(p)
  }

  lemma {:induction false} WithoutMembers(ids: seq<Id>, id: Id)
    ensures forall x :: x in Without(ids, id) <==> x in ids && x != id
    ensures Distinct(ids) ==> Distinct(Without(ids, id))
    ensures id !in ids ==> Without(ids, id) == ids
  {
    if ids != [] {
      WithoutMembers(ids[1..], id);
      assert ids == [ids[0]] + ids[1..];
      if Distinct(ids) {
        assert Distinct(ids[1..]);
        assert forall i :: 1 <= i < |ids| ==> ids[i] != ids[0];
        assert ids[0] !in ids[1..];
      }
    }
  }

  lemma {:induction false} WithoutAppended(ids: seq<Id>, last: Id, id: Id)
    ensures Without(ids + [last], id) == Without(ids, id) + (if last == id then [] else [last])
  {
    if ids == [] {
      assert ids + [last] == [last];
    } else {
      assert (ids + [last])[1..] == ids[1..] + [last];
      WithoutAppended(ids[1..], last, id);
    }
  }

  /** Every command keeps the project sound; a sound project never looks corrupt. */
  lemma ReduceKeepsSound(p: Project, command: Command)
    requires Sound(p)
    ensures Reduce(p, command).Ok? ==> Sound(Reduce(p, command).value)
    ensures Reduce(p, command) != Err(CorruptProject)
  {
    hide Sound, Before, Canonical;
    if Reduce(p, command).Ok? {
      match command
      case AddAsset(_) => AddAssetKeepsSound(p, command);
      case AddTrack(_) => AddTrackKeepsSound(p, command);
      case AddClip(_, _, _, _, _) => AddClipKeepsSound(p, command);
      case MoveClip(_, _) => MoveClipKeepsSound(p, command);
      case RemoveClip(_) => RemoveClipKeepsSound(p, command);
    } else {
      RemoveClipFindsTrack(p, command);
    }
  }

  lemma RemoveClipFindsTrack(p: Project, command: Command)
    requires Sound(p)
    ensures Reduce(p, command) != Err(CorruptProject)
  {
    hide Before, Canonical;
  }

  lemma AddAssetKeepsSound(p: Project, command: Command)
    requires Sound(p) && command.AddAsset? && Reduce(p, command).Ok?
    ensures Sound(Reduce(p, command).value)
  {
    hide Before, Canonical;
  }

  lemma AddTrackKeepsSound(p: Project, command: Command)
    requires Sound(p) && command.AddTrack? && Reduce(p, command).Ok?
    ensures Sound(Reduce(p, command).value)
  {
    hide Before, Canonical;
  }

  lemma MoveClipKeepsSound(p: Project, command: Command)
    requires Sound(p) && command.MoveClip? && Reduce(p, command).Ok?
    ensures Sound(Reduce(p, command).value)
  {
    hide Before, Canonical;
  }

  lemma RemoveClipKeepsSound(p: Project, command: Command)
    requires Sound(p) && command.RemoveClip? && Reduce(p, command).Ok?
    ensures Sound(Reduce(p, command).value)
  {
    hide Before, Canonical;
    WithoutMembers(p.tracks[p.clips[command.clipId].trackId].clipIds, command.clipId);
  }

  lemma NewClipIsUnlisted(p: Project, clipId: Id, trackId: Id)
    requires Sound(p) && clipId !in p.clips && trackId in p.tracks
    ensures clipId !in p.tracks[trackId].clipIds
  {
    hide Before, Canonical;
  }

  lemma AddClipKeepsLists(p: Project, command: Command)
    requires Sound(p) && command.AddClip? && Reduce(p, command).Ok?
    ensures
      var q := Reduce(p, command).value;
      TracksAgree(q) && ListsOwnClips(q) && ListsDistinctClips(q)
  {
    hide Before, Canonical;
    var ids := p.tracks[command.onTrackId].clipIds;
    NewClipIsUnlisted(p, command.clipId, command.onTrackId);
    assert Distinct(ids + [command.clipId]);
  }

  lemma AddClipKeepsPlaces(p: Project, command: Command)
    requires Sound(p) && command.AddClip? && Reduce(p, command).Ok?
    ensures ClipsArePlaced(Reduce(p, command).value) && Keyed(Reduce(p, command).value)
  {
    hide Before, Canonical, Distinct;
  }

  lemma AddClipKeepsSound(p: Project, command: Command)
    requires Sound(p) && command.AddClip? && Reduce(p, command).Ok?
    ensures Sound(Reduce(p, command).value)
  {
    AddClipKeepsLists(p, command);
    AddClipKeepsPlaces(p, command);
    hide Reduce, TracksAgree, ListsOwnClips, ListsDistinctClips, ClipsArePlaced, Keyed;
  }

  lemma {:induction false} ReplayKeepsSound(p: Project, log: seq<Command>)
    requires Sound(p)
    ensures Replay(p, log).Ok? ==> Sound(Replay(p, log).value)
    ensures Replay(p, log) != Err(CorruptProject)
  {
    hide Sound, Reduce;
    if log != [] {
      ReplayKeepsSound(p, log[..|log| - 1]);
      if Replay(p, log[..|log| - 1]).Ok? {
        ReduceKeepsSound(Replay(p, log[..|log| - 1]).value, log[|log| - 1]);
      }
    }
  }

  /** Removing the clip just added restores the project. */
  lemma RemoveUndoesAdd(p: Project, command: Command)
    requires Sound(p) && command.AddClip? && Reduce(p, command).Ok?
    ensures Reduce(Reduce(p, command).value, RemoveClip(command.clipId)) == Ok(p)
  {
    hide Sound, Before, Canonical;
    var clipId := command.clipId;
    var ids := p.tracks[command.onTrackId].clipIds;
    NewClipIsUnlisted(p, clipId, command.onTrackId);
    WithoutMembers(ids, clipId);
    WithoutAppended(ids, clipId, clipId);
    assert ids + [] == ids;
    var q := Reduce(p, command).value;
    var r := Reduce(q, RemoveClip(clipId)).value;
    assert r.clips == p.clips;
    assert r.tracks == p.tracks;
  }
}
