/** What a log of commands means, read off the log itself instead of running it, and which projects a log can build. */
module Replays {
  import opened Wrappers
  import opened Bytes
  import opened OrderedMaps
  import opened Rationals
  import opened Projects

  // The preconditions of the commands.

  /** Why the reducer refuses a command on a project, if it does. */
  predicate IsRefusal(p: Project, c: Command, error: ModelError) {
    match c
    case AddAsset(asset) => asset.id in p.assets && error == DuplicateAsset(asset.id)
    case AddTrack(t) => t in p.tracks && error == DuplicateTrack(t)
    case AddClip(k, a, t, _, _) =>
      || (k in p.clips && error == DuplicateClip(k))
      || (k !in p.clips && a !in p.assets && error == MissingAsset(a))
      || (k !in p.clips && a in p.assets && t !in p.tracks && error == MissingTrack(t))
    case MoveClip(k, _) => k !in p.clips && error == MissingClip(k)
    case RemoveClip(k) => k !in p.clips && error == MissingClip(k)
  }

  /** A consistent project refuses a command exactly for one of these reasons. */
  lemma RefusedExactly(p: Project, c: Command, error: ModelError)
    requires Sound(p)
    ensures Reduce(p, c) == Err(error) <==> IsRefusal(p, c, error)
  {
    hide Before, Canonical, Without;
  }

  // Reading a log.

  predicate AddsAsset(log: seq<Command>, i: nat, k: Id) {
    i < |log| && log[i].AddAsset? && log[i].asset.id == k
  }

  predicate AddsTrack(log: seq<Command>, i: nat, k: Id) {
    i < |log| && log[i] == AddTrack(k)
  }

  predicate AddsClip(log: seq<Command>, i: nat, k: Id) {
    i < |log| && log[i].AddClip? && log[i].clipId == k
  }

  predicate RemovedAfter(log: seq<Command>, i: nat, k: Id) {
    exists j :: i < j < |log| && log[j] == RemoveClip(k)
  }

  /** Command `i` adds the clip, and no later command removes it. */
  predicate IsLive(log: seq<Command>, i: nat, k: Id) {
    AddsClip(log, i, k) && !RemovedAfter(log, i, k)
  }

  /** The clips added to a track by the first `n` commands and never removed later, in that order. */
  function LiveClips(log: seq<Command>, t: Id, n: nat): seq<Id>
    requires n <= |log|
  {
    if n == 0 then []
    else
      var c := log[n - 1];
      LiveClips(log, t, n - 1)
      + if c.AddClip? && c.onTrackId == t && !RemovedAfter(log, n - 1, c.clipId) then [c.clipId] else []
  }

  /** Where the last command that places the clip puts it. */
  function PlacedAt(log: seq<Command>, k: Id): Option<TimeRange> {
    if log == [] then None
    else
      var c := log[|log| - 1];
      if (c.AddClip? || c.MoveClip?) && c.clipId == k then Some(c.timelineRange)
      else PlacedAt(log[..|log| - 1], k)
  }

  ghost predicate AssetsMean(log: seq<Command>, assets: map<Id, Asset>) {
    && (forall k :: k in assets <==> exists i: nat :: AddsAsset(log, i, k))
    && (forall i: nat, k :: AddsAsset(log, i, k) ==> k in assets && assets[k] == log[i].asset)
  }

  ghost predicate TracksMean(log: seq<Command>, tracks: map<Id, Track>) {
    && (forall k :: k in tracks <==> exists i: nat :: AddsTrack(log, i, k))
    && (forall k | k in tracks :: tracks[k] == Track(k, LiveClips(log, k, |log|)))
  }

  /** The clip is as it was added, wherever it stands now. */
  predicate IsAddedBy(clip: Clip, c: Command) {
    && c.AddClip? && clip.id == c.clipId && clip.assetId == c.assetId && clip.trackId == c.onTrackId
    && clip.sourceRange == c.sourceRange
  }

  ghost predicate ClipsMean(log: seq<Command>, clips: map<Id, Clip>) {
    && (forall k :: k in clips <==> exists i: nat :: IsLive(log, i, k))
    && (forall i: nat, k :: IsLive(log, i, k) ==> k in clips && IsAddedBy(clips[k], log[i]))
    && (forall k | k in clips :: PlacedAt(log, k) == Some(clips[k].timelineRange))
  }

  // One command more.

  lemma LiveExtends(log: seq<Command>, c: Command, i: nat, k: Id)
    ensures i < |log| ==> (IsLive(log + [c], i, k) <==> IsLive(log, i, k) && c != RemoveClip(k))
    ensures IsLive(log + [c], |log|, k) <==> c.AddClip? && c.clipId == k
  {
    var longer := log + [c];
    if i < |log| {
      assert c == RemoveClip(k) ==> longer[|log|] == RemoveClip(k);
      if RemovedAfter(log, i, k) {
        var j :| i < j < |log| && log[j] == RemoveClip(k);
        assert longer[j] == RemoveClip(k);
      }
      assert longer[i] == log[i];
    }
  }

  lemma AssetsExtend(log: seq<Command>, c: Command, p: Project)
    requires AssetsMean(log, p.assets) && Reduce(p, c).Ok?
    ensures AssetsMean(log + [c], Reduce(p, c).value.assets)
  {
    hide Before, Canonical, Without;
    var longer, assets := log + [c], Reduce(p, c).value.assets;
    forall i: nat, k
      ensures AddsAsset(longer, i, k) <==> AddsAsset(log, i, k) || (i == |log| && c.AddAsset? && c.asset.id == k)
    {
      assert i < |log| ==> longer[i] == log[i];
    }
    assert c.AddAsset? ==> AddsAsset(longer, |log|, c.asset.id);
    forall k ensures k in assets <==> exists i: nat :: AddsAsset(longer, i, k) {
      if k in p.assets {
        var i: nat :| AddsAsset(log, i, k);
        assert AddsAsset(longer, i, k);
      }
    }
  }

  lemma WithoutNothing()
    ensures forall id :: Without([], id) == []
  {
  }

  lemma {:induction false} LiveClipsExtend(log: seq<Command>, c: Command, t: Id, n: nat)
    requires n <= |log|
    ensures LiveClips(log + [c], t, n) ==
      if c.RemoveClip? then Without(LiveClips(log, t, n), c.clipId) else LiveClips(log, t, n)
    decreases n
  {
    hide Before, Canonical, Without, RemovedAfter;
    if n == 0 {
      WithoutNothing();
    } else {
      LiveClipsExtend(log, c, t, n - 1);
      var d, base := log[n - 1], LiveClips(log, t, n - 1);
      var base' := LiveClips(log + [c], t, n - 1);
      assert (log + [c])[n - 1] == d;
      assert base + [] == base && base' + [] == base';
      if d.AddClip? && d.onTrackId == t {
        LiveExtends(log, c, n - 1, d.clipId);
        assert RemovedAfter(log + [c], n - 1, d.clipId) <==>
          RemovedAfter(log, n - 1, d.clipId) || c == RemoveClip(d.clipId);
        if c.RemoveClip? {
          WithoutAppended(base, d.clipId, c.clipId);
        }
      } else {
        assert LiveClips(log, t, n) == base && LiveClips(log + [c], t, n) == base';
      }
    }
  }

  lemma NothingAfterTheLast(log: seq<Command>, c: Command, k: Id)
    ensures !RemovedAfter(log + [c], |log|, k)
  {
  }

  /** The whole list of a track after one command more. */
  lemma WholeListExtends(log: seq<Command>, c: Command, t: Id)
    ensures LiveClips(log + [c], t, |log| + 1) ==
      if c.RemoveClip? then Without(LiveClips(log, t, |log|), c.clipId)
      else if c.AddClip? && c.onTrackId == t then LiveClips(log, t, |log|) + [c.clipId]
      else LiveClips(log, t, |log|)
  {
    hide Before, Canonical, Without;
    LiveClipsExtend(log, c, t, |log|);
    assert (log + [c])[|log|] == c;
    if c.AddClip? {
      NothingAfterTheLast(log, c, c.clipId);
    }
  }

  lemma {:induction false} NoListWithoutTrack(log: seq<Command>, t: Id, n: nat)
    requires n <= |log| && forall i :: 0 <= i < n && log[i].AddClip? ==> log[i].onTrackId != t
    ensures LiveClips(log, t, n) == []
    decreases n
  {
    if n > 0 {
      NoListWithoutTrack(log, t, n - 1);
    }
  }

  /** Clips are added only to tracks that have been added. */
  ghost predicate TracksFirst(log: seq<Command>) {
    forall i :: 0 <= i < |log| && log[i].AddClip? ==> exists j: nat :: AddsTrack(log, j, log[i].onTrackId)
  }

  lemma TracksFirstExtends(log: seq<Command>, c: Command, p: Project)
    requires TracksFirst(log) && TracksMean(log, p.tracks) && Reduce(p, c).Ok?
    ensures TracksFirst(log + [c])
  {
    hide Before, Canonical, Without;
    var longer := log + [c];
    forall i | 0 <= i < |longer| && longer[i].AddClip?
      ensures exists j: nat :: AddsTrack(longer, j, longer[i].onTrackId)
    {
      var t := longer[i].onTrackId;
      assert i < |log| ==> longer[i] == log[i];
      assert exists j: nat :: AddsTrack(log, j, t) by {
        if i == |log| {
          assert t in p.tracks;
        }
      }
      var j: nat :| AddsTrack(log, j, t);
      assert AddsTrack(longer, j, t);
    }
  }

  lemma TrackKeysExtend(log: seq<Command>, c: Command, p: Project)
    requires TracksMean(log, p.tracks) && Sound(p) && Reduce(p, c).Ok?
    ensures forall k :: k in Reduce(p, c).value.tracks <==> exists i: nat :: AddsTrack(log + [c], i, k)
  {
    hide Before, Canonical, Without;
    var longer, tracks := log + [c], Reduce(p, c).value.tracks;
    forall i: nat, k ensures AddsTrack(longer, i, k) <==> AddsTrack(log, i, k) || (i == |log| && c == AddTrack(k)) {
      assert i < |log| ==> longer[i] == log[i];
    }
    assert c.AddTrack? ==> AddsTrack(longer, |log|, c.trackId);
    forall k ensures k in tracks <==> exists i: nat :: AddsTrack(longer, i, k) {
      assert k in tracks <==> k in p.tracks || c == AddTrack(k);
      if k in p.tracks {
        var i: nat :| AddsTrack(log, i, k);
        assert AddsTrack(longer, i, k);
      }
    }
  }

  lemma TracksExtend(log: seq<Command>, c: Command, p: Project)
    requires TracksMean(log, p.tracks) && TracksFirst(log) && Sound(p) && Reduce(p, c).Ok?
    ensures TracksMean(log + [c], Reduce(p, c).value.tracks)
  {
    hide Before, Canonical, Without, LiveClips;
    var longer, tracks := log + [c], Reduce(p, c).value.tracks;
    TrackKeysExtend(log, c, p);
    forall k | k in tracks ensures tracks[k] == Track(k, LiveClips(longer, k, |longer|)) {
      WholeListExtends(log, c, k);
      if c.RemoveClip? && k in p.tracks && p.clips[c.clipId].trackId != k {
        WithoutMembers(p.tracks[k].clipIds, c.clipId);
      }
      if c == AddTrack(k) {
        NoClipsYet(log, p, k);
      }
    }
  }

  lemma NoClipsYet(log: seq<Command>, p: Project, t: Id)
    requires TracksMean(log, p.tracks) && TracksFirst(log) && t !in p.tracks
    ensures LiveClips(log, t, |log|) == []
  {
    hide Before, Canonical, LiveClips;
    forall i | 0 <= i < |log| && log[i].AddClip? ensures log[i].onTrackId != t {
      var j: nat :| AddsTrack(log, j, log[i].onTrackId);
    }
    NoListWithoutTrack(log, t, |log|);
  }

  lemma ClipKeysExtend(log: seq<Command>, c: Command, p: Project)
    requires ClipsMean(log, p.clips) && Reduce(p, c).Ok?
    ensures forall k :: k in Reduce(p, c).value.clips <==> exists i: nat :: IsLive(log + [c], i, k)
  {
    hide Before, Canonical, Without, IsLive;
    var longer, clips := log + [c], Reduce(p, c).value.clips;
    forall k ensures k in clips <==> exists i: nat :: IsLive(longer, i, k) {
      assert k in clips <==> (k in p.clips && c != RemoveClip(k)) || (c.AddClip? && c.clipId == k);
      LiveExtends(log, c, |log|, k);
      if k in p.clips && c != RemoveClip(k) {
        var i: nat :| IsLive(log, i, k);
        LiveIsWithin(log, i, k);
        LiveExtends(log, c, i, k);
      }
      if i: nat :| IsLive(longer, i, k) {
        LiveIsWithin(longer, i, k);
        LiveExtends(log, c, i, k);
      }
    }
  }

  lemma LiveIsWithin(log: seq<Command>, i: nat, k: Id)
    requires IsLive(log, i, k)
    ensures i < |log| && log[i].AddClip? && log[i].clipId == k
  {
  }

  lemma ClipsExtend(log: seq<Command>, c: Command, p: Project)
    requires ClipsMean(log, p.clips) && Reduce(p, c).Ok?
    ensures ClipsMean(log + [c], Reduce(p, c).value.clips)
  {
    hide Before, Canonical, Without, IsLive;
    var longer, clips := log + [c], Reduce(p, c).value.clips;
    ClipKeysExtend(log, c, p);
    assert longer[|log|] == c && longer[..|log|] == log;
    forall i: nat, k | IsLive(longer, i, k)
      ensures i < |longer| && k in clips && IsAddedBy(clips[k], longer[i])
    {
      LiveIsWithin(longer, i, k);
      LiveExtends(log, c, i, k);
      LiveExtends(log, c, |log|, k);
      assert i < |log| ==> longer[i] == log[i];
    }
    forall k | k in clips ensures PlacedAt(longer, k) == Some(clips[k].timelineRange) {
    }
  }

  // The meaning of a whole log.

  /**
   * What a log that replays builds. The assets and tracks are those it adds. A clip is there exactly if some
   * command adds it that no later one removes; it keeps what it was added with, and stands where it was placed
   * last. A track lists its living clips in the order of their commands.
   */
  lemma {:induction false} ReplayMeans(log: seq<Command>)
    requires Replay(EMPTY, log).Ok?
    ensures
      var p := Replay(EMPTY, log).value;
      && p.schemaVersion == 1 && AssetsMean(log, p.assets) && TracksMean(log, p.tracks) && ClipsMean(log, p.clips)
    ensures TracksFirst(log)
  {
    hide Before, Canonical, Reduce, AssetsMean, TracksMean, ClipsMean, TracksFirst, Sound;
    if log == [] {
      NothingMeans();
    } else {
      var front, c := log[..|log| - 1], log[|log| - 1];
      assert log == front + [c];
      ReplayMeans(front);
      EmptyIsSound();
      ReplayKeepsSound(EMPTY, front);
      var p := Replay(EMPTY, front).value;
      AssetsExtend(front, c, p);
      TracksExtend(front, c, p);
      ClipsExtend(front, c, p);
      TracksFirstExtends(front, c, p);
      VersionStays(p, c);
    }
  }

  lemma VersionStays(p: Project, c: Command)
    requires Reduce(p, c).Ok?
    ensures Reduce(p, c).value.schemaVersion == p.schemaVersion
  {
  }

  lemma NothingMeans()
    ensures AssetsMean([], map[]) && TracksMean([], map[]) && ClipsMean([], map[]) && TracksFirst([])
  {
  }

  lemma EmptyIsSound()
    ensures Sound(EMPTY)
  {
  }

  // Which projects a log can build.

  lemma {:induction false} AssetsAreBuilt(assets: map<Id, Asset>) returns (log: seq<Command>)
    requires forall k | k in assets :: assets[k].id == k
    ensures Replay(EMPTY, log) == Ok(EMPTY.(assets := assets))
    decreases assets.Keys
  {
    hide Before, Canonical;
    if assets == map[] {
      log := [];
    } else {
      var k :| k in assets;
      var rest := assets - {k};
      assert rest[k := assets[k]] == assets;
      log := AssetsAreBuilt(rest);
      ReplayExtended(log, AddAsset(assets[k]));
      log := log + [AddAsset(assets[k])];
    }
  }

  function EmptyTracks(ids: set<Id>): map<Id, Track> {
    map k | k in ids :: Track(k, [])
  }

  lemma {:induction false} TracksAreBuilt(assets: map<Id, Asset>, ids: set<Id>) returns (log: seq<Command>)
    requires forall k | k in assets :: assets[k].id == k
    ensures Replay(EMPTY, log) == Ok(EMPTY.(assets := assets, tracks := EmptyTracks(ids)))
    decreases ids
  {
    hide Before, Canonical, Replay;
    if ids == {} {
      log := AssetsAreBuilt(assets);
      assert EmptyTracks(ids) == map[];
    } else {
      var k :| k in ids;
      log := TracksAreBuilt(assets, ids - {k});
      assert EmptyTracks(ids - {k})[k := Track(k, [])] == EmptyTracks(ids);
      ReplayExtended(log, AddTrack(k));
      log := log + [AddTrack(k)];
    }
  }

  /** The project before the last clip of track `t` was added. */
  function BeforeLast(p: Project, t: Id): Project
    requires t in p.tracks && p.tracks[t].clipIds != []
  {
    var ids := p.tracks[t].clipIds;
    p.(tracks := p.tracks[t := p.tracks[t].(clipIds := ids[..|ids| - 1])], clips := p.clips - {ids[|ids| - 1]})
  }

  lemma BeforeLastLists(p: Project, t: Id)
    requires Sound(p) && t in p.tracks && p.tracks[t].clipIds != []
    ensures TracksAgree(BeforeLast(p, t)) && ListsOwnClips(BeforeLast(p, t)) && ListsDistinctClips(BeforeLast(p, t))
  {
    hide Before, Canonical;
    var ids := p.tracks[t].clipIds;
    assert Distinct(ids);
    assert Distinct(ids[..|ids| - 1]);
    assert ids[|ids| - 1] in ids;
  }

  lemma BeforeLastPlaces(p: Project, t: Id)
    requires Sound(p) && t in p.tracks && p.tracks[t].clipIds != []
    ensures ClipsArePlaced(BeforeLast(p, t)) && Keyed(BeforeLast(p, t))
  {
    hide Before, Canonical, Distinct;
    var ids := p.tracks[t].clipIds;
    var last := ids[|ids| - 1];
    assert ids == ids[..|ids| - 1] + [last];
    assert last in ids;
  }

  lemma AddingTheLast(p: Project, t: Id)
    requires Sound(p) && t in p.tracks && p.tracks[t].clipIds != []
    ensures
      var k := p.tracks[t].clipIds[|p.tracks[t].clipIds| - 1];
      && k in p.clips
      && var c := p.clips[k];
         Reduce(BeforeLast(p, t), AddClip(k, c.assetId, c.trackId, c.timelineRange, c.sourceRange)) == Ok(p)
  {
    hide Before, Canonical, Distinct;
    var ids := p.tracks[t].clipIds;
    var k := ids[|ids| - 1];
    assert k in ids;
    assert ids == ids[..|ids| - 1] + [k];
    var c, q := p.clips[k], BeforeLast(p, t);
    assert q.tracks[t := q.tracks[t].(clipIds := q.tracks[t].clipIds + [k])] == p.tracks;
    assert q.clips[k := c] == p.clips;
  }

  /** Every project that passes validation is the replay of some log. */
  lemma {:induction false} SoundIsBuilt(p: Project) returns (log: seq<Command>)
    requires Sound(p)
    ensures Replay(EMPTY, log) == Ok(p)
    decreases p.clips.Keys
  {
    hide Before, Canonical, Replay, Reduce, Sound;
    if t :| t in p.tracks && p.tracks[t].clipIds != [] {
      var k := p.tracks[t].clipIds[|p.tracks[t].clipIds| - 1];
      AddingTheLast(p, t);
      BeforeLastLists(p, t);
      BeforeLastPlaces(p, t);
      assert Sound(BeforeLast(p, t)) by { SoundInParts(BeforeLast(p, t)); }
      log := SoundIsBuilt(BeforeLast(p, t));
      var c := p.clips[k];
      var last := AddClip(k, c.assetId, c.trackId, c.timelineRange, c.sourceRange);
      ReplayExtended(log, last);
      log := log + [last];
    } else {
      NoListsNoClips(p);
      log := TracksAreBuilt(p.assets, p.tracks.Keys);
    }
  }

  lemma SoundInParts(p: Project)
    requires TracksAgree(p) && ListsOwnClips(p) && ListsDistinctClips(p) && ClipsArePlaced(p) && Keyed(p)
    ensures Sound(p)
  {
  }

  lemma NoListsNoClips(p: Project)
    requires Sound(p) && forall t | t in p.tracks :: p.tracks[t].clipIds == []
    ensures p == EMPTY.(assets := p.assets, tracks := EmptyTracks(p.tracks.Keys))
    ensures forall k | k in p.assets :: p.assets[k].id == k
  {
    hide Before, Canonical;
    forall t | t in p.tracks ensures p.tracks[t] == Track(t, []) {
      assert p.tracks[t].id == t && p.tracks[t].clipIds == [];
    }
    assert p.tracks == EmptyTracks(p.tracks.Keys);
    if k :| k in p.clips {
      assert false;
    }
  }

  /** Validation accepts exactly the projects that commands can build. */
  lemma SoundIsReachable(p: Project)
    ensures Sound(p) <==> exists log :: Replay(EMPTY, log) == Ok(p)
  {
    hide Sound, Replay;
    if Sound(p) {
      var log := SoundIsBuilt(p);
    }
    if log :| Replay(EMPTY, log) == Ok(p) {
      EmptyIsSound();
      ReplayKeepsSound(EMPTY, log);
    }
  }
}
