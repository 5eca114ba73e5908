/** `validate`: a growing set and one count decide whether the track lists partition the clips. */
module Validation {
  import opened Wrappers
  import opened Bytes
  import opened OrderedMaps
  import opened Rationals
  import opened Projects

  predicate GoodTrack(p: Project, t: Id)
    requires t in p.tracks
  {
    && p.tracks[t].id == t
    && Distinct(p.tracks[t].clipIds)
    && forall c | c in p.tracks[t].clipIds :: c in p.clips && p.clips[c].trackId == t
  }

  ghost function ListedBy(p: Project, ts: seq<Id>): set<Id>
    requires forall t | t in ts :: t in p.tracks
  {
    set t, c | t in ts && c in p.tracks[t].clipIds :: c
  }

  predicate ReferencesResolve(p: Project, c: Id)
    requires c in p.clips
  {
    p.clips[c].assetId in p.assets && p.clips[c].trackId in p.tracks
  }

  method Validate(p: Project) returns (r: Result<(), ModelError>)
    ensures r.Ok? <==> Consistent(p)
    ensures r.Err? ==> r.error == CorruptProject
  {
    hide Before, Canonical, GoodTrack, ListedBy, Consistent, Ascending, SortedKeys, Elements, Distinct,
      ReferencesResolve;
    var listed: set<Id> := {};
    var trackIds := SortedKeys(p.tracks.Keys);
    EnumerationIsDistinct(trackIds, p.tracks.Keys);
    NoTracksListNothing(p);
    for i := 0 to |trackIds|
      invariant forall t | t in trackIds[..i] :: t in p.tracks && GoodTrack(p, t)
      invariant listed == ListedBy(p, trackIds[..i])
    {
      var trackId := trackIds[i];
      assert trackId !in trackIds[..i];
      var accepted := ValidateTrack(p, trackIds[..i], trackId, listed);
      if accepted.None? {
        ConsistentTracksAreGood(p, trackId);
        return Err(CorruptProject);
      }
      listed := accepted.value;
      assert trackIds[..i + 1] == trackIds[..i] + [trackId];
    }
    assert trackIds[..|trackIds|] == trackIds;
    CountDecidesCoverage(p, trackIds);
    if |listed| != |p.clips| {
      return Err(CorruptProject);
    }
    var resolved := ValidateReferences(p);
    if !resolved {
      ConsistentReferencesResolve(p);
      return Err(CorruptProject);
    }
    return Ok(());
  }

  lemma EnumerationIsDistinct(ids: seq<Id>, keys: set<Id>)
    requires Ascending(ids) && Elements(ids) == keys
    ensures forall i, j :: 0 <= i < j < |ids| ==> ids[i] != ids[j]
    ensures forall x :: x in ids <==> x in keys
  {
    AscendingIsDistinct(ids);
    assert forall x :: x in ids <==> x in Elements(ids);
  }

  lemma NoTracksListNothing(p: Project)
    ensures ListedBy(p, []) == {}
  {
  }

  lemma ConsistentTracksAreGood(p: Project, t: Id)
    requires t in p.tracks
    ensures Consistent(p) ==> GoodTrack(p, t)
  {
    hide Before, Canonical;
  }

  lemma ConsistentReferencesResolve(p: Project)
    ensures Consistent(p) ==> forall c | c in p.clips :: ReferencesResolve(p, c)
  {
    hide Before, Canonical;
  }

  /** The last loop: every clip's asset and track exist. */
  method ValidateReferences(p: Project) returns (ok: bool)
    ensures ok <==> forall c | c in p.clips :: ReferencesResolve(p, c)
  {
    hide Before, Canonical, Ascending, SortedKeys, Elements, Distinct;
    var clipIds := SortedKeys(p.clips.Keys);
    EnumerationIsDistinct(clipIds, p.clips.Keys);
    for i := 0 to |clipIds|
      invariant forall k :: 0 <= k < i ==> clipIds[k] in p.clips && ReferencesResolve(p, clipIds[k])
    {
      var clip := p.clips[clipIds[i]];
      if clip.assetId !in p.assets || clip.trackId !in p.tracks {
        return false;
      }
    }
    return true;
  }

  /** The inner loop over one track: the clips listed so far, or nothing when the track is refused. */
  method ValidateTrack(p: Project, earlier: seq<Id>, trackId: Id, listedBefore: set<Id>) returns (r: Option<set<Id>>)
    requires trackId in p.tracks && trackId !in earlier
    requires forall t | t in earlier :: t in p.tracks && GoodTrack(p, t)
    requires listedBefore == ListedBy(p, earlier)
    ensures r.Some? <==> GoodTrack(p, trackId)
    ensures r.Some? ==> r.value == ListedBy(p, earlier + [trackId])
  {
    hide Before, Canonical;
    var track := p.tracks[trackId];
    if track.id != trackId {
      return None;
    }
    var listed := listedBefore;
    for j := 0 to |track.clipIds|
      invariant listed == listedBefore + Elements(track.clipIds[..j])
      invariant Distinct(track.clipIds[..j])
      invariant forall c | c in track.clipIds[..j] :: c in p.clips && p.clips[c].trackId == trackId
    {
      var clipId := track.clipIds[j];
      assert clipId in track.clipIds;
      if clipId in listed {
        AlreadyListed(p, earlier, trackId, j);
        return None;
      }
      listed := listed + {clipId};
      if clipId !in p.clips || p.clips[clipId].trackId != trackId {
        return None;
      }
      assert track.clipIds[..j + 1] == track.clipIds[..j] + [clipId];
      assert clipId !in track.clipIds[..j] by { assert clipId !in Elements(track.clipIds[..j]); }
    }
    assert track.clipIds[..|track.clipIds|] == track.clipIds;
    assert ListedBy(p, earlier + [trackId]) == ListedBy(p, earlier) + Elements(track.clipIds);
    return Some(listed);
  }

  lemma AlreadyListed(p: Project, earlier: seq<Id>, trackId: Id, j: nat)
    requires trackId in p.tracks && trackId !in earlier && j < |p.tracks[trackId].clipIds|
    requires forall t | t in earlier :: t in p.tracks && GoodTrack(p, t)
    requires var ids := p.tracks[trackId].clipIds; ids[j] in ListedBy(p, earlier) + Elements(ids[..j])
    ensures !GoodTrack(p, trackId)
  {
    hide Before, Canonical;
    var ids := p.tracks[trackId].clipIds;
    if ids[j] in ListedBy(p, earlier) {
      var t :| t in earlier && ids[j] in p.tracks[t].clipIds;
      assert p.clips[ids[j]].trackId == t != trackId;
    } else {
      var k :| 0 <= k < j && ids[k] == ids[j];
    }
  }

  lemma AllTracksGood(p: Project, trackIds: seq<Id>)
    requires Elements(trackIds) == p.tracks.Keys
    requires forall t | t in trackIds :: t in p.tracks && GoodTrack(p, t)
    ensures TracksAgree(p) && ListsOwnClips(p) && ListsDistinctClips(p)
  {
    hide Before, Canonical;
    forall t | t in p.tracks ensures GoodTrack(p, t) {
      assert t in Elements(trackIds);
    }
  }

  /** Equal counts mean that every clip is listed: the partition hidden in the comparison. */
  lemma CountDecidesCoverage(p: Project, trackIds: seq<Id>)
    requires Elements(trackIds) == p.tracks.Keys
    requires forall t | t in trackIds :: t in p.tracks && GoodTrack(p, t)
    ensures Consistent(p) ==> |ListedBy(p, trackIds)| == |p.clips|
    ensures |ListedBy(p, trackIds)| == |p.clips| && (forall c | c in p.clips :: ReferencesResolve(p, c))
      ==> Consistent(p)
  {
    hide Before, Canonical;
    var listed := ListedBy(p, trackIds);
    assert listed <= p.clips.Keys;
    if Consistent(p) {
      forall c | c in p.clips ensures c in listed {
        assert p.clips[c].trackId in Elements(trackIds);
      }
      assert listed == p.clips.Keys;
    }
    if |listed| == |p.clips| && forall c | c in p.clips :: ReferencesResolve(p, c) {
      AllTracksGood(p, trackIds);
      SubsetOfSameSize(listed, p.clips.Keys);
      forall c | c in p.clips ensures c in p.tracks[p.clips[c].trackId].clipIds {
        var t :| t in trackIds && c in p.tracks[t].clipIds;
      }
    }
  }
}
