/** Independent commands may be swapped anywhere in a log. */
module Independence {
  import opened Wrappers
  import opened Bytes
  import opened Rationals
  import opened Projects

  predicate TouchesClip(c: Command, clip: Id) {
    match c
    case AddClip(id, _, _, _, _) => id == clip
    case MoveClip(id, _) => id == clip
    case RemoveClip(id) => id == clip
    case _ => false
  }

  predicate SharesClip(c: Command, d: Command) {
    (c.AddClip? || c.MoveClip? || c.RemoveClip?) && TouchesClip(d, c.clipId)
  }

  /** `c` creates an asset or a track that `d` names. */
  predicate Provides(c: Command, d: Command) {
    || (c.AddAsset? && d.AddAsset? && c.asset.id == d.asset.id)
    || (c.AddAsset? && d.AddClip? && c.asset.id == d.assetId)
    || (c.AddTrack? && d.AddTrack? && c.trackId == d.trackId)
    || (c.AddTrack? && d.AddClip? && c.trackId == d.onTrackId)
  }

  /** Decided from the commands alone, whatever the project is. */
  predicate Independent(c: Command, d: Command) {
    && !SharesClip(c, d)
    && !Provides(c, d) && !Provides(d, c)
    && !(c.AddClip? && d.AddClip? && c.onTrackId == d.onTrackId)
  }

  function ReduceBoth(p: Project, c: Command, d: Command): (r: Result<Project, ModelError>) {
    var q :- Reduce(p, c);
    Reduce(q, d)
  }

  predicate TracksExist(p: Project) {
    forall c | c in p.clips :: p.clips[c].trackId in p.tracks
  }

  // A command changes the three maps one by one.

  function AssetsAfter(assets: map<Id, Asset>, c: Command): map<Id, Asset> {
    if c.AddAsset? then assets[c.asset.id := c.asset] else assets
  }

  function ClipsAfter(clips: map<Id, Clip>, c: Command): map<Id, Clip> {
    match c
    case AddClip(id, asset, track, timeline, source) => clips[id := Clip(id, asset, track, timeline, source)]
    case MoveClip(id, timeline) => if id in clips then clips[id := clips[id].(timelineRange := timeline)] else clips
    case RemoveClip(id) => clips - {id}
    case _ => clips
  }

  function Appended(tracks: map<Id, Track>, t: Id, clip: Id): map<Id, Track> {
    if t in tracks then tracks[t := tracks[t].(clipIds := tracks[t].clipIds + [clip])] else tracks
  }

  function Dropped(tracks: map<Id, Track>, t: Id, clip: Id): map<Id, Track> {
    if t in tracks then tracks[t := tracks[t].(clipIds := Without(tracks[t].clipIds, clip))] else tracks
  }

  function TracksAfter(tracks: map<Id, Track>, clips: map<Id, Clip>, c: Command): map<Id, Track> {
    match c
    case AddTrack(t) => tracks[t := Track(t, [])]
    case AddClip(id, _, t, _, _) => Appended(tracks, t, id)
    case RemoveClip(id) => if id in clips then Dropped(tracks, clips[id].trackId, id) else tracks
    case _ => tracks
  }

  /** The preconditions of a command. */
  predicate Applies(p: Project, c: Command) {
    match c
    case AddAsset(asset) => asset.id !in p.assets
    case AddTrack(t) => t !in p.tracks
    case AddClip(id, asset, t, _, _) => id !in p.clips && asset in p.assets && t in p.tracks
    case MoveClip(id, _) => id in p.clips
    case RemoveClip(id) => id in p.clips && p.clips[id].trackId in p.tracks
  }

  function Applied(p: Project, c: Command): Project {
    Project(p.schemaVersion, AssetsAfter(p.assets, c), TracksAfter(p.tracks, p.clips, c), ClipsAfter(p.clips, c))
  }

  lemma ReduceInParts(p: Project, c: Command)
    ensures Reduce(p, c).Ok? <==> Applies(p, c)
    ensures Reduce(p, c).Ok? ==> Reduce(p, c).value == Applied(p, c)
  {
    hide Before, Canonical, Without;
  }

  /** What applies after an independent command applies before it. */
  lemma AppliesBefore(p: Project, c: Command, d: Command)
    requires TracksExist(p) && Independent(c, d) && Applies(p, c) && Applies(Applied(p, c), d)
    ensures Applies(p, d)
  {
    hide Before, Canonical, Without;
  }

  /** What applies before an independent command applies after it. */
  lemma AppliesAfter(p: Project, c: Command, d: Command)
    requires TracksExist(p) && Independent(c, d) && Applies(p, c) && Applies(p, d)
    ensures Applies(Applied(p, d), c)
  {
    hide Before, Canonical, Without;
  }

  lemma AssetsCommute(assets: map<Id, Asset>, c: Command, d: Command)
    requires Independent(c, d)
    ensures AssetsAfter(AssetsAfter(assets, c), d) == AssetsAfter(AssetsAfter(assets, d), c)
  {
    hide Before, Canonical;
  }

  lemma ClipsCommute(clips: map<Id, Clip>, c: Command, d: Command)
    requires Independent(c, d)
    ensures ClipsAfter(ClipsAfter(clips, c), d) == ClipsAfter(ClipsAfter(clips, d), c)
  {
    hide Before, Canonical;
  }

  lemma {:induction false} WithoutCommutes(ids: seq<Id>, a: Id, b: Id)
    ensures Without(Without(ids, a), b) == Without(Without(ids, b), a)
  {
    if ids != [] {
      WithoutCommutes(ids[1..], a, b);
    }
  }

  lemma AppendDropCommute(tracks: map<Id, Track>, t: Id, x: Id, u: Id, y: Id)
    requires x != y
    ensures Dropped(Appended(tracks, t, x), u, y) == Appended(Dropped(tracks, u, y), t, x)
  {
    hide Without;
    if t in tracks && u in tracks && t == u {
      WithoutAppended(tracks[t].clipIds, x, y);
    }
  }

  lemma DropsCommute(tracks: map<Id, Track>, t: Id, x: Id, u: Id, y: Id)
    ensures Dropped(Dropped(tracks, t, x), u, y) == Dropped(Dropped(tracks, u, y), t, x)
  {
    hide Without;
    if t in tracks && u in tracks && t == u {
      WithoutCommutes(tracks[t].clipIds, x, y);
    }
  }

  lemma AppendsCommute(tracks: map<Id, Track>, t: Id, x: Id, u: Id, y: Id)
    requires t != u
    ensures Appended(Appended(tracks, t, x), u, y) == Appended(Appended(tracks, u, y), t, x)
  {
  }

  /** A clip that an independent command does not touch keeps its track. */
  lemma ClipKeepsTrack(clips: map<Id, Clip>, c: Command, clip: Id)
    requires !TouchesClip(c, clip)
    ensures clip in ClipsAfter(clips, c) <==> clip in clips
    ensures clip in clips ==> ClipsAfter(clips, c)[clip].trackId == clips[clip].trackId
  {
    hide Before, Canonical;
  }

  lemma NewTrackCommutes(p: Project, c: Command, d: Command)
    requires TracksExist(p) && Independent(c, d) && Applies(p, c) && Applies(p, d) && c.AddTrack?
    ensures TracksAfter(TracksAfter(p.tracks, p.clips, c), ClipsAfter(p.clips, c), d)
      == TracksAfter(TracksAfter(p.tracks, p.clips, d), ClipsAfter(p.clips, d), c)
  {
    hide Before, Canonical, Without;
  }

  lemma TracksCommute(p: Project, c: Command, d: Command)
    requires TracksExist(p) && Independent(c, d) && Applies(p, c) && Applies(p, d)
    ensures TracksAfter(TracksAfter(p.tracks, p.clips, c), ClipsAfter(p.clips, c), d)
      == TracksAfter(TracksAfter(p.tracks, p.clips, d), ClipsAfter(p.clips, d), c)
  {
    hide Before, Canonical, Appended, Dropped, ClipsAfter;
    var tracks, clips := p.tracks, p.clips;
    if d.RemoveClip? {
      ClipKeepsTrack(clips, c, d.clipId);
    }
    if c.RemoveClip? {
      ClipKeepsTrack(clips, d, c.clipId);
    }
    if c.AddTrack? {
      NewTrackCommutes(p, c, d);
    } else if d.AddTrack? {
      NewTrackCommutes(p, d, c);
    } else if c.AddClip? && d.AddClip? {
      AppendsCommute(tracks, c.onTrackId, c.clipId, d.onTrackId, d.clipId);
    } else if c.AddClip? && d.RemoveClip? {
      AppendDropCommute(tracks, c.onTrackId, c.clipId, clips[d.clipId].trackId, d.clipId);
    } else if c.RemoveClip? && d.AddClip? {
      AppendDropCommute(tracks, d.onTrackId, d.clipId, clips[c.clipId].trackId, c.clipId);
    } else if c.RemoveClip? && d.RemoveClip? {
      DropsCommute(tracks, clips[c.clipId].trackId, c.clipId, clips[d.clipId].trackId, d.clipId);
    }
  }

  /** Independent commands give the same project in either order. */
  lemma SwapIndependent(p: Project, c: Command, d: Command)
    requires Sound(p) && Independent(c, d)
    requires ReduceBoth(p, c, d).Ok?
    ensures ReduceBoth(p, d, c) == ReduceBoth(p, c, d)
  {
    assert TracksExist(p);
    hide Sound, Independent, TracksExist, Reduce, Applies, AssetsAfter, ClipsAfter, TracksAfter, Before, Canonical;
    ReduceInParts(p, c);
    ReduceInParts(Applied(p, c), d);
    AppliesBefore(p, c, d);
    AppliesAfter(p, c, d);
    ReduceInParts(p, d);
    ReduceInParts(Applied(p, d), c);
    AssetsCommute(p.assets, c, d);
    ClipsCommute(p.clips, c, d);
    TracksCommute(p, c, d);
  }

  // No coarser criterion would do.

  /** The two orders agree on a project: both fail, or both give the same. */
  predicate OrdersAgree(p: Project, c: Command, d: Command) {
    var a, b := ReduceBoth(p, c, d), ReduceBoth(p, d, c);
    if a.Ok? then b == a else b.Err?
  }

  /** Commands of which the second always fails, and moves that are the same. */
  predicate NeverBoth(c: Command, d: Command) {
    || (c.AddAsset? && d.AddAsset? && c.asset.id == d.asset.id)
    || (c.AddTrack? && c == d)
    || (c.AddClip? && d.AddClip? && c.clipId == d.clipId)
    || (c.MoveClip? && c == d)
    || (c.RemoveClip? && c == d)
  }

  function PlainAsset(id: Id): Asset {
    Asset(id, AssetIdentity(ToBe(0, 32), 0, id))
  }

  /** A project without clips. */
  function Bare(assets: set<Id>, tracks: set<Id>): Project {
    Project(SCHEMA_VERSION, map k | k in assets :: PlainAsset(k), map k | k in tracks :: Track(k, []), map[])
  }

  /** A project with one clip, on a track and with an asset of the same identifier. */
  function Single(k: Id): Project {
    Project(SCHEMA_VERSION, map[k := PlainAsset(k)], map[k := Track(k, [k])],
            map[k := Clip(k, k, k, UNIT_RANGE, UNIT_RANGE)])
  }

  lemma BareIsSound(assets: set<Id>, tracks: set<Id>)
    ensures Sound(Bare(assets, tracks))
  {
    hide Before, Canonical;
  }

  lemma SingleIsSound(k: Id)
    ensures Sound(Single(k))
  {
    hide Before, Canonical;
  }

  lemma SwapBothWays(p: Project, c: Command, d: Command)
    requires Sound(p) && Independent(c, d)
    ensures OrdersAgree(p, c, d)
  {
    hide Reduce, Sound, Before, Canonical;
    if ReduceBoth(p, c, d).Ok? {
      SwapIndependent(p, c, d);
    } else if ReduceBoth(p, d, c).Ok? {
      SwapIndependent(p, d, c);
    }
  }

  lemma NeverBothAgrees(p: Project, c: Command, d: Command)
    requires Sound(p) && NeverBoth(c, d)
    ensures OrdersAgree(p, c, d)
  {
    hide Before, Canonical, Without;
  }

  /** A sound project on which the order of two dependent commands matters. */
  lemma DependentDisagree(c: Command, d: Command) returns (p: Project)
    requires !Independent(c, d) && !NeverBoth(c, d)
    ensures Sound(p) && !OrdersAgree(p, c, d)
  {
    hide Before, Canonical, Sound;
    if SharesClip(c, d) && !c.AddClip? && !d.AddClip? {
      p := Single(c.clipId);
      SingleIsSound(c.clipId);
      SingleMatters(c, d);
    } else if c.AddClip? && (d.MoveClip? || d.RemoveClip?) {
      p := Bare({c.assetId}, {c.onTrackId});
      BareIsSound({c.assetId}, {c.onTrackId});
    } else if d.AddClip? && (c.MoveClip? || c.RemoveClip?) {
      p := Bare({d.assetId}, {d.onTrackId});
      BareIsSound({d.assetId}, {d.onTrackId});
    } else if c.AddAsset? || d.AddAsset? {
      var t := if c.AddClip? then c.onTrackId else d.onTrackId;
      p := Bare({}, {t});
      BareIsSound({}, {t});
    } else if c.AddTrack? || d.AddTrack? {
      var a := if c.AddClip? then c.assetId else d.assetId;
      p := Bare({a}, {});
      BareIsSound({a}, {});
    } else {
      p := Bare({c.assetId, d.assetId}, {c.onTrackId});
      BareIsSound({c.assetId, d.assetId}, {c.onTrackId});
      ListOrderMatters(p, c, d);
    }
  }

  lemma SingleMatters(c: Command, d: Command)
    requires SharesClip(c, d) && !c.AddClip? && !d.AddClip? && !NeverBoth(c, d)
    ensures !OrdersAgree(Single(c.clipId), c, d)
  {
    hide Before, Canonical, Without;
    var p := Single(c.clipId);
    if c.MoveClip? && d.MoveClip? {
      assert ReduceBoth(p, c, d).value.clips[c.clipId].timelineRange == d.timelineRange;
      assert ReduceBoth(p, d, c).value.clips[c.clipId].timelineRange == c.timelineRange;
    }
  }

  lemma ListOrderMatters(p: Project, c: Command, d: Command)
    requires c.AddClip? && d.AddClip? && c.onTrackId == d.onTrackId && c.clipId != d.clipId
    requires p == Bare({c.assetId, d.assetId}, {c.onTrackId})
    ensures !OrdersAgree(p, c, d)
  {
    hide Before, Canonical;
    var t := c.onTrackId;
    assert ReduceBoth(p, c, d).value.tracks[t].clipIds == [c.clipId, d.clipId];
    assert ReduceBoth(p, d, c).value.tracks[t].clipIds == [d.clipId, c.clipId];
    assert [c.clipId, d.clipId][0] != [d.clipId, c.clipId][0];
  }

  /** The order never matters exactly if the commands are independent, one of them always fails, or they are one. */
  lemma IndependentExactly(c: Command, d: Command)
    ensures (forall p | Sound(p) :: OrdersAgree(p, c, d)) <==> Independent(c, d) || NeverBoth(c, d)
  {
    hide Sound, OrdersAgree, Independent, NeverBoth;
    if Independent(c, d) {
      forall p | Sound(p) ensures OrdersAgree(p, c, d) { SwapBothWays(p, c, d); }
    } else if NeverBoth(c, d) {
      forall p | Sound(p) ensures OrdersAgree(p, c, d) { NeverBothAgrees(p, c, d); }
    } else {
      var p := DependentDisagree(c, d);
    }
  }

  lemma {:induction false} ReplayConcatenates(p: Project, a: seq<Command>, b: seq<Command>)
    ensures Replay(p, a + b) == if Replay(p, a).Ok? then Replay(Replay(p, a).value, b) else Replay(p, a)
  {
    hide Reduce;
    if b == [] {
      assert a + b == a;
    } else {
      assert (a + b)[..|a + b| - 1] == a + b[..|b| - 1];
      ReplayConcatenates(p, a, b[..|b| - 1]);
    }
  }

  /** The commands at `i` and `i + 1` exchanged. */
  function Exchange(log: seq<Command>, i: nat): seq<Command>
    requires i + 1 < |log|
  {
    log[..i] + [log[i + 1], log[i]] + log[i + 2..]
  }

  /** `b` results from `a` by exchanging neighbours that are independent, any number of times. */
  ghost predicate Rearranges(a: seq<Command>, b: seq<Command>, swaps: seq<nat>)
    decreases |swaps|
  {
    if swaps == [] then a == b
    else
      && swaps[0] + 1 < |a|
      && Independent(a[swaps[0]], a[swaps[0] + 1])
      && Rearranges(Exchange(a, swaps[0]), b, swaps[1..])
  }

  lemma ReplayOfTwo(p: Project, c: Command, d: Command)
    ensures Replay(p, [c, d]) == ReduceBoth(p, c, d)
  {
    hide Reduce;
    assert [c, d][..1] == [c];
    assert [c][..0] == [];
    assert Replay(p, [c]) == Reduce(p, c);
  }

  lemma ExchangeKeepsReplay(p: Project, log: seq<Command>, i: nat)
    requires Sound(p) && i + 1 < |log| && Independent(log[i], log[i + 1])
    requires Replay(p, log).Ok?
    ensures Replay(p, Exchange(log, i)) == Replay(p, log)
  {
    hide Reduce, Independent, Sound;
    var before, pair, after := log[..i], [log[i], log[i + 1]], log[i + 2..];
    var swapped := [log[i + 1], log[i]];
    assert log == before + (pair + after);
    assert Exchange(log, i) == before + (swapped + after);
    ReplayConcatenates(p, before, pair + after);
    ReplayConcatenates(p, before, swapped + after);
    var q := Replay(p, before).value;
    ReplayConcatenates(q, pair, after);
    ReplayConcatenates(q, swapped, after);
    ReplayOfTwo(q, log[i], log[i + 1]);
    ReplayOfTwo(q, log[i + 1], log[i]);
    ReplayKeepsSound(p, before);
    SwapIndependent(q, log[i], log[i + 1]);
  }

  /** Any rearrangement by independent swaps of a log that succeeds gives the same project. */
  lemma {:induction false} RearrangementKeepsReplay(p: Project, a: seq<Command>, b: seq<Command>, swaps: seq<nat>)
    requires Sound(p) && Replay(p, a).Ok? && Rearranges(a, b, swaps)
    ensures Replay(p, b) == Replay(p, a)
    decreases |swaps|
  {
    hide Reduce, Independent, Sound, Exchange;
    if swaps != [] {
      ExchangeKeepsReplay(p, a, swaps[0]);
      RearrangementKeepsReplay(p, Exchange(a, swaps[0]), b, swaps[1..]);
    }
  }
}
