/** Which bytes the decoders accept, and as what: every listing of a project, every spelling of its fractions. */
module Decoding {
  import opened Wrappers
  import opened Bytes
  import opened OrderedMaps
  import opened Rationals
  import opened Projects
  import opened Wire
  import opened Codec
  import opened ProjectCodec

  // Fractions.

  /** The fraction has the value of the rational. */
  predicate Means(f: Fraction, q: Rational) {
    f.denominator != 0 && q.numerator * f.denominator == f.numerator * q.denominator
  }

  lemma NewExactly(f: Fraction, q: Rational)
    ensures New(f.numerator, f.denominator) == Ok(q) <==> Means(f, q)
  {
    if f.denominator != 0 && q.numerator * f.denominator == f.numerator * q.denominator {
      FromI128IsComplete(f.numerator, f.denominator, q);
    }
  }

  predicate RangeMeans(raw: RawRange, r: TimeRange) {
    Means(raw.start, r.start) && Means(raw.end, r.end)
  }

  lemma NormalRangeExactly(raw: RawRange, r: TimeRange)
    ensures NormalRange(raw) == Ok(r) <==> RangeMeans(raw, r)
  {
    hide New, Means, Canonical;
    NewExactly(raw.start, r.start);
    NewExactly(raw.end, r.end);
    CmpOrdersValues(r.start, r.end);
  }

  predicate ClipMeans(raw: RawClip, c: Clip) {
    && raw.id == c.id && raw.assetId == c.assetId && raw.trackId == c.trackId
    && RangeMeans(raw.timelineRange, c.timelineRange) && RangeMeans(raw.sourceRange, c.sourceRange)
  }

  lemma NormalClipExactly(raw: RawClip, c: Clip)
    ensures NormalClip(raw) == Ok(c) <==> ClipMeans(raw, c)
  {
    hide NormalRange, RangeMeans, Before, Canonical;
    NormalRangeExactly(raw.timelineRange, c.timelineRange);
    NormalRangeExactly(raw.sourceRange, c.sourceRange);
  }

  // Commands.

  predicate CommandMeans(raw: RawCommand, c: Command) {
    match c
    case AddAsset(asset) => raw == RawAddAsset(asset)
    case AddTrack(trackId) => raw == RawAddTrack(trackId)
    case AddClip(clipId, assetId, trackId, timeline, source) =>
      raw.RawAddClip? && ClipMeans(raw.clip, Clip(clipId, assetId, trackId, timeline, source))
    case MoveClip(clipId, timeline) =>
      raw.RawMoveClip? && raw.clipId == clipId && RangeMeans(raw.timelineRange, timeline)
    case RemoveClip(clipId) => raw == RawRemoveClip(clipId)
  }

  lemma NormalCommandExactly(raw: RawCommand, c: Command)
    ensures NormalCommand(raw) == Ok(c) <==> CommandMeans(raw, c)
  {
    hide NormalRange, RangeMeans, NormalClip, ClipMeans, Before, Canonical;
    match c
    case AddClip(clipId, assetId, trackId, timeline, source) =>
      if raw.RawAddClip? {
        NormalClipExactly(raw.clip, Clip(clipId, assetId, trackId, timeline, source));
      }
    case MoveClip(clipId, timeline) =>
      if raw.RawMoveClip? {
        NormalRangeExactly(raw.timelineRange, timeline);
      }
    case _ =>
  }

  /** A command is decoded from exactly the bytes that write it, with fractions of the right value. */
  lemma CommandAcceptedExactly(b: seq<byte>, c: Command)
    ensures DecodeCommand(b) == Ok(c) <==> exists raw :: b == WriteRawCommand(raw) && CommandMeans(raw, c)
  {
    hide ReadRawCommand, WriteRawCommand, NormalCommand, CommandMeans, Before, Canonical;
    if DecodeCommand(b) == Ok(c) {
      RawCommandBytesRead(b);
      var raw := ReadRawCommand(b).value.0;
      assert b == WriteRawCommand(raw);
      NormalCommandExactly(raw, c);
    }
    if raw :| b == WriteRawCommand(raw) && CommandMeans(raw, c) {
      ReadRawCommandOf(raw, []);
      assert b + [] == b;
      NormalCommandExactly(raw, c);
    }
  }

  // Projects.

  /** The items are the values of the map, each once, in any order. */
  ghost predicate Fills<V(!new)>(items: seq<V>, m: map<Id, V>, id: V -> Id) {
    && |items| == |m|
    && (forall i :: 0 <= i < |items| ==> id(items[i]) in m && m[id(items[i])] == items[i])
    && (forall i, j :: 0 <= i < j < |items| ==> id(items[i]) != id(items[j]))
  }

  lemma InsertedFills<V(!new)>(items: seq<V>, id: V -> Id)
    requires Distinct(Ids(items, id))
    ensures Fills(items, InsertAll(items, id), id) && KeyedBy(InsertAll(items, id), id)
  {
    hide InsertAll;
    var ids, m := Ids(items, id), InsertAll(items, id);
    InsertAllContents(items, id);
    DistinctCount(ids);
    assert |m.Keys| == |m|;
    forall i, j | 0 <= i < j < |items| ensures id(items[i]) != id(items[j]) {
      assert ids[i] != ids[j];
    }
  }

  lemma FilledIsInserted<V(!new)>(items: seq<V>, m: map<Id, V>, id: V -> Id)
    requires Fills(items, m, id)
    ensures Distinct(Ids(items, id)) && InsertAll(items, id) == m
  {
    hide InsertAll;
    var ids := Ids(items, id);
    assert Distinct(ids);
    InsertAllContents(items, id);
    DistinctCount(ids);
    assert |m.Keys| == |m|;
    forall x | x in Elements(ids) ensures x in m.Keys {
      var i :| 0 <= i < |ids| && ids[i] == x;
      assert id(items[i]) in m;
    }
    SubsetOfSameSize(Elements(ids), m.Keys);
    forall x | x in m ensures InsertAll(items, id)[x] == m[x] {
      assert x in Elements(ids);
      var i :| 0 <= i < |ids| && ids[i] == x;
    }
  }

  lemma InsertedExactly<V(!new)>(items: seq<V>, m: map<Id, V>, id: V -> Id)
    ensures Distinct(Ids(items, id)) && InsertAll(items, id) == m <==> Fills(items, m, id) && KeyedBy(m, id)
  {
    hide InsertAll, Fills, Distinct, KeyedBy;
    if Distinct(Ids(items, id)) {
      InsertedFills(items, id);
    }
    if Fills(items, m, id) {
      FilledIsInserted(items, m, id);
    }
  }

  /** The clip records are the clips of the map, each once, in any order and any spelling. */
  ghost predicate FillsClips(raw: seq<RawClip>, m: map<Id, Clip>) {
    && |raw| == |m|
    && (forall i :: 0 <= i < |raw| ==> raw[i].id in m && ClipMeans(raw[i], m[raw[i].id]))
    && (forall i, j :: 0 <= i < j < |raw| ==> raw[i].id != raw[j].id)
  }

  lemma {:induction false} NormalClipsAre(raw: seq<RawClip>, clips: seq<Clip>)
    requires |clips| == |raw| && forall i :: 0 <= i < |raw| ==> NormalClip(raw[i]) == Ok(clips[i])
    ensures NormalClips(raw) == Ok(clips)
  {
    hide NormalClip, Before, Canonical;
    if raw != [] {
      NormalClipsAre(raw[..|raw| - 1], clips[..|raw| - 1]);
      assert clips == clips[..|raw| - 1] + [clips[|raw| - 1]];
    }
  }

  lemma ClipsInsertedExactly(raw: seq<RawClip>, m: map<Id, Clip>)
    requires KeyedBy(m, ClipKey)
    ensures
      var r := NormalClips(raw);
      r.Ok? && Distinct(Ids(r.value, ClipKey)) && InsertAll(r.value, ClipKey) == m <==> FillsClips(raw, m)
  {
    hide NormalClips, NormalClip, ClipMeans, InsertAll, Before, Canonical, Distinct;
    var r := NormalClips(raw);
    if r.Ok? {
      InsertedExactly(r.value, m, ClipKey);
      forall i | 0 <= i < |raw|
        ensures r.value[i].id == raw[i].id && ClipMeans(raw[i], r.value[i])
        ensures forall c :: ClipMeans(raw[i], c) ==> c == r.value[i]
      {
        assert NormalClip(raw[i]) == Ok(r.value[i]);
        forall c: Clip ensures NormalClip(raw[i]) == Ok(c) <==> ClipMeans(raw[i], c) {
          NormalClipExactly(raw[i], c);
        }
      }
    } else if FillsClips(raw, m) {
      var clips := seq(|raw|, i requires 0 <= i < |raw| => m[raw[i].id]);
      forall i | 0 <= i < |raw| ensures NormalClip(raw[i]) == Ok(clips[i]) {
        NormalClipExactly(raw[i], clips[i]);
      }
      NormalClipsAre(raw, clips);
      assert false;
    }
  }

  /** The records list the project: every asset, track and clip once, in any order. */
  ghost predicate IsListing(raw: RawProject, p: Project) {
    && CountsFit(raw)
    && Fills(raw.assets, p.assets, AssetKey) && Fills(raw.tracks, p.tracks, TrackKey) && FillsClips(raw.clips, p.clips)
  }

  lemma NormalProjectExactly(raw: RawProject, p: Project)
    requires CountsFit(raw)
    ensures NormalProject(raw) == Ok(p) <==> Sound(p) && IsListing(raw, p)
  {
    hide Consistent, NormalClips, InsertAll, Fills, FillsClips, CountsFit, Before, Canonical, Distinct;
    InsertedExactly(raw.assets, p.assets, AssetKey);
    InsertedExactly(raw.tracks, p.tracks, TrackKey);
    if NormalProject(raw) == Ok(p) {
      DecodedIsSound(raw);
      assert KeyedBy(p.clips, ClipKey);
      ClipsInsertedExactly(raw.clips, p.clips);
    } else if Sound(p) && IsListing(raw, p) {
      assert KeyedBy(p.assets, AssetKey) && KeyedBy(p.clips, ClipKey);
      assert KeyedBy(p.tracks, TrackKey) by { SoundTracksAreKeyed(p); }
      ClipsInsertedExactly(raw.clips, p.clips);
      assert false;
    }
  }

  /**
   * A project is decoded from exactly the bytes that list it: it passes validation, and the records are its
   * assets, tracks and clips, each once, in any order and with fractions in any spelling.
   */
  lemma ProjectAcceptedExactly(b: seq<byte>, p: Project)
    ensures DecodeProject(b) == Ok(p) <==> Sound(p) && exists raw :: b == WriteRawProject(raw) && IsListing(raw, p)
  {
    hide ReadRawProject, WriteRawProject, NormalProject, IsListing, Sound, CountsFit;
    if DecodeProject(b) == Ok(p) {
      RawProjectBytesRead(b);
      var raw := ReadRawProject(b).value.0;
      assert b == WriteRawProject(raw);
      NormalProjectExactly(raw, p);
    }
    if Sound(p) {
      if raw :| b == WriteRawProject(raw) && IsListing(raw, p) {
        assert CountsFit(raw) by { ListingFits(raw, p); }
        ReadRawProjectOf(raw, []);
        assert b + [] == b;
        NormalProjectExactly(raw, p);
      }
    }
  }

  lemma ListingFits(raw: RawProject, p: Project)
    requires IsListing(raw, p)
    ensures CountsFit(raw)
  {
  }
}
