/** The cursor and the loops that read and write canonical bytes. */
module Readers {
  import opened Wrappers
  import opened Bytes
  import opened OrderedMaps
  import opened Rationals
  import opened Projects
  import opened Wire
  import opened Codec
  import opened ProjectCodec
  import opened Validation

  lemma {:induction false} WriteAllAppend<T>(items: seq<T>, last: T, write: T -> seq<byte>)
    ensures WriteAll(items + [last], write) == WriteAll(items, write) + write(last)
  {
    if items == [] {
      assert items + [last] == [last];
      assert WriteAll([last], write) == write(last) + WriteAll([], write);
    } else {
      assert (items + [last])[1..] == items[1..] + [last];
      WriteAllAppend(items[1..], last, write);
    }
  }

  /** What reading `n` items comes to once `done` have been read and `r` is the rest. */
  function Prepend<T>(done: seq<T>, r: Read<seq<T>>): Read<seq<T>> {
    if r.Ok? then Ok((done + r.value.0, r.value.1)) else r
  }

  lemma ReadAllStep<T>(done: seq<T>, n: nat, b: seq<byte>, read: seq<byte> -> Read<T>)
    requires n > 0
    ensures read(b).Ok? ==>
      Prepend(done, ReadAll(n, b, read)) == Prepend(done + [read(b).value.0], ReadAll(n - 1, read(b).value.1, read))
    ensures read(b).Err? ==> ReadAll(n, b, read).Err?
  {
    if read(b).Ok? {
      var (x, rest) := read(b).value;
      var r := ReadAll(n - 1, rest, read);
      if r.Ok? {
        assert done + ([x] + r.value.0) == done + [x] + r.value.0;
      }
    }
  }

  lemma PrependNothing<T>(r: Read<seq<T>>)
    ensures Prepend([], r) == r
  {
    assert r.Ok? ==> [] + r.value.0 == r.value.0;
  }

  lemma NothingLeft<T>(done: seq<T>, b: seq<byte>, read: seq<byte> -> Read<T>)
    ensures Prepend(done, ReadAll(0, b, read)) == Ok((done, b))
  {
    assert done + [] == done;
  }

  function ReadRational(b: seq<byte>): Read<Rational> {
    var (f, rest) :- ReadFraction(b);
    var r :- Corrupt(New(f.numerator, f.denominator));
    Ok((r, rest))
  }

  function ReadTimeRange(b: seq<byte>): Read<TimeRange> {
    var (raw, rest) :- ReadRange(b);
    var r :- NormalRange(raw);
    Ok((r, rest))
  }

  function ReadNormalClip(b: seq<byte>): Read<Clip> {
    var (raw, rest) :- ReadClip(b);
    var c :- NormalClip(raw);
    Ok((c, rest))
  }

  /** A list that starts with `done` and a repeated id cannot have distinct ids. */
  lemma RepeatSpoils<V>(done: seq<V>, x: V, more: seq<V>, id: V -> Id)
    requires Distinct(Ids(done, id)) && id(x) in InsertAll(done, id)
    ensures !Distinct(Ids(done + [x] + more, id))
  {
    InsertAllContents(done, id);
    var items := done + [x] + more;
    assert id(x) in Elements(Ids(done, id));
    var i :| 0 <= i < |done| && Ids(done, id)[i] == id(x);
    assert Ids(items, id)[i] == Ids(items, id)[|done|];
  }

  lemma InsertNext<V>(done: seq<V>, x: V, id: V -> Id)
    requires Distinct(Ids(done, id)) && id(x) !in InsertAll(done, id)
    ensures Distinct(Ids(done + [x], id))
    ensures InsertAll(done + [x], id) == InsertAll(done, id)[id(x) := x]
  {
    InsertAllContents(done, id);
    assert (done + [x])[..|done|] == done;
    forall i, j | 0 <= i < j < |done| + 1 ensures Ids(done + [x], id)[i] != Ids(done + [x], id)[j] {
      if j < |done| {
        assert Ids(done, id)[i] != Ids(done, id)[j];
      } else {
        assert Ids(done, id)[i] in Elements(Ids(done, id));
      }
    }
  }

  class Reader {
    const input: seq<byte>
    var offset: nat

    ghost predicate Valid()
      reads this
    {
      offset <= |input|
    }

    ghost function Remaining(): seq<byte>
      reads this
      requires Valid()
    {
      input[offset..]
    }

    constructor (input: seq<byte>)
      ensures Valid() && Remaining() == input
    {
      this.input := input;
      offset := 0;
    }

    /** The outcome of a read agrees with its specification and the cursor stands at the rest. */
    ghost predicate Agrees<T>(r: Result<T, ModelError>, spec: Read<T>)
      reads this
    {
      && Valid()
      && (r.Ok? <==> spec.Ok?)
      && (r.Ok? ==> spec.value == (r.value, Remaining()))
      && (r.Err? ==> r.error == CorruptProject)
    }

    method TakeBytes(length: nat) returns (r: Result<seq<byte>, ModelError>)
      requires Valid()
      modifies this
      ensures Agrees(r, Take(old(Remaining()), length))
    {
      var end := offset + length;
      if end > |input| {
        return Err(CorruptProject);
      }
      r := Ok(input[offset..end]);
      assert input[offset..][..length] == input[offset..end];
      assert input[offset..][length..] == input[end..];
      offset := end;
    }

    method Expect(expected: seq<byte>) returns (r: Result<(), ModelError>)
      requires Valid()
      modifies this
      ensures Agrees(r, ReadExact(old(Remaining()), expected))
    {
      var value :- TakeBytes(|expected|);
      r := if value == expected then Ok(()) else Err(CorruptProject);
    }

    method ArrayOf16() returns (r: Result<Id, ModelError>)
      requires Valid()
      modifies this
      ensures Agrees(r, ReadId(old(Remaining())))
    {
      var value :- TakeBytes(16);
      r := Ok(value);
    }

    method ArrayOf32() returns (r: Result<Digest, ModelError>)
      requires Valid()
      modifies this
      ensures Agrees(r, ReadDigest(old(Remaining())))
    {
      var value :- TakeBytes(32);
      r := Ok(value);
    }

    method U64() returns (r: Result<u64, ModelError>)
      requires Valid()
      modifies this
      ensures Agrees(r, ReadU64(old(Remaining())))
    {
      var value :- TakeBytes(8);
      r := Ok(U64FromBe(value));
    }

    method I64() returns (r: Result<i64, ModelError>)
      requires Valid()
      modifies this
      ensures Agrees(r, ReadI64(old(Remaining())))
    {
      var value :- TakeBytes(8);
      r := Ok(I64FromBe(value));
    }

    method Byte() returns (r: Result<byte, ModelError>)
      requires Valid()
      modifies this
      ensures Agrees(r, ReadByte(old(Remaining())))
    {
      var value :- TakeBytes(1);
      r := Ok(value[0]);
    }

    method NextRational() returns (r: Result<Rational, ModelError>)
      requires Valid()
      modifies this
      ensures Agrees(r, ReadRational(old(Remaining())))
    {
      hide New, ReadI64, Canonical;
      var numerator :- I64();
      var denominator :- I64();
      r := Corrupt(New(numerator, denominator));
    }

    method NextTimeRange() returns (r: Result<TimeRange, ModelError>)
      requires Valid()
      modifies this
      ensures Agrees(r, ReadTimeRange(old(Remaining())))
    {
      hide New, NewTimeRange, ReadFraction, Canonical;
      var start :- NextRational();
      var end :- NextRational();
      r := Corrupt(NewTimeRange(start, end));
    }

    method NextAsset() returns (r: Result<Asset, ModelError>)
      requires Valid()
      modifies this
      ensures Agrees(r, ReadAsset(old(Remaining())))
    {
      hide ReadId, ReadDigest, ReadU64;
      var id :- ArrayOf16();
      var contentSha256 :- ArrayOf32();
      var byteLength :- U64();
      var providerId :- ArrayOf16();
      r := Ok(Asset(id, AssetIdentity(contentSha256, byteLength, providerId)));
    }

    method NextClip() returns (r: Result<Clip, ModelError>)
      requires Valid()
      modifies this
      ensures Agrees(r, ReadNormalClip(old(Remaining())))
    {
      hide ReadId, ReadRange, NormalRange, Before, Canonical;
      var id :- ArrayOf16();
      var assetId :- ArrayOf16();
      var trackId :- ArrayOf16();
      var timelineRange :- NextTimeRange();
      var sourceRange :- NextTimeRange();
      r := Ok(Clip(id, assetId, trackId, timelineRange, sourceRange));
    }

    method NextTrack() returns (r: Result<Track, ModelError>)
      requires Valid()
      modifies this
      ensures Agrees(r, ReadTrack(old(Remaining())))
    {
      hide ReadId, ReadU64, Canonical;
      var id :- ArrayOf16();
      var clipCount :- U64();
      var clipIds: seq<Id> := [];
      ghost var start := Remaining();
      PrependNothing(ReadAll(clipCount, start, ReadId));
      for i := 0 to clipCount
        invariant Valid() && |clipIds| == i
        invariant ReadAll(clipCount, start, ReadId) == Prepend(clipIds, ReadAll(clipCount - i, Remaining(), ReadId))
      {
        ReadAllStep(clipIds, clipCount - i, Remaining(), ReadId);
        var clipId :- ArrayOf16();
        clipIds := clipIds + [clipId];
      }
      assert ReadAll(0, Remaining(), ReadId) == Ok(([], Remaining()));
      assert clipIds + [] == clipIds;
      r := Ok(Track(id, clipIds));
    }

    method Assets() returns (r: Result<map<Id, Asset>, ModelError>)
      requires Valid()
      modifies this
      ensures Valid()
      ensures
        var list := ReadList(old(Remaining()), ReadAsset);
        && (r.Ok? <==> list.Ok? && Distinct(Ids(list.value.0, AssetKey)))
        && (r.Ok? ==> r.value == InsertAll(list.value.0, AssetKey) && Remaining() == list.value.1)
        && (r.Err? ==> r.error == CorruptProject)
    {
      hide ReadAsset, ReadU64, Distinct, ReadAll, InsertAll, Ids;
      var count :- U64();
      var assets: map<Id, Asset> := map[];
      ghost var start := Remaining();
      ghost var done: seq<Asset> := [];
      EmptyIsDistinct<Asset>(AssetKey);
      PrependNothing(ReadAll(count, start, ReadAsset));
      for i := 0 to count
        invariant Valid() && |done| == i
        invariant ReadAll(count, start, ReadAsset) == Prepend(done, ReadAll(count - i, Remaining(), ReadAsset))
        invariant Distinct(Ids(done, AssetKey)) && assets == InsertAll(done, AssetKey)
      {
        ReadAllStep(done, count - i, Remaining(), ReadAsset);
        var asset :- NextAsset();
        if asset.id in assets {
          ghost var rest := ReadAll(count - i - 1, Remaining(), ReadAsset);
          RepeatSpoils(done, asset, if rest.Ok? then rest.value.0 else [], AssetKey);
          return Err(CorruptProject);
        }
        InsertNext(done, asset, AssetKey);
        assets := assets[asset.id := asset];
        done := done + [asset];
      }
      NothingLeft(done, Remaining(), ReadAsset);
      r := Ok(assets);
    }

    method Tracks() returns (r: Result<map<Id, Track>, ModelError>)
      requires Valid()
      modifies this
      ensures Valid()
      ensures
        var list := ReadList(old(Remaining()), ReadTrack);
        && (r.Ok? <==> list.Ok? && Distinct(Ids(list.value.0, TrackKey)))
        && (r.Ok? ==> r.value == InsertAll(list.value.0, TrackKey) && Remaining() == list.value.1)
        && (r.Err? ==> r.error == CorruptProject)
    {
      hide ReadTrack, ReadU64, Distinct, ReadAll, InsertAll, Ids;
      var count :- U64();
      var tracks: map<Id, Track> := map[];
      ghost var start := Remaining();
      ghost var done: seq<Track> := [];
      EmptyIsDistinct<Track>(TrackKey);
      PrependNothing(ReadAll(count, start, ReadTrack));
      for i := 0 to count
        invariant Valid() && |done| == i
        invariant ReadAll(count, start, ReadTrack) == Prepend(done, ReadAll(count - i, Remaining(), ReadTrack))
        invariant Distinct(Ids(done, TrackKey)) && tracks == InsertAll(done, TrackKey)
      {
        ReadAllStep(done, count - i, Remaining(), ReadTrack);
        var track :- NextTrack();
        if track.id in tracks {
          ghost var rest := ReadAll(count - i - 1, Remaining(), ReadTrack);
          RepeatSpoils(done, track, if rest.Ok? then rest.value.0 else [], TrackKey);
          return Err(CorruptProject);
        }
        InsertNext(done, track, TrackKey);
        tracks := tracks[track.id := track];
        done := done + [track];
      }
      NothingLeft(done, Remaining(), ReadTrack);
      r := Ok(tracks);
    }

    method Clips() returns (r: Result<map<Id, Clip>, ModelError>)
      requires Valid()
      modifies this
      ensures Valid()
      ensures
        var list := ReadList(old(Remaining()), ReadNormalClip);
        && (r.Ok? <==> list.Ok? && Distinct(Ids(list.value.0, ClipKey)))
        && (r.Ok? ==> r.value == InsertAll(list.value.0, ClipKey) && Remaining() == list.value.1)
        && (r.Err? ==> r.error == CorruptProject)
    {
      hide ReadNormalClip, ReadU64, Distinct, ReadAll, InsertAll, Ids, Before, Canonical;
      var count :- U64();
      var clips: map<Id, Clip> := map[];
      ghost var start := Remaining();
      ghost var done: seq<Clip> := [];
      EmptyIsDistinct<Clip>(ClipKey);
      PrependNothing(ReadAll(count, start, ReadNormalClip));
      for i := 0 to count
        invariant Valid() && |done| == i
        invariant ReadAll(count, start, ReadNormalClip)
          == Prepend(done, ReadAll(count - i, Remaining(), ReadNormalClip))
        invariant Distinct(Ids(done, ClipKey)) && clips == InsertAll(done, ClipKey)
      {
        ReadAllStep(done, count - i, Remaining(), ReadNormalClip);
        var clip :- NextClip();
        if clip.id in clips {
          ghost var rest := ReadAll(count - i - 1, Remaining(), ReadNormalClip);
          RepeatSpoils(done, clip, if rest.Ok? then rest.value.0 else [], ClipKey);
          return Err(CorruptProject);
        }
        InsertNext(done, clip, ClipKey);
        clips := clips[clip.id := clip];
        done := done + [clip];
      }
      NothingLeft(done, Remaining(), ReadNormalClip);
      r := Ok(clips);
    }
  }

  lemma EmptyIsDistinct<V>(id: V -> Id)
    ensures Distinct(Ids([], id)) && InsertAll([], id) == map[]
  {
  }

  lemma NormalClipsAppended(raws: seq<RawClip>, last: RawClip)
    ensures NormalClips(raws + [last]).Ok? <==> NormalClips(raws).Ok? && NormalClip(last).Ok?
    ensures NormalClips(raws + [last]).Ok? ==>
      NormalClips(raws + [last]).value == NormalClips(raws).value + [NormalClip(last).value]
  {
    hide NormalClip, Before, Canonical;
    assert (raws + [last])[..|raws|] == raws;
  }

  lemma {:induction false} NormalClipsPrepend(raw: RawClip, raws: seq<RawClip>)
    ensures NormalClips([raw] + raws).Ok? <==> NormalClip(raw).Ok? && NormalClips(raws).Ok?
    ensures NormalClips([raw] + raws).Ok? ==>
      NormalClips([raw] + raws).value == [NormalClip(raw).value] + NormalClips(raws).value
    decreases |raws|
  {
    hide NormalClip, NormalClips, Before, Canonical;
    NormalClipsOfNothing();
    if raws == [] {
      assert [raw] + raws == [] + [raw];
      NormalClipsAppended([], raw);
    } else {
      var front, last := raws[..|raws| - 1], raws[|raws| - 1];
      NormalClipsPrepend(raw, front);
      NormalClipsAppended(front, last);
      NormalClipsAppended([raw] + front, last);
      assert raws == front + [last];
      assert [raw] + raws == [raw] + front + [last];
    }
  }

  /** Normalising each clip as it is read comes to the same as normalising all clips at the end. */
  lemma {:induction false} ReadAllNormalClips(n: nat, b: seq<byte>)
    ensures SameClips(ReadAll(n, b, ReadNormalClip), ReadAll(n, b, ReadClip))
  {
    hide NormalClip, NormalClips, ReadClip, Before, Canonical;
    if n == 0 {
      assert NormalClips([]) == Ok([]) by { NormalClipsOfNothing(); }
    } else if ReadClip(b).Ok? {
      var (raw, rest) := ReadClip(b).value;
      ReadAllNormalClips(n - 1, rest);
      var tail := ReadAll(n - 1, rest, ReadClip);
      if tail.Ok? {
        NormalClipsPrepend(raw, tail.value.0);
      }
    }
  }

  lemma NormalClipsOfNothing()
    ensures NormalClips([]) == Ok([])
  {
  }

  predicate SameClips(early: Read<seq<Clip>>, late: Read<seq<RawClip>>) {
    && (early.Ok? <==> late.Ok? && NormalClips(late.value.0).Ok?)
    && (early.Ok? ==> early.value == (NormalClips(late.value.0).value, late.value.1))
  }

  /** `Project::from_canonical_bytes` with its loops: exactly the specified decoder. */
  method ProjectFromCanonicalBytes(bytes: seq<byte>) returns (r: Result<Project, ModelError>)
    ensures r == Corrupt(DecodeProject(bytes))
  {
    hide ReadExact, ReadAsset, ReadTrack, ReadClip, ReadNormalClip, NormalClips, WriteVersion, Distinct, InsertAll,
      Consistent, Before, Canonical, ReadU64;
    var reader := new Reader(bytes);
    ghost var b0 := reader.Remaining();
    var _ :- reader.Expect(PROJECT_TAG);
    var _ :- reader.Expect(WriteVersion());
    var assets :- reader.Assets();
    var tracks :- reader.Tracks();
    ghost var b := reader.Remaining();
    ReadListNormalClips(b);
    var clips :- reader.Clips();
    if reader.offset != |reader.input| {
      return Err(CorruptProject);
    }
    var project := Project(SCHEMA_VERSION, assets, tracks, clips);
    var _ :- Validate(project);
    r := Ok(project);
  }

  lemma ReadListNormalClips(b: seq<byte>)
    ensures SameClips(ReadList(b, ReadNormalClip), ReadList(b, ReadClip))
  {
    hide ReadNormalClip, ReadClip, NormalClips;
    if ReadU64(b).Ok? {
      ReadAllNormalClips(ReadU64(b).value.0, ReadU64(b).value.1);
    }
  }

  /** `Command::from_canonical_bytes`. */
  method CommandFromCanonicalBytes(bytes: seq<byte>) returns (r: Result<Command, ModelError>)
    ensures r == Corrupt(DecodeCommand(bytes))
  {
    hide ReadExact, ReadAsset, ReadId, ReadRange, NormalRange, ReadByte, WriteVersion, Before, Canonical;
    var reader := new Reader(bytes);
    var _ :- reader.Expect(COMMAND_TAG);
    var _ :- reader.Expect(WriteVersion());
    var kind :- reader.Byte();
    var command: Command;
    if kind == 1 {
      var asset :- reader.NextAsset();
      command := AddAsset(asset);
    } else if kind == 2 {
      var trackId :- reader.ArrayOf16();
      command := AddTrack(trackId);
    } else if kind == 3 {
      var clip :- reader.NextClip();
      command := AddClip(clip.id, clip.assetId, clip.trackId, clip.timelineRange, clip.sourceRange);
    } else if kind == 4 {
      var clipId :- reader.ArrayOf16();
      var timelineRange :- reader.NextTimeRange();
      command := MoveClip(clipId, timelineRange);
    } else if kind == 5 {
      var clipId :- reader.ArrayOf16();
      command := RemoveClip(clipId);
    } else {
      return Err(CorruptProject);
    }
    if reader.offset != |reader.input| {
      return Err(CorruptProject);
    }
    r := Ok(command);
  }

  /** `Project::canonical_bytes`: a buffer that only grows. */
  method ProjectCanonicalBytes(p: Project) returns (bytes: seq<byte>)
    requires p.schemaVersion == SCHEMA_VERSION
    ensures bytes == EncodeProject(p)
  {
    hide SortedValues, WriteList, Before, Canonical;
    bytes := PROJECT_TAG;
    bytes := bytes + WriteVersion();
    bytes := AppendAssets(bytes, SortedValues(p.assets));
    bytes := AppendTracks(bytes, SortedValues(p.tracks));
    bytes := AppendClips(bytes, SortedValues(p.clips));
  }

  method AppendAssets(buffer: seq<byte>, assets: seq<Asset>) returns (bytes: seq<byte>)
    ensures bytes == buffer + WriteList(assets, WriteAsset)
  {
    hide WriteAsset, ToBe;
    bytes := buffer + ToBe(|assets|, 8);
    ghost var before := bytes;
    for i := 0 to |assets|
      invariant bytes == before + WriteAll(assets[..i], WriteAsset)
    {
      bytes := bytes + WriteAsset(assets[i]);
      WriteAllAppend(assets[..i], assets[i], WriteAsset);
      assert assets[..i + 1] == assets[..i] + [assets[i]];
    }
    assert assets[..|assets|] == assets;
  }

  method AppendTracks(buffer: seq<byte>, tracks: seq<Track>) returns (bytes: seq<byte>)
    ensures bytes == buffer + WriteList(tracks, WriteTrack)
  {
    hide WriteTrack, ToBe;
    bytes := buffer + ToBe(|tracks|, 8);
    ghost var before := bytes;
    for i := 0 to |tracks|
      invariant bytes == before + WriteAll(tracks[..i], WriteTrack)
    {
      bytes := AppendTrack(bytes, tracks[i]);
      WriteAllAppend(tracks[..i], tracks[i], WriteTrack);
      assert tracks[..i + 1] == tracks[..i] + [tracks[i]];
    }
    assert tracks[..|tracks|] == tracks;
  }

  method AppendClips(buffer: seq<byte>, clips: seq<Clip>) returns (bytes: seq<byte>)
    ensures bytes == buffer + WriteList(RawClips(clips), WriteClip)
  {
    hide WriteClip, RawClipOf, Before, Canonical, ToBe;
    ghost var raw := RawClips(clips);
    bytes := buffer + ToBe(|clips|, 8);
    ghost var before := bytes;
    for i := 0 to |clips|
      invariant bytes == before + WriteAll(raw[..i], WriteClip)
    {
      bytes := bytes + WriteClip(RawClipOf(clips[i]));
      WriteAllAppend(raw[..i], raw[i], WriteClip);
      assert raw[..i + 1] == raw[..i] + [raw[i]];
    }
    assert raw[..|raw|] == raw;
  }

  method AppendTrack(buffer: seq<byte>, track: Track) returns (bytes: seq<byte>)
    ensures bytes == buffer + WriteTrack(track)
  {
    hide ToBe;
    bytes := buffer + track.id;
    bytes := bytes + ToBe(|track.clipIds|, 8);
    ghost var before := bytes;
    for i := 0 to |track.clipIds|
      invariant bytes == before + WriteAll(track.clipIds[..i], WriteId)
    {
      bytes := bytes + track.clipIds[i];
      WriteAllAppend(track.clipIds[..i], track.clipIds[i], WriteId);
      assert track.clipIds[..i + 1] == track.clipIds[..i] + [track.clipIds[i]];
    }
    assert track.clipIds[..|track.clipIds|] == track.clipIds;
  }
}
