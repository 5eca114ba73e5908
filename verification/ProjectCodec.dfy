/** The project encoding: ordered maps written as sorted lists and rebuilt by insertion. */
module ProjectCodec {
  import opened Wrappers
  import opened Bytes
  import opened OrderedMaps
  import opened Rationals
  import opened Projects
  import opened Wire
  import opened Codec

  // Ordered maps as lists.

  function SortedValues<V>(m: map<Id, V>): (s: seq<V>)
    ensures |s| == |SortedKeys(m.Keys)|
  {
    var ks := SortedKeys(m.Keys);
    seq(|ks|, i requires 0 <= i < |ks| => assert ks[i] in Elements(ks); m[ks[i]])
  }

  function Ids<V>(items: seq<V>, id: V -> Id): (s: seq<Id>)
    ensures |s| == |items| && forall i :: 0 <= i < |items| ==> s[i] == id(items[i])
  {
    seq(|items|, i requires 0 <= i < |items| => id(items[i]))
  }

  /** Insertion of the items one after the other. */
  function InsertAll<V>(items: seq<V>, id: V -> Id): map<Id, V> {
    if items == [] then map[]
    else InsertAll(items[..|items| - 1], id)[id(items[|items| - 1]) := items[|items| - 1]]
  }

  lemma {:induction false} InsertAllContents<V>(items: seq<V>, id: V -> Id)
    requires Distinct(Ids(items, id))
    ensures InsertAll(items, id).Keys == Elements(Ids(items, id))
    ensures forall i :: 0 <= i < |items| ==>
      id(items[i]) in InsertAll(items, id) && InsertAll(items, id)[id(items[i])] == items[i]
    ensures forall k :: k in InsertAll(items, id) ==>
      id(InsertAll(items, id)[k]) == k && InsertAll(items, id)[k] in items
  {
    if items != [] {
      var n := |items| - 1;
      var front := items[..n];
      assert Ids(items, id) == Ids(front, id) + [id(items[n])];
      assert Distinct(Ids(front, id)) by {
        forall i, j | 0 <= i < j < n ensures Ids(front, id)[i] != Ids(front, id)[j] {
          assert Ids(items, id)[i] != Ids(items, id)[j];
        }
      }
      InsertAllContents(front, id);
      forall i | 0 <= i < n ensures id(items[i]) != id(items[n]) {
        assert Ids(items, id)[i] != Ids(items, id)[n];
      }
    }
  }

  ghost predicate KeyedBy<V>(m: map<Id, V>, id: V -> Id) {
    forall k | k in m :: id(m[k]) == k
  }

  lemma SortedValuesIds<V>(m: map<Id, V>, id: V -> Id)
    requires KeyedBy(m, id)
    ensures Ids(SortedValues(m), id) == SortedKeys(m.Keys)
  {
    var ks := SortedKeys(m.Keys);
    forall i | 0 <= i < |ks| ensures Ids(SortedValues(m), id)[i] == ks[i] {
      assert ks[i] in Elements(ks);
    }
  }

  /** Writing an ordered map out and inserting the items again gives the map. */
  lemma InsertSortedValues<V>(m: map<Id, V>, id: V -> Id)
    requires KeyedBy(m, id)
    ensures Distinct(Ids(SortedValues(m), id))
    ensures InsertAll(SortedValues(m), id) == m
  {
    var ks, vs := SortedKeys(m.Keys), SortedValues(m);
    SortedValuesIds(m, id);
    AscendingIsDistinct(ks);
    InsertAllContents(vs, id);
    forall k | k in m ensures InsertAll(vs, id)[k] == m[k] {
      assert k in Elements(ks);
      var i :| 0 <= i < |ks| && ks[i] == k;
      assert vs[i] == m[k];
    }
  }

  /** Inserting a list and writing the map out gives the list exactly when its ids ascend. */
  lemma SortedValuesOfInsert<V>(items: seq<V>, id: V -> Id)
    requires Distinct(Ids(items, id))
    ensures SortedValues(InsertAll(items, id)) == items <==> Ascending(Ids(items, id))
    ensures |SortedValues(InsertAll(items, id))| == |items|
  {
    var m := InsertAll(items, id);
    InsertAllContents(items, id);
    assert KeyedBy(m, id);
    SortedValuesIds(m, id);
    AscendingIsDistinct(SortedKeys(m.Keys));
    DistinctCount(SortedKeys(m.Keys));
    DistinctCount(Ids(items, id));
    if Ascending(Ids(items, id)) {
      AscendingIsUnique(Ids(items, id), SortedKeys(m.Keys));
      forall i | 0 <= i < |items| ensures SortedValues(m)[i] == items[i] {
        assert SortedKeys(m.Keys)[i] == id(items[i]);
      }
    }
  }

  // Projects as lists.

  datatype RawProject = RawProject(assets: seq<Asset>, tracks: seq<Track>, clips: seq<RawClip>)

  function AssetKey(a: Asset): Id { a.id }
  function TrackKey(t: Track): Id { t.id }
  function ClipKey(c: Clip): Id { c.id }
  function RawClipKey(c: RawClip): Id { c.id }

  function RawClips(clips: seq<Clip>): (r: seq<RawClip>)
    ensures |r| == |clips|
  {
    seq(|clips|, i requires 0 <= i < |clips| => RawClipOf(clips[i]))
  }

  function NormalClips(raw: seq<RawClip>): (r: Result<seq<Clip>, ModelError>)
    ensures r.Ok? ==> |r.value| == |raw| && Ids(r.value, ClipKey) == Ids(raw, RawClipKey)
    ensures r.Ok? ==> forall i :: 0 <= i < |raw| ==> NormalClip(raw[i]) == Ok(r.value[i])
  {
    if raw == [] then Ok([])
    else
      var front :- NormalClips(raw[..|raw| - 1]);
      var last :- NormalClip(raw[|raw| - 1]);
      Ok(front + [last])
  }

  lemma {:induction false} NormalClipsOfRaw(clips: seq<Clip>)
    ensures NormalClips(RawClips(clips)) == Ok(clips)
  {
    hide NormalClip, RawClipOf, Before, Canonical;
    if clips != [] {
      var n := |clips| - 1;
      NormalClipsOfRaw(clips[..n]);
      assert RawClips(clips)[..n] == RawClips(clips[..n]);
      NormalClipOfRaw(clips[n]);
      assert clips == clips[..n] + [clips[n]];
    }
  }

  function RawProjectOf(p: Project): RawProject {
    RawProject(SortedValues(p.assets), SortedValues(p.tracks), RawClips(SortedValues(p.clips)))
  }

  /** What `from_canonical_bytes` does with the records it read. */
  function NormalProject(raw: RawProject): (r: Result<Project, ModelError>) {
    if !Distinct(Ids(raw.assets, AssetKey)) then Err(CorruptProject)
    else if !Distinct(Ids(raw.tracks, TrackKey)) then Err(CorruptProject)
    else
      var clips :- NormalClips(raw.clips);
      if !Distinct(Ids(clips, ClipKey)) then Err(CorruptProject)
      else
        var p := Project(SCHEMA_VERSION, InsertAll(raw.assets, AssetKey), InsertAll(raw.tracks, TrackKey),
                         InsertAll(clips, ClipKey));
        if Consistent(p) then Ok(p) else Err(CorruptProject)
  }

  function WriteRawProject(p: RawProject): seq<byte> {
    PROJECT_TAG + (WriteVersion() + (WriteList(p.assets, WriteAsset)
      + (WriteList(p.tracks, WriteTrack) + WriteList(p.clips, WriteClip))))
  }

  function ReadRawProject(b: seq<byte>): (r: Read<RawProject>) {
    var (_, b1) :- ReadExact(b, PROJECT_TAG);
    var (_, b2) :- ReadExact(b1, WriteVersion());
    var (assets, b3) :- ReadList(b2, ReadAsset);
    var (tracks, b4) :- ReadList(b3, ReadTrack);
    var (clips, b5) :- ReadList(b4, ReadClip);
    Ok((RawProject(assets, tracks, clips), b5))
  }

  /** Every list is short enough for its 64-bit length. */
  predicate CountsFit(p: RawProject) {
    && |p.assets| < TWO_TO_THE_64 && |p.tracks| < TWO_TO_THE_64 && |p.clips| < TWO_TO_THE_64
    && forall t | t in p.tracks :: |t.clipIds| < TWO_TO_THE_64
  }

  lemma ReadRawProjectOf(p: RawProject, rest: seq<byte>)
    requires CountsFit(p)
    ensures ReadRawProject(WriteRawProject(p) + rest) == Ok((p, rest))
  {
    hide ReadList, WriteList, ReadExact, WriteVersion, Restores;
    forall a | a in p.assets ensures Restores(WriteAsset, ReadAsset, a) { AssetRestores(a); }
    forall t | t in p.tracks ensures Restores(WriteTrack, ReadTrack, t) { TrackRestores(t); }
    forall c | c in p.clips ensures Restores(WriteClip, ReadClip, c) { ClipRestores(c); }
    var assets, tracks, clips :=
      WriteList(p.assets, WriteAsset), WriteList(p.tracks, WriteTrack), WriteList(p.clips, WriteClip);
    var b4 := clips + rest;
    var b3 := tracks + b4;
    var b2 := assets + b3;
    var b1 := WriteVersion() + b2;
    assert WriteRawProject(p) + rest == PROJECT_TAG + b1;
    ReadExactOf(PROJECT_TAG, b1);
    ReadExactOf(WriteVersion(), b2);
    ReadListOfWriteList(p.assets, WriteAsset, ReadAsset, b3);
    ReadListOfWriteList(p.tracks, WriteTrack, ReadTrack, b4);
    ReadListOfWriteList(p.clips, WriteClip, ReadClip, rest);
  }

  lemma {:induction false} ReadAllInRange(n: nat, b: seq<byte>)
    requires ReadAll(n, b, ReadTrack).Ok?
    ensures forall t | t in ReadAll(n, b, ReadTrack).value.0 :: |t.clipIds| < TWO_TO_THE_64
  {
    hide ReadTrack;
    TrackFaithful();
    if n > 0 {
      ReadAllInRange(n - 1, ReadTrack(b).value.1);
    }
  }

  lemma RawProjectBytesRead(b: seq<byte>)
    requires ReadRawProject(b).Ok?
    ensures b == WriteRawProject(ReadRawProject(b).value.0) + ReadRawProject(b).value.1
    ensures CountsFit(ReadRawProject(b).value.0)
  {
    hide WriteList, WriteVersion, ReadTrack, ReadAsset, ReadClip, WriteTrack, WriteAsset, WriteClip, Faithful;
    AssetFaithful();
    TrackFaithful();
    ClipFaithful();
    var b1 := ReadExact(b, PROJECT_TAG).value.1;
    var b2 := ReadExact(b1, WriteVersion()).value.1;
    WriteListOfReadList(b2, WriteAsset, ReadAsset);
    var (assets, b3) := ReadList(b2, ReadAsset).value;
    WriteListOfReadList(b3, WriteTrack, ReadTrack);
    ReadAllInRange(ReadU64(b3).value.0, ReadU64(b3).value.1);
    var (tracks, b4) := ReadList(b3, ReadTrack).value;
    WriteListOfReadList(b4, WriteClip, ReadClip);
    var (clips, b5) := ReadList(b4, ReadClip).value;
    var wa, wt, wc := WriteList(assets, WriteAsset), WriteList(tracks, WriteTrack), WriteList(clips, WriteClip);
    assert PROJECT_TAG + (WriteVersion() + (wa + (wt + (wc + b5))))
        == (PROJECT_TAG + (WriteVersion() + (wa + (wt + wc)))) + b5;
  }

  /** `Project::canonical_bytes`. */
  function EncodeProject(p: Project): seq<byte> {
    WriteRawProject(RawProjectOf(p))
  }

  /** `Project::from_canonical_bytes`. */
  function DecodeProject(b: seq<byte>): (r: Result<Project, ModelError>) {
    var (raw, rest) :- ReadRawProject(b);
    if rest != [] then Err(CorruptProject) else NormalProject(raw)
  }

  lemma NormalProjectOfRaw(p: Project)
    requires Sound(p)
    ensures NormalProject(RawProjectOf(p)) == Ok(p)
  {
    hide Consistent, NormalClip, RawClipOf, RawClips, Before, Canonical, InsertAll, SortedValues, Distinct;
    assert KeyedBy(p.assets, AssetKey) && KeyedBy(p.clips, ClipKey);
    assert KeyedBy(p.tracks, TrackKey) by { SoundTracksAreKeyed(p); }
    InsertSortedValues(p.assets, AssetKey);
    InsertSortedValues(p.tracks, TrackKey);
    InsertSortedValues(p.clips, ClipKey);
    NormalClipsOfRaw(SortedValues(p.clips));
  }

  lemma SoundTracksAreKeyed(p: Project)
    requires Sound(p)
    ensures KeyedBy(p.tracks, TrackKey)
  {
  }

  /** A project small enough for 64-bit counts; 2^64 entries cannot be stored. */
  predicate Storable(p: Project) {
    |p.assets| < TWO_TO_THE_64 && |p.tracks| < TWO_TO_THE_64 && |p.clips| < TWO_TO_THE_64
  }

  lemma TrackListFits(p: Project, t: Id)
    requires Sound(p) && t in p.tracks
    ensures |p.tracks[t].clipIds| <= |p.clips|
  {
    hide Before, Canonical;
    var ids := p.tracks[t].clipIds;
    DistinctCount(ids);
    SubsetIsSmaller(Elements(ids), p.clips.Keys);
  }

  lemma SortedKeysCount(keys: set<Id>)
    ensures |SortedKeys(keys)| == |keys|
  {
    AscendingIsDistinct(SortedKeys(keys));
    DistinctCount(SortedKeys(keys));
  }

  lemma StorableCountsFit(p: Project)
    requires Sound(p) && Storable(p)
    ensures CountsFit(RawProjectOf(p))
  {
    hide Sound, Before, Canonical, RawClipOf;
    SortedKeysCount(p.assets.Keys);
    SortedKeysCount(p.tracks.Keys);
    SortedKeysCount(p.clips.Keys);
    var ks := SortedKeys(p.tracks.Keys);
    forall i | 0 <= i < |ks| ensures |SortedValues(p.tracks)[i].clipIds| < TWO_TO_THE_64 {
      assert ks[i] in Elements(ks);
      TrackListFits(p, ks[i]);
    }
  }

  /** Every sound project decodes from its own encoding. */
  lemma ProjectRoundTrip(p: Project)
    requires Sound(p) && Storable(p)
    ensures DecodeProject(EncodeProject(p)) == Ok(p)
  {
    hide Sound, Storable, CountsFit, ReadRawProject, WriteRawProject, NormalProject, RawProjectOf;
    StorableCountsFit(p);
    var raw := RawProjectOf(p);
    ReadRawProjectOf(raw, []);
    assert WriteRawProject(raw) + [] == WriteRawProject(raw);
    NormalProjectOfRaw(p);
  }

  /** Different projects have different encodings. */
  lemma EncodeProjectIsInjective(p: Project, q: Project)
    requires Sound(p) && Storable(p) && Sound(q) && Storable(q) && EncodeProject(p) == EncodeProject(q)
    ensures p == q
  {
    hide Sound, Storable, EncodeProject, DecodeProject;
    ProjectRoundTrip(p);
    ProjectRoundTrip(q);
  }

  /** No accepted encoding is a proper prefix of another. */
  lemma AcceptedProjectsArePrefixFree(b: seq<byte>, tail: seq<byte>)
    requires DecodeProject(b).Ok? && DecodeProject(b + tail).Ok?
    ensures tail == []
  {
    hide ReadRawProject, WriteRawProject, NormalProject, CountsFit;
    var raw := ReadRawProject(b).value.0;
    RawProjectBytesRead(b);
    assert b == WriteRawProject(raw);
    ReadRawProjectOf(raw, tail);
  }

  // Decoding is normalisation.

  /** The records stand in strictly ascending order and every rational is in lowest terms. */
  ghost predicate NormalForm(raw: RawProject) {
    && Ascending(Ids(raw.assets, AssetKey))
    && Ascending(Ids(raw.tracks, TrackKey))
    && Ascending(Ids(raw.clips, RawClipKey))
    && forall i :: 0 <= i < |raw.clips| ==> ReducedClip(raw.clips[i])
  }

  lemma DecodedIsSound(raw: RawProject)
    requires NormalProject(raw).Ok?
    ensures Sound(NormalProject(raw).value)
  {
    hide Consistent, NormalClip, Before, Canonical, InsertAll;
    InsertAllContents(raw.assets, AssetKey);
    InsertAllContents(NormalClips(raw.clips).value, ClipKey);
  }

  lemma RawClipsOfNormal(raw: seq<RawClip>)
    requires NormalClips(raw).Ok?
    ensures RawClips(NormalClips(raw).value) == raw <==> forall i :: 0 <= i < |raw| ==> ReducedClip(raw[i])
  {
    hide NormalClip, ReducedClip, RawClipOf, Before, Canonical;
    var clips := NormalClips(raw).value;
    forall i | 0 <= i < |raw| ensures RawClipOf(clips[i]) == raw[i] <==> ReducedClip(raw[i]) {
      NormalClipOf(raw[i]);
    }
    assert forall i :: 0 <= i < |raw| ==> RawClips(clips)[i] == RawClipOf(clips[i]);
  }

  lemma RawClipsIds(clips: seq<Clip>)
    ensures Ids(RawClips(clips), RawClipKey) == Ids(clips, ClipKey)
  {
    hide Before, Canonical;
  }

  /** Writing the decoded project out again gives the same records exactly when they were normal. */
  lemma NormalProjectKeepsNormalForm(raw: RawProject)
    requires NormalProject(raw).Ok?
    ensures RawProjectOf(NormalProject(raw).value) == raw <==> NormalForm(raw)
  {
    hide Consistent, NormalClip, RawClipOf, RawClips, ReducedClip, Before, Canonical, InsertAll, SortedValues,
      Ascending, Distinct;
    var clips := NormalClips(raw.clips).value;
    SortedValuesOfInsert(raw.assets, AssetKey);
    SortedValuesOfInsert(raw.tracks, TrackKey);
    SortedValuesOfInsert(clips, ClipKey);
    RawClipsOfNormal(raw.clips);
    var out := SortedValues(InsertAll(clips, ClipKey));
    RawClipsIds(out);
    RawClipsIds(clips);
    NormalClipsOfRaw(out);
  }

  // Lengths.

  function TracksLength(tracks: seq<Track>): nat {
    if tracks == [] then 0 else |tracks[0].clipIds| + TracksLength(tracks[1..])
  }

  lemma {:induction false} WriteIdsLength(ids: seq<Id>)
    ensures |WriteAll(ids, WriteId)| == 16 * |ids|
  {
    if ids != [] { WriteIdsLength(ids[1..]); }
  }

  lemma {:induction false} WriteAssetsLength(assets: seq<Asset>)
    ensures |WriteAll(assets, WriteAsset)| == 72 * |assets|
  {
    if assets != [] { WriteAssetsLength(assets[1..]); }
  }

  lemma {:induction false} WriteClipsLength(clips: seq<RawClip>)
    ensures |WriteAll(clips, WriteClip)| == 112 * |clips|
  {
    hide I64ToBe;
    if clips != [] { WriteClipsLength(clips[1..]); }
  }

  lemma {:induction false} WriteTracksLength(tracks: seq<Track>)
    ensures |WriteAll(tracks, WriteTrack)| == 24 * |tracks| + 16 * TracksLength(tracks)
  {
    if tracks != [] {
      WriteTracksLength(tracks[1..]);
      WriteIdsLength(tracks[0].clipIds);
    }
  }

  lemma WriteRawProjectLength(p: RawProject)
    ensures |WriteRawProject(p)|
      == 43 + 72 * |p.assets| + 24 * |p.tracks| + 16 * TracksLength(p.tracks) + 112 * |p.clips|
  {
    hide WriteAsset, WriteTrack, WriteClip;
    WriteAssetsLength(p.assets);
    WriteTracksLength(p.tracks);
    WriteClipsLength(p.clips);
  }

  function Listed(tracks: seq<Track>): seq<Id> {
    if tracks == [] then [] else tracks[0].clipIds + Listed(tracks[1..])
  }

  lemma {:induction false} ListedFacts(tracks: seq<Track>)
    ensures |Listed(tracks)| == TracksLength(tracks)
    ensures forall c :: c in Listed(tracks) <==> exists t :: t in tracks && c in t.clipIds
  {
    if tracks != [] {
      ListedFacts(tracks[1..]);
      assert tracks == [tracks[0]] + tracks[1..];
    }
  }

  /** `tracks` lists every track of the project once. */
  ghost predicate Enumerates(tracks: seq<Track>, p: Project) {
    && Distinct(Ids(tracks, TrackKey))
    && (forall t | t in tracks :: t.id in p.tracks && p.tracks[t.id] == t)
    && (forall k | k in p.tracks :: p.tracks[k] in tracks)
  }

  lemma {:induction false} ListedIsDistinct(tracks: seq<Track>, p: Project)
    requires Sound(p) && Distinct(Ids(tracks, TrackKey))
    requires forall t | t in tracks :: t.id in p.tracks && p.tracks[t.id] == t
    ensures Distinct(Listed(tracks))
  {
    hide Before, Canonical;
    if tracks != [] {
      var head, rest := tracks[0], tracks[1..];
      assert forall i :: 0 <= i < |rest| ==> Ids(rest, TrackKey)[i] == Ids(tracks, TrackKey)[i + 1];
      ListedIsDistinct(rest, p);
      ListedFacts(rest);
      assert head in tracks;
      forall i | 0 <= i < |rest| ensures rest[i].id != head.id {
        assert Ids(tracks, TrackKey)[0] != Ids(tracks, TrackKey)[i + 1];
      }
      forall c | c in head.clipIds ensures c !in Listed(rest) {
        assert p.clips[c].trackId == head.id;
      }
      DistinctConcatenation(head.clipIds, Listed(rest));
    }
  }

  lemma DistinctConcatenation<T>(a: seq<T>, b: seq<T>)
    requires Distinct(a) && Distinct(b) && forall x | x in a :: x !in b
    ensures Distinct(a + b)
  {
    forall i, j | 0 <= i < j < |a + b| ensures (a + b)[i] != (a + b)[j] {
      if i < |a| && j >= |a| {
        assert a[i] in a && b[j - |a|] in b;
      }
    }
  }

  lemma ListedIsEveryClip(tracks: seq<Track>, p: Project)
    requires Sound(p) && Enumerates(tracks, p)
    ensures Elements(Listed(tracks)) == p.clips.Keys
  {
    hide Before, Canonical, Listed, TracksLength, Distinct;
    ListedFacts(tracks);
    forall c | c in p.clips ensures c in Listed(tracks) {
      assert p.tracks[p.clips[c].trackId] in tracks;
    }
    forall c | c in Listed(tracks) ensures c in p.clips {
      var t :| t in tracks && c in t.clipIds;
    }
  }

  /** However its tracks are ordered, a sound project lists as many clips as it has. */
  lemma ListedLengthIsClipCount(tracks: seq<Track>, p: Project)
    requires Sound(p) && Enumerates(tracks, p)
    ensures TracksLength(tracks) == |p.clips|
  {
    ListedIsDistinct(tracks, p);
    hide Sound, Listed, TracksLength, Distinct, Elements, Enumerates;
    ListedFacts(tracks);
    ListedIsEveryClip(tracks, p);
    DistinctCount(Listed(tracks));
  }

  lemma SortedTracksEnumerate(p: Project)
    requires KeyedBy(p.tracks, TrackKey)
    ensures Enumerates(SortedValues(p.tracks), p)
  {
    var ks := SortedKeys(p.tracks.Keys);
    SortedValuesIds(p.tracks, TrackKey);
    AscendingIsDistinct(ks);
    assert forall i :: 0 <= i < |ks| ==> ks[i] in Elements(ks);
    forall k | k in p.tracks ensures p.tracks[k] in SortedValues(p.tracks) {
      assert k in Elements(ks);
      var i :| 0 <= i < |ks| && ks[i] == k;
      assert SortedValues(p.tracks)[i] == p.tracks[k];
    }
  }

  lemma InsertedTracksEnumerate(tracks: seq<Track>, p: Project)
    requires Distinct(Ids(tracks, TrackKey)) && p.tracks == InsertAll(tracks, TrackKey)
    ensures Enumerates(tracks, p)
    ensures KeyedBy(p.tracks, TrackKey)
  {
    hide InsertAll;
    InsertAllContents(tracks, TrackKey);
  }

  lemma NormalProjectKeepsLength(raw: RawProject)
    requires NormalProject(raw).Ok?
    ensures |WriteRawProject(RawProjectOf(NormalProject(raw).value))| == |WriteRawProject(raw)|
  {
    hide Sound, Consistent, NormalClip, RawClipOf, Before, Canonical, InsertAll, SortedValues, WriteRawProject,
      Enumerates;
    var p := NormalProject(raw).value;
    var clips := NormalClips(raw.clips).value;
    DecodedIsSound(raw);
    InsertedTracksEnumerate(raw.tracks, p);
    SortedTracksEnumerate(p);
    ListedLengthIsClipCount(raw.tracks, p);
    ListedLengthIsClipCount(SortedValues(p.tracks), p);
    SortedValuesOfInsert(raw.assets, AssetKey);
    SortedValuesOfInsert(raw.tracks, TrackKey);
    SortedValuesOfInsert(clips, ClipKey);
    WriteRawProjectLength(raw);
    WriteRawProjectLength(RawProjectOf(p));
  }

  lemma RawProjectWritingIsInjective(p: RawProject, q: RawProject)
    requires CountsFit(p) && CountsFit(q)
    ensures WriteRawProject(p) == WriteRawProject(q) ==> p == q
  {
    hide ReadRawProject, WriteRawProject, CountsFit;
    ReadRawProjectOf(p, []);
    ReadRawProjectOf(q, []);
  }

  lemma DecodedIsStorable(raw: RawProject)
    requires NormalProject(raw).Ok? && CountsFit(raw)
    ensures Storable(NormalProject(raw).value)
  {
    hide Consistent, NormalClip, Before, Canonical, InsertAll, SortedValues;
    var p := NormalProject(raw).value;
    var clips := NormalClips(raw.clips).value;
    SortedValuesOfInsert(raw.assets, AssetKey);
    SortedValuesOfInsert(raw.tracks, TrackKey);
    SortedValuesOfInsert(clips, ClipKey);
    SortedKeysCount(p.assets.Keys);
    SortedKeysCount(p.tracks.Keys);
    SortedKeysCount(p.clips.Keys);
  }

  /** Decoding normalises: same length, same project again, and the same bytes exactly for normal forms. */
  lemma DecodeProjectNormalises(b: seq<byte>)
    requires DecodeProject(b).Ok?
    ensures
      var p := DecodeProject(b).value;
      && Sound(p)
      && DecodeProject(EncodeProject(p)) == Ok(p)
      && |EncodeProject(p)| == |b|
      && (EncodeProject(p) == b <==> NormalForm(ReadRawProject(b).value.0))
  {
    hide Sound, Storable, CountsFit, ReadRawProject, WriteRawProject, NormalProject, RawProjectOf, NormalForm;
    var raw := ReadRawProject(b).value.0;
    var p := DecodeProject(b).value;
    RawProjectBytesRead(b);
    assert b == WriteRawProject(raw);
    DecodedIsSound(raw);
    DecodedIsStorable(raw);
    ProjectRoundTrip(p);
    NormalProjectKeepsLength(raw);
    NormalProjectKeepsNormalForm(raw);
    StorableCountsFit(p);
    RawProjectWritingIsInjective(raw, RawProjectOf(p));
  }

  /** Not only canonical bytes are accepted: two assets in descending order are read as the same two assets. */
  lemma UnsortedIsAccepted(a: Asset, b: Asset)
    requires Bytes.Less(a.id, b.id)
    ensures
      var bytes := WriteRawProject(RawProject([b, a], [], []));
      var p := EMPTY.(assets := map[a.id := a, b.id := b]);
      DecodeProject(bytes) == Ok(p) && EncodeProject(p) != bytes
  {
    hide ReadRawProject, WriteRawProject, RawProjectOf;
    var raw := RawProject([b, a], [], []);
    var bytes := WriteRawProject(raw);
    ReadRawProjectOf(raw, []);
    assert bytes + [] == bytes;
    LessIrreflexive(a.id);
    assert [b, a][..1] == [b] && [b][..0] == [];
    assert InsertAll([b], AssetKey) == map[b.id := b];
    assert InsertAll([b, a], AssetKey) == map[a.id := a, b.id := b];
    assert Ids([b, a], AssetKey) == [b.id, a.id];
    if Bytes.Less(b.id, a.id) {
      LessTransitive(a.id, b.id, a.id);
    }
    DecodeProjectNormalises(bytes);
  }
}
