/** The bytes themselves, offset by offset: what is hashed, stored and sent, without the writers' own words. */
module Layouts {
  import opened Wrappers
  import opened Bytes
  import opened OrderedMaps
  import opened Rationals
  import opened Projects
  import opened Wire
  import opened Codec
  import opened ProjectCodec
  import opened Revisions

  // Numbers and texts.

  /** Eight bytes as a number, the most significant first. */
  function Number(b: seq<byte>): nat
    requires |b| == 8
  {
    b[0] as nat * 0x100_0000_0000_0000 + b[1] as nat * 0x1_0000_0000_0000 + b[2] as nat * 0x100_0000_0000
    + b[3] as nat * 0x1_0000_0000 + b[4] as nat * 0x100_0000 + b[5] as nat * 0x1_0000 + b[6] as nat * 0x100
    + b[7] as nat
  }

  lemma FromBeIsNumber(b: seq<byte>)
    requires |b| == 8
    ensures FromBe(b) == Number(b)
  {
    var b4 := b[..4];
    assert b[..7][..6] == b[..6] && b[..6][..5] == b[..5] && b[..5][..4] == b4;
    assert b4[..3][..2] == b4[..2] && b4[..2][..1] == b4[..1] && b4[..1][..0] == [];
    assert FromBe(b4[..1]) == b[0] as nat;
    assert FromBe(b4[..2]) == b[0] as nat * 0x100 + b[1] as nat;
    assert FromBe(b4) == b[0] as nat * 0x100_0000 + b[1] as nat * 0x1_0000 + b[2] as nat * 0x100 + b[3] as nat;
    assert FromBe(b[..6]) == FromBe(b4) * 0x1_0000 + b[4] as nat * 0x100 + b[5] as nat;
  }

  /** The eight bytes of an unsigned and of a signed number, the latter in two's complement. */
  lemma NumbersAreBigEndian(n: u64, x: i64)
    ensures Number(ToBe(n, 8)) == n
    ensures Number(I64ToBe(x)) == if x < 0 then x + 0x1_0000_0000_0000_0000 else x
  {
    hide ToBe, FromBe, Number;
    Pow256Of4And8();
    FromBeOfToBe(n, 8);
    FromBeIsNumber(ToBe(n, 8));
    var y := if x < 0 then x + 0x1_0000_0000_0000_0000 else x;
    FromBeOfToBe(y, 8);
    FromBeIsNumber(ToBe(y, 8));
  }

  predicate Spells(b: seq<byte>, text: string) {
    |b| == |text| && forall i :: 0 <= i < |text| ==> b[i] as int == text[i] as int
  }

  predicate IsI64(b: seq<byte>, x: i64) {
    |b| == 8 && Number(b) == if x < 0 then x + 0x1_0000_0000_0000_0000 else x
  }

  // Records.

  predicate IsAsset(b: seq<byte>, a: Asset) {
    && |b| == 72
    && b[..16] == a.id && b[16..48] == a.identity.contentSha256
    && Number(b[48..56]) == a.identity.byteLength && b[56..] == a.identity.providerId
  }

  predicate IsRange(b: seq<byte>, r: TimeRange) {
    && |b| == 32
    && IsI64(b[..8], r.start.numerator) && IsI64(b[8..16], r.start.denominator)
    && IsI64(b[16..24], r.end.numerator) && IsI64(b[24..], r.end.denominator)
  }

  predicate IsClip(b: seq<byte>, c: Clip) {
    && |b| == 112
    && b[..16] == c.id && b[16..32] == c.assetId && b[32..48] == c.trackId
    && IsRange(b[48..80], c.timelineRange) && IsRange(b[80..], c.sourceRange)
  }

  /** The identifier, how many clips there are, and their identifiers in order. */
  predicate IsTrack(b: seq<byte>, t: Track) {
    && |b| == 24 + 16 * |t.clipIds|
    && b[..16] == t.id && Number(b[16..24]) == |t.clipIds|
    && forall i :: 0 <= i < |t.clipIds| ==> b[24 + 16 * i..40 + 16 * i] == t.clipIds[i]
  }

  /** Two, three and four parts of a record. */
  lemma Parts(a: seq<byte>, b: seq<byte>, c: seq<byte>, d: seq<byte>)
    ensures
      var s := a + (b + (c + d));
      && s[..|a|] == a && s[|a|..|a| + |b|] == b && s[|a| + |b|..|a| + |b| + |c|] == c
      && s[|a| + |b| + |c|..] == d && |s| == |a| + |b| + |c| + |d|
  {
    var s, r := a + (b + (c + d)), b + (c + d);
    assert s[..|a|] == a && s[|a|..] == r;
    assert r[..|b|] == b && r[|b|..] == c + d;
    assert (c + d)[..|c|] == c && (c + d)[|c|..] == d;
    assert s[|a|..|a| + |b|] == r[..|b|];
    assert s[|a| + |b|..] == r[|b|..];
    assert s[|a| + |b|..|a| + |b| + |c|] == r[|b|..][..|c|];
    assert s[|a| + |b| + |c|..] == r[|b|..][|c|..];
  }

  lemma AssetLayout(a: Asset)
    ensures IsAsset(WriteAsset(a), a)
  {
    hide ToBe, Number;
    Parts(a.id, a.identity.contentSha256, ToBe(a.identity.byteLength, 8), a.identity.providerId);
    NumbersAreBigEndian(a.identity.byteLength, 0);
  }

  lemma RangeLayout(r: TimeRange)
    ensures IsRange(WriteRange(RawOf(r)), r)
  {
    hide I64ToBe, Number, Before, Canonical;
    var a, b, c, d := I64ToBe(r.start.numerator), I64ToBe(r.start.denominator),
      I64ToBe(r.end.numerator), I64ToBe(r.end.denominator);
    Parts(a, b, c, d);
    assert WriteRange(RawOf(r)) == a + (b + (c + d));
    NumbersAreBigEndian(0, r.start.numerator);
    NumbersAreBigEndian(0, r.start.denominator);
    NumbersAreBigEndian(0, r.end.numerator);
    NumbersAreBigEndian(0, r.end.denominator);
  }

  lemma ClipLayout(c: Clip)
    ensures IsClip(WriteClip(RawClipOf(c)), c)
  {
    hide WriteRange, IsRange, Before, Canonical;
    var timeline, source := WriteRange(RawOf(c.timelineRange)), WriteRange(RawOf(c.sourceRange));
    RangeLayout(c.timelineRange);
    RangeLayout(c.sourceRange);
    assert |timeline| == 32 && |source| == 32 by { RangesAreShort(c.timelineRange, c.sourceRange); }
    Parts(c.id, c.assetId, c.trackId, timeline + source);
    var b := WriteClip(RawClipOf(c));
    assert b[48..] == timeline + source;
    assert b[48..80] == timeline && b[80..] == source;
  }

  lemma RangesAreShort(r: TimeRange, s: TimeRange)
    ensures |WriteRange(RawOf(r))| == 32 && |WriteRange(RawOf(s))| == 32
  {
  }

  lemma {:induction false} IdsLayout(ids: seq<Id>, i: nat)
    requires i < |ids|
    ensures |WriteAll(ids, WriteId)| == 16 * |ids| && WriteAll(ids, WriteId)[16 * i..16 * i + 16] == ids[i]
    decreases |ids|
  {
    WriteIdsLength(ids);
    var rest := WriteAll(ids[1..], WriteId);
    WriteIdsLength(ids[1..]);
    if i == 0 {
      assert WriteAll(ids, WriteId) == ids[0] + rest;
    } else {
      IdsLayout(ids[1..], i - 1);
      SliceBehind(ids[0], rest, 16 * (i - 1), 16 * i);
    }
  }

  lemma SliceBehind(a: seq<byte>, b: seq<byte>, from: nat, to: nat)
    requires from <= to <= |b|
    ensures (a + b)[|a| + from..|a| + to] == b[from..to]
  {
  }

  lemma TrackLayout(t: Track)
    requires |t.clipIds| < TWO_TO_THE_64
    ensures IsTrack(WriteTrack(t), t)
  {
    hide ToBe, Number, WriteAll;
    var ids := WriteAll(t.clipIds, WriteId);
    WriteIdsLength(t.clipIds);
    NumbersAreBigEndian(|t.clipIds|, 0);
    Parts(t.id, ToBe(|t.clipIds|, 8), ids, []);
    assert WriteTrack(t) == t.id + (ToBe(|t.clipIds|, 8) + (ids + []));
    forall i | 0 <= i < |t.clipIds| ensures WriteTrack(t)[24 + 16 * i..40 + 16 * i] == t.clipIds[i] {
      IdsLayout(t.clipIds, i);
      assert WriteTrack(t) == (t.id + ToBe(|t.clipIds|, 8)) + ids;
      SliceBehind(t.id + ToBe(|t.clipIds|, 8), ids, 16 * i, 16 * i + 16);
    }
  }

  // Commands.

  /** The kind byte and what follows it. */
  predicate IsPayload(b: seq<byte>, c: Command) {
    && b != []
    && match c
       case AddAsset(asset) => b[0] == 1 && IsAsset(b[1..], asset)
       case AddTrack(trackId) => b[0] == 2 && b[1..] == trackId
       case AddClip(clipId, assetId, trackId, timeline, source) =>
         b[0] == 3 && IsClip(b[1..], Clip(clipId, assetId, trackId, timeline, source))
       case MoveClip(clipId, timeline) => b[0] == 4 && |b| == 49 && b[1..17] == clipId && IsRange(b[17..], timeline)
       case RemoveClip(clipId) => b[0] == 5 && b[1..] == clipId
  }

  lemma PayloadLayout(c: Command)
    ensures IsPayload(WritePayload(RawCommandOf(c)), c)
    ensures |WritePayload(RawCommandOf(c))| <= 113
  {
    hide WriteAsset, WriteClip, WriteRange, IsAsset, IsClip, IsRange, Before, Canonical;
    var b := WritePayload(RawCommandOf(c));
    match c
    case AddAsset(asset) =>
      AssetLayout(asset);
      assert b[1..] == WriteAsset(asset);
      AssetIsShort(b[1..], asset);
    case AddTrack(trackId) => assert b[1..] == trackId;
    case AddClip(clipId, assetId, trackId, timeline, source) =>
      var clip := Clip(clipId, assetId, trackId, timeline, source);
      ClipLayout(clip);
      assert b[1..] == WriteClip(RawClipOf(clip));
      ClipIsShort(b[1..], clip);
    case MoveClip(clipId, timeline) =>
      RangeLayout(timeline);
      RangesAreShort(timeline, timeline);
      assert b[1..17] == clipId && b[17..] == WriteRange(RawOf(timeline));
    case RemoveClip(clipId) => assert b[1..] == clipId;
  }

  lemma AssetIsShort(b: seq<byte>, a: Asset)
    requires IsAsset(b, a)
    ensures |b| == 72
  {
  }

  lemma ClipIsShort(b: seq<byte>, c: Clip)
    requires IsClip(b, c)
    ensures |b| == 112
  {
  }

  lemma CommandTagSpells()
    ensures Spells(COMMAND_TAG, "STITCH-COMMAND\0")
  {
  }

  lemma ProjectTagSpells()
    ensures Spells(PROJECT_TAG, "STITCH-PROJECT\0")
  {
  }

  lemma RevisionTagSpells()
    ensures Spells(REVISION_TAG, "STITCH-REVISION\0")
  {
  }

  lemma VersionIsOne()
    ensures WriteVersion() == [0, 0, 0, 1]
  {
    assert ToBe(1, 4) == ToBe(0, 3) + [1];
    assert ToBe(0, 3) == ToBe(0, 2) + [0] && ToBe(0, 2) == ToBe(0, 1) + [0] && ToBe(0, 1) == ToBe(0, 0) + [0];
  }

  /** The bytes of a command: fifteen of tag, four of version, the kind, and its fields. */
  lemma CommandLayout(c: Command)
    ensures
      var b := EncodeCommand(c);
      && 20 <= |b| <= 132
      && Spells(b[..15], "STITCH-COMMAND\0") && b[15..19] == [0, 0, 0, 1] && IsPayload(b[19..], c)
  {
    hide WritePayload, IsPayload, Before, Canonical, WriteVersion, Spells;
    CommandTagSpells();
    VersionIsOne();
    PayloadLayout(c);
    Parts(COMMAND_TAG, WriteVersion(), WritePayload(RawCommandOf(c)), []);
    var payload := WritePayload(RawCommandOf(c));
    assert payload + [] == payload;
    assert EncodeCommand(c)[19..] == payload;
    assert payload != [] by { PayloadIsNotEmpty(payload, c); }
  }

  lemma PayloadIsNotEmpty(b: seq<byte>, c: Command)
    requires IsPayload(b, c)
    ensures b != []
  {
  }

  /** The fixed encodings that the repository's own tests pin. */
  lemma GoldenBytes(id: Id)
    ensures EncodeCommand(AddTrack(id)) ==
      [0x53, 0x54, 0x49, 0x54, 0x43, 0x48, 0x2d, 0x43, 0x4f, 0x4d, 0x4d, 0x41, 0x4e, 0x44, 0, 0, 0, 0, 1, 2] + id
    ensures EncodeProject(EMPTY) ==
      [0x53, 0x54, 0x49, 0x54, 0x43, 0x48, 0x2d, 0x50, 0x52, 0x4f, 0x4a, 0x45, 0x43, 0x54, 0, 0, 0, 0, 1]
      + seq(24, _ => 0)
  {
    hide ToBe, WriteVersion;
    VersionIsOne();
    assert SortedValues(EMPTY.assets) == [] && SortedValues(EMPTY.tracks) == [] && SortedValues(EMPTY.clips) == [];
    assert RawClips([]) == [];
    forall i | 0 <= i < 8 ensures ToBe(0, 8)[i] == 0 {
      ZeroBytes(8, i);
    }
    assert ToBe(0, 8) == seq(8, _ => 0);
  }

  // Revisions.

  /**
   * What is hashed for a revision: sixteen bytes of tag, four of version, a byte that says whether there is a
   * parent, the parent's hash if so, eight bytes of length, and the bytes of the command.
   */
  lemma PreimageLayout(parent: Option<Digest>, c: Command)
    ensures
      var b, bytes := Preimage(parent, c), EncodeCommand(c);
      var n := if parent.Some? then 53 else 21;
      && |b| == n + 8 + |bytes|
      && Spells(b[..16], "STITCH-REVISION\0") && b[16..20] == [0, 0, 0, 1]
      && b[20] == (if parent.Some? then 1 else 0) && (parent.Some? ==> b[21..53] == parent.value)
      && Number(b[n..n + 8]) == FromBe(b[n..n + 8]) == |bytes| && b[n + 8..] == bytes
  {
    hide EncodeCommand, Number, ToBe, FromBe, Spells, WriteVersion;
    var bytes := EncodeCommand(c);
    RevisionTagSpells();
    VersionIsOne();
    CommandLayout(c);
    NumbersAreBigEndian(|bytes|, 0);
    FromBeIsNumber(ToBe(|bytes|, 8));
    var b, p := Preimage(parent, c), ParentBytes(parent);
    RevisionParts(REVISION_TAG, WriteVersion(), p, ToBe(|bytes|, 8), bytes);
    assert b[20] == b[20..20 + |p|][0];
    if parent.Some? {
      assert b[21..53] == b[20..53][1..];
    }
  }

  lemma RevisionParts(tag: seq<byte>, version: seq<byte>, p: seq<byte>, length: seq<byte>, bytes: seq<byte>)
    requires |tag| == 16 && |version| == 4 && |length| == 8
    ensures
      var b, n := tag + (version + (p + (length + bytes))), 20 + |p|;
      && |b| == n + 8 + |bytes|
      && b[..16] == tag && b[16..20] == version && b[20..n] == p && b[n..n + 8] == length && b[n + 8..] == bytes
  {
    var b, n := tag + (version + (p + (length + bytes))), 20 + |p|;
    Parts(tag, version, p, length + bytes);
    assert b[n..n + 8] == b[n..][..8] && b[n + 8..] == b[n..][8..];
  }

  // Projects.

  /** `items` are the values of an ordered map, in the order of their keys as 128-bit numbers. */
  ghost predicate Lists<V(!new)>(items: seq<V>, m: map<Id, V>, id: V -> Id) {
    && |items| == |m|
    && (forall i :: 0 <= i < |items| ==> id(items[i]) in m && m[id(items[i])] == items[i])
    && (forall i, j :: 0 <= i < j < |items| ==> FromBe(id(items[i])) < FromBe(id(items[j])))
  }

  lemma SortedValuesList<V(!new)>(m: map<Id, V>, id: V -> Id)
    requires KeyedBy(m, id)
    ensures Lists(SortedValues(m), m, id)
  {
    hide FromBe, Bytes.Less;
    var ks, items := SortedKeys(m.Keys), SortedValues(m);
    SortedKeysCount(m.Keys);
    SortedValuesIds(m, id);
    assert |m.Keys| == |m|;
    forall i | 0 <= i < |items| ensures id(items[i]) == ks[i] && ks[i] in m && m[ks[i]] == items[i] {
      assert Ids(items, id)[i] == ks[i];
      assert ks[i] in Elements(ks);
    }
    forall i, j | 0 <= i < j < |items| ensures FromBe(id(items[i])) < FromBe(id(items[j])) {
      LessIsNumerical(ks[i], ks[j]);
    }
  }

  lemma {:induction false} AssetsLayout(assets: seq<Asset>, i: nat)
    requires i < |assets|
    ensures |WriteAll(assets, WriteAsset)| == 72 * |assets|
    ensures IsAsset(WriteAll(assets, WriteAsset)[72 * i..72 * i + 72], assets[i])
    decreases |assets|
  {
    hide WriteAsset, IsAsset;
    WriteAssetsLength(assets);
    WriteAssetsLength(assets[1..]);
    var first, rest := WriteAsset(assets[0]), WriteAll(assets[1..], WriteAsset);
    AssetLayout(assets[0]);
    AssetIsShort(first, assets[0]);
    if i == 0 {
      assert (first + rest)[..72] == first;
    } else {
      AssetsLayout(assets[1..], i - 1);
      SliceBehind(first, rest, 72 * (i - 1), 72 * i);
    }
  }

  lemma {:induction false} ClipsLayout(clips: seq<Clip>, i: nat)
    requires i < |clips|
    ensures |WriteAll(RawClips(clips), WriteClip)| == 112 * |clips|
    ensures IsClip(WriteAll(RawClips(clips), WriteClip)[112 * i..112 * i + 112], clips[i])
    decreases |clips|
  {
    hide WriteClip, IsClip, RawClipOf, Before, Canonical;
    WriteClipsLength(RawClips(clips));
    WriteClipsLength(RawClips(clips[1..]));
    assert RawClips(clips)[1..] == RawClips(clips[1..]);
    var first, rest := WriteClip(RawClipOf(clips[0])), WriteAll(RawClips(clips[1..]), WriteClip);
    ClipLayout(clips[0]);
    ClipIsShort(first, clips[0]);
    if i == 0 {
      assert (first + rest)[..112] == first;
    } else {
      ClipsLayout(clips[1..], i - 1);
      SliceBehind(first, rest, 112 * (i - 1), 112 * i);
    }
  }

  /** How many bytes the first `n` track records take. */
  function TrackBytes(tracks: seq<Track>, n: nat): nat
    requires n <= |tracks|
  {
    if n == 0 then 0 else TrackBytes(tracks, n - 1) + 24 + 16 * |tracks[n - 1].clipIds|
  }

  lemma {:induction false} TrackBytesFromFirst(tracks: seq<Track>, n: nat)
    requires 0 < n <= |tracks|
    ensures TrackBytes(tracks, n) == 24 + 16 * |tracks[0].clipIds| + TrackBytes(tracks[1..], n - 1)
    decreases n
  {
    if n > 1 {
      TrackBytesFromFirst(tracks, n - 1);
    }
  }

  lemma {:induction false} TracksLayout(tracks: seq<Track>, i: nat)
    requires i < |tracks| && forall t | t in tracks :: |t.clipIds| < TWO_TO_THE_64
    ensures |WriteAll(tracks, WriteTrack)| == TrackBytes(tracks, |tracks|)
    ensures TrackBytes(tracks, i) <= TrackBytes(tracks, i + 1) <= |WriteAll(tracks, WriteTrack)|
    ensures IsTrack(WriteAll(tracks, WriteTrack)[TrackBytes(tracks, i)..TrackBytes(tracks, i + 1)], tracks[i])
    decreases |tracks|
  {
    hide WriteTrack, IsTrack, TrackBytes;
    var first, rest := WriteTrack(tracks[0]), WriteAll(tracks[1..], WriteTrack);
    TrackLayout(tracks[0]);
    TrackIsLong(first, tracks[0]);
    TrackBytesFromFirst(tracks, |tracks|);
    TrackBytesFromFirst(tracks, i + 1);
    NoTrackBytes(tracks);
    NoTrackBytes(tracks[1..]);
    if |tracks| == 1 {
      assert tracks[1..] == [];
      assert first + rest == first;
    } else if i == 0 {
      TracksLayout(tracks[1..], 0);
      assert (first + rest)[..|first|] == first;
    } else {
      TracksLayout(tracks[1..], i - 1);
      TrackBytesFromFirst(tracks, i);
      SliceBehind(first, rest, TrackBytes(tracks[1..], i - 1), TrackBytes(tracks[1..], i));
    }
  }

  lemma NoTrackBytes(tracks: seq<Track>)
    ensures TrackBytes(tracks, 0) == 0
  {
  }

  lemma TrackIsLong(b: seq<byte>, t: Track)
    requires IsTrack(b, t)
    ensures |b| == 24 + 16 * |t.clipIds|
  {
  }

  /** A count and the records it counts. */
  predicate AreAssets(b: seq<byte>, assets: seq<Asset>) {
    && |b| == 8 + 72 * |assets| && Number(b[..8]) == |assets|
    && forall i :: 0 <= i < |assets| ==> IsAsset(b[8 + 72 * i..80 + 72 * i], assets[i])
  }

  predicate AreTracks(b: seq<byte>, tracks: seq<Track>) {
    && |b| == 8 + TrackBytes(tracks, |tracks|) && Number(b[..8]) == |tracks|
    && forall i :: 0 <= i < |tracks| ==> IsTrackAt(b, tracks, i)
  }

  predicate IsTrackAt(b: seq<byte>, tracks: seq<Track>, i: nat)
    requires i < |tracks|
  {
    var from, to := 8 + TrackBytes(tracks, i), 8 + TrackBytes(tracks, i + 1);
    from <= to <= |b| && IsTrack(b[from..to], tracks[i])
  }

  predicate AreClips(b: seq<byte>, clips: seq<Clip>) {
    && |b| == 8 + 112 * |clips| && Number(b[..8]) == |clips|
    && forall i :: 0 <= i < |clips| ==> IsClip(b[8 + 112 * i..120 + 112 * i], clips[i])
  }

  lemma AssetListLayout(assets: seq<Asset>)
    requires |assets| < TWO_TO_THE_64
    ensures AreAssets(WriteList(assets, WriteAsset), assets)
  {
    hide ToBe, Number, WriteAll, IsAsset;
    var count, records := ToBe(|assets|, 8), WriteAll(assets, WriteAsset);
    NumbersAreBigEndian(|assets|, 0);
    WriteAssetsLength(assets);
    assert (count + records)[..8] == count;
    forall i | 0 <= i < |assets| ensures IsAsset((count + records)[8 + 72 * i..80 + 72 * i], assets[i]) {
      AssetsLayout(assets, i);
      SliceBehind(count, records, 72 * i, 72 * i + 72);
    }
  }

  lemma ClipListLayout(clips: seq<Clip>)
    requires |clips| < TWO_TO_THE_64
    ensures AreClips(WriteList(RawClips(clips), WriteClip), clips)
  {
    hide ToBe, Number, WriteAll, IsClip, Before, Canonical;
    var count, records := ToBe(|clips|, 8), WriteAll(RawClips(clips), WriteClip);
    NumbersAreBigEndian(|clips|, 0);
    WriteClipsLength(RawClips(clips));
    assert (count + records)[..8] == count;
    forall i | 0 <= i < |clips| ensures IsClip((count + records)[8 + 112 * i..120 + 112 * i], clips[i]) {
      ClipsLayout(clips, i);
      SliceBehind(count, records, 112 * i, 112 * i + 112);
    }
  }

  lemma TrackListLayout(tracks: seq<Track>)
    requires |tracks| < TWO_TO_THE_64 && forall t | t in tracks :: |t.clipIds| < TWO_TO_THE_64
    ensures AreTracks(WriteList(tracks, WriteTrack), tracks)
  {
    hide ToBe, Number, WriteAll, IsTrack, TrackBytes;
    var count, records := ToBe(|tracks|, 8), WriteAll(tracks, WriteTrack);
    NumbersAreBigEndian(|tracks|, 0);
    assert (count + records)[..8] == count;
    assert |records| == TrackBytes(tracks, |tracks|) by {
      if tracks == [] {
        NoTrackBytes(tracks);
        NothingWritten(tracks);
      } else {
        TracksLayout(tracks, 0);
      }
    }
    forall i | 0 <= i < |tracks| ensures IsTrackAt(count + records, tracks, i) {
      TracksLayout(tracks, i);
      SliceBehind(count, records, TrackBytes(tracks, i), TrackBytes(tracks, i + 1));
    }
  }

  lemma NothingWritten(tracks: seq<Track>)
    requires tracks == []
    ensures WriteAll(tracks, WriteTrack) == []
  {
  }

  /**
   * The bytes of a project: tag, version, and three counted lists, each in the order of the identifiers as
   * 128-bit numbers. Every byte belongs to one of these.
   */
  lemma ProjectLayout(p: Project) returns (assets: seq<Asset>, tracks: seq<Track>, clips: seq<Clip>)
    requires Sound(p) && Storable(p)
    ensures Lists(assets, p.assets, AssetKey) && Lists(tracks, p.tracks, TrackKey) && Lists(clips, p.clips, ClipKey)
    ensures
      var b := EncodeProject(p);
      var t := 27 + 72 * |assets|;
      var c := t + 8 + TrackBytes(tracks, |tracks|);
      && |b| == c + 8 + 112 * |clips|
      && Spells(b[..15], "STITCH-PROJECT\0") && b[15..19] == [0, 0, 0, 1]
      && AreAssets(b[19..t], assets) && AreTracks(b[t..c], tracks) && AreClips(b[c..], clips)
  {
    hide Sound, Storable, WriteList, WriteVersion, Spells, AreAssets, AreTracks, AreClips, Lists, SortedValues,
      RawClips, Before, Canonical, TrackBytes, Number;
    assets, tracks, clips := SortedValues(p.assets), SortedValues(p.tracks), SortedValues(p.clips);
    SoundIsKeyed(p);
    SortedValuesList(p.assets, AssetKey);
    SortedValuesList(p.tracks, TrackKey);
    SortedValuesList(p.clips, ClipKey);
    StorableCountsFit(p);
    RawClipsCount(clips);
    ProjectTagSpells();
    VersionIsOne();
    AssetListLayout(assets);
    TrackListLayout(tracks);
    ClipListLayout(clips);
    var a, t, c := WriteList(assets, WriteAsset), WriteList(tracks, WriteTrack), WriteList(RawClips(clips), WriteClip);
    ListsAreLong(a, assets, t, tracks, c, clips);
    ProjectParts(PROJECT_TAG, WriteVersion(), a, t, c);
  }

  lemma ProjectParts(tag: seq<byte>, version: seq<byte>, a: seq<byte>, t: seq<byte>, c: seq<byte>)
    requires |tag| == 15 && |version| == 4
    ensures
      var b, m, n := tag + (version + (a + (t + c))), 19 + |a|, 19 + |a| + |t|;
      && |b| == n + |c| && b[..15] == tag && b[15..19] == version && b[19..m] == a && b[m..n] == t && b[n..] == c
  {
    var b, m, n := tag + (version + (a + (t + c))), 19 + |a|, 19 + |a| + |t|;
    Parts(tag, version, a, t + c);
    assert (t + c)[..|t|] == t && (t + c)[|t|..] == c;
    assert b[m..n] == b[m..][..|t|] && b[n..] == b[m..][|t|..];
  }

  lemma SoundIsKeyed(p: Project)
    requires Sound(p)
    ensures KeyedBy(p.assets, AssetKey) && KeyedBy(p.tracks, TrackKey) && KeyedBy(p.clips, ClipKey)
  {
  }

  lemma RawClipsCount(clips: seq<Clip>)
    ensures |RawClips(clips)| == |clips|
  {
  }

  lemma ListsAreLong(
      a: seq<byte>, assets: seq<Asset>, t: seq<byte>, tracks: seq<Track>, c: seq<byte>, clips: seq<Clip>)
    requires AreAssets(a, assets) && AreTracks(t, tracks) && AreClips(c, clips)
    ensures |a| == 8 + 72 * |assets| && |t| == 8 + TrackBytes(tracks, |tracks|) && |c| == 8 + 112 * |clips|
  {
  }
}
