/** Canonical bytes of projects and commands: writing, reading, and what reading normalises. */
module Codec {
  import opened Wrappers
  import opened Bytes
  import opened Rationals
  import opened Projects
  import opened Wire

  /** `b"STITCH-PROJECT\0"` and `b"STITCH-COMMAND\0"`. */
  const PROJECT_TAG: seq<byte> := [83, 84, 73, 84, 67, 72, 45, 80, 82, 79, 74, 69, 67, 84, 0]
  const COMMAND_TAG: seq<byte> := [83, 84, 73, 84, 67, 72, 45, 67, 79, 77, 77, 65, 78, 68, 0]

  // Ranges and clips, with and without normalisation.

  function RawOf(r: TimeRange): RawRange {
    RawRange(r.start, r.end)
  }

  function Corrupt<T, E>(r: Result<T, E>): Result<T, ModelError> {
    if r.Ok? then Ok(r.value) else Err(CorruptProject)
  }

  /** `Reader::time_range` after its four numbers are read. */
  function NormalRange(raw: RawRange): (r: Result<TimeRange, ModelError>) {
    var start :- Corrupt(New(raw.start.numerator, raw.start.denominator));
    var end :- Corrupt(New(raw.end.numerator, raw.end.denominator));
    Corrupt(NewTimeRange(start, end))
  }

  predicate ReducedRange(raw: RawRange) {
    Canonical(raw.start) && Canonical(raw.end)
  }

  lemma NewOfCanonical(q: Rational)
    ensures New(q.numerator, q.denominator) == Ok(q)
  {
    FromI128IsComplete(q.numerator, q.denominator, q);
  }

  /** Normalising is the identity on ranges that are already reduced, and on no others. */
  lemma NormalRangeOf(raw: RawRange)
    ensures NormalRange(raw).Ok? ==> (RawOf(NormalRange(raw).value) == raw <==> ReducedRange(raw))
  {
    hide New;
    if NormalRange(raw).Ok? && ReducedRange(raw) {
      NewOfCanonical(raw.start);
      NewOfCanonical(raw.end);
    }
  }

  lemma NormalRangeOfRaw(r: TimeRange)
    ensures NormalRange(RawOf(r)) == Ok(r)
  {
    hide New, Canonical;
    NewOfCanonical(r.start);
    NewOfCanonical(r.end);
    CmpOrdersValues(r.start, r.end);
  }

  function RawClipOf(c: Clip): RawClip {
    RawClip(c.id, c.assetId, c.trackId, RawOf(c.timelineRange), RawOf(c.sourceRange))
  }

  function NormalClip(raw: RawClip): (r: Result<Clip, ModelError>)
    ensures r.Ok? ==> r.value.id == raw.id
  {
    var timelineRange :- NormalRange(raw.timelineRange);
    var sourceRange :- NormalRange(raw.sourceRange);
    Ok(Clip(raw.id, raw.assetId, raw.trackId, timelineRange, sourceRange))
  }

  predicate ReducedClip(raw: RawClip) {
    ReducedRange(raw.timelineRange) && ReducedRange(raw.sourceRange)
  }

  lemma NormalClipOf(raw: RawClip)
    ensures NormalClip(raw).Ok? ==> (RawClipOf(NormalClip(raw).value) == raw <==> ReducedClip(raw))
  {
    hide NormalRange, ReducedRange;
    NormalRangeOf(raw.timelineRange);
    NormalRangeOf(raw.sourceRange);
  }

  lemma NormalClipOfRaw(c: Clip)
    ensures NormalClip(RawClipOf(c)) == Ok(c)
  {
    hide NormalRange, Before, Canonical;
    NormalRangeOfRaw(c.timelineRange);
    NormalRangeOfRaw(c.sourceRange);
  }

  // Commands.

  datatype RawCommand =
    | RawAddAsset(asset: Asset)
    | RawAddTrack(trackId: Id)
    | RawAddClip(clip: RawClip)
    | RawMoveClip(clipId: Id, timelineRange: RawRange)
    | RawRemoveClip(clipId: Id)

  function RawCommandOf(c: Command): RawCommand {
    match c
    case AddAsset(asset) => RawAddAsset(asset)
    case AddTrack(trackId) => RawAddTrack(trackId)
    case AddClip(clipId, assetId, trackId, timelineRange, sourceRange) =>
      RawAddClip(RawClip(clipId, assetId, trackId, RawOf(timelineRange), RawOf(sourceRange)))
    case MoveClip(clipId, timelineRange) => RawMoveClip(clipId, RawOf(timelineRange))
    case RemoveClip(clipId) => RawRemoveClip(clipId)
  }

  function NormalCommand(raw: RawCommand): (r: Result<Command, ModelError>) {
    match raw
    case RawAddAsset(asset) => Ok(AddAsset(asset))
    case RawAddTrack(trackId) => Ok(AddTrack(trackId))
    case RawAddClip(clip) =>
      var c :- NormalClip(clip);
      Ok(AddClip(c.id, c.assetId, c.trackId, c.timelineRange, c.sourceRange))
    case RawMoveClip(clipId, raw) =>
      var timelineRange :- NormalRange(raw);
      Ok(MoveClip(clipId, timelineRange))
    case RawRemoveClip(clipId) => Ok(RemoveClip(clipId))
  }

  predicate ReducedCommand(raw: RawCommand) {
    match raw
    case RawAddClip(clip) => ReducedClip(clip)
    case RawMoveClip(_, timelineRange) => ReducedRange(timelineRange)
    case _ => true
  }

  lemma NormalCommandOf(raw: RawCommand)
    ensures NormalCommand(raw).Ok? ==> (RawCommandOf(NormalCommand(raw).value) == raw <==> ReducedCommand(raw))
  {
    hide NormalRange, ReducedRange, Before, Canonical;
    match raw
    case RawAddClip(clip) => NormalRangeOf(clip.timelineRange); NormalRangeOf(clip.sourceRange);
    case RawMoveClip(_, timelineRange) => NormalRangeOf(timelineRange);
    case _ =>
  }

  lemma NormalCommandOfRaw(c: Command)
    ensures NormalCommand(RawCommandOf(c)) == Ok(c)
  {
    hide NormalRange, Before, Canonical;
    match c
    case AddClip(_, _, _, timelineRange, sourceRange) => NormalRangeOfRaw(timelineRange); NormalRangeOfRaw(sourceRange);
    case MoveClip(_, timelineRange) => NormalRangeOfRaw(timelineRange);
    case _ =>
  }

  function WritePayload(c: RawCommand): seq<byte> {
    match c
    case RawAddAsset(asset) => [1] + WriteAsset(asset)
    case RawAddTrack(trackId) => [2] + trackId
    case RawAddClip(clip) => [3] + WriteClip(clip)
    case RawMoveClip(clipId, timelineRange) => [4] + (clipId + WriteRange(timelineRange))
    case RawRemoveClip(clipId) => [5] + clipId
  }

  function ReadPayload(b: seq<byte>): (r: Read<RawCommand>) {
    var (kind, b1) :- ReadByte(b);
    if kind == 1 then
      var (asset, rest) :- ReadAsset(b1);
      Ok((RawAddAsset(asset), rest))
    else if kind == 2 then
      var (trackId, rest) :- ReadId(b1);
      Ok((RawAddTrack(trackId), rest))
    else if kind == 3 then
      var (clip, rest) :- ReadClip(b1);
      Ok((RawAddClip(clip), rest))
    else if kind == 4 then
      var (clipId, b2) :- ReadId(b1);
      var (timelineRange, rest) :- ReadRange(b2);
      Ok((RawMoveClip(clipId, timelineRange), rest))
    else if kind == 5 then
      var (clipId, rest) :- ReadId(b1);
      Ok((RawRemoveClip(clipId), rest))
    else Err(CorruptProject)
  }

  lemma ReadByteOf(x: byte, rest: seq<byte>)
    ensures ReadByte([x] + rest) == Ok((x, rest))
  {
    TakeOf([x], rest);
  }

  lemma ReadPayloadOf(c: RawCommand, rest: seq<byte>)
    ensures ReadPayload(WritePayload(c) + rest) == Ok((c, rest))
  {
    hide WriteAsset, ReadAsset, WriteClip, ReadClip, WriteRange, ReadRange, ReadByte;
    match c {
      case RawAddAsset(asset) =>
        Regroups([1], WriteAsset(asset), rest);
        ReadByteOf(1, WriteAsset(asset) + rest);
        ReadAssetOf(asset, rest);
      case RawAddTrack(trackId) =>
        Regroups([2], trackId, rest);
        ReadByteOf(2, trackId + rest);
        ReadIdOf(trackId, rest);
      case RawAddClip(clip) =>
        Regroups([3], WriteClip(clip), rest);
        ReadByteOf(3, WriteClip(clip) + rest);
        ReadClipOf(clip, rest);
      case RawMoveClip(clipId, timelineRange) =>
        Regroups([4], clipId + WriteRange(timelineRange), rest);
        Regroups(clipId, WriteRange(timelineRange), rest);
        ReadByteOf(4, clipId + (WriteRange(timelineRange) + rest));
        ReadIdOf(clipId, WriteRange(timelineRange) + rest);
        ReadRangeOf(timelineRange, rest);
      case RawRemoveClip(clipId) =>
        Regroups([5], clipId, rest);
        ReadByteOf(5, clipId + rest);
        ReadIdOf(clipId, rest);
    }
  }

  lemma ByteRead(b: seq<byte>)
    requires ReadByte(b).Ok?
    ensures b == [ReadByte(b).value.0] + ReadByte(b).value.1
  {
  }

  lemma PayloadBytesRead(b: seq<byte>)
    requires ReadPayload(b).Ok?
    ensures b == WritePayload(ReadPayload(b).value.0) + ReadPayload(b).value.1
  {
    hide WriteAsset, ReadAsset, WriteClip, ReadClip, WriteRange, ReadRange, ReadByte;
    ByteRead(b);
    var (kind, b1) := ReadByte(b).value;
    var (c, rest) := ReadPayload(b).value;
    if kind == 1 {
      AssetFaithful();
    } else if kind == 3 {
      ClipFaithful();
    } else if kind == 4 {
      RangeBytesRead(ReadId(b1).value.1);
    }
    match c {
      case RawAddAsset(asset) => Regroups([1], WriteAsset(asset), rest);
      case RawAddTrack(trackId) => Regroups([2], trackId, rest);
      case RawAddClip(clip) => Regroups([3], WriteClip(clip), rest);
      case RawMoveClip(clipId, timelineRange) =>
        Regroups([4], clipId + WriteRange(timelineRange), rest);
        Regroups(clipId, WriteRange(timelineRange), rest);
      case RawRemoveClip(clipId) => Regroups([5], clipId, rest);
    }
  }

  function WriteVersion(): (b: seq<byte>)
    ensures |b| == 4
  {
    ToBe(SCHEMA_VERSION, 4)
  }

  function WriteRawCommand(c: RawCommand): seq<byte> {
    COMMAND_TAG + (WriteVersion() + WritePayload(c))
  }

  function ReadRawCommand(b: seq<byte>): (r: Read<RawCommand>) {
    var (_, b1) :- ReadExact(b, COMMAND_TAG);
    var (_, b2) :- ReadExact(b1, WriteVersion());
    ReadPayload(b2)
  }

  lemma ReadRawCommandOf(c: RawCommand, rest: seq<byte>)
    ensures ReadRawCommand(WriteRawCommand(c) + rest) == Ok((c, rest))
  {
    hide ReadPayload, WritePayload, ReadExact, WriteVersion;
    var version, payload := WriteVersion(), WritePayload(c);
    Regroups(COMMAND_TAG, version + payload, rest);
    Regroups(version, payload, rest);
    ReadExactOf(COMMAND_TAG, version + (payload + rest));
    ReadExactOf(version, payload + rest);
    ReadPayloadOf(c, rest);
  }

  lemma RawCommandBytesRead(b: seq<byte>)
    requires ReadRawCommand(b).Ok?
    ensures b == WriteRawCommand(ReadRawCommand(b).value.0) + ReadRawCommand(b).value.1
  {
    hide ReadPayload, WritePayload, WriteVersion;
    var b1 := ReadExact(b, COMMAND_TAG).value.1;
    var b2 := ReadExact(b1, WriteVersion()).value.1;
    PayloadBytesRead(b2);
    var (c, rest) := ReadPayload(b2).value;
    Regroups(WriteVersion(), WritePayload(c), rest);
    Regroups(COMMAND_TAG, WriteVersion() + WritePayload(c), rest);
  }

  /** `Command::canonical_bytes`. */
  function EncodeCommand(c: Command): seq<byte> {
    WriteRawCommand(RawCommandOf(c))
  }

  /** `Command::from_canonical_bytes`. */
  function DecodeCommand(b: seq<byte>): (r: Result<Command, ModelError>) {
    var (raw, rest) :- ReadRawCommand(b);
    if rest != [] then Err(CorruptProject) else NormalCommand(raw)
  }

  /** Every command decodes from its own encoding. */
  lemma CommandRoundTrip(c: Command)
    ensures DecodeCommand(EncodeCommand(c)) == Ok(c)
  {
    hide ReadRawCommand, WriteRawCommand, NormalCommand, RawCommandOf, Before, Canonical;
    var raw := RawCommandOf(c);
    ReadRawCommandOf(raw, []);
    assert WriteRawCommand(raw) + [] == WriteRawCommand(raw);
    NormalCommandOfRaw(c);
  }

  /** Different commands have different encodings. */
  lemma EncodeCommandIsInjective(c: Command, d: Command)
    requires EncodeCommand(c) == EncodeCommand(d)
    ensures c == d
  {
    hide EncodeCommand, DecodeCommand, Before, Canonical;
    CommandRoundTrip(c);
    CommandRoundTrip(d);
  }

  /** No accepted encoding is a proper prefix of another: no truncation and no trailing byte is accepted. */
  lemma AcceptedCommandsArePrefixFree(b: seq<byte>, tail: seq<byte>)
    requires DecodeCommand(b).Ok? && DecodeCommand(b + tail).Ok?
    ensures tail == []
  {
    hide ReadRawCommand, WriteRawCommand, NormalCommand;
    var raw := ReadRawCommand(b).value.0;
    RawCommandBytesRead(b);
    assert b == WriteRawCommand(raw);
    ReadRawCommandOf(raw, tail);
  }

  lemma RangeLength(r: RawRange, s: RawRange)
    ensures |WriteRange(r)| == |WriteRange(s)| == 32
  {
  }

  lemma CommandLength(c: RawCommand, d: RawCommand)
    requires NormalCommand(c).Ok? && d == RawCommandOf(NormalCommand(c).value)
    ensures |WriteRawCommand(c)| == |WriteRawCommand(d)|
  {
    hide NormalRange, WriteRange, Before, Canonical;
    match c
    case RawAddClip(clip) =>
      RangeLength(clip.timelineRange, d.clip.timelineRange);
      RangeLength(clip.sourceRange, d.clip.sourceRange);
    case RawMoveClip(_, timelineRange) => RangeLength(timelineRange, d.timelineRange);
    case _ =>
  }

  /** Decoding a command normalises its bytes, and leaves them alone exactly when they were in lowest terms. */
  lemma DecodeCommandNormalises(b: seq<byte>)
    requires DecodeCommand(b).Ok?
    ensures
      var c := DecodeCommand(b).value;
      && DecodeCommand(EncodeCommand(c)) == Ok(c)
      && |EncodeCommand(c)| == |b|
      && (EncodeCommand(c) == b <==> ReducedCommand(ReadRawCommand(b).value.0))
  {
    hide ReadRawCommand, WriteRawCommand, NormalCommand, RawCommandOf, ReducedCommand, Before, Canonical;
    var raw := ReadRawCommand(b).value.0;
    var c := DecodeCommand(b).value;
    CommandRoundTrip(c);
    RawCommandBytesRead(b);
    assert b == WriteRawCommand(raw);
    NormalCommandOf(raw);
    CommandLength(raw, RawCommandOf(c));
    RawWritingIsInjective(raw, RawCommandOf(c));
  }

  lemma RawWritingIsInjective(c: RawCommand, d: RawCommand)
    ensures WriteRawCommand(c) == WriteRawCommand(d) ==> c == d
  {
    hide ReadRawCommand, WriteRawCommand;
    ReadRawCommandOf(c, []);
    ReadRawCommandOf(d, []);
  }

  /** Not only canonical bytes are accepted: a `move` to the range from 0/2 to 2/2 is read as from 0/1 to 1/1. */
  lemma UnreducedIsAccepted(id: Id)
    ensures
      var b := WriteRawCommand(RawMoveClip(id, RawRange(Fraction(0, 2), Fraction(2, 2))));
      && DecodeCommand(b) == Ok(MoveClip(id, UNIT_RANGE))
      && EncodeCommand(MoveClip(id, UNIT_RANGE)) != b
  {
    hide ReadRawCommand, WriteRawCommand, New;
    var raw := RawMoveClip(id, RawRange(Fraction(0, 2), Fraction(2, 2)));
    var b := WriteRawCommand(raw);
    ReadRawCommandOf(raw, []);
    assert b + [] == b;
    HalvesAreReduced();
    DecodeCommandNormalises(b);
  }

  lemma HalvesAreReduced()
    ensures New(0, 2) == Ok(Fraction(0, 1)) && New(2, 2) == Ok(Fraction(1, 1))
  {
    FromI128IsComplete(0, 2, Fraction(0, 1));
    FromI128IsComplete(2, 2, Fraction(1, 1));
  }
}
