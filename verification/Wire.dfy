/** The byte format: records written one after the other, and readers that undo them. */
module Wire {
  import opened Wrappers
  import opened Bytes
  import opened Rationals
  import opened Projects

  /** A read either fails or yields a value and the bytes not yet consumed. */
  type Read<T> = Result<(T, seq<byte>), ModelError>

  function Take(b: seq<byte>, length: nat): (r: Read<seq<byte>>)
    ensures r.Ok? <==> length <= |b|
    ensures r.Ok? ==> b == r.value.0 + r.value.1 && |r.value.0| == length
  {
    if length <= |b| then Ok((b[..length], b[length..])) else Err(CorruptProject)
  }

  lemma TakeOf(x: seq<byte>, rest: seq<byte>)
    ensures Take(x + rest, |x|) == Ok((x, rest))
  {
    assert (x + rest)[..|x|] == x && (x + rest)[|x|..] == rest;
  }

  function ReadId(b: seq<byte>): (r: Read<Id>) {
    var (x, rest) :- Take(b, 16);
    Ok((x, rest))
  }

  function ReadDigest(b: seq<byte>): (r: Read<Digest>) {
    var (x, rest) :- Take(b, 32);
    Ok((x, rest))
  }

  function ReadU64(b: seq<byte>): (r: Read<u64>) {
    var (x, rest) :- Take(b, 8);
    Ok((U64FromBe(x), rest))
  }

  function ReadI64(b: seq<byte>): (r: Read<i64>) {
    var (x, rest) :- Take(b, 8);
    Ok((I64FromBe(x), rest))
  }

  function ReadByte(b: seq<byte>): (r: Read<byte>) {
    var (x, rest) :- Take(b, 1);
    Ok((x[0], rest))
  }

  /** `expect`: the given bytes and nothing else. */
  function ReadExact(b: seq<byte>, expected: seq<byte>): (r: Read<()>)
    ensures r.Ok? ==> b == expected + r.value.1
  {
    var (x, rest) :- Take(b, |expected|);
    if x == expected then Ok(((), rest)) else Err(CorruptProject)
  }

  lemma ReadExactOf(expected: seq<byte>, rest: seq<byte>)
    ensures ReadExact(expected + rest, expected) == Ok(((), rest))
  {
    TakeOf(expected, rest);
  }

  lemma ReadU64Of(n: u64, rest: seq<byte>)
    ensures ReadU64(ToBe(n, 8) + rest) == Ok((n, rest))
  {
    TakeOf(ToBe(n, 8), rest);
    U64RoundTrip(n);
  }

  lemma U64BytesRead(b: seq<byte>)
    requires ReadU64(b).Ok?
    ensures b == ToBe(ReadU64(b).value.0, 8) + ReadU64(b).value.1
  {
    U64BytesRoundTrip(b[..8]);
  }

  // Writers and readers that belong together.

  /** Reading what was written for `x` gives `x` back, whatever follows. */
  ghost predicate Restores<T>(write: T -> seq<byte>, read: seq<byte> -> Read<T>, x: T) {
    forall rest: seq<byte> :: read(write(x) + rest) == Ok((x, rest))
  }

  /** Whatever is read was written that way. */
  ghost predicate Faithful<T>(write: T -> seq<byte>, read: seq<byte> -> Read<T>) {
    forall b: seq<byte> :: read(b).Ok? ==> b == write(read(b).value.0) + read(b).value.1
  }

  function WriteAll<T>(items: seq<T>, write: T -> seq<byte>): seq<byte> {
    if items == [] then [] else write(items[0]) + WriteAll(items[1..], write)
  }

  function ReadAll<T>(n: nat, b: seq<byte>, read: seq<byte> -> Read<T>): (r: Read<seq<T>>)
    ensures r.Ok? ==> |r.value.0| == n
  {
    if n == 0 then Ok(([], b))
    else
      var (x, afterFirst) :- read(b);
      var (xs, rest) :- ReadAll(n - 1, afterFirst, read);
      Ok(([x] + xs, rest))
  }

  lemma {:induction false} ReadAllOfWriteAll<T>(
    items: seq<T>, write: T -> seq<byte>, read: seq<byte> -> Read<T>, rest: seq<byte>)
    requires forall x | x in items :: Restores(write, read, x)
    ensures ReadAll(|items|, WriteAll(items, write) + rest, read) == Ok((items, rest))
  {
    if items == [] {
      assert WriteAll(items, write) + rest == rest;
    } else {
      var tail := WriteAll(items[1..], write);
      assert WriteAll(items, write) + rest == write(items[0]) + (tail + rest);
      assert Restores(write, read, items[0]);
      ReadAllOfWriteAll(items[1..], write, read, rest);
      assert [items[0]] + items[1..] == items;
    }
  }

  lemma {:induction false} WriteAllOfReadAll<T>(n: nat, b: seq<byte>, write: T -> seq<byte>, read: seq<byte> -> Read<T>)
    requires Faithful(write, read) && ReadAll(n, b, read).Ok?
    ensures b == WriteAll(ReadAll(n, b, read).value.0, write) + ReadAll(n, b, read).value.1
  {
    if n > 0 {
      var (x, afterFirst) := read(b).value;
      WriteAllOfReadAll(n - 1, afterFirst, write, read);
      var (xs, rest) := ReadAll(n - 1, afterFirst, read).value;
      assert ([x] + xs)[1..] == xs;
      assert write(x) + (WriteAll(xs, write) + rest) == (write(x) + WriteAll(xs, write)) + rest;
    }
  }

  /** A list on the wire: its length, then its items. */
  function WriteList<T>(items: seq<T>, write: T -> seq<byte>): seq<byte> {
    ToBe(|items|, 8) + WriteAll(items, write)
  }

  function ReadList<T>(b: seq<byte>, read: seq<byte> -> Read<T>): (r: Read<seq<T>>) {
    var (n, rest) :- ReadU64(b);
    ReadAll(n, rest, read)
  }

  lemma ReadListOfWriteList<T>(
    items: seq<T>, write: T -> seq<byte>, read: seq<byte> -> Read<T>, rest: seq<byte>)
    requires |items| < TWO_TO_THE_64
    requires forall x | x in items :: Restores(write, read, x)
    ensures ReadList(WriteList(items, write) + rest, read) == Ok((items, rest))
  {
    assert WriteList(items, write) + rest == ToBe(|items|, 8) + (WriteAll(items, write) + rest);
    ReadU64Of(|items|, WriteAll(items, write) + rest);
    ReadAllOfWriteAll(items, write, read, rest);
  }

  lemma WriteListOfReadList<T>(b: seq<byte>, write: T -> seq<byte>, read: seq<byte> -> Read<T>)
    requires Faithful(write, read) && ReadList(b, read).Ok?
    ensures b == WriteList(ReadList(b, read).value.0, write) + ReadList(b, read).value.1
    ensures |ReadList(b, read).value.0| < TWO_TO_THE_64
  {
    U64BytesRead(b);
    var (n, afterCount) := ReadU64(b).value;
    WriteAllOfReadAll(n, afterCount, write, read);
    var (items, rest) := ReadAll(n, afterCount, read).value;
    assert ToBe(n, 8) + (WriteAll(items, write) + rest) == (ToBe(n, 8) + WriteAll(items, write)) + rest;
  }

  // Records.

  function WriteId(id: Id): seq<byte> { id }

  function WriteAsset(a: Asset): seq<byte> {
    a.id + (a.identity.contentSha256 + (ToBe(a.identity.byteLength, 8) + a.identity.providerId))
  }

  function ReadAsset(b: seq<byte>): (r: Read<Asset>) {
    var (id, b1) :- ReadId(b);
    var (sha, b2) :- ReadDigest(b1);
    var (length, b3) :- ReadU64(b2);
    var (provider, b4) :- ReadId(b3);
    Ok((Asset(id, AssetIdentity(sha, length, provider)), b4))
  }

  function WriteTrack(t: Track): seq<byte> {
    t.id + WriteList(t.clipIds, WriteId)
  }

  function ReadTrack(b: seq<byte>): (r: Read<Track>) {
    var (id, b1) :- ReadId(b);
    var (clipIds, b2) :- ReadList(b1, ReadId);
    Ok((Track(id, clipIds), b2))
  }

  function WriteFraction(f: Fraction): seq<byte> {
    I64ToBe(f.numerator) + I64ToBe(f.denominator)
  }

  function ReadFraction(b: seq<byte>): (r: Read<Fraction>) {
    var (n, b1) :- ReadI64(b);
    var (d, b2) :- ReadI64(b1);
    Ok((Fraction(n, d), b2))
  }

  /** A time range as it stands on the wire, before normalisation and before the order check. */
  datatype RawRange = RawRange(start: Fraction, end: Fraction)

  function WriteRange(r: RawRange): seq<byte> {
    WriteFraction(r.start) + WriteFraction(r.end)
  }

  function ReadRange(b: seq<byte>): (r: Read<RawRange>) {
    var (start, b1) :- ReadFraction(b);
    var (end, b2) :- ReadFraction(b1);
    Ok((RawRange(start, end), b2))
  }

  datatype RawClip = RawClip(id: Id, assetId: Id, trackId: Id, timelineRange: RawRange, sourceRange: RawRange)

  function WriteClip(c: RawClip): seq<byte> {
    c.id + (c.assetId + (c.trackId + (WriteRange(c.timelineRange) + WriteRange(c.sourceRange))))
  }

  function ReadClip(b: seq<byte>): (r: Read<RawClip>) {
    var (id, b1) :- ReadId(b);
    var (assetId, b2) :- ReadId(b1);
    var (trackId, b3) :- ReadId(b2);
    var (timelineRange, b4) :- ReadRange(b3);
    var (sourceRange, b5) :- ReadRange(b4);
    Ok((RawClip(id, assetId, trackId, timelineRange, sourceRange), b5))
  }

  lemma Regroups(a: seq<byte>, b: seq<byte>, c: seq<byte>)
    ensures (a + b) + c == a + (b + c)
  {
  }

  lemma ReadIdOf(id: Id, rest: seq<byte>)
    ensures ReadId(id + rest) == Ok((id, rest))
  {
    TakeOf(id, rest);
  }

  lemma IdRestores(id: Id)
    ensures Restores(WriteId, ReadId, id)
  {
    forall rest: seq<byte> ensures ReadId(WriteId(id) + rest) == Ok((id, rest)) { ReadIdOf(id, rest); }
  }

  lemma IdFaithful()
    ensures Faithful(WriteId, ReadId)
  {
  }

  lemma ReadAssetOf(a: Asset, rest: seq<byte>)
    ensures ReadAsset(WriteAsset(a) + rest) == Ok((a, rest))
  {
    hide U64FromBe, ToBe;
    var length := ToBe(a.identity.byteLength, 8);
    var b3 := a.identity.providerId + rest;
    var b2 := length + b3;
    var b1 := a.identity.contentSha256 + b2;
    assert WriteAsset(a) + rest == a.id + b1;
    ReadIdOf(a.id, b1);
    TakeOf(a.identity.contentSha256, b2);
    ReadU64Of(a.identity.byteLength, b3);
    ReadIdOf(a.identity.providerId, rest);
  }

  lemma AssetFaithful()
    ensures Faithful(WriteAsset, ReadAsset)
  {
    hide U64FromBe, ToBe;
    forall b: seq<byte> | ReadAsset(b).Ok?
      ensures b == WriteAsset(ReadAsset(b).value.0) + ReadAsset(b).value.1
    {
      var b1 := ReadId(b).value.1;
      var b2 := ReadDigest(b1).value.1;
      U64BytesRead(b2);
    }
  }

  lemma ReadTrackOf(t: Track, rest: seq<byte>)
    requires |t.clipIds| < TWO_TO_THE_64
    ensures ReadTrack(WriteTrack(t) + rest) == Ok((t, rest))
  {
    hide WriteList, ReadList;
    forall x | x in t.clipIds ensures Restores(WriteId, ReadId, x) { IdRestores(x); }
    Regroups(t.id, WriteList(t.clipIds, WriteId), rest);
    ReadIdOf(t.id, WriteList(t.clipIds, WriteId) + rest);
    ReadListOfWriteList(t.clipIds, WriteId, ReadId, rest);
  }

  lemma TrackFaithful()
    ensures Faithful(WriteTrack, ReadTrack)
    ensures forall b: seq<byte> :: ReadTrack(b).Ok? ==> |ReadTrack(b).value.0.clipIds| < TWO_TO_THE_64
  {
    hide WriteList, ReadList;
    IdFaithful();
    forall b: seq<byte> | ReadTrack(b).Ok?
      ensures b == WriteTrack(ReadTrack(b).value.0) + ReadTrack(b).value.1
      ensures |ReadTrack(b).value.0.clipIds| < TWO_TO_THE_64
    {
      WriteListOfReadList(ReadId(b).value.1, WriteId, ReadId);
    }
  }

  lemma ReadI64Of(x: i64, rest: seq<byte>)
    ensures ReadI64(I64ToBe(x) + rest) == Ok((x, rest))
  {
    TakeOf(I64ToBe(x), rest);
    I64RoundTrip(x);
  }

  lemma I64BytesRead(b: seq<byte>)
    requires ReadI64(b).Ok?
    ensures b == I64ToBe(ReadI64(b).value.0) + ReadI64(b).value.1
  {
    I64BytesRoundTrip(b[..8]);
  }

  lemma ReadFractionOf(f: Fraction, rest: seq<byte>)
    ensures ReadFraction(WriteFraction(f) + rest) == Ok((f, rest))
  {
    hide ReadI64, I64ToBe;
    Regroups(I64ToBe(f.numerator), I64ToBe(f.denominator), rest);
    ReadI64Of(f.numerator, I64ToBe(f.denominator) + rest);
    ReadI64Of(f.denominator, rest);
  }

  lemma FractionBytesRead(b: seq<byte>)
    requires ReadFraction(b).Ok?
    ensures b == WriteFraction(ReadFraction(b).value.0) + ReadFraction(b).value.1
  {
    hide ReadI64, I64ToBe;
    I64BytesRead(b);
    I64BytesRead(ReadI64(b).value.1);
  }

  lemma ReadRangeOf(r: RawRange, rest: seq<byte>)
    ensures ReadRange(WriteRange(r) + rest) == Ok((r, rest))
  {
    hide ReadFraction, WriteFraction;
    Regroups(WriteFraction(r.start), WriteFraction(r.end), rest);
    ReadFractionOf(r.start, WriteFraction(r.end) + rest);
    ReadFractionOf(r.end, rest);
  }

  lemma RangeBytesRead(b: seq<byte>)
    requires ReadRange(b).Ok?
    ensures b == WriteRange(ReadRange(b).value.0) + ReadRange(b).value.1
  {
    hide ReadFraction, WriteFraction;
    FractionBytesRead(b);
    FractionBytesRead(ReadFraction(b).value.1);
  }

  lemma ReadClipOf(c: RawClip, rest: seq<byte>)
    ensures ReadClip(WriteClip(c) + rest) == Ok((c, rest))
  {
    hide ReadRange, WriteRange;
    var b4 := WriteRange(c.sourceRange) + rest;
    var b3 := WriteRange(c.timelineRange) + b4;
    var b2 := c.trackId + b3;
    var b1 := c.assetId + b2;
    assert WriteClip(c) + rest == c.id + b1;
    ReadIdOf(c.id, b1);
    ReadIdOf(c.assetId, b2);
    ReadIdOf(c.trackId, b3);
    ReadRangeOf(c.timelineRange, b4);
    ReadRangeOf(c.sourceRange, rest);
  }

  lemma ClipFaithful()
    ensures Faithful(WriteClip, ReadClip)
  {
    hide ReadRange, WriteRange;
    forall b: seq<byte> | ReadClip(b).Ok?
      ensures b == WriteClip(ReadClip(b).value.0) + ReadClip(b).value.1
    {
      var b1 := ReadId(b).value.1;
      var b2 := ReadId(b1).value.1;
      var b3 := ReadId(b2).value.1;
      RangeBytesRead(b3);
      RangeBytesRead(ReadRange(b3).value.1);
    }
  }

  lemma AssetRestores(a: Asset)
    ensures Restores(WriteAsset, ReadAsset, a)
  {
    hide WriteAsset, ReadAsset;
    forall rest: seq<byte> ensures ReadAsset(WriteAsset(a) + rest) == Ok((a, rest)) { ReadAssetOf(a, rest); }
  }

  lemma TrackRestores(t: Track)
    requires |t.clipIds| < TWO_TO_THE_64
    ensures Restores(WriteTrack, ReadTrack, t)
  {
    hide WriteTrack, ReadTrack;
    forall rest: seq<byte> ensures ReadTrack(WriteTrack(t) + rest) == Ok((t, rest)) { ReadTrackOf(t, rest); }
  }

  lemma ClipRestores(c: RawClip)
    ensures Restores(WriteClip, ReadClip, c)
  {
    hide WriteClip, ReadClip;
    forall rest: seq<byte> ensures ReadClip(WriteClip(c) + rest) == Ok((c, rest)) { ReadClipOf(c, rest); }
  }
}
