/** The command-chain hash and what it commits to. */
module Revisions {
  import opened Wrappers
  import opened Bytes
  import opened Rationals
  import opened Projects
  import opened Codec

  /** `b"STITCH-REVISION\0"`. */
  const REVISION_TAG: seq<byte> := [83, 84, 73, 84, 67, 72, 45, 82, 69, 86, 73, 83, 73, 79, 78, 0]

  function ParentBytes(parent: Option<Digest>): seq<byte> {
    match parent
    case Some(digest) => [1] + digest
    case None => [0]
  }

  function Preimage(parent: Option<Digest>, command: Command): seq<byte> {
    var bytes := EncodeCommand(command);
    REVISION_TAG + (WriteVersion() + (ParentBytes(parent) + (ToBe(|bytes|, 8) + bytes)))
  }

  /** `revision_hash`. */
  function RevisionHash(sha: Hash, parent: Option<Digest>, command: Command): Digest {
    sha(Preimage(parent, command))
  }

  /** The head after a log: each revision hashes its parent and its command. */
  function ChainHash(sha: Hash, log: seq<Command>): Option<Digest> {
    if log == [] then None
    else Some(RevisionHash(sha, ChainHash(sha, log[..|log| - 1]), log[|log| - 1]))
  }

  lemma ChainExtended(sha: Hash, log: seq<Command>, c: Command)
    ensures ChainHash(sha, log + [c]) == Some(RevisionHash(sha, ChainHash(sha, log), c))
  {
    hide RevisionHash;
    assert (log + [c])[..|log|] == log;
  }

  lemma ConcatenationCancels(a: seq<byte>, b: seq<byte>, c: seq<byte>, d: seq<byte>)
    requires |a| == |c| && a + b == c + d
    ensures a == c && b == d
  {
    assert (a + b)[..|a|] == a && (a + b)[|a|..] == b;
    assert (c + d)[..|c|] == c && (c + d)[|c|..] == d;
  }

  /** A preimage names its parent and its command: no two revisions share one. */
  lemma PreimageIsInjective(p: Option<Digest>, c: Command, q: Option<Digest>, d: Command)
    requires Preimage(p, c) == Preimage(q, d)
    ensures p == q && c == d
  {
    hide EncodeCommand, ToBe, WriteVersion, Before, Canonical;
    var ec, ed := EncodeCommand(c), EncodeCommand(d);
    var lc, ld := ToBe(|ec|, 8), ToBe(|ed|, 8);
    ConcatenationCancels(REVISION_TAG, WriteVersion() + (ParentBytes(p) + (lc + ec)),
      REVISION_TAG, WriteVersion() + (ParentBytes(q) + (ld + ed)));
    ConcatenationCancels(WriteVersion(), ParentBytes(p) + (lc + ec), WriteVersion(), ParentBytes(q) + (ld + ed));
    assert (ParentBytes(p) + (lc + ec))[0] == ParentBytes(p)[0];
    assert (ParentBytes(q) + (ld + ed))[0] == ParentBytes(q)[0];
    ConcatenationCancels(ParentBytes(p), lc + ec, ParentBytes(q), ld + ed);
    assert p == q by {
      if p.Some? {
        ConcatenationCancels([1], p.value, [1], q.value);
      }
    }
    ConcatenationCancels(lc, ec, ld, ed);
    EncodeCommandIsInjective(c, d);
  }

  /** Two different byte strings with one digest. */
  predicate Collides(sha: Hash, x: seq<byte>, y: seq<byte>) {
    x != y && sha(x) == sha(y)
  }

  /** The bytes hashed for revision `i` of a log. */
  function PreimageAt(sha: Hash, log: seq<Command>, i: nat): seq<byte>
    requires i < |log|
  {
    Preimage(ChainHash(sha, log[..i]), log[i])
  }

  lemma PreimageOfPrefix(sha: Hash, log: seq<Command>, n: nat, i: nat)
    requires i < n <= |log|
    ensures PreimageAt(sha, log[..n], i) == PreimageAt(sha, log, i)
  {
    assert log[..n][..i] == log[..i];
  }

  /**
   * The head hash binds the whole history: two different logs with one head
   * contain two revisions whose different preimages have one digest.
   */
  lemma {:induction false} HeadBindsHistory(sha: Hash, a: seq<Command>, b: seq<Command>) returns (i: nat, j: nat)
    requires ChainHash(sha, a) == ChainHash(sha, b) && a != b
    ensures i < |a| && j < |b| && Collides(sha, PreimageAt(sha, a, i), PreimageAt(sha, b, j))
    decreases |a|
  {
    hide Preimage, Before, Canonical;
    i, j := |a| - 1, |b| - 1;
    var frontA, frontB := a[..i], b[..j];
    if PreimageAt(sha, a, i) == PreimageAt(sha, b, j) {
      PreimageIsInjective(ChainHash(sha, frontA), a[i], ChainHash(sha, frontB), b[j]);
      assert a == frontA + [a[i]] && b == frontB + [b[j]];
      var n, m := i, j;
      i, j := HeadBindsHistory(sha, frontA, frontB);
      PreimageOfPrefix(sha, a, n, i);
      PreimageOfPrefix(sha, b, m, j);
    }
  }

  /** The digest tells the revisions of the two logs apart. */
  ghost predicate TellsApart(sha: Hash, a: seq<Command>, b: seq<Command>) {
    forall i, j :: 0 <= i < |a| && 0 <= j < |b| ==> !Collides(sha, PreimageAt(sha, a, i), PreimageAt(sha, b, j))
  }

  /** So, for a digest that tells them apart, equal heads mean equal logs, hence equal projects. */
  lemma HeadDeterminesLog(sha: Hash, a: seq<Command>, b: seq<Command>)
    requires TellsApart(sha, a, b)
    ensures ChainHash(sha, a) == ChainHash(sha, b) <==> a == b
  {
    hide ChainHash, Collides, PreimageAt;
    if ChainHash(sha, a) == ChainHash(sha, b) && a != b {
      var i, j := HeadBindsHistory(sha, a, b);
    }
  }
}
