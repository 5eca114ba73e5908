/** Bytes, big-endian numbers, identifiers and their byte-wise order. */
module Bytes {

  newtype byte = b: int | 0 <= b < 256

  /** `[u8; 16]` and `[u8; 32]`: the source's identifiers and SHA-256 digests. */
  type Id = s: seq<byte> | |s| == 16 witness seq(16, _ => 0)
  type Digest = s: seq<byte> | |s| == 32 witness seq(32, _ => 0)

  /** The digest function is a parameter: every theorem holds for every function to 32 bytes. */
  type Hash = seq<byte> -> Digest

  const TWO_TO_THE_63: int := 0x8000_0000_0000_0000
  const TWO_TO_THE_64: int := 0x1_0000_0000_0000_0000

  type i64 = x: int | -0x8000_0000_0000_0000 <= x < 0x8000_0000_0000_0000
  type u64 = x: int | 0 <= x < 0x1_0000_0000_0000_0000

  function Pow256(n: nat): (p: nat)
    ensures p > 0
  {
    if n == 0 then 1 else 256 * Pow256(n - 1)
  }

  lemma Pow256Of4And8()
    ensures Pow256(4) == 0x1_0000_0000
    ensures Pow256(8) == TWO_TO_THE_64
  {
    assert Pow256(2) == 0x1_0000;
    assert Pow256(4) == 0x1_0000_0000;
    assert Pow256(6) == 0x1_0000_0000_0000;
  }

  /** The low `width` bytes of `n`, most significant first (`to_be_bytes`). */
  function ToBe(n: nat, width: nat): (s: seq<byte>)
    ensures |s| == width
  {
    if width == 0 then [] else ToBe(n / 256, width - 1) + [(n % 256) as byte]
  }

  lemma {:induction false} ZeroBytes(width: nat, i: nat)
    requires i < width
    ensures ToBe(0, width)[i] == 0
  {
    if i < width - 1 {
      ZeroBytes(width - 1, i);
    }
  }

  /** `from_be_bytes`. */
  function FromBe(s: seq<byte>): nat {
    if s == [] then 0 else FromBe(s[..|s| - 1]) * 256 + s[|s| - 1] as nat
  }

  lemma {:induction false} FromBeBound(s: seq<byte>)
    ensures FromBe(s) < Pow256(|s|)
  {
    if s != [] {
      FromBeBound(s[..|s| - 1]);
    }
  }

  lemma {:induction false} FromBeOfToBe(n: nat, width: nat)
    requires n < Pow256(width)
    ensures FromBe(ToBe(n, width)) == n
  {
    if width > 0 {
      FromBeOfToBe(n / 256, width - 1);
      assert ToBe(n, width)[..width - 1] == ToBe(n / 256, width - 1);
    }
  }

  lemma {:induction false} ToBeOfFromBe(s: seq<byte>)
    ensures ToBe(FromBe(s), |s|) == s
  {
    if s != [] {
      var rest := s[..|s| - 1];
      ToBeOfFromBe(rest);
      assert FromBe(s) / 256 == FromBe(rest);
      assert s == rest + [s[|s| - 1]];
    }
  }

  /** Two's complement. */
  function I64ToBe(x: i64): (s: seq<byte>)
    ensures |s| == 8
  {
    ToBe(if x < 0 then x + TWO_TO_THE_64 else x, 8)
  }

  function I64FromBe(s: seq<byte>): (x: i64)
    requires |s| == 8
  {
    FromBeBound(s);
    Pow256Of4And8();
    var n := FromBe(s);
    if n < TWO_TO_THE_63 then n else n - TWO_TO_THE_64
  }

  function U64FromBe(s: seq<byte>): (x: u64)
    requires |s| == 8
  {
    FromBeBound(s);
    Pow256Of4And8();
    FromBe(s)
  }

  lemma I64RoundTrip(x: i64)
    ensures I64FromBe(I64ToBe(x)) == x
  {
    Pow256Of4And8();
    FromBeOfToBe(if x < 0 then x + TWO_TO_THE_64 else x, 8);
  }

  lemma I64BytesRoundTrip(s: seq<byte>)
    requires |s| == 8
    ensures I64ToBe(I64FromBe(s)) == s
  {
    FromBeBound(s);
    Pow256Of4And8();
    ToBeOfFromBe(s);
  }

  lemma U64RoundTrip(x: u64)
    ensures U64FromBe(ToBe(x, 8)) == x
  {
    Pow256Of4And8();
    FromBeOfToBe(x, 8);
  }

  lemma U64BytesRoundTrip(s: seq<byte>)
    requires |s| == 8
    ensures ToBe(U64FromBe(s), 8) == s
  {
    ToBeOfFromBe(s);
  }

  /** The derived `Ord` of byte arrays: the first difference decides. */
  predicate Less(a: seq<byte>, b: seq<byte>)
  {
    b != [] && (a == [] || a[0] < b[0] || (a[0] == b[0] && Less(a[1..], b[1..])))
  }

  lemma {:induction false} LessIrreflexive(a: seq<byte>)
    ensures !Less(a, a)
  {
    if a != [] {
      LessIrreflexive(a[1..]);
    }
  }

  lemma {:induction false} LessTransitive(a: seq<byte>, b: seq<byte>, c: seq<byte>)
    requires Less(a, b) && Less(b, c)
    ensures Less(a, c)
  {
    if a != [] && a[0] == b[0] && b[0] == c[0] {
      LessTransitive(a[1..], b[1..], c[1..]);
    }
  }

  lemma {:induction false} LessTotal(a: seq<byte>, b: seq<byte>)
    ensures Less(a, b) || a == b || Less(b, a)
  {
    if a != [] && b != [] && a[0] == b[0] {
      LessTotal(a[1..], b[1..]);
      assert a == [a[0]] + a[1..] && b == [b[0]] + b[1..];
    }
  }

  // The order in numbers.

  /** Up to `k` the bytes are the same, and there the first is the smaller. */
  predicate DiffersAt(a: seq<byte>, b: seq<byte>, k: nat) {
    k < |a| && k < |b| && a[..k] == b[..k] && a[k] < b[k]
  }

  lemma DiffersLater(a: seq<byte>, b: seq<byte>, k: nat)
    requires a != [] && b != [] && a[0] == b[0]
    ensures DiffersAt(a, b, k + 1) <==> DiffersAt(a[1..], b[1..], k)
  {
    if k + 1 < |a| && k + 1 < |b| {
      assert a[..k + 1] == [a[0]] + a[1..][..k] && b[..k + 1] == [b[0]] + b[1..][..k];
      assert a[..k + 1][1..] == a[1..][..k] && b[..k + 1][1..] == b[1..][..k];
    }
  }

  lemma DiffersAtHead(a: seq<byte>, b: seq<byte>, k: nat)
    requires a != [] && b != [] && DiffersAt(a, b, k)
    ensures if k == 0 then a[0] < b[0] else a[0] == b[0]
  {
    if k > 0 {
      assert a[..k][0] == b[..k][0];
    }
  }

  lemma {:induction false} LessIsFirstDifference(a: seq<byte>, b: seq<byte>)
    requires |a| == |b|
    ensures Less(a, b) <==> exists k: nat :: DiffersAt(a, b, k)
    decreases |a|
  {
    if a != [] {
      LessIsFirstDifference(a[1..], b[1..]);
      if a[0] < b[0] {
        assert DiffersAt(a, b, 0);
      } else if a[0] == b[0] {
        if k: nat :| DiffersAt(a[1..], b[1..], k) {
          DiffersLater(a, b, k);
        }
        if k: nat :| DiffersAt(a, b, k) {
          DiffersAtHead(a, b, k);
          DiffersLater(a, b, k - 1);
        }
      } else {
        forall k: nat ensures !DiffersAt(a, b, k) {
          if DiffersAt(a, b, k) {
            DiffersAtHead(a, b, k);
          }
        }
      }
    }
  }

  /** The first byte is the most significant. */
  lemma {:induction false} HighByteFirst(b: seq<byte>)
    requires b != []
    ensures FromBe(b) == b[0] as nat * Pow256(|b| - 1) + FromBe(b[1..])
    decreases |b|
  {
    if |b| == 1 {
      assert b[..0] == [] && b[1..] == [];
    } else {
      var front := b[..|b| - 1];
      HighByteFirst(front);
      assert front[1..] == b[1..][..|b| - 2];
      assert FromBe(b[1..]) == FromBe(front[1..]) * 256 + b[|b| - 1] as nat;
      assert Pow256(|b| - 1) == 256 * Pow256(|b| - 2);
      Spread(b[0] as nat, Pow256(|b| - 2), FromBe(front[1..]));
    }
  }

  lemma Spread(x: nat, p: nat, y: nat)
    ensures (x * p + y) * 256 == x * (256 * p) + y * 256
  {
  }

  lemma HighByteDecides(x: nat, r: nat, y: nat, s: nat, p: nat)
    requires r < p && s < p
    ensures x * p + r < y * p + s <==> x < y || (x == y && r < s)
  {
    if x < y {
      assert (x + 1) * p <= y * p;
    } else if y < x {
      assert (y + 1) * p <= x * p;
    }
  }

  /** Identifiers of one length are ordered as numbers, which is the order of their first different bytes. */
  lemma {:induction false} LessIsNumerical(a: seq<byte>, b: seq<byte>)
    requires |a| == |b|
    ensures Less(a, b) <==> FromBe(a) < FromBe(b)
    ensures Less(a, b) <==> exists k: nat :: DiffersAt(a, b, k)
  {
    LessIsFirstDifference(a, b);
    if a != [] {
      LessIsNumerical(a[1..], b[1..]);
      HighByteFirst(a);
      HighByteFirst(b);
      FromBeBound(a[1..]);
      FromBeBound(b[1..]);
      HighByteDecides(a[0] as nat, FromBe(a[1..]), b[0] as nat, FromBe(b[1..]), Pow256(|a| - 1));
    }
  }
}
