/** Bytes, big-endian integers, and byte strings found inside a buffer. */
module ByteStrings {

  type byte = n: int | 0 <= n < 256

  const TWO64 := 0x1_0000_0000_0000_0000

  type u64 = n: int | 0 <= n < TWO64

  type Id16 = b: seq<byte> | |b| == 16 ghost witness ToBE(0, 16)
  type Id32 = b: seq<byte> | |b| == 32 ghost witness ToBE(0, 32)
  type Sig64 = b: seq<byte> | |b| == 64 ghost witness ToBE(0, 64)

  /** `x as u64` for a length or a count: the low 64 bits. */
  function Wrap(n: int): u64 {
    n % TWO64
  }

  /** The byte string `s` stands in `buf` at `pos`. */
  predicate At(buf: seq<byte>, pos: nat, s: seq<byte>) {
    pos + |s| <= |buf| && buf[pos..pos + |s|] == s
  }

  lemma {:induction false} AtSplit(buf: seq<byte>, pos: nat, a: seq<byte>, b: seq<byte>)
    requires At(buf, pos, a + b)
    ensures At(buf, pos, a) && At(buf, pos + |a|, b)
  {
    var whole := buf[pos..pos + |a + b|];
    assert buf[pos..pos + |a|] == whole[..|a|];
    assert buf[pos + |a|..pos + |a| + |b|] == whole[|a|..];
  }

  lemma {:induction false} AtIndex(buf: seq<byte>, pos: nat, s: seq<byte>, i: nat)
    requires At(buf, pos, s) && i < |s|
    ensures buf[pos + i] == s[i]
  {
    assert buf[pos..pos + |s|][i] == s[i];
  }

  function Pow2(k: nat): (p: nat)
    ensures p >= 1
  {
    if k == 0 then 1 else 2 * Pow2(k - 1)
  }

  function Pow256(w: nat): (p: int)
    ensures p >= 1
  {
    if w == 0 then 1 else 256 * Pow256(w - 1)
  }

  function ToBE(n: nat, w: nat): (s: seq<byte>)
    ensures |s| == w
  {
    if w == 0 then [] else ToBE(n / 256, w - 1) + [n % 256]
  }

  function FromBE(s: seq<byte>): (n: nat)
    ensures n < Pow256(|s|)
  {
    if s == [] then 0 else FromBE(s[..|s| - 1]) * 256 + s[|s| - 1]
  }

  lemma {:induction false} FromToBE(n: nat, w: nat)
    requires n < Pow256(w)
    ensures FromBE(ToBE(n, w)) == n
  {
    if w > 0 {
      FromToBE(n / 256, w - 1);
      assert ToBE(n, w)[..w - 1] == ToBE(n / 256, w - 1);
    }
  }

  lemma {:induction false} Widths()
    ensures Pow256(1) == 0x100
    ensures Pow256(2) == 0x1_0000
    ensures Pow256(4) == 0x1_0000_0000
    ensures Pow256(8) == TWO64
  {
    assert Pow256(2) == 256 * Pow256(1);
    assert Pow256(3) == 256 * Pow256(2);
    assert Pow256(4) == 256 * Pow256(3);
    assert Pow256(5) == 256 * Pow256(4);
    assert Pow256(6) == 256 * Pow256(5);
    assert Pow256(7) == 256 * Pow256(6);
    assert Pow256(8) == 256 * Pow256(7);
  }
}
