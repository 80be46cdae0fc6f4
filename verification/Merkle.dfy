/** Fixed-size chunks and the Merkle fold over their hashes (src/manifest.rs): the
    fold loop against a recursive tree, and what equal roots say about the data. */
module Merkle {
  import opened ByteStrings

  type Digest = b: seq<byte> | |b| == 32 ghost witness ToBE(0, 32)

  /** Any function to 32 bytes; nothing is assumed about collisions. */
  type Hash = seq<byte> -> Digest

  // --- chunks -----------------------------------------------------------------------

  /** `data.chunks(size)`. */
  function DoChunk(data: seq<byte>, size: nat): seq<seq<byte>>
    requires size > 0
    decreases |data|
  {
    if data == [] then []
    else if |data| <= size then [data]
    else [data[..size]] + DoChunk(data[size..], size)
  }

  function Concat(chunks: seq<seq<byte>>): seq<byte> {
    if chunks == [] then [] else chunks[0] + Concat(chunks[1..])
  }

  /** How many chunks of `size` it takes. */
  function CeilDiv(n: nat, size: nat): nat
    requires size > 0
    decreases n
  {
    if n == 0 then 0 else if n <= size then 1 else 1 + CeilDiv(n - size, size)
  }

  lemma {:induction false} CeilDivMeaning(n: nat, size: nat)
    requires size > 0
    ensures n <= CeilDiv(n, size) * size < n + size
    decreases n
  {
    if n > size { CeilDivMeaning(n - size, size); }
  }

  /** The chunks are the data; every chunk but the last is full and none is empty;
      there are as many as needed. */
  lemma {:induction false} ChunksMeaning(data: seq<byte>, size: nat)
    requires size > 0
    ensures var chunks := DoChunk(data, size);
      && Concat(chunks) == data
      && |chunks| == CeilDiv(|data|, size)
      && (forall k :: 0 <= k < |chunks| ==> 0 < |chunks[k]| <= size)
      && (forall k :: 0 <= k < |chunks| - 1 ==> |chunks[k]| == size)
    decreases |data|
  {
    if data != [] && |data| > size {
      ChunksMeaning(data[size..], size);
      var chunks := DoChunk(data, size);
      assert data == data[..size] + data[size..];
      assert chunks[0] == data[..size] && chunks[1..] == DoChunk(data[size..], size);
    } else if data != [] {
      assert Concat([data]) == data + [];
    }
  }

  /** Chunk `k` is the data from `start == k * size` on: `size` bytes, or to the end. */
  lemma {:induction false} ChunkPlace(data: seq<byte>, size: nat, k: nat, start: nat)
    requires size > 0 && k < |DoChunk(data, size)| && start == k * size
    ensures var chunks := DoChunk(data, size);
      var end := if k + 1 < |chunks| then start + size else |data|;
      && start < end <= |data|
      && chunks[k] == data[start..end]
      && Concat(chunks[..k]) == data[..start]
    decreases |data|
  {
    if k > 0 {
      var rest := data[size..];
      assert start - size == (k - 1) * size;
      ChunkPlace(rest, size, k - 1, start - size);
      var before := DoChunk(data, size)[..k];
      assert before[1..] == DoChunk(rest, size)[..k - 1];
      assert data[..start] == data[..size] + rest[..start - size];
    }
  }

  lemma {:induction false} ConcatSnoc(chunks: seq<seq<byte>>, last: seq<byte>)
    ensures Concat(chunks + [last]) == Concat(chunks) + last
  {
    if chunks == [] {
      assert [last][1..] == [] && last + [] == last;
    } else {
      ConcatSnoc(chunks[1..], last);
      assert (chunks + [last])[1..] == chunks[1..] + [last];
    }
  }

  // --- the fold -----------------------------------------------------------------------

  /** Two digests written one after the other. */
  function Pair(a: Digest, b: Digest): seq<byte> {
    var left: seq<byte> := a;
    left + b
  }

  /** One pass: neighbours hashed together, an odd last one with itself. */
  function Combine(h: Hash, hashes: seq<Digest>): (r: seq<Digest>)
    ensures |r| == (|hashes| + 1) / 2
  {
    if hashes == [] then []
    else if |hashes| == 1 then [h(Pair(hashes[0], hashes[0]))]
    else [h(Pair(hashes[0], hashes[1]))] + Combine(h, hashes[2..])
  }

  /** Levels above `n` leaves. */
  function Levels(n: nat): nat {
    if n <= 1 then 0 else 1 + Levels((n + 1) / 2)
  }

  lemma {:induction false} LevelsFit(n: nat)
    ensures n <= Pow2(Levels(n))
  {
    if n > 1 { LevelsFit((n + 1) / 2); }
  }

  /** The tree of height `k` over the leaves: the left half full, a missing right half
      standing for the left one again. */
  function Tree(h: Hash, k: nat, leaves: seq<Digest>): Digest
    requires 1 <= |leaves| <= Pow2(k)
    decreases k
  {
    if k == 0 then leaves[0]
    else
      var half := Pow2(k - 1);
      if |leaves| <= half then
        var side := Tree(h, k - 1, leaves);
        h(Pair(side, side))
      else h(Pair(Tree(h, k - 1, leaves[..half]), Tree(h, k - 1, leaves[half..])))
  }

  /** The root by definition: no leaves hash as the empty string. */
  function Root(h: Hash, leaves: seq<Digest>): Digest {
    if leaves == [] then h([])
    else
      LevelsFit(|leaves|);
      Tree(h, Levels(|leaves|), leaves)
  }

  lemma {:induction false} CombineSplit(h: Hash, a: seq<Digest>, b: seq<Digest>)
    requires |a| % 2 == 0
    ensures Combine(h, a + b) == Combine(h, a) + Combine(h, b)
    decreases |a|
  {
    if a == [] {
      assert a + b == b;
    } else {
      assert (a + b)[2..] == a[2..] + b;
      CombineSplit(h, a[2..], b);
    }
  }

  lemma {:induction false} TreeLone(h: Hash, k: nat, leaves: seq<Digest>)
    requires 1 <= |leaves| <= Pow2(k)
    ensures Tree(h, k + 1, leaves) == h(Pair(Tree(h, k, leaves), Tree(h, k, leaves)))
  {
  }

  lemma {:induction false} TreeSplit(h: Hash, k: nat, a: seq<Digest>, b: seq<Digest>)
    requires |a| == Pow2(k) && 1 <= |b| <= Pow2(k)
    ensures |a + b| <= Pow2(k + 1)
    ensures Tree(h, k + 1, a + b) == h(Pair(Tree(h, k, a), Tree(h, k, b)))
  {
    hide Pow2;
    assert Pow2(k + 1) == 2 * Pow2(k) by { Doubles(k); }
    assert (a + b)[..|a|] == a && (a + b)[|a|..] == b;
  }

  lemma {:induction false} Doubles(k: nat)
    ensures Pow2(k + 1) == 2 * Pow2(k)
  {
  }

  lemma {:induction false} TreeLeaf(h: Hash, leaf: Digest)
    ensures Pow2(0) == 1 && Tree(h, 0, [leaf]) == leaf
  {
  }

  /** A pass is the bottom level of the tree. */
  lemma {:induction false} TreeCombine(h: Hash, k: nat, leaves: seq<Digest>)
    requires 1 <= |leaves| <= Pow2(k + 1)
    ensures |Combine(h, leaves)| <= Pow2(k)
    ensures Tree(h, k + 1, leaves) == Tree(h, k, Combine(h, leaves))
  {
    Doubles(k);
    if k == 0 {
      BottomCombine(h, leaves);
    } else {
      var j := k - 1;
      hide Tree, Combine, Pow2;
      Doubles(j);
      if |leaves| <= Pow2(k) {
        TreeCombine(h, j, leaves);
        TreeLone(h, k, leaves);
        TreeLone(h, j, Combine(h, leaves));
      } else {
        var a, b := leaves[..Pow2(k)], leaves[Pow2(k)..];
        assert leaves == a + b;
        TreeCombine(h, j, a);
        TreeCombine(h, j, b);
        SplitCombine(h, j, a, b);
      }
    }
  }

  lemma {:induction false} SplitCombine(h: Hash, j: nat, a: seq<Digest>, b: seq<Digest>)
    requires |a| == Pow2(j + 1) && 1 <= |b| <= Pow2(j + 1)
    requires |Combine(h, a)| <= Pow2(j) && Tree(h, j + 1, a) == Tree(h, j, Combine(h, a))
    requires |Combine(h, b)| <= Pow2(j) && Tree(h, j + 1, b) == Tree(h, j, Combine(h, b))
    ensures |a + b| <= Pow2(j + 2) && |Combine(h, a + b)| <= Pow2(j + 1)
    ensures Tree(h, j + 2, a + b) == Tree(h, j + 1, Combine(h, a + b))
  {
    hide Tree, Combine, Pow2;
    Doubles(j);
    CombineSplit(h, a, b);
    TreeSplit(h, j + 1, a, b);
    TreeSplit(h, j, Combine(h, a), Combine(h, b));
  }

  lemma {:induction false} BottomCombine(h: Hash, leaves: seq<Digest>)
    requires 1 <= |leaves| <= 2
    ensures Pow2(1) == 2 && Pow2(0) == 1
    ensures Tree(h, 1, leaves) == Tree(h, 0, Combine(h, leaves))
  {
    TreeLeaf(h, leaves[0]);
    Doubles(0);
    if |leaves| == 1 {
      assert leaves == [leaves[0]];
      TreeLone(h, 0, leaves);
    } else {
      var a, b := [leaves[0]], [leaves[1]];
      assert leaves == a + b && leaves[2..] == [];
      TreeLeaf(h, leaves[1]);
      TreeSplit(h, 0, a, b);
    }
    TreeLeaf(h, Combine(h, leaves)[0]);
    assert Combine(h, leaves) == [Combine(h, leaves)[0]];
  }

  lemma {:induction false} RootIsTree(h: Hash, leaves: seq<Digest>)
    requires leaves != []
    ensures |leaves| <= Pow2(Levels(|leaves|)) && Root(h, leaves) == Tree(h, Levels(|leaves|), leaves)
  {
    LevelsFit(|leaves|);
  }

  /** One pass of the loop keeps the root. */
  lemma {:induction false} RootCombine(h: Hash, leaves: seq<Digest>)
    requires |leaves| > 1
    ensures Root(h, leaves) == Root(h, Combine(h, leaves))
  {
    hide Root, Tree, Pow2, Combine;
    var k := Levels(|leaves|) - 1;
    var up := Combine(h, leaves);
    assert Levels(|up|) == k;
    RootIsTree(h, leaves);
    RootIsTree(h, up);
    TreeCombine(h, k, leaves);
  }

  /** The smallest trees: nothing, one leaf, two, and three with the last one doubled. */
  lemma {:induction false} SmallRoots(h: Hash, a: Digest, b: Digest, c: Digest)
    ensures Root(h, []) == h([])
    ensures Root(h, [a]) == a
    ensures Root(h, [a, b]) == h(Joined(a, b))
    ensures Root(h, [a, b, c]) == h(Joined(h(Joined(a, b)), h(Joined(c, c))))
  {
    hide Root, Tree;
    RootOfNone(h);
    RootOfOne(h, a);
    PairJoins(a, b);
    PairJoins(c, c);
    PairJoins(h(Pair(a, b)), h(Pair(c, c)));
    RootCombine(h, [a, b]);
    assert Combine(h, [a, b]) == [h(Pair(a, b))];
    RootOfOne(h, h(Pair(a, b)));
    RootCombine(h, [a, b, c]);
    assert [a, b, c][2..] == [c];
    var d, e := h(Pair(a, b)), h(Pair(c, c));
    assert Combine(h, [a, b, c]) == [d, e];
    RootCombine(h, [d, e]);
    assert Combine(h, [d, e]) == [h(Pair(d, e))];
    RootOfOne(h, h(Pair(d, e)));
  }

  /** 64 bytes, `a` first. */
  ghost function Joined(a: Digest, b: Digest): seq<byte> {
    seq(64, i requires 0 <= i < 64 => if i < 32 then a[i] else b[i - 32])
  }

  lemma {:induction false} PairJoins(a: Digest, b: Digest)
    ensures Pair(a, b) == Joined(a, b)
  {
  }

  lemma {:induction false} RootOfNone(h: Hash)
    ensures Root(h, []) == h([])
  {
  }

  lemma {:induction false} RootOfOne(h: Hash, a: Digest)
    ensures Root(h, [a]) == a
  {
  }

  // --- what a root binds ------------------------------------------------------------

  /** The strings one pass hashes. */
  ghost function PairInputs(hashes: seq<Digest>): set<seq<byte>> {
    if hashes == [] then {}
    else if |hashes| == 1 then {Pair(hashes[0], hashes[0])}
    else {Pair(hashes[0], hashes[1])} + PairInputs(hashes[2..])
  }

  /** The strings the whole fold hashes. */
  ghost function FoldInputs(h: Hash, hashes: seq<Digest>): set<seq<byte>>
    decreases |hashes|
  {
    if |hashes| <= 1 then {} else PairInputs(hashes) + FoldInputs(h, Combine(h, hashes))
  }

  /** Two different strings, one from each set, with one hash. */
  ghost predicate Collide(h: Hash, a: set<seq<byte>>, b: set<seq<byte>>) {
    exists x, y :: x in a && y in b && x != y && h(x) == h(y)
  }

  lemma {:induction false} CollideGrows(h: Hash, a: set<seq<byte>>, b: set<seq<byte>>, c: set<seq<byte>>,
                                        d: set<seq<byte>>)
    requires Collide(h, a, b) && a <= c && b <= d
    ensures Collide(h, c, d)
  {
  }

  lemma {:induction false} HalvesApart(a: Digest, b: Digest, c: Digest, d: Digest)
    requires Pair(a, b) == Pair(c, d)
    ensures a == c && b == d
  {
    assert a == Pair(a, b)[..32] && c == Pair(c, d)[..32];
    assert b == Pair(a, b)[32..] && d == Pair(c, d)[32..];
  }

  lemma {:induction false} CollideHere(h: Hash, a: set<seq<byte>>, b: set<seq<byte>>, x: seq<byte>, y: seq<byte>)
    requires x in a && y in b && x != y && h(x) == h(y)
    ensures Collide(h, a, b)
  {
  }

  lemma {:induction false} PassBinds(h: Hash, s: seq<Digest>, t: seq<Digest>)
    requires |s| == |t| && Combine(h, s) == Combine(h, t)
    ensures s == t || Collide(h, PairInputs(s), PairInputs(t))
    decreases |s|
  {
    hide Collide;
    if |s| == 1 {
      var x, y := Pair(s[0], s[0]), Pair(t[0], t[0]);
      assert h(x) == Combine(h, s)[0] && h(y) == Combine(h, t)[0];
      if x == y {
        HalvesApart(s[0], s[0], t[0], t[0]);
        assert s == [s[0]] && t == [t[0]];
      } else {
        CollideHere(h, PairInputs(s), PairInputs(t), x, y);
      }
    } else if |s| > 1 {
      PairBinds(h, s, t);
      if s[..2] == t[..2] {
        PassBinds(h, s[2..], t[2..]);
        if s[2..] == t[2..] {
          assert s == s[..2] + s[2..] && t == t[..2] + t[2..];
        } else {
          CollideGrows(h, PairInputs(s[2..]), PairInputs(t[2..]), PairInputs(s), PairInputs(t));
        }
      }
    }
  }

  lemma {:induction false} PairInput(s: seq<Digest>)
    requires |s| > 1
    ensures Pair(s[0], s[1]) in PairInputs(s)
  {
  }

  lemma {:induction false} PairBinds(h: Hash, s: seq<Digest>, t: seq<Digest>)
    requires |s| == |t| > 1 && Combine(h, s) == Combine(h, t)
    ensures s[..2] == t[..2] || Collide(h, PairInputs(s), PairInputs(t))
    ensures Combine(h, s[2..]) == Combine(h, t[2..])
  {
    hide Collide, PairInputs;
    PairInput(s);
    PairInput(t);
    var x, y := Pair(s[0], s[1]), Pair(t[0], t[1]);
    assert h(x) == Combine(h, s)[0] && h(y) == Combine(h, t)[0];
    assert Combine(h, s[2..]) == Combine(h, s)[1..] && Combine(h, t[2..]) == Combine(h, t)[1..];
    if x == y {
      HalvesApart(s[0], s[1], t[0], t[1]);
      assert s[..2] == [s[0], s[1]] && t[..2] == [t[0], t[1]];
    } else {
      CollideHere(h, PairInputs(s), PairInputs(t), x, y);
    }
  }

  /** Equal roots over equally many hashes: equal hashes, or a collision among the very
      strings the two folds hashed. */
  lemma {:induction false} FoldBinds(h: Hash, s: seq<Digest>, t: seq<Digest>)
    requires |s| == |t| >= 1 && Root(h, s) == Root(h, t)
    ensures s == t || Collide(h, FoldInputs(h, s), FoldInputs(h, t))
    decreases |s|
  {
    if |s| == 1 {
      assert s == [s[0]] && t == [t[0]];
    } else {
      RootCombine(h, s);
      RootCombine(h, t);
      hide Root, Combine, PairInputs;
      FoldBinds(h, Combine(h, s), Combine(h, t));
      if Combine(h, s) == Combine(h, t) {
        PassBinds(h, s, t);
        if s != t { CollideGrows(h, PairInputs(s), PairInputs(t), FoldInputs(h, s), FoldInputs(h, t)); }
      } else {
        CollideGrows(h, FoldInputs(h, Combine(h, s)), FoldInputs(h, Combine(h, t)), FoldInputs(h, s), FoldInputs(h, t));
      }
    }
  }

  function HashAll(h: Hash, chunks: seq<seq<byte>>): (r: seq<Digest>)
    ensures |r| == |chunks| && forall i :: 0 <= i < |r| ==> r[i] == h(chunks[i])
  {
    seq(|chunks|, i requires 0 <= i < |chunks| => h(chunks[i]))
  }

  /** Everything hashed to compute the root of `data`. */
  ghost function HashedFor(h: Hash, data: seq<byte>, size: nat): set<seq<byte>>
    requires size > 0
  {
    var chunks := DoChunk(data, size);
    (set c | c in chunks) + FoldInputs(h, HashAll(h, chunks))
  }

  function DataRoot(h: Hash, data: seq<byte>, size: nat): Digest
    requires size > 0
  {
    Root(h, HashAll(h, DoChunk(data, size)))
  }

  /** Two blobs of one size with one root are the same blob, or a collision shows among
      the strings that were hashed for them. */
  lemma {:induction false} RootBindsData(h: Hash, d1: seq<byte>, d2: seq<byte>, size: nat)
    requires size > 0 && |d1| == |d2| && DataRoot(h, d1, size) == DataRoot(h, d2, size)
    ensures d1 == d2 || Collide(h, HashedFor(h, d1, size), HashedFor(h, d2, size))
  {
    var c1, c2 := DoChunk(d1, size), DoChunk(d2, size);
    ChunksMeaning(d1, size);
    ChunksMeaning(d2, size);
    hide DoChunk, Concat, Root, FoldInputs, CeilDiv;
    if c1 != [] {
      FoldBinds(h, HashAll(h, c1), HashAll(h, c2));
      if HashAll(h, c1) == HashAll(h, c2) {
        ChunksBind(h, c1, c2);
        if c1 != c2 {
          CollideGrows(h, (set c | c in c1), (set c | c in c2), HashedFor(h, d1, size), HashedFor(h, d2, size));
        }
      } else {
        CollideGrows(h, FoldInputs(h, HashAll(h, c1)), FoldInputs(h, HashAll(h, c2)), HashedFor(h, d1, size),
          HashedFor(h, d2, size));
      }
    }
  }

  lemma {:induction false} ChunksBind(h: Hash, c1: seq<seq<byte>>, c2: seq<seq<byte>>)
    requires |c1| == |c2| && HashAll(h, c1) == HashAll(h, c2)
    ensures c1 == c2 || Collide(h, (set c | c in c1), (set c | c in c2))
  {
    if c1 != c2 {
      var i :| 0 <= i < |c1| && c1[i] != c2[i];
      assert HashAll(h, c1)[i] == HashAll(h, c2)[i];
      hide Collide;
      CollideHere(h, (set c | c in c1), (set c | c in c2), c1[i], c2[i]);
    }
  }
}
