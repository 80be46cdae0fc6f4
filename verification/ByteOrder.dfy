/** Bytewise order on byte strings (`Ord` on `Vec<u8>`) and the stable sort
    that puts encoded map entries in that order. */
module ByteOrder {
  import opened ByteStrings

  /** An encoded map entry. */
  datatype KV = KV(key: seq<byte>, val: seq<byte>)

  /** Strictly below, bytewise; a proper prefix is below its extensions. */
  predicate Less(a: seq<byte>, b: seq<byte>)
    decreases |a|
  {
    b != [] && (a == [] || a[0] < b[0] || (a[0] == b[0] && Less(a[1..], b[1..])))
  }

  lemma {:induction false} LessIrreflexive(a: seq<byte>)
    ensures !Less(a, a)
  {
    if a != [] { LessIrreflexive(a[1..]); }
  }

  lemma {:induction false} LessTransitive(a: seq<byte>, b: seq<byte>, c: seq<byte>)
    requires Less(a, b) && Less(b, c)
    ensures Less(a, c)
  {
    if a != [] && a[0] == b[0] == c[0] { LessTransitive(a[1..], b[1..], c[1..]); }
  }

  lemma {:induction false} LessTotal(a: seq<byte>, b: seq<byte>)
    ensures a == b || Less(a, b) || Less(b, a)
  {
    if a != [] && b != [] && a[0] == b[0] {
      LessTotal(a[1..], b[1..]);
      assert a == [a[0]] + a[1..] && b == [b[0]] + b[1..];
    }
  }

  /** Below is: a proper prefix, or a smaller byte where the two first differ. */
  lemma {:induction false} LessMeaning(a: seq<byte>, b: seq<byte>)
    ensures Less(a, b) <==> exists k: nat :: FirstDifference(a, b, k) && (k == |a| || a[k] < b[k])
  {
    if Less(a, b) {
      if a != [] && a[0] == b[0] {
        LessMeaning(a[1..], b[1..]);
        var k: nat :| FirstDifference(a[1..], b[1..], k) && (k == |a[1..]| || a[1..][k] < b[1..][k]);
        assert a[..k + 1] == [a[0]] + a[1..][..k] && b[..k + 1] == [b[0]] + b[1..][..k];
        assert FirstDifference(a, b, k + 1);
      } else {
        assert FirstDifference(a, b, 0);
      }
    }
    if k: nat :| FirstDifference(a, b, k) && (k == |a| || a[k] < b[k]) {
      if k > 0 {
        assert a[0] == a[..k][0] == b[..k][0] == b[0];
        assert a[1..][..k - 1] == a[..k][1..] && b[1..][..k - 1] == b[..k][1..];
        assert FirstDifference(a[1..], b[1..], k - 1);
        LessMeaning(a[1..], b[1..]);
      }
    }
  }

  /** The two agree up to `k`, where `b` goes on and `a` does not or differs. */
  ghost predicate FirstDifference(a: seq<byte>, b: seq<byte>, k: nat) {
    k <= |a| && k < |b| && a[..k] == b[..k] && (k == |a| || a[k] != b[k])
  }

  // --- the order in which a stable sort visits the keys -----------------------------

  ghost predicate IsPermutation(p: seq<nat>, n: nat) {
    && |p| == n
    && (forall a :: 0 <= a < n ==> p[a] < n)
    && (forall a, b :: 0 <= a < b < n ==> p[a] != p[b])
    && (forall i: nat :: i < n ==> i in p)
  }

  /** Key at rank `a` is not above the key at rank `b`; equal keys keep their order. */
  ghost predicate Before(keys: seq<seq<byte>>, i: nat, j: nat)
    requires i < |keys| && j < |keys|
  {
    Less(keys[i], keys[j]) || (keys[i] == keys[j] && i < j)
  }

  ghost predicate InOrder(p: seq<nat>, keys: seq<seq<byte>>) {
    && (forall a :: 0 <= a < |p| ==> p[a] < |keys|)
    && (forall a, b :: 0 <= a < b < |p| ==> Before(keys, p[a], p[b]))
  }

  lemma {:induction false} BeforeTransitive(keys: seq<seq<byte>>, i: nat, j: nat, k: nat)
    requires i < |keys| && j < |keys| && k < |keys|
    requires Before(keys, i, j) && Before(keys, j, k)
    ensures Before(keys, i, k)
  {
    if Less(keys[i], keys[j]) && Less(keys[j], keys[k]) {
      LessTransitive(keys[i], keys[j], keys[k]);
    }
  }

  /** `p` with `i` placed after every index whose key is not above the key of `i`. */
  function Insert(p: seq<nat>, keys: seq<seq<byte>>, i: nat): (r: seq<nat>)
    requires i < |keys| && forall a :: 0 <= a < |p| ==> p[a] < |keys|
    ensures |r| == |p| + 1 && forall a :: 0 <= a < |r| ==> r[a] < |keys|
    ensures forall x: nat :: x in r <==> x in p || x == i
  {
    if p == [] then [i]
    else
      var last := p[|p| - 1];
      assert p == p[..|p| - 1] + [last];
      if Less(keys[i], keys[last]) then Insert(p[..|p| - 1], keys, i) + [last] else p + [i]
  }

  lemma {:induction false} InsertInOrder(p: seq<nat>, keys: seq<seq<byte>>, i: nat)
    requires i < |keys| && InOrder(p, keys) && forall a :: 0 <= a < |p| ==> p[a] < i
    ensures InOrder(Insert(p, keys, i), keys)
  {
    if p != [] {
      var init, last := p[..|p| - 1], p[|p| - 1];
      assert p == init + [last];
      var r := Insert(p, keys, i);
      if Less(keys[i], keys[last]) {
        InsertInOrder(init, keys, i);
        var q := Insert(init, keys, i);
        forall a | 0 <= a < |q| ensures q[a] < |keys| && Before(keys, q[a], last) {
          assert q[a] in q;
        }
      } else {
        LessTotal(keys[i], keys[last]);
        forall a | 0 <= a < |p| ensures Before(keys, p[a], i) {
          if a < |p| - 1 { BeforeTransitive(keys, p[a], last, i); }
        }
      }
    }
  }

  function OrderOfFirst(keys: seq<seq<byte>>, n: nat): (p: seq<nat>)
    requires n <= |keys|
    ensures |p| == n && forall a :: 0 <= a < n ==> p[a] < |keys|
    ensures forall x: nat :: x in p <==> x < n
  {
    if n == 0 then [] else Insert(OrderOfFirst(keys, n - 1), keys, n - 1)
  }

  /** The indices of `keys` in the order a stable sort puts them. */
  function SortOrder(keys: seq<seq<byte>>): (p: seq<nat>)
    ensures |p| == |keys| && forall x: nat :: x in p <==> x < |keys|
    ensures forall a :: 0 <= a < |p| ==> p[a] < |keys|
  {
    OrderOfFirst(keys, |keys|)
  }

  lemma {:induction false} OrderOfFirstInOrder(keys: seq<seq<byte>>, n: nat)
    requires n <= |keys|
    ensures InOrder(OrderOfFirst(keys, n), keys)
  {
    if n > 0 {
      var p := OrderOfFirst(keys, n - 1);
      OrderOfFirstInOrder(keys, n - 1);
      forall a | 0 <= a < |p| ensures p[a] < n - 1 { assert p[a] in p; }
      InsertInOrder(p, keys, n - 1);
    }
  }

  lemma {:induction false} BeforeIrreflexive(keys: seq<seq<byte>>, i: nat)
    requires i < |keys|
    ensures !Before(keys, i, i)
  {
    LessIrreflexive(keys[i]);
  }

  /** Nothing lost, nothing repeated, keys never descending, equal keys in their old order. */
  lemma {:induction false} SortOrderIsStableSort(keys: seq<seq<byte>>)
    ensures IsPermutation(SortOrder(keys), |keys|)
    ensures InOrder(SortOrder(keys), keys)
  {
    OrderOfFirstInOrder(keys, |keys|);
    var p := SortOrder(keys);
    forall a, b | 0 <= a < b < |p| ensures p[a] != p[b] {
      BeforeIrreflexive(keys, p[a]);
      assert Before(keys, p[a], p[b]);
    }
  }

  /** The elements of `s` at the indices of `order`. */
  function Pick<T>(s: seq<T>, order: seq<nat>): (r: seq<T>)
    requires forall a :: 0 <= a < |order| ==> order[a] < |s|
    ensures |r| == |order| && forall a :: 0 <= a < |r| ==> r[a] == s[order[a]]
  {
    seq(|order|, a requires 0 <= a < |order| => s[order[a]])
  }

  function Keys(kvs: seq<KV>): (r: seq<seq<byte>>)
    ensures |r| == |kvs| && forall i :: 0 <= i < |r| ==> r[i] == kvs[i].key
  {
    seq(|kvs|, i requires 0 <= i < |kvs| => kvs[i].key)
  }

  /** `encoded.sort_by(|a, b| a.0.cmp(&b.0))`. */
  function Sorted(kvs: seq<KV>): (r: seq<KV>)
    ensures |r| == |kvs|
  {
    Pick(kvs, SortOrder(Keys(kvs)))
  }

  ghost predicate Ascending(kvs: seq<KV>) {
    forall a, b :: 0 <= a < b < |kvs| ==> Less(kvs[a].key, kvs[b].key)
  }

  ghost predicate DistinctKVs(kvs: seq<KV>) {
    forall a, b :: 0 <= a < b < |kvs| ==> kvs[a].key != kvs[b].key
  }

  ghost predicate SameMembers<T(!new)>(s: seq<T>, t: seq<T>) {
    forall x :: x in s <==> x in t
  }

  lemma {:induction false} SortedMembers(kvs: seq<KV>)
    ensures SameMembers(Sorted(kvs), kvs)
  {
    var p, r := SortOrder(Keys(kvs)), Sorted(kvs);
    forall x | x in kvs ensures x in r {
      var i: nat :| i < |kvs| && kvs[i] == x;
      assert i in p;
      var a :| 0 <= a < |p| && p[a] == i;
      assert r[a] == x;
    }
  }

  lemma {:induction false} SortedAscending(kvs: seq<KV>)
    requires DistinctKVs(kvs)
    ensures Ascending(Sorted(kvs))
  {
    var p := SortOrder(Keys(kvs));
    SortOrderIsStableSort(Keys(kvs));
    forall a, b | 0 <= a < b < |p| ensures Less(kvs[p[a]].key, kvs[p[b]].key) {
      assert Before(Keys(kvs), p[a], p[b]);
    }
  }

  lemma {:induction false} MembersEmpty<T(!new)>(s: seq<T>, t: seq<T>)
    requires SameMembers(s, t)
    ensures s == [] <==> t == []
  {
    if s != [] { assert s[0] in t; }
    if t != [] { assert t[0] in s; }
  }

  lemma {:induction false} AscendingHeads(s: seq<KV>, t: seq<KV>)
    requires Ascending(s) && Ascending(t) && SameMembers(s, t) && s != []
    ensures t != [] && s[0] == t[0]
  {
    assert s[0] in t;
    assert t[0] in s;
    if s[0] != t[0] {
      assert Less(t[0].key, s[0].key);
      assert Less(s[0].key, t[0].key);
      LessTransitive(s[0].key, t[0].key, s[0].key);
      LessIrreflexive(s[0].key);
      assert false;
    }
  }

  lemma {:induction false} HeadNotInTail(s: seq<KV>)
    requires Ascending(s) && s != []
    ensures Ascending(s[1..]) && s[0] !in s[1..]
  {
    LessIrreflexive(s[0].key);
  }

  /** One set of entries has one ascending arrangement. */
  lemma {:induction false} AscendingUnique(s: seq<KV>, t: seq<KV>)
    requires Ascending(s) && Ascending(t) && SameMembers(s, t)
    ensures s == t
    decreases |s|
  {
    MembersEmpty(s, t);
    if s != [] {
      AscendingHeads(s, t);
      HeadNotInTail(s);
      HeadNotInTail(t);
      assert s == [s[0]] + s[1..] && t == [t[0]] + t[1..];
      forall x ensures x in s[1..] <==> x in t[1..] {
        assert x in s <==> x in t;
        assert x in s <==> x == s[0] || x in s[1..];
        assert x in t <==> x == t[0] || x in t[1..];
      }
      AscendingUnique(s[1..], t[1..]);
    }
  }

  /** Sorting forgets the arrangement of entries whose keys are distinct. */
  lemma {:induction false} SortedForgetsOrder(s: seq<KV>, t: seq<KV>)
    requires DistinctKVs(s) && DistinctKVs(t) && SameMembers(s, t)
    ensures Sorted(s) == Sorted(t)
  {
    SortedMembers(s);
    SortedMembers(t);
    SortedAscending(s);
    SortedAscending(t);
    assert SameMembers(Sorted(s), Sorted(t));
    AscendingUnique(Sorted(s), Sorted(t));
  }

  /** `t` is `s` rearranged by `p`. */
  lemma {:induction false} RearrangedMembers(s: seq<KV>, t: seq<KV>, p: seq<nat>)
    requires |s| == |t| && IsPermutation(p, |s|) && DistinctKVs(s)
    requires forall i :: 0 <= i < |s| ==> s[i] == t[p[i]]
    ensures SameMembers(s, t) && DistinctKVs(t)
  {
    forall x | x in s ensures x in t {
      var i :| 0 <= i < |s| && s[i] == x;
      assert t[p[i]] == x;
    }
    forall x | x in t ensures x in s {
      var j: nat :| j < |t| && t[j] == x;
      assert j in p;
      var i :| 0 <= i < |p| && p[i] == j;
      assert s[i] == x;
    }
    forall a: nat, b: nat | a < b < |t| ensures t[a].key != t[b].key {
      assert a in p && b in p;
      var i :| 0 <= i < |p| && p[i] == a;
      var j :| 0 <= j < |p| && p[j] == b;
      assert s[i] == t[a] && s[j] == t[b];
      assert i < j || j < i;
    }
  }

  /** Entries picked in sort order are sorted, still distinct, and sort to themselves. */
  lemma {:induction false} SortedAgain(kvs: seq<KV>)
    requires DistinctKVs(kvs)
    ensures DistinctKVs(Sorted(kvs)) && Sorted(Sorted(kvs)) == Sorted(kvs)
  {
    var r := Sorted(kvs);
    SortedAscending(kvs);
    forall a, b | 0 <= a < b < |r| ensures r[a].key != r[b].key {
      assert Less(r[a].key, r[b].key);
      LessIrreflexive(r[a].key);
    }
    SortedMembers(kvs);
    SortedForgetsOrder(r, kvs);
  }
}
