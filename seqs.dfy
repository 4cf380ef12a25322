/**
  The array operations `getCities` chains together (`map`, `filter`, and
  `Array.from(new Set(...))`), stated once for any element type, with the
  facts about the map-filter-map chain that the city-name pipeline uses.
 */
module Seqs {
  import opened Types

  /** `s.map(f)` */
  function Map<A, B>(s: seq<A>, f: A -> B): seq<B> {
    seq(|s|, i requires 0 <= i < |s| => f(s[i]))
  }

  /** `s.filter(p)`: the elements that pass, in their original order. */
  function Filter<A>(s: seq<A>, p: A -> bool): (r: seq<A>)
    ensures |r| <= |s|
  {
    if s == [] then [] else (if p(s[0]) then [s[0]] else []) + Filter(s[1..], p)
  }

  /** Filtering a sequence with one more element at the end. */
  lemma {:induction false} FilterAppend<A>(s: seq<A>, x: A, p: A -> bool)
    ensures Filter(s + [x], p) == Filter(s, p) + (if p(x) then [x] else [])
  {
    var last := if p(x) then [x] else [];
    if s == [] {
      assert [] + [x] == [x];
      assert Filter([x], p) == last + Filter([], p);
    } else {
      FilterAppend(s[1..], x, p);
      var t, head := s + [x], if p(s[0]) then [s[0]] else [];
      assert t[0] == s[0] && t[1..] == s[1..] + [x];
      assert Filter(t, p) == head + (Filter(s[1..], p) + last);
      assert head + (Filter(s[1..], p) + last) == (head + Filter(s[1..], p)) + last;
    }
  }

  /** Every element of `s` occurs in it once. */
  predicate NoDuplicates<T(==)>(s: seq<T>) {
    forall i, j :: 0 <= i < j < |s| ==> s[i] != s[j]
  }

  /**
    `Array.from(new Set(s))`: a `Set` keeps its elements in insertion order, so
    this is `s` with every repeated element dropped after its first occurrence.
   */
  function Dedupe<T(==, !new)>(s: seq<T>): (r: seq<T>)
    ensures NoDuplicates(r)
    ensures |r| <= |s|
    ensures forall x :: x in r <==> x in s
  {
    if s == [] then []
    else
      var r := Dedupe(s[..|s| - 1]);
      var last := s[|s| - 1];
      assert s == s[..|s| - 1] + [last];
      if last in r then r else r + [last]
  }

  /** The index of the first occurrence of `x` in `s`. */
  function FirstIndex<T(==)>(s: seq<T>, x: T): (r: nat)
    requires x in s
    ensures r < |s| && s[r] == x && x !in s[..r]
  {
    if s[0] == x then 0 else 1 + FirstIndex(s[1..], x)
  }

  lemma {:induction false} FilterMembers<A>(s: seq<A>, p: A -> bool, x: A)
    ensures x in Filter(s, p) <==> x in s && p(x)
  {
    if s != [] {
      FilterMembers(s[1..], p, x);
      assert s == [s[0]] + s[1..];
    }
  }

  lemma FirstIndexAppend<T>(p: seq<T>, z: T, y: T)
    requires y in p
    ensures FirstIndex(p + [z], y) == FirstIndex(p, y)
  {
    var i := FirstIndex(p, y);
    var j := FirstIndex(p + [z], y);
    assert (p + [z])[..i] == p[..i];
    assert (p + [z])[i] == y;
  }

  lemma FirstIndexLast<T>(p: seq<T>, z: T)
    requires z !in p
    ensures FirstIndex(p + [z], z) == |p|
  {
    assert (p + [z])[|p|] == z;
  }

  /** `Dedupe` lists its elements in the order of their first occurrence. */
  lemma {:induction false} DedupeOrder<T(!new)>(s: seq<T>)
    ensures forall i, j :: 0 <= i < j < |Dedupe(s)| ==>
      FirstIndex(s, Dedupe(s)[i]) < FirstIndex(s, Dedupe(s)[j])
  {
    if s != [] {
      var p, z := s[..|s| - 1], s[|s| - 1];
      assert s == p + [z];
      DedupeOrder(p);
      var d, r := Dedupe(p), Dedupe(s);
      forall i, j | 0 <= i < j < |r|
        ensures FirstIndex(s, r[i]) < FirstIndex(s, r[j])
      {
        if j < |d| {
          assert r[i] == d[i] && r[j] == d[j];
          FirstIndexAppend(p, z, d[i]);
          FirstIndexAppend(p, z, d[j]);
        } else {
          assert z !in d && r[j] == z && r[i] == d[i];
          FirstIndexAppend(p, z, d[i]);
          FirstIndexLast(p, z);
        }
      }
    }
  }

  // ---------------------------------------------------------------------------
  // The chain `s.map(f).filter(p).map(g)`

  function Chain<A, B>(s: seq<A>, f: A -> A, p: A -> bool, g: A -> B): seq<B> {
    Map(Filter(Map(s, f), p), g)
  }

  /** What the chain makes of one element: `g(f(x))` if `f(x)` passes, nothing otherwise. */
  function Pick<A, B>(x: A, f: A -> A, p: A -> bool, g: A -> B): Option<B> {
    if p(f(x)) then Some(g(f(x))) else None
  }

  /** Some element of `s` is picked as `y`. */
  ghost predicate Picks<A, B>(s: seq<A>, f: A -> A, p: A -> bool, g: A -> B, y: B) {
    exists i :: 0 <= i < |s| && Pick(s[i], f, p, g) == Some(y)
  }

  /** The index of the first element of `s` that the chain turns into `y`. */
  function FirstPick<A, B(==)>(s: seq<A>, f: A -> A, p: A -> bool, g: A -> B, y: B): (r: nat)
    requires Picks(s, f, p, g, y)
    ensures r < |s| && Pick(s[r], f, p, g) == Some(y)
    ensures forall k :: 0 <= k < r ==> Pick(s[k], f, p, g) != Some(y)
  {
    if Pick(s[0], f, p, g) == Some(y) then 0
    else
      assert Picks(s[1..], f, p, g, y) by {
        var i :| 0 <= i < |s| && Pick(s[i], f, p, g) == Some(y);
        assert s[1..][i - 1] == s[i];
      }
      1 + FirstPick(s[1..], f, p, g, y)
  }

  lemma ChainCons<A, B>(a: A, rest: seq<A>, f: A -> A, p: A -> bool, g: A -> B)
    ensures Chain([a] + rest, f, p, g) ==
      (if Pick(a, f, p, g).Some? then [Pick(a, f, p, g).value] else []) + Chain(rest, f, p, g)
  {
    var m := Map([a] + rest, f);
    assert m == [f(a)] + Map(rest, f);
    assert m[1..] == Map(rest, f);
    var h := if p(f(a)) then [f(a)] else [];
    var t := Filter(Map(rest, f), p);
    assert Filter(m, p) == h + t;
    assert Map(h + t, g) == Map(h, g) + Map(t, g);
  }

  /** The chain yields exactly the picks of the elements of `s`. */
  lemma {:induction false} ChainMembers<A, B>(s: seq<A>, f: A -> A, p: A -> bool, g: A -> B, y: B)
    ensures y in Chain(s, f, p, g) <==> Picks(s, f, p, g, y)
  {
    if s != [] {
      ChainCons(s[0], s[1..], f, p, g);
      assert s == [s[0]] + s[1..];
      ChainMembers(s[1..], f, p, g, y);
      if Picks(s, f, p, g, y) {
        var i :| 0 <= i < |s| && Pick(s[i], f, p, g) == Some(y);
        if i > 0 {
          assert s[1..][i - 1] == s[i];
        }
      }
      if Picks(s[1..], f, p, g, y) {
        var i :| 0 <= i < |s[1..]| && Pick(s[1..][i], f, p, g) == Some(y);
        assert s[i + 1] == s[1..][i];
      }
    }
  }

  /** The chain's output meets its values in the order of their first sources in `s`. */
  lemma {:induction false} ChainOrder<A, B>(s: seq<A>, f: A -> A, p: A -> bool, g: A -> B, x: B, y: B)
    requires x in Chain(s, f, p, g) && y in Chain(s, f, p, g)
    requires FirstIndex(Chain(s, f, p, g), x) < FirstIndex(Chain(s, f, p, g), y)
    ensures Picks(s, f, p, g, x) && Picks(s, f, p, g, y)
    ensures FirstPick(s, f, p, g, x) < FirstPick(s, f, p, g, y)
  {
    ChainMembers(s, f, p, g, x);
    ChainMembers(s, f, p, g, y);
    var a, rest := s[0], s[1..];
    assert s == [a] + rest;
    ChainCons(a, rest, f, p, g);
    var n, n' := Chain(s, f, p, g), Chain(rest, f, p, g);
    if Pick(a, f, p, g).Some? {
      var v := Pick(a, f, p, g).value;
      assert n == [v] + n';
      if x == v {
        assert FirstPick(s, f, p, g, x) == 0;
        assert y != v;
      } else {
        assert y != v;
        assert x in n' && y in n';
        assert FirstIndex(n, x) == 1 + FirstIndex(n', x);
        assert FirstIndex(n, y) == 1 + FirstIndex(n', y);
        ChainOrder(rest, f, p, g, x, y);
      }
    } else {
      assert n == n';
      ChainOrder(rest, f, p, g, x, y);
    }
  }

  /** When every element is picked, the chain is the sequence of picks. */
  lemma {:induction false} ChainAllPicked<A, B>(s: seq<A>, f: A -> A, p: A -> bool, g: A -> B, ys: seq<B>)
    requires |ys| == |s| && forall i :: 0 <= i < |s| ==> Pick(s[i], f, p, g) == Some(ys[i])
    ensures Chain(s, f, p, g) == ys
  {
    if s == [] {
      assert Chain(s, f, p, g) == [];
    } else {
      ChainCons(s[0], s[1..], f, p, g);
      assert s == [s[0]] + s[1..];
      ChainAllPicked(s[1..], f, p, g, ys[1..]);
      assert ys == [ys[0]] + ys[1..];
    }
  }

  /** When no element is picked, the chain is empty. */
  lemma {:induction false} ChainNonePicked<A, B>(s: seq<A>, f: A -> A, p: A -> bool, g: A -> B)
    requires forall i :: 0 <= i < |s| ==> Pick(s[i], f, p, g) == None
    ensures Chain(s, f, p, g) == []
  {
    if s == [] {
      assert Chain(s, f, p, g) == [];
    } else {
      ChainCons(s[0], s[1..], f, p, g);
      assert s == [s[0]] + s[1..];
      ChainNonePicked(s[1..], f, p, g);
    }
  }

  /** A non-empty sequence of one repeated value is kept as that value alone. */
  lemma {:induction false} DedupeConstant<T(!new)>(s: seq<T>, w: T)
    requires s != [] && forall i :: 0 <= i < |s| ==> s[i] == w
    ensures Dedupe(s) == [w]
  {
    if |s| > 1 {
      DedupeConstant(s[..|s| - 1], w);
    }
  }
}
