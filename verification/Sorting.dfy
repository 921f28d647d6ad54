/** Orderings, permutations and the sort used wherever the modelled code sorts a vector. */
module Sorting {

  /** `le` is a total order on `dom`. */
  ghost predicate Orders<T>(le: (T, T) -> bool, dom: set<T>) {
    && (forall x, y :: x in dom && y in dom ==> le(x, y) || le(y, x))
    && (forall x, y :: x in dom && y in dom && le(x, y) && le(y, x) ==> x == y)
    && (forall x, y, z :: x in dom && y in dom && z in dom && le(x, y) && le(y, z) ==> le(x, z))
  }

  ghost predicate Within<T>(s: seq<T>, dom: set<T>) {
    forall i :: 0 <= i < |s| ==> s[i] in dom
  }

  ghost predicate Sorted<T>(s: seq<T>, le: (T, T) -> bool) {
    forall i, j :: 0 <= i < j < |s| ==> le(s[i], s[j])
  }

  function Insert<T>(x: T, s: seq<T>, le: (T, T) -> bool): (r: seq<T>)
    ensures multiset(r) == multiset(s) + multiset{x}
    ensures |r| == |s| + 1
  {
    if s == [] then [x]
    else if le(x, s[0]) then [x] + s
    else
      assert s == [s[0]] + s[1..];
      [s[0]] + Insert(x, s[1..], le)
  }

  function Sort<T>(s: seq<T>, le: (T, T) -> bool): (r: seq<T>)
    ensures multiset(r) == multiset(s)
    ensures |r| == |s|
  {
    if s == [] then []
    else
      assert s == [s[0]] + s[1..];
      Insert(s[0], Sort(s[1..], le), le)
  }

  lemma SameElements<T>(s: seq<T>, t: seq<T>)
    requires multiset(s) == multiset(t)
    ensures |s| == |t|
    ensures forall x :: x in s <==> x in t
  {
    assert |multiset(s)| == |s| && |multiset(t)| == |t|;
    forall x ensures x in s <==> x in t {
      assert x in s <==> x in multiset(s);
      assert x in t <==> x in multiset(t);
    }
  }

  lemma SameDomain<T>(s: seq<T>, t: seq<T>, dom: set<T>)
    requires multiset(s) == multiset(t)
    requires Within(s, dom)
    ensures Within(t, dom)
  {
    SameElements(s, t);
    forall i | 0 <= i < |t| ensures t[i] in dom {
      assert t[i] in s;
    }
  }

  ghost predicate Below<T>(y: T, s: seq<T>, le: (T, T) -> bool) {
    forall k :: 0 <= k < |s| ==> le(y, s[k])
  }

  lemma {:induction false} InsertBelow<T>(y: T, x: T, s: seq<T>, le: (T, T) -> bool)
    requires le(y, x) && Below(y, s, le)
    ensures Below(y, Insert(x, s, le), le)
  {
    if s != [] && !le(x, s[0]) {
      InsertBelow(y, x, s[1..], le);
    }
  }

  lemma SortedCons<T>(y: T, s: seq<T>, le: (T, T) -> bool)
    requires Below(y, s, le) && Sorted(s, le)
    ensures Sorted([y] + s, le)
  {
  }

  lemma {:induction false} InsertSorted<T>(x: T, s: seq<T>, le: (T, T) -> bool, dom: set<T>)
    requires Orders(le, dom) && x in dom && Within(s, dom)
    requires Sorted(s, le)
    ensures Sorted(Insert(x, s, le), le)
    ensures Within(Insert(x, s, le), dom)
  {
    if s != [] {
      if le(x, s[0]) {
        assert Below(x, s, le);
        SortedCons(x, s, le);
      } else {
        InsertSorted(x, s[1..], le, dom);
        InsertBelow(s[0], x, s[1..], le);
        SortedCons(s[0], Insert(x, s[1..], le), le);
      }
    }
  }

  lemma {:induction false} SortSorted<T>(s: seq<T>, le: (T, T) -> bool, dom: set<T>)
    requires Orders(le, dom) && Within(s, dom)
    ensures Sorted(Sort(s, le), le)
    ensures Within(Sort(s, le), dom)
  {
    if s != [] {
      SortSorted(s[1..], le, dom);
      InsertSorted(s[0], Sort(s[1..], le), le, dom);
    }
  }

  lemma TailMultiset<T>(s: seq<T>)
    requires s != []
    ensures multiset(s[1..]) == multiset(s) - multiset{s[0]}
  {
    assert s == [s[0]] + s[1..];
  }

  lemma SameHead<T>(s: seq<T>, t: seq<T>, le: (T, T) -> bool, dom: set<T>)
    requires s != [] && multiset(s) == multiset(t)
    requires Orders(le, dom) && Within(s, dom) && Within(t, dom)
    requires Sorted(s, le) && Sorted(t, le)
    ensures t != [] && s[0] == t[0]
  {
    SameElements(s, t);
    assert s[0] in t && t[0] in s;
    assert le(s[0], t[0]) && le(t[0], s[0]);
  }

  /** A sorted arrangement of a multiset is unique under a total order. */
  lemma {:induction false} SortedUnique<T>(s: seq<T>, t: seq<T>, le: (T, T) -> bool, dom: set<T>)
    requires multiset(s) == multiset(t)
    requires Orders(le, dom) && Within(s, dom) && Within(t, dom)
    requires Sorted(s, le) && Sorted(t, le)
    ensures s == t
  {
    if s == [] {
      SameElements(s, t);
    } else {
      SameHead(s, t, le, dom);
      TailMultiset(s);
      TailMultiset(t);
      SortedUnique(s[1..], t[1..], le, dom);
      assert s == [s[0]] + s[1..] && t == [t[0]] + t[1..];
    }
  }

  /** Sorting depends only on the multiset of elements. */
  lemma SortDeterminedByMultiset<T>(s: seq<T>, t: seq<T>, le: (T, T) -> bool, dom: set<T>)
    requires multiset(s) == multiset(t)
    requires Orders(le, dom) && Within(s, dom)
    ensures Sort(s, le) == Sort(t, le)
  {
    SameDomain(s, t, dom);
    SortSorted(s, le, dom);
    SortSorted(t, le, dom);
    SortedUnique(Sort(s, le), Sort(t, le), le, dom);
  }

  /** `p` is a permutation of the indices below `n`. */
  ghost predicate IsPermutation(p: seq<nat>, n: nat) {
    && |p| == n
    && (forall i :: 0 <= i < n ==> p[i] < n)
    && (forall i, j :: 0 <= i < j < n ==> p[i] != p[j])
  }

  ghost predicate Rearranges<T>(s: seq<T>, t: seq<T>, p: seq<nat>) {
    && |s| == |t|
    && IsPermutation(p, |s|)
    && forall i :: 0 <= i < |s| ==> s[i] == t[p[i]]
  }

  ghost function Without<T>(t: seq<T>, k: nat): (r: seq<T>)
    requires k < |t|
    ensures |r| == |t| - 1
    ensures multiset(t) == multiset(r) + multiset{t[k]}
    ensures forall i :: 0 <= i < k ==> r[i] == t[i]
    ensures forall i :: k <= i < |r| ==> r[i] == t[i + 1]
  {
    assert t == t[..k] + [t[k]] + t[k + 1..];
    t[..k] + t[k + 1..]
  }

  lemma {:induction false} RearrangedMultiset<T>(s: seq<T>, t: seq<T>, p: seq<nat>)
    requires Rearranges(s, t, p)
    ensures multiset(s) == multiset(t)
  {
    if s != [] {
      var n := |s| - 1;
      var k := p[n];
      var q := seq(n, i requires 0 <= i < n => if p[i] < k then p[i] else p[i] - 1);
      RearrangedMultiset(s[..n], Without(t, k), q);
      assert s == s[..n] + [s[n]];
    }
  }

  ghost function Widen(q: seq<nat>, k: nat): (p: seq<nat>)
    requires IsPermutation(q, |q|) && k <= |q|
    ensures IsPermutation(p, |q| + 1)
    ensures p[|q|] == k
    ensures forall i :: 0 <= i < |q| ==> p[i] == if q[i] < k then q[i] else q[i] + 1
  {
    seq(|q|, i requires 0 <= i < |q| => if q[i] < k then q[i] else q[i] + 1) + [k]
  }

  lemma RearrangeStep<T>(s: seq<T>, t: seq<T>, k: nat, q: seq<nat>)
    requires k < |t| == |s| && s[|s| - 1] == t[k]
    requires Rearranges(s[..|s| - 1], Without(t, k), q)
    ensures Rearranges(s, t, Widen(q, k))
  {
    var n := |s| - 1;
    forall i | 0 <= i < |s| ensures s[i] == t[Widen(q, k)[i]] {
      if i < n {
        assert s[..n][i] == Without(t, k)[q[i]];
      }
    }
  }

  lemma DropLast<T>(s: seq<T>)
    requires s != []
    ensures multiset(s) == multiset(s[..|s| - 1]) + multiset{s[|s| - 1]}
  {
    assert s == s[..|s| - 1] + [s[|s| - 1]];
  }

  lemma {:induction false} MultisetRearranged<T>(s: seq<T>, t: seq<T>) returns (p: seq<nat>)
    requires multiset(s) == multiset(t)
    ensures Rearranges(s, t, p)
  {
    SameElements(s, t);
    if s == [] {
      p := [];
    } else {
      var n := |s| - 1;
      assert s[n] in t;
      var k: nat :| k < |t| && t[k] == s[n];
      DropLast(s);
      assert multiset(s[..n]) + multiset{s[n]} == multiset(Without(t, k)) + multiset{s[n]};
      assert multiset(s[..n]) == multiset(Without(t, k)) by {
        assert (multiset(s[..n]) + multiset{s[n]}) - multiset{s[n]} == multiset(s[..n]);
        assert (multiset(Without(t, k)) + multiset{s[n]}) - multiset{s[n]} == multiset(Without(t, k));
      }
      var q := MultisetRearranged(s[..n], Without(t, k));
      RearrangeStep(s, t, k, q);
      p := Widen(q, k);
    }
  }

  ghost function Identity(n: nat): (p: seq<nat>)
    ensures IsPermutation(p, n)
    ensures forall i :: 0 <= i < n ==> p[i] == i
  {
    seq(n, i => i)
  }
}
