/** Mapping the elements of a sequence, one to one or to sequences that are joined. */
module Sequences {
  function Map<A, B>(f: A -> B, s: seq<A>): seq<B> {
    seq(|s|, i requires 0 <= i < |s| => f(s[i]))
  }

  lemma MapCons<A, B>(f: A -> B, x: A, rest: seq<A>)
    ensures Map(f, [x] + rest) == [f(x)] + Map(f, rest)
  {
  }

  lemma MapConcat<A, B>(f: A -> B, s: seq<A>, t: seq<A>)
    ensures Map(f, s + t) == Map(f, s) + Map(f, t)
  {
  }

  lemma MapSnoc<A, B>(f: A -> B, s: seq<A>, x: A)
    ensures Map(f, s + [x]) == Map(f, s) + [f(x)]
  {
  }

  function FlatMap<A, B>(f: A -> seq<B>, s: seq<A>): seq<B> {
    if s == [] then [] else FlatMap(f, s[..|s| - 1]) + f(s[|s| - 1])
  }

  lemma FlatMapSnoc<A, B>(f: A -> seq<B>, s: seq<A>, x: A)
    ensures FlatMap(f, s + [x]) == FlatMap(f, s) + f(x)
  {
    assert (s + [x])[..|s|] == s;
  }

  lemma {:induction false} FlatMapConcat<A, B>(f: A -> seq<B>, s: seq<A>, t: seq<A>)
    ensures FlatMap(f, s + t) == FlatMap(f, s) + FlatMap(f, t)
  {
    if t == [] {
      assert s + t == s;
    } else {
      var n := |t| - 1;
      assert s + t == (s + t[..n]) + [t[n]];
      FlatMapSnoc(f, s + t[..n], t[n]);
      FlatMapConcat(f, s, t[..n]);
    }
  }

  lemma {:induction false} FlatMapEmpty<A, B>(f: A -> seq<B>, s: seq<A>)
    requires forall x :: x in s ==> f(x) == []
    ensures FlatMap(f, s) == []
  {
    if s != [] {
      FlatMapEmpty(f, s[..|s| - 1]);
    }
  }

  // ----- selections -----

  /** `kept` is what `at` selects from `all`, in order. */
  ghost predicate Selects<T>(kept: seq<T>, all: seq<T>, at: seq<nat>) {
    && |at| == |kept|
    && (forall i :: 0 <= i < |at| ==> at[i] < |all| && kept[i] == all[at[i]])
    && (forall i, j :: 0 <= i < j < |at| ==> at[i] < at[j])
  }

  /** The positions `at` are exactly those of the elements that qualify. */
  ghost predicate SelectsExactly<T>(keep: T -> bool, kept: seq<T>, all: seq<T>, at: seq<nat>) {
    && Selects(kept, all, at)
    && forall k: nat :: k < |all| ==> (k in at <==> keep(all[k]))
  }

  /** `kept` is exactly the qualifying elements, in their order. */
  ghost predicate Filtered<T>(keep: T -> bool, kept: seq<T>, all: seq<T>) {
    exists at :: SelectsExactly(keep, kept, all, at)
  }

  lemma FilteredEmpty<T>(keep: T -> bool)
    ensures Filtered(keep, [], [])
  {
    assert SelectsExactly(keep, [], [], []);
  }

  lemma FilteredSnoc<T>(keep: T -> bool, kept: seq<T>, all: seq<T>, x: T)
    requires Filtered(keep, kept, all)
    ensures Filtered(keep, kept + if keep(x) then [x] else [], all + [x])
  {
    var at :| SelectsExactly(keep, kept, all, at);
    SelectsSnoc(keep, kept, all, at, x);
    assert kept + [] == kept;
  }

  lemma SelectsSnoc<T>(keep: T -> bool, kept: seq<T>, all: seq<T>, at: seq<nat>, x: T)
    requires SelectsExactly(keep, kept, all, at)
    ensures keep(x) ==> SelectsExactly(keep, kept + [x], all + [x], at + [|all|])
    ensures !keep(x) ==> SelectsExactly(keep, kept, all + [x], at)
  {
    var more, pos := all + [x], if keep(x) then at + [|all|] else at;
    forall k: nat | k < |more| ensures k in pos <==> keep(more[k]) {
      if k < |all| {
        assert more[k] == all[k];
        assert k in pos <==> k in at;
      }
    }
  }
}
