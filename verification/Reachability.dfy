/** Least closed sets over definition graphs, which may be cyclic. */
module Reachability {

  type Graph = string -> set<string>

  ghost predicate ClosedUnder(graph: Graph, names: set<string>) {
    forall n :: n in names ==> graph(n) <= names
  }

  /** `s` is the least set that contains `names` and is closed under `graph`. */
  ghost predicate LeastClosed(graph: Graph, names: set<string>, s: set<string>) {
    && names <= s
    && ClosedUnder(graph, s)
    && forall t :: names <= t && ClosedUnder(graph, t) ==> s <= t
  }

  /** The names on a work stack. */
  ghost function Pending(stack: seq<string>): set<string> {
    set n | n in stack
  }

  lemma PendingPop(stack: seq<string>)
    requires stack != []
    ensures Pending(stack) == Pending(stack[..|stack| - 1]) + {stack[|stack| - 1]}
  {
    assert stack == stack[..|stack| - 1] + [stack[|stack| - 1]];
  }

  lemma PendingAppend(a: seq<string>, b: seq<string>)
    ensures Pending(a + b) == Pending(a) + Pending(b)
  {
  }

  /** A set, in the arbitrary order a hash set iterates in. */
  method Enumerate(s: set<string>) returns (r: seq<string>)
    ensures Pending(r) == s
  {
    r := [];
    var rest := s;
    while rest != {}
      invariant Pending(r) + rest == s
      decreases rest
    {
      var x :| x in rest;
      rest := rest - {x};
      r := r + [x];
    }
  }
}
