/** Exactly when the bundle's namespaces depend on the order of the schemas. */
module MixedOrder {
  import opened Text
  import opened Json
  import opened SchemaBundle
  import opened MixedBundle

  // ----- one place of the table -----

  /** What the table has under one name, or that an insertion there was refused. */
  datatype Place = Refused | Free | Taken(slot: Slot)

  function Put(p: Place, op: Op, ns: string, same: (Json, Json) -> bool): Place {
    if p.Refused? then p
    else
      match op
      case ToRoot(name, value) => if name == ns then Taken(Root(value)) else p
      case ToNamespace(x) =>
        if x.ns != ns then p
        else
          match IntoSlot(if p.Free? then None else Some(p.slot), x, same)
          case Some(slot) => Taken(slot)
          case None => Refused
  }

  function PutAll(p: Place, ops: seq<Op>, ns: string, same: (Json, Json) -> bool): Place {
    if ops == [] then p else Put(PutAll(p, ops[..|ops| - 1], ns, same), ops[|ops| - 1], ns, same)
  }

  lemma {:induction false} PutAllConcat(p: Place, a: seq<Op>, b: seq<Op>, ns: string, same: (Json, Json) -> bool)
    ensures PutAll(p, a + b, ns, same) == PutAll(PutAll(p, a, ns, same), b, ns, same)
    decreases b
  {
    if b == [] {
      assert a + b == a;
    } else {
      var n := |b| - 1;
      assert (a + b)[..|a| + n] == a + b[..n];
      PutAllConcat(p, a, b[..n], ns, same);
    }
  }

  lemma {:induction false} RefusedStays(ops: seq<Op>, ns: string, same: (Json, Json) -> bool)
    ensures PutAll(Refused, ops, ns, same) == Refused
  {
    if ops != [] {
      RefusedStays(ops[..|ops| - 1], ns, same);
    }
  }

  function PlaceAt(table: Table, ns: string): Place {
    if ns in table then Taken(table[ns]) else Free
  }

  /** The table is built exactly when no place refuses, and then shows what each place came to. */
  lemma {:induction false} RunOpsPlaces(ops: seq<Op>, same: (Json, Json) -> bool)
    ensures RunOps(ops, same).Some? <==> forall ns :: !PutAll(Free, ops, ns, same).Refused?
    ensures RunOps(ops, same).Some? ==> forall ns :: PutAll(Free, ops, ns, same) == PlaceAt(RunOps(ops, same).value, ns)
  {
    if ops != [] {
      var n := |ops| - 1;
      RunOpsPlaces(ops[..n], same);
      if RunOps(ops[..n], same).Some? {
        ApplyPlaces(RunOps(ops[..n], same).value, ops[n], same);
        if RunOps(ops, same).None? {
          var ns :| Put(PlaceAt(RunOps(ops[..n], same).value, ns), ops[n], ns, same).Refused?;
          assert PutAll(Free, ops, ns, same).Refused?;
        }
      } else {
        var ns :| PutAll(Free, ops[..n], ns, same).Refused?;
        assert PutAll(Free, ops, ns, same).Refused?;
      }
    }
  }

  lemma ApplyPlaces(table: Table, op: Op, same: (Json, Json) -> bool)
    ensures Apply(table, op, same).Some? <==> forall ns :: !Put(PlaceAt(table, ns), op, ns, same).Refused?
    ensures Apply(table, op, same).Some? ==>
      forall ns :: Put(PlaceAt(table, ns), op, ns, same) == PlaceAt(Apply(table, op, same).value, ns)
  {
    if op.ToNamespace? && Apply(table, op, same).None? {
      assert Put(PlaceAt(table, op.x.ns), op, op.x.ns, same).Refused?;
    }
  }

  // ----- what a place holds -----

  /** A root object under the name reads as a namespace; nothing yet reads as an empty one. */
  function Held(p: Place): Option<map<string, Json>> {
    match p
    case Free => Some(map[])
    case Taken(Names(names)) => Some(names)
    case Taken(Root(Obj(entries))) => Some(AsMap(entries))
    case _ => None
  }

  ghost predicate SameMap(m: map<string, Json>, n: map<string, Json>, same: (Json, Json) -> bool) {
    m.Keys == n.Keys && forall name :: name in m ==> same(m[name], n[name])
  }

  /** `m` holds the insertions into `ns` so far, and nothing else. */
  ghost predicate Collected(m: map<string, Json>, done: seq<Insertion>, ns: string, same: (Json, Json) -> bool) {
    && (forall x :: x in done && x.ns == ns ==> x.name in m && same(m[x.name], x.value))
    && (forall name :: name in m ==> Insertion(ns, name, m[name]) in done)
  }

  /** `m` already has every insertion into `ns`. */
  ghost predicate HoldsAll(m: map<string, Json>, xs: seq<Insertion>, ns: string, same: (Json, Json) -> bool) {
    forall x :: x in xs && x.ns == ns ==> x.name in m && same(m[x.name], x.value)
  }

  lemma CollectNext(p: Place, m: map<string, Json>, done: seq<Insertion>, x: Insertion, ns: string, same: (Json, Json) -> bool)
    returns (m': map<string, Json>)
    requires Equivalence(same) && Held(p) == Some(m) && Collected(m, done, ns, same) && Consistent(done + [x], same)
    ensures Held(Put(p, ToNamespace(x), ns, same)) == Some(m') && Collected(m', done + [x], ns, same)
  {
    m' := m;
    if x.ns == ns {
      if x.name in m {
        assert Insertion(ns, x.name, m[x.name]) in done + [x] && x in done + [x];
      } else {
        m' := m[x.name := x.value];
        assert Insertion(ns, x.name, x.value) == x;
      }
    }
  }

  lemma {:induction false} CollectAll(p: Place, m: map<string, Json>, done: seq<Insertion>, xs: seq<Insertion>,
                                      ns: string, same: (Json, Json) -> bool)
    returns (m': map<string, Json>)
    requires Equivalence(same) && Held(p) == Some(m) && Collected(m, done, ns, same) && Consistent(done + xs, same)
    ensures Held(PutAll(p, NamespaceOps(xs), ns, same)) == Some(m') && Collected(m', done + xs, ns, same)
    decreases xs
  {
    if xs == [] {
      m' := m;
      assert done + xs == done;
    } else {
      var n := |xs| - 1;
      assert done + xs == done + xs[..n] + [xs[n]];
      assert NamespaceOps(xs)[..n] == NamespaceOps(xs[..n]);
      var m1 := CollectAll(p, m, done, xs[..n], ns, same);
      m' := CollectNext(PutAll(p, NamespaceOps(xs[..n]), ns, same), m1, done + xs[..n], xs[n], ns, same);
    }
  }

  /** Insertions a place already holds leave it as it is. */
  lemma {:induction false} HeldStays(p: Place, m: map<string, Json>, xs: seq<Insertion>, ns: string, same: (Json, Json) -> bool)
    requires Held(p) == Some(m) && HoldsAll(m, xs, ns, same)
    ensures Held(PutAll(p, NamespaceOps(xs), ns, same)) == Some(m)
  {
    if xs != [] {
      var n := |xs| - 1;
      assert NamespaceOps(xs)[..n] == NamespaceOps(xs[..n]);
      HeldStays(p, m, xs[..n], ns, same);
      assert xs[n] in xs;
    }
  }

  /** `n` has everything of `m` unchanged. */
  ghost predicate Extends(m: map<string, Json>, n: map<string, Json>) {
    forall name :: name in m ==> name in n && n[name] == m[name]
  }

  lemma HeldGrowsOne(p: Place, x: Insertion, ns: string, same: (Json, Json) -> bool)
    requires (forall v :: same(v, v)) && x.ns == ns && !Put(p, ToNamespace(x), ns, same).Refused?
    ensures var q := Put(p, ToNamespace(x), ns, same);
            && Held(p).Some? && Held(q).Some? && Extends(Held(p).value, Held(q).value)
            && x.name in Held(q).value && same(Held(q).value[x.name], x.value)
  {
  }

  lemma HoldsMore(m: map<string, Json>, n: map<string, Json>, xs: seq<Insertion>, x: Insertion, ns: string, same: (Json, Json) -> bool)
    requires HoldsAll(m, xs, ns, same) && Extends(m, n) && (x.ns == ns ==> x.name in n && same(n[x.name], x.value))
    ensures HoldsAll(n, xs + [x], ns, same)
  {
  }

  /** Whatever a place held stays, and afterwards it holds the insertions as well, if none was refused. */
  lemma {:induction false} HeldGrows(p: Place, xs: seq<Insertion>, ns: string, same: (Json, Json) -> bool) returns (m: map<string, Json>)
    requires Equivalence(same) && !PutAll(p, NamespaceOps(xs), ns, same).Refused? && (Held(p).Some? || exists x :: x in xs && x.ns == ns)
    ensures Held(PutAll(p, NamespaceOps(xs), ns, same)) == Some(m) && HoldsAll(m, xs, ns, same)
    ensures Held(p).Some? && Extends(Held(p).value, m)
  {
    if xs == [] {
      m := Held(p).value;
    } else {
      var n := |xs| - 1;
      var before, x := xs[..n], xs[n];
      assert xs == before + [x] && NamespaceOps(xs)[..n] == NamespaceOps(before);
      var q := PutAll(p, NamespaceOps(before), ns, same);
      if Held(p).None? && !exists x :: x in before && x.ns == ns {
        OthersIgnored(p, before, ns, same);
        HeldGrowsOne(p, x, ns, same);
        assert false;
      }
      m := HeldGrows(p, before, ns, same);
      if x.ns == ns {
        HeldGrowsOne(q, x, ns, same);
        var m' := Held(Put(q, ToNamespace(x), ns, same)).value;
        HoldsMore(m, m', before, x, ns, same);
        m := m';
      } else {
        HoldsMore(m, m, before, x, ns, same);
      }
    }
  }

  lemma {:induction false} OthersIgnored(p: Place, xs: seq<Insertion>, ns: string, same: (Json, Json) -> bool)
    requires forall x :: x in xs ==> x.ns != ns
    ensures PutAll(p, NamespaceOps(xs), ns, same) == p
  {
    if xs != [] {
      var n := |xs| - 1;
      assert NamespaceOps(xs)[..n] == NamespaceOps(xs[..n]);
      assert xs[n] in xs;
      OthersIgnored(p, xs[..n], ns, same);
    }
  }

  // ----- what a schema leaves at the root -----

  /** The last value written under `ns`. */
  function LeftAt(ops: seq<Op>, ns: string): Option<Json> {
    if ops == [] then None
    else
      var n := |ops| - 1;
      if ops[n].ToRoot? && ops[n].name == ns then Some(ops[n].value) else LeftAt(ops[..n], ns)
  }

  lemma {:induction false} RootOpsLeave(p: Place, ops: seq<Op>, ns: string, same: (Json, Json) -> bool)
    requires !p.Refused? && forall op :: op in ops ==> op.ToRoot?
    ensures PutAll(p, ops, ns, same) == match LeftAt(ops, ns) case Some(v) => Taken(Root(v)) case None => p
  {
    if ops != [] {
      var n := |ops| - 1;
      assert ops[n] in ops;
      RootOpsLeave(p, ops[..n], ns, same);
    }
  }

  lemma {:induction false} NamespaceOpsLeave(xs: seq<Insertion>, ns: string)
    ensures LeftAt(NamespaceOps(xs), ns) == None
  {
    if xs != [] {
      assert NamespaceOps(xs)[..|xs| - 1] == NamespaceOps(xs[..|xs| - 1]);
      NamespaceOpsLeave(xs[..|xs| - 1], ns);
    }
  }

  lemma SchemaRoot(s: Schema, types: Types, annotate: Annotate)
    requires s.Unnamespaced?
    ensures forall op :: op in OpsOf(s, types, annotate) ==> op.ToRoot?
  {
    RootDefinitionsAreRoot(Definitions(RewriteKnown(s.value, types)), types, s.inV1Dir, annotate);
  }

  // ----- whole orders -----

  function PlaceOf(schemas: seq<Schema>, types: Types, annotate: Annotate, ns: string, same: (Json, Json) -> bool): Place {
    PutAll(Free, AllOps(schemas, types, annotate), ns, same)
  }

  /** The insertions into namespaces, which no type table changes. */
  function Insertions(schemas: seq<Schema>, annotate: Annotate): seq<Insertion> {
    AllInsertions(NamespacedOf(schemas), annotate)
  }

  lemma PlaceNext(schemas: seq<Schema>, s: Schema, types: Types, annotate: Annotate, ns: string, same: (Json, Json) -> bool)
    ensures PlaceOf(schemas + [s], types, annotate, ns, same)
         == PutAll(PlaceOf(schemas, types, annotate, ns, same), OpsOf(s, types, annotate), ns, same)
  {
    assert (schemas + [s])[..|schemas|] == schemas;
    PutAllConcat(Free, AllOps(schemas, types, annotate), OpsOf(s, types, annotate), ns, same);
  }

  lemma InsertionsNext(schemas: seq<Schema>, s: Schema, annotate: Annotate)
    ensures Insertions(schemas + [s], annotate)
         == Insertions(schemas, annotate) + if s.Namespaced? then Contributions(s.g, annotate) else []
  {
    assert (schemas + [s])[..|schemas|] == schemas;
    var before := NamespacedOf(schemas);
    if s.Namespaced? {
      assert (before + [s.g])[..|before|] == before;
    } else {
      assert before + [] == before;
    }
  }

  ghost predicate Leaves(schemas: seq<Schema>, types: Types, annotate: Annotate, ns: string, v: Json) {
    exists s :: s in schemas && LeftAt(OpsOf(s, types, annotate), ns) == Some(v)
  }

  /** The values the schemas leave at the root under `ns`. */
  ghost function Leavings(schemas: seq<Schema>, types: Types, annotate: Annotate, ns: string): iset<Json> {
    iset v | Leaves(schemas, types, annotate, ns, v)
  }

  lemma LeavingsNext(schemas: seq<Schema>, s: Schema, types: Types, annotate: Annotate, ns: string)
    ensures Leavings(schemas + [s], types, annotate, ns)
         == Leavings(schemas, types, annotate, ns) + AsSet(LeftAt(OpsOf(s, types, annotate), ns))
  {
    assert s in schemas + [s];
  }

  ghost function AsSet(left: Option<Json>): iset<Json> {
    match left case Some(v) => iset{v} case None => iset{}
  }

  /** A value left under the name of a namespace is an object that has its definitions already. */
  ghost predicate Fitting(v: Json, xs: seq<Insertion>, ns: string, same: (Json, Json) -> bool) {
    v.Obj? && HoldsAll(AsMap(v.entries), xs, ns, same)
  }

  /** What the place comes to: the last value left, or else just the insertions. */
  datatype Outcome = Last(v: Json) | Only(m: map<string, Json>)

  ghost predicate Comes(o: Outcome, p: Place, left: iset<Json>, done: seq<Insertion>, ns: string, same: (Json, Json) -> bool) {
    match o
    case Last(v) => v in left && v.Obj? && Held(p) == Some(AsMap(v.entries))
    case Only(m) => left == iset{} && Held(p) == Some(m) && Collected(m, done, ns, same)
  }

  lemma ComesInserted(o: Outcome, p: Place, left: iset<Json>, done: seq<Insertion>, xs: seq<Insertion>, ns: string, same: (Json, Json) -> bool)
    returns (o': Outcome)
    requires Equivalence(same) && Comes(o, p, left, done, ns, same) && Consistent(done + xs, same)
    requires o.Last? ==> HoldsAll(AsMap(o.v.entries), xs, ns, same)
    ensures Comes(o', PutAll(p, NamespaceOps(xs), ns, same), left, done + xs, ns, same)
  {
    o' := o;
    match o {
      case Last(v) => HeldStays(p, AsMap(v.entries), xs, ns, same);
      case Only(m) =>
        var m' := CollectAll(p, m, done, xs, ns, same);
        o' := Only(m');
    }
  }

  lemma ComesLeft(o: Outcome, p: Place, all: iset<Json>, done: seq<Insertion>, left: Option<Json>, ns: string, same: (Json, Json) -> bool)
    returns (o': Outcome)
    requires Comes(o, p, all, done, ns, same) && (left.Some? ==> left.value.Obj?)
    ensures Comes(o', match left case Some(v) => Taken(Root(v)) case None => p, all + AsSet(left), done, ns, same)
  {
    o' := match left case Some(v) => Last(v) case None => o;
  }

  /** With fitting root values a place never refuses, and its outcome is known. */
  lemma {:induction false} PlaceComes(schemas: seq<Schema>, all: seq<Insertion>, types: Types, annotate: Annotate,
                                      ns: string, same: (Json, Json) -> bool)
    returns (o: Outcome)
    requires Equivalence(same) && Consistent(all, same) && forall x :: x in Insertions(schemas, annotate) ==> x in all
    requires forall v :: v in Leavings(schemas, types, annotate, ns) ==> Fitting(v, all, ns, same)
    ensures Comes(o, PlaceOf(schemas, types, annotate, ns, same), Leavings(schemas, types, annotate, ns),
                  Insertions(schemas, annotate), ns, same)
  {
    if schemas == [] {
      o := Only(map[]);
    } else {
      var n := |schemas| - 1;
      var before, s := schemas[..n], schemas[n];
      assert schemas == before + [s];
      InsertionsNext(before, s, annotate);
      LeavingsNext(before, s, types, annotate, ns);
      var o1 := PlaceComes(before, all, types, annotate, ns, same);
      PlaceNext(before, s, types, annotate, ns, same);
      var p, left, done := PlaceOf(before, types, annotate, ns, same), Leavings(before, types, annotate, ns), Insertions(before, annotate);
      match s {
        case Namespaced(g) =>
          NamespaceOpsLeave(Contributions(g, annotate), ns);
          o := ComesInserted(o1, p, left, done, Contributions(g, annotate), ns, same);
        case Unnamespaced(_, _, _) =>
          SchemaRoot(s, types, annotate);
          RootOpsLeave(p, OpsOf(s, types, annotate), ns, same);
          assert done + [] == done;
          o := ComesLeft(o1, p, left, done, LeftAt(OpsOf(s, types, annotate), ns), ns, same);
      }
    }
  }

  // ----- independence of the order, and its condition -----

  ghost predicate Reordered(a: seq<Schema>, b: seq<Schema>) {
    multiset(a) == multiset(b)
  }

  ghost predicate Inhabited(schemas: seq<Schema>, annotate: Annotate, ns: string) {
    exists x :: x in Insertions(schemas, annotate) && x.ns == ns
  }

  /** The same definitions, whether a namespace or a root object holds them. */
  ghost predicate SameSlot(s: Slot, t: Slot, same: (Json, Json) -> bool) {
    if Held(Taken(s)).Some? && Held(Taken(t)).Some? then SameMap(Held(Taken(s)).value, Held(Taken(t)).value, same)
    else s.Root? && t.Root? && !s.value.Obj? && !t.value.Obj? && same(s.value, t.value)
  }

  ghost predicate AgreeAt(t: Table, u: Table, ns: string, same: (Json, Json) -> bool) {
    (ns in t <==> ns in u) && (ns in t ==> SameSlot(t[ns], u[ns], same))
  }

  ghost predicate SameResult(schemas: seq<Schema>, r: Option<Table>, s: Option<Table>, annotate: Annotate, same: (Json, Json) -> bool) {
    && (r.Some? <==> s.Some?)
    && (r.Some? ==> forall ns :: Inhabited(schemas, annotate, ns) ==> AgreeAt(r.value, s.value, ns, same))
  }

  /** Every order of the schemas succeeds or none does, with the same namespaces. */
  ghost predicate OrderIndependent(a: seq<Schema>, annotate: Annotate, same: (Json, Json) -> bool) {
    forall b, c :: Reordered(a, b) && Reordered(a, c) ==>
      SameResult(a, Assembled(b, annotate, same), Assembled(c, annotate, same), annotate, same)
  }

  ghost predicate AlwaysBuilds(a: seq<Schema>, annotate: Annotate, same: (Json, Json) -> bool) {
    forall b :: Reordered(a, b) ==> Assembled(b, annotate, same).Some?
  }

  /** Every name of `m` is inserted into `ns`. */
  ghost predicate NothingElse(m: map<string, Json>, xs: seq<Insertion>, ns: string) {
    forall name :: name in m ==> exists x :: x in xs && x.ns == ns && x.name == name
  }

  /** A value left at the root in one order, against those left in another. */
  ghost predicate FitsWith(v: Json, others: iset<Json>, xs: seq<Insertion>, ns: string, same: (Json, Json) -> bool) {
    && Fitting(v, xs, ns, same)
    && (forall w :: w in others ==> w.Obj? && SameMap(AsMap(v.entries), AsMap(w.entries), same))
    && (others == iset{} ==> NothingElse(AsMap(v.entries), xs, ns))
  }

  ghost predicate FitUnder(a: seq<Schema>, t: Types, u: Types, annotate: Annotate, same: (Json, Json) -> bool) {
    forall ns, v :: Inhabited(a, annotate, ns) && v in Leavings(a, t, annotate, ns) ==>
      FitsWith(v, Leavings(a, u, annotate, ns), Insertions(a, annotate), ns, same)
  }

  /**
   * Whatever a schema leaves at the root under the name of a namespace is an object that has all
   * definitions of the namespace already, and all these objects are the same. The values depend on
   * the order only through the namespaces that claim the type names.
   */
  ghost predicate RootsFit(a: seq<Schema>, annotate: Annotate, same: (Json, Json) -> bool) {
    forall b, c :: Reordered(a, b) && Reordered(a, c) ==> FitUnder(a, CollectTypes(b), CollectTypes(c), annotate, same)
  }

  // ----- reordering keeps what matters -----

  lemma ReorderedMembers(a: seq<Schema>, b: seq<Schema>)
    requires Reordered(a, b)
    ensures forall s :: s in a <==> s in b
  {
    forall s ensures s in a <==> s in b {
      assert s in a <==> s in multiset(a);
      assert s in b <==> s in multiset(b);
    }
  }

  lemma ReorderedInsertions(a: seq<Schema>, b: seq<Schema>, annotate: Annotate)
    requires Reordered(a, b)
    ensures forall x :: x in Insertions(a, annotate) <==> x in Insertions(b, annotate)
  {
    ReorderedMembers(a, b);
    forall g ensures g in NamespacedOf(a) <==> g in NamespacedOf(b) {
      NamespacedMember(a, g);
      NamespacedMember(b, g);
    }
    SameInsertions(NamespacedOf(a), NamespacedOf(b), annotate);
  }

  lemma ReorderedLeavings(a: seq<Schema>, b: seq<Schema>, types: Types, annotate: Annotate, ns: string)
    requires Reordered(a, b)
    ensures Leavings(a, types, annotate, ns) == Leavings(b, types, annotate, ns)
  {
    ReorderedMembers(a, b);
  }

  // ----- fitting roots make the order irrelevant -----

  /** Where nothing is inserted nothing is refused. */
  lemma {:induction false} UninhabitedBuilds(schemas: seq<Schema>, types: Types, annotate: Annotate, ns: string, same: (Json, Json) -> bool)
    requires !Inhabited(schemas, annotate, ns)
    ensures !PlaceOf(schemas, types, annotate, ns, same).Refused?
  {
    if schemas != [] {
      var n := |schemas| - 1;
      var before, s := schemas[..n], schemas[n];
      assert schemas == before + [s];
      InsertionsNext(before, s, annotate);
      UninhabitedBuilds(before, types, annotate, ns, same);
      PlaceNext(before, s, types, annotate, ns, same);
      match s {
        case Namespaced(g) => OthersIgnored(PlaceOf(before, types, annotate, ns, same), Contributions(g, annotate), ns, same);
        case Unnamespaced(_, _, _) =>
          SchemaRoot(s, types, annotate);
          RootOpsLeave(PlaceOf(before, types, annotate, ns, same), OpsOf(s, types, annotate), ns, same);
      }
    }
  }

  /** What an order makes of an inhabited namespace. */
  lemma OrderComes(a: seq<Schema>, b: seq<Schema>, annotate: Annotate, ns: string, same: (Json, Json) -> bool) returns (o: Outcome)
    requires Equivalence(same) && Reordered(a, b) && Consistent(Insertions(a, annotate), same)
    requires forall v :: v in Leavings(a, CollectTypes(b), annotate, ns) ==> Fitting(v, Insertions(a, annotate), ns, same)
    ensures Comes(o, PlaceOf(b, CollectTypes(b), annotate, ns, same), Leavings(a, CollectTypes(b), annotate, ns),
                  Insertions(b, annotate), ns, same)
  {
    ReorderedInsertions(a, b, annotate);
    ReorderedLeavings(a, b, CollectTypes(b), annotate, ns);
    o := PlaceComes(b, Insertions(a, annotate), CollectTypes(b), annotate, ns, same);
  }

  lemma OrderBuilds(a: seq<Schema>, b: seq<Schema>, annotate: Annotate, same: (Json, Json) -> bool)
    requires Equivalence(same) && Reordered(a, b) && Consistent(Insertions(a, annotate), same)
    requires FitUnder(a, CollectTypes(b), CollectTypes(b), annotate, same)
    ensures Assembled(b, annotate, same).Some?
    ensures forall ns :: PlaceAt(Assembled(b, annotate, same).value, ns) == PlaceOf(b, CollectTypes(b), annotate, ns, same)
  {
    forall ns ensures !PutAll(Free, AllOps(b, CollectTypes(b), annotate), ns, same).Refused? {
      if Inhabited(a, annotate, ns) {
        var o := OrderComes(a, b, annotate, ns, same);
      } else {
        ReorderedInsertions(a, b, annotate);
        UninhabitedBuilds(b, CollectTypes(b), annotate, ns, same);
      }
    }
    RunOpsPlaces(AllOps(b, CollectTypes(b), annotate), same);
  }

  lemma CollectedSame(m: map<string, Json>, n: map<string, Json>, xs: seq<Insertion>, ys: seq<Insertion>, ns: string, same: (Json, Json) -> bool)
    requires Equivalence(same) && Collected(m, xs, ns, same) && Collected(n, ys, ns, same) && forall x :: x in xs <==> x in ys
    ensures SameMap(m, n, same)
  {
    forall name | name in m ensures name in n && same(m[name], n[name]) {
      assert Insertion(ns, name, m[name]) in ys;
    }
    forall name | name in n ensures name in m {
      assert Insertion(ns, name, n[name]) in xs;
    }
  }

  lemma CollectedFits(m: map<string, Json>, v: Json, xs: seq<Insertion>, ys: seq<Insertion>, ns: string, same: (Json, Json) -> bool)
    requires Equivalence(same) && Fitting(v, xs, ns, same) && Collected(m, ys, ns, same) && forall x :: x in xs <==> x in ys
    ensures SameMap(AsMap(v.entries), m, same) <==> NothingElse(AsMap(v.entries), xs, ns)
    ensures SameMap(m, AsMap(v.entries), same) <==> NothingElse(AsMap(v.entries), xs, ns)
  {
    var all := AsMap(v.entries);
    forall name | name in m ensures name in all && same(all[name], m[name]) && same(m[name], all[name]) {
      assert Insertion(ns, name, m[name]) in xs;
    }
    if NothingElse(all, xs, ns) {
      forall name | name in all ensures name in m {
        var x :| x in xs && x.ns == ns && x.name == name;
      }
      assert all.Keys == m.Keys;
    }
    if all.Keys == m.Keys {
      forall name | name in all ensures exists x :: x in xs && x.ns == ns && x.name == name {
        assert Insertion(ns, name, m[name]) in xs;
      }
    }
  }

  lemma OutcomesAgree(o: Outcome, q: Outcome, p: Place, r: Place, left: iset<Json>, others: iset<Json>,
                      xs: seq<Insertion>, ys: seq<Insertion>, all: seq<Insertion>, ns: string, same: (Json, Json) -> bool)
    requires Equivalence(same) && (forall x :: x in xs <==> x in all) && (forall x :: x in ys <==> x in all)
    requires Comes(o, p, left, xs, ns, same) && Comes(q, r, others, ys, ns, same)
    requires forall v :: v in left ==> FitsWith(v, others, all, ns, same)
    requires forall v :: v in others ==> FitsWith(v, left, all, ns, same)
    ensures Held(p).Some? && Held(r).Some? && SameMap(Held(p).value, Held(r).value, same)
  {
    match (o, q) {
      case (Last(v), Last(w)) =>
      case (Last(v), Only(n)) => CollectedFits(n, v, all, ys, ns, same);
      case (Only(m), Last(w)) => CollectedFits(m, w, all, xs, ns, same);
      case (Only(m), Only(n)) => CollectedSame(m, n, xs, ys, ns, same);
    }
  }

  /** An inhabited place ends up taken. */
  lemma ComesTaken(o: Outcome, p: Place, left: iset<Json>, xs: seq<Insertion>, all: seq<Insertion>, ns: string, same: (Json, Json) -> bool)
    requires Comes(o, p, left, xs, ns, same) && (forall x :: x in xs <==> x in all) && exists x :: x in all && x.ns == ns
    requires forall v :: v in left ==> Fitting(v, all, ns, same)
    ensures p.Taken?
  {
    var x :| x in all && x.ns == ns;
    assert x.name in Held(p).value;
  }

  lemma OrdersAgreeAt(a: seq<Schema>, b: seq<Schema>, c: seq<Schema>, annotate: Annotate, same: (Json, Json) -> bool, ns: string)
    requires Equivalence(same) && Reordered(a, b) && Reordered(a, c) && Consistent(Insertions(a, annotate), same)
    requires RootsFit(a, annotate, same) && Inhabited(a, annotate, ns)
    ensures var p, q := PlaceOf(b, CollectTypes(b), annotate, ns, same), PlaceOf(c, CollectTypes(c), annotate, ns, same);
            p.Taken? && q.Taken? && SameSlot(p.slot, q.slot, same)
  {
    var t, u, all := CollectTypes(b), CollectTypes(c), Insertions(a, annotate);
    assert FitUnder(a, t, u, annotate, same) && FitUnder(a, u, t, annotate, same);
    assert FitUnder(a, t, t, annotate, same) && FitUnder(a, u, u, annotate, same);
    var o := OrderComes(a, b, annotate, ns, same);
    var q := OrderComes(a, c, annotate, ns, same);
    ReorderedInsertions(a, b, annotate);
    ReorderedInsertions(a, c, annotate);
    var left, others := Leavings(a, t, annotate, ns), Leavings(a, u, annotate, ns);
    var p, r := PlaceOf(b, t, annotate, ns, same), PlaceOf(c, u, annotate, ns, same);
    OutcomesAgree(o, q, p, r, left, others, Insertions(b, annotate), Insertions(c, annotate), all, ns, same);
    ComesTaken(o, p, left, Insertions(b, annotate), all, ns, same);
    ComesTaken(q, r, others, Insertions(c, annotate), all, ns, same);
  }

  lemma FittingRootsSuffice(a: seq<Schema>, annotate: Annotate, same: (Json, Json) -> bool)
    requires Equivalence(same) && Consistent(Insertions(a, annotate), same) && RootsFit(a, annotate, same)
    ensures AlwaysBuilds(a, annotate, same) && OrderIndependent(a, annotate, same)
  {
    forall b | Reordered(a, b)
      ensures Assembled(b, annotate, same).Some?
      ensures forall ns :: PlaceAt(Assembled(b, annotate, same).value, ns) == PlaceOf(b, CollectTypes(b), annotate, ns, same)
    {
      OrderBuilds(a, b, annotate, same);
    }
    forall b, c | Reordered(a, b) && Reordered(a, c)
      ensures SameResult(a, Assembled(b, annotate, same), Assembled(c, annotate, same), annotate, same)
    {
      var t, u := Assembled(b, annotate, same).value, Assembled(c, annotate, same).value;
      forall ns | Inhabited(a, annotate, ns) ensures AgreeAt(t, u, ns, same) {
        OrdersAgreeAt(a, b, c, annotate, same, ns);
        assert PlaceAt(t, ns) == PlaceOf(b, CollectTypes(b), annotate, ns, same);
        assert PlaceAt(u, ns) == PlaceOf(c, CollectTypes(c), annotate, ns, same);
      }
    }
  }

  // ----- roots that do not fit show in some order -----

  function Named(schemas: seq<Schema>): seq<Schema> {
    if schemas == [] then []
    else
      var n := |schemas| - 1;
      Named(schemas[..n]) + if schemas[n].Namespaced? then [schemas[n]] else []
  }

  ghost predicate AllRoots(schemas: seq<Schema>) {
    forall i :: 0 <= i < |schemas| ==> schemas[i].Unnamespaced?
  }

  lemma NamedNext(before: seq<Schema>, s: Schema)
    ensures Named(before + [s]) == Named(before) + if s.Namespaced? then [s] else []
    ensures multiset(Named(before + [s])) == multiset(Named(before)) + if s.Namespaced? then multiset{s} else multiset{}
  {
    assert (before + [s])[..|before|] == before;
    assert Named(before) + [] == Named(before);
  }

  /** The schemas that are not namespaced. */
  lemma {:induction false} SplitOff(schemas: seq<Schema>) returns (roots: seq<Schema>)
    ensures AllRoots(roots) && multiset(roots) + multiset(Named(schemas)) == multiset(schemas)
  {
    roots := [];
    if schemas != [] {
      var n := |schemas| - 1;
      var before, s := schemas[..n], schemas[n];
      assert schemas == before + [s];
      assert multiset(schemas) == multiset(before) + multiset{s};
      NamedNext(before, s);
      roots := SplitOff(before);
      if s.Unnamespaced? {
        assert multiset(roots + [s]) == multiset(roots) + multiset{s};
        roots := roots + [s];
      }
    }
  }

  lemma {:induction false} NamedMembers(schemas: seq<Schema>)
    ensures forall s :: s in Named(schemas) ==> s.Namespaced?
  {
    if schemas != [] {
      NamedMembers(schemas[..|schemas| - 1]);
    }
  }

  lemma WithoutOne(all: seq<Schema>, i: nat)
    requires i < |all|
    ensures multiset(all[..i] + all[i + 1..]) + multiset{all[i]} == multiset(all)
  {
    assert all == all[..i] + [all[i]] + all[i + 1..];
  }

  lemma RootsWithout(all: seq<Schema>, i: nat)
    requires i < |all| && AllRoots(all)
    ensures AllRoots(all[..i] + all[i + 1..])
  {
  }

  /** One schema without a namespace, the others of its kind, and the namespaced ones in their order. */
  lemma SetAside(schemas: seq<Schema>, s: Schema) returns (roots: seq<Schema>)
    requires s in schemas && s.Unnamespaced?
    ensures AllRoots(roots) && multiset(roots) + multiset{s} + multiset(Named(schemas)) == multiset(schemas)
  {
    var all := SplitOff(schemas);
    var i := AmongRoots(schemas, all, s);
    roots := all[..i] + all[i + 1..];
    WithoutOne(all, i);
    RootsWithout(all, i);
  }

  lemma AmongRoots(schemas: seq<Schema>, all: seq<Schema>, s: Schema) returns (i: nat)
    requires s in schemas && s.Unnamespaced? && multiset(all) + multiset(Named(schemas)) == multiset(schemas)
    ensures i < |all| && all[i] == s
  {
    NamedMembers(schemas);
    assert s !in Named(schemas);
    assert s in multiset(schemas) && s !in multiset(Named(schemas));
    assert s in multiset(all);
    i :| 0 <= i < |all| && all[i] == s;
  }

  lemma TypesNext(schemas: seq<Schema>, s: Schema)
    requires s.Unnamespaced?
    ensures CollectTypes(schemas + [s]) == CollectTypes(schemas)
  {
    assert (schemas + [s])[..|schemas|] == schemas;
  }

  lemma {:induction false} RootsClaimNothing(roots: seq<Schema>)
    requires AllRoots(roots)
    ensures CollectTypes(roots) == map[]
  {
    if roots != [] {
      RootsClaimNothing(roots[..|roots| - 1]);
    }
  }

  lemma {:induction false} TypesAfterRoots(roots: seq<Schema>, schemas: seq<Schema>)
    requires AllRoots(roots)
    ensures CollectTypes(roots + schemas) == CollectTypes(schemas)
    decreases schemas
  {
    if schemas == [] {
      assert roots + schemas == roots;
      RootsClaimNothing(roots);
    } else {
      var n := |schemas| - 1;
      assert (roots + schemas)[..|roots| + n] == roots + schemas[..n];
      TypesAfterRoots(roots, schemas[..n]);
    }
  }

  lemma {:induction false} TypesOfNamed(schemas: seq<Schema>)
    ensures CollectTypes(Named(schemas)) == CollectTypes(schemas)
    ensures NamespacedOf(Named(schemas)) == NamespacedOf(schemas)
  {
    if schemas != [] {
      var n := |schemas| - 1;
      TypesOfNamed(schemas[..n]);
      if schemas[n].Namespaced? {
        assert Named(schemas)[..|Named(schemas)| - 1] == Named(schemas[..n]);
      } else {
        assert Named(schemas) == Named(schemas[..n]);
      }
    }
  }

  lemma AllOpsNext(schemas: seq<Schema>, s: Schema, types: Types, annotate: Annotate)
    ensures AllOps(schemas + [s], types, annotate) == AllOps(schemas, types, annotate) + OpsOf(s, types, annotate)
  {
    assert (schemas + [s])[..|schemas|] == schemas;
  }

  lemma Regroup(a: seq<Op>, b: seq<Op>, c: seq<Op>)
    ensures (a + b) + c == a + (b + c)
  {
  }

  lemma {:induction false} AllOpsConcat(a: seq<Schema>, b: seq<Schema>, types: Types, annotate: Annotate)
    ensures AllOps(a + b, types, annotate) == AllOps(a, types, annotate) + AllOps(b, types, annotate)
    decreases b
  {
    if b == [] {
      assert a + b == a;
    } else {
      var n := |b| - 1;
      var before, s := b[..n], b[n];
      assert b == before + [s] && a + b == (a + before) + [s];
      AllOpsConcat(a, before, types, annotate);
      AllOpsNext(before, s, types, annotate);
      AllOpsNext(a + before, s, types, annotate);
      Regroup(AllOps(a, types, annotate), AllOps(before, types, annotate), OpsOf(s, types, annotate));
    }
  }

  lemma PlaceConcat(a: seq<Schema>, b: seq<Schema>, types: Types, annotate: Annotate, ns: string, same: (Json, Json) -> bool)
    ensures PlaceOf(a + b, types, annotate, ns, same) == PutAll(PlaceOf(a, types, annotate, ns, same), AllOps(b, types, annotate), ns, same)
    ensures PlaceOf(a, types, annotate, ns, same).Refused? ==> PlaceOf(a + b, types, annotate, ns, same).Refused?
  {
    AllOpsConcat(a, b, types, annotate);
    PutAllConcat(Free, AllOps(a, types, annotate), AllOps(b, types, annotate), ns, same);
    RefusedStays(AllOps(b, types, annotate), ns, same);
  }

  lemma {:induction false} NamedOps(schemas: seq<Schema>, types: Types, annotate: Annotate)
    ensures AllOps(Named(schemas), types, annotate) == NamespaceOps(Insertions(schemas, annotate))
  {
    if schemas != [] {
      var n := |schemas| - 1;
      assert schemas == schemas[..n] + [schemas[n]];
      NamedOps(schemas[..n], types, annotate);
      InsertionsNext(schemas[..n], schemas[n], annotate);
      if schemas[n].Namespaced? {
        assert Named(schemas)[..|Named(schemas)| - 1] == Named(schemas[..n]);
        NamespaceOpsConcat(Insertions(schemas[..n], annotate), Contributions(schemas[n].g, annotate));
      } else {
        assert Named(schemas) == Named(schemas[..n]);
        assert Insertions(schemas[..n], annotate) + [] == Insertions(schemas[..n], annotate);
      }
    }
  }

  lemma NamespaceOpsConcat(xs: seq<Insertion>, ys: seq<Insertion>)
    ensures NamespaceOps(xs + ys) == NamespaceOps(xs) + NamespaceOps(ys)
  {
  }

  /** A root value written last is what remains. */
  lemma LastWins(before: seq<Schema>, s: Schema, types: Types, annotate: Annotate, ns: string, v: Json, same: (Json, Json) -> bool)
    requires s.Unnamespaced? && LeftAt(OpsOf(s, types, annotate), ns) == Some(v)
    requires !PlaceOf(before, types, annotate, ns, same).Refused?
    ensures PlaceOf(before + [s], types, annotate, ns, same) == Taken(Root(v))
  {
    PlaceNext(before, s, types, annotate, ns, same);
    SchemaRoot(s, types, annotate);
    RootOpsLeave(PlaceOf(before, types, annotate, ns, same), OpsOf(s, types, annotate), ns, same);
  }

  /** The order with `s` last, and the one with it just in front of the namespaced schemas. */
  function RootLast(roots: seq<Schema>, s: Schema, named: seq<Schema>): seq<Schema> {
    roots + named + [s]
  }

  function RootBefore(roots: seq<Schema>, s: Schema, named: seq<Schema>): seq<Schema> {
    roots + [s] + named
  }

  lemma AsideOrders(a: seq<Schema>, b: seq<Schema>, roots: seq<Schema>, s: Schema)
    requires Reordered(a, b) && AllRoots(roots) && s.Unnamespaced? && multiset(roots) + multiset{s} + multiset(Named(b)) == multiset(b)
    ensures Reordered(a, RootLast(roots, s, Named(b))) && Reordered(a, RootBefore(roots, s, Named(b)))
    ensures CollectTypes(RootLast(roots, s, Named(b))) == CollectTypes(b) == CollectTypes(RootBefore(roots, s, Named(b)))
  {
    TypesOfNamed(b);
    TypesNext(roots + Named(b), s);
    TypesAfterRoots(roots, Named(b));
    TypesAfterRoots(roots + [s], Named(b));
  }

  lemma BuiltPlaces(b: seq<Schema>, annotate: Annotate, same: (Json, Json) -> bool, ns: string)
    requires Assembled(b, annotate, same).Some?
    ensures PlaceAt(Assembled(b, annotate, same).value, ns) == PlaceOf(b, CollectTypes(b), annotate, ns, same)
  {
    RunOpsPlaces(AllOps(b, CollectTypes(b), annotate), same);
    assert PutAll(Free, AllOps(b, CollectTypes(b), annotate), ns, same) == PlaceAt(Assembled(b, annotate, same).value, ns);
  }

  /** A schema that leaves `v`, and the others of its kind. */
  lemma Leaver(a: seq<Schema>, b: seq<Schema>, annotate: Annotate, ns: string, v: Json) returns (s: Schema, roots: seq<Schema>)
    requires Reordered(a, b) && v in Leavings(a, CollectTypes(b), annotate, ns)
    ensures s.Unnamespaced? && LeftAt(OpsOf(s, CollectTypes(b), annotate), ns) == Some(v)
    ensures Reordered(a, RootLast(roots, s, Named(b))) && Reordered(a, RootBefore(roots, s, Named(b)))
    ensures CollectTypes(RootLast(roots, s, Named(b))) == CollectTypes(b) == CollectTypes(RootBefore(roots, s, Named(b)))
  {
    ReorderedMembers(a, b);
    s :| s in b && LeftAt(OpsOf(s, CollectTypes(b), annotate), ns) == Some(v);
    if s.Namespaced? {
      NamespaceOpsLeave(Contributions(s.g, annotate), ns);
      assert false;
    }
    roots := SetAside(b, s);
    AsideOrders(a, b, roots, s);
  }

  /** An order that leaves `v` in the namespace's place at the end. */
  lemma ShowsLast(a: seq<Schema>, b: seq<Schema>, annotate: Annotate, same: (Json, Json) -> bool, ns: string, v: Json)
    returns (last: seq<Schema>)
    requires AlwaysBuilds(a, annotate, same) && Reordered(a, b) && v in Leavings(a, CollectTypes(b), annotate, ns)
    ensures Reordered(a, last) && PlaceAt(Assembled(last, annotate, same).value, ns) == Taken(Root(v))
  {
    var s, roots := Leaver(a, b, annotate, ns, v);
    last := RootLast(roots, s, Named(b));
    BuiltPlaces(last, annotate, same, ns);
    PlaceConcat(roots + Named(b), [s], CollectTypes(b), annotate, ns, same);
    LastWins(roots + Named(b), s, CollectTypes(b), annotate, ns, v, same);
  }

  /** With a schema that leaves `v` just in front of them, all insertions go into `v`. */
  lemma InsertedInto(roots: seq<Schema>, s: Schema, b: seq<Schema>, types: Types, annotate: Annotate,
                     ns: string, v: Json, same: (Json, Json) -> bool)
    requires s.Unnamespaced? && LeftAt(OpsOf(s, types, annotate), ns) == Some(v)
    requires !PlaceOf(RootBefore(roots, s, Named(b)), types, annotate, ns, same).Refused?
    ensures PlaceOf(RootBefore(roots, s, Named(b)), types, annotate, ns, same)
         == PutAll(Taken(Root(v)), NamespaceOps(Insertions(b, annotate)), ns, same)
  {
    PlaceConcat(roots + [s], Named(b), types, annotate, ns, same);
    PlaceConcat(roots, [s], types, annotate, ns, same);
    LastWins(roots, s, types, annotate, ns, v, same);
    NamedOps(b, types, annotate);
  }

  lemma InsertedHolds(p: Place, roots: seq<Schema>, s: Schema, b: seq<Schema>, types: Types, annotate: Annotate, ns: string, v: Json,
                      same: (Json, Json) -> bool)
    returns (m: map<string, Json>)
    requires Equivalence(same) && s.Unnamespaced? && LeftAt(OpsOf(s, types, annotate), ns) == Some(v)
    requires p == PlaceOf(RootBefore(roots, s, Named(b)), types, annotate, ns, same) && !p.Refused? && Inhabited(b, annotate, ns)
    ensures Held(p) == Some(m) && HoldsAll(m, Insertions(b, annotate), ns, same) && v.Obj? && Extends(AsMap(v.entries), m)
  {
    InsertedInto(roots, s, b, types, annotate, ns, v, same);
    m := HeldGrows(Taken(Root(v)), Insertions(b, annotate), ns, same);
  }

  /** An order that inserts everything into `v`. */
  lemma ShowsBefore(a: seq<Schema>, b: seq<Schema>, annotate: Annotate, same: (Json, Json) -> bool, ns: string, v: Json)
    returns (order: seq<Schema>, m: map<string, Json>)
    requires Equivalence(same) && AlwaysBuilds(a, annotate, same) && Reordered(a, b) && v in Leavings(a, CollectTypes(b), annotate, ns)
    requires Inhabited(a, annotate, ns)
    ensures Reordered(a, order) && Held(PlaceAt(Assembled(order, annotate, same).value, ns)) == Some(m)
    ensures HoldsAll(m, Insertions(a, annotate), ns, same) && v.Obj? && Extends(AsMap(v.entries), m)
  {
    var s, roots := Leaver(a, b, annotate, ns, v);
    order := RootBefore(roots, s, Named(b));
    BuiltPlaces(order, annotate, same, ns);
    ReorderedInsertions(a, b, annotate);
    m := InsertedHolds(PlaceAt(Assembled(order, annotate, same).value, ns), roots, s, b, CollectTypes(b), annotate, ns, v, same);
  }

  lemma MustFit(a: seq<Schema>, b: seq<Schema>, annotate: Annotate, same: (Json, Json) -> bool, ns: string, v: Json)
    requires Equivalence(same) && AlwaysBuilds(a, annotate, same) && OrderIndependent(a, annotate, same)
    requires Reordered(a, b) && Inhabited(a, annotate, ns) && v in Leavings(a, CollectTypes(b), annotate, ns)
    ensures Fitting(v, Insertions(a, annotate), ns, same)
  {
    var last := ShowsLast(a, b, annotate, same, ns, v);
    var order, m := ShowsBefore(a, b, annotate, same, ns, v);
    var t, u := Assembled(last, annotate, same).value, Assembled(order, annotate, same).value;
    assert SameResult(a, Assembled(last, annotate, same), Assembled(order, annotate, same), annotate, same);
    assert AgreeAt(t, u, ns, same);
    assert SameMap(AsMap(v.entries), m, same);
  }

  lemma MustFitWith(a: seq<Schema>, b: seq<Schema>, c: seq<Schema>, annotate: Annotate, same: (Json, Json) -> bool, ns: string, v: Json)
    requires Equivalence(same) && AlwaysBuilds(a, annotate, same) && OrderIndependent(a, annotate, same)
    requires Consistent(Insertions(a, annotate), same) && Reordered(a, b) && Reordered(a, c)
    requires Inhabited(a, annotate, ns) && v in Leavings(a, CollectTypes(b), annotate, ns)
    ensures FitsWith(v, Leavings(a, CollectTypes(c), annotate, ns), Insertions(a, annotate), ns, same)
  {
    MustFit(a, b, annotate, same, ns, v);
    forall w | w in Leavings(a, CollectTypes(c), annotate, ns) ensures w.Obj? && SameMap(AsMap(v.entries), AsMap(w.entries), same) {
      MustFitEach(a, b, c, annotate, same, ns, v, w);
    }
    if Leavings(a, CollectTypes(c), annotate, ns) == iset{} {
      MustFitAlone(a, b, c, annotate, same, ns, v);
    }
  }

  lemma MustFitEach(a: seq<Schema>, b: seq<Schema>, c: seq<Schema>, annotate: Annotate, same: (Json, Json) -> bool, ns: string, v: Json, w: Json)
    requires Equivalence(same) && AlwaysBuilds(a, annotate, same) && OrderIndependent(a, annotate, same)
    requires Reordered(a, b) && Reordered(a, c) && Inhabited(a, annotate, ns)
    requires v in Leavings(a, CollectTypes(b), annotate, ns) && w in Leavings(a, CollectTypes(c), annotate, ns)
    ensures v.Obj? && w.Obj? && SameMap(AsMap(v.entries), AsMap(w.entries), same)
  {
    MustFit(a, b, annotate, same, ns, v);
    MustFit(a, c, annotate, same, ns, w);
    var last := ShowsLast(a, b, annotate, same, ns, v);
    var end := ShowsLast(a, c, annotate, same, ns, w);
    AgreedSlots(a, last, end, annotate, same, ns);
  }

  /** In an order that leaves nothing at the root the namespace is just its insertions. */
  lemma PlaceAlone(a: seq<Schema>, c: seq<Schema>, annotate: Annotate, same: (Json, Json) -> bool, ns: string) returns (m: map<string, Json>)
    requires Equivalence(same) && AlwaysBuilds(a, annotate, same) && Consistent(Insertions(a, annotate), same) && Reordered(a, c)
    requires Inhabited(a, annotate, ns) && Leavings(a, CollectTypes(c), annotate, ns) == iset{}
    ensures var p := PlaceAt(Assembled(c, annotate, same).value, ns);
            p.Taken? && Held(p) == Some(m) && Collected(m, Insertions(c, annotate), ns, same)
  {
    var o := OrderComes(a, c, annotate, ns, same);
    BuiltPlaces(c, annotate, same, ns);
    ReorderedInsertions(a, c, annotate);
    ComesTaken(o, PlaceOf(c, CollectTypes(c), annotate, ns, same), iset{}, Insertions(c, annotate), Insertions(a, annotate), ns, same);
    m := o.m;
  }

  lemma MustFitAlone(a: seq<Schema>, b: seq<Schema>, c: seq<Schema>, annotate: Annotate, same: (Json, Json) -> bool, ns: string, v: Json)
    requires Equivalence(same) && AlwaysBuilds(a, annotate, same) && OrderIndependent(a, annotate, same)
    requires Consistent(Insertions(a, annotate), same) && Reordered(a, b) && Reordered(a, c) && Inhabited(a, annotate, ns)
    requires v in Leavings(a, CollectTypes(b), annotate, ns) && Leavings(a, CollectTypes(c), annotate, ns) == iset{}
    requires Fitting(v, Insertions(a, annotate), ns, same)
    ensures NothingElse(AsMap(v.entries), Insertions(a, annotate), ns)
  {
    var last := ShowsLast(a, b, annotate, same, ns, v);
    var m := PlaceAlone(a, c, annotate, same, ns);
    AgreedSlots(a, last, c, annotate, same, ns);
    ReorderedInsertions(a, c, annotate);
    CollectedFits(m, v, Insertions(a, annotate), Insertions(c, annotate), ns, same);
  }

  lemma AgreedSlots(a: seq<Schema>, b: seq<Schema>, c: seq<Schema>, annotate: Annotate, same: (Json, Json) -> bool, ns: string)
    requires AlwaysBuilds(a, annotate, same) && OrderIndependent(a, annotate, same)
    requires Reordered(a, b) && Reordered(a, c) && Inhabited(a, annotate, ns)
    ensures AgreeAt(Assembled(b, annotate, same).value, Assembled(c, annotate, same).value, ns, same)
  {
    assert SameResult(a, Assembled(b, annotate, same), Assembled(c, annotate, same), annotate, same);
  }

  /** The order with the namespaced schemas first. */
  lemma NamedFirst(a: seq<Schema>, roots: seq<Schema>)
    requires AllRoots(roots) && multiset(roots) + multiset(Named(a)) == multiset(a)
    ensures Reordered(a, Named(a) + roots)
  {
  }

  lemma {:induction false} RootsNeverRefuse(p: Place, roots: seq<Schema>, types: Types, annotate: Annotate,
                                            ns: string, same: (Json, Json) -> bool)
    requires AllRoots(roots) && !p.Refused?
    ensures !PutAll(p, AllOps(roots, types, annotate), ns, same).Refused?
  {
    if roots != [] {
      var n := |roots| - 1;
      RootsNeverRefuse(p, roots[..n], types, annotate, ns, same);
      PutAllConcat(p, AllOps(roots[..n], types, annotate), OpsOf(roots[n], types, annotate), ns, same);
      SchemaRoot(roots[n], types, annotate);
      RootOpsLeave(PutAll(p, AllOps(roots[..n], types, annotate), ns, same), OpsOf(roots[n], types, annotate), ns, same);
    }
  }

  ghost predicate NoneRefuses(ops: seq<Op>, same: (Json, Json) -> bool) {
    forall ns :: !PutAll(Free, ops, ns, same).Refused?
  }

  lemma NamedFirstRefuses(a: seq<Schema>, roots: seq<Schema>, types: Types, annotate: Annotate, same: (Json, Json) -> bool)
    requires AllRoots(roots)
    ensures NoneRefuses(AllOps(Named(a) + roots, types, annotate), same) <==> NoneRefuses(NamespaceOps(Insertions(a, annotate)), same)
  {
    NamedOps(a, types, annotate);
    var ops, xs := AllOps(Named(a) + roots, types, annotate), NamespaceOps(Insertions(a, annotate));
    forall ns ensures PutAll(Free, ops, ns, same).Refused? <==> PutAll(Free, xs, ns, same).Refused? {
      PlaceConcat(Named(a), roots, types, annotate, ns, same);
      if !PutAll(Free, xs, ns, same).Refused? {
        RootsNeverRefuse(PutAll(Free, xs, ns, same), roots, types, annotate, ns, same);
      }
    }
  }

  /** With the namespaced schemas first, the build succeeds exactly when their insertions are consistent. */
  lemma NamedFirstBuilds(a: seq<Schema>, annotate: Annotate, same: (Json, Json) -> bool) returns (order: seq<Schema>)
    requires Equivalence(same)
    ensures Reordered(a, order) && (Assembled(order, annotate, same).Some? <==> Consistent(Insertions(a, annotate), same))
  {
    var roots := SplitOff(a);
    NamedFirst(a, roots);
    order := Named(a) + roots;
    var types := CollectTypes(order);
    RunOpsPlaces(AllOps(order, types, annotate), same);
    NamedFirstRefuses(a, roots, types, annotate, same);
    InsertionsAccepted(Insertions(a, annotate), same);
  }

  lemma InsertionsAccepted(xs: seq<Insertion>, same: (Json, Json) -> bool)
    requires Equivalence(same)
    ensures NoneRefuses(NamespaceOps(xs), same) <==> Consistent(xs, same)
  {
    if Consistent(xs, same) {
      forall ns ensures !PutAll(Free, NamespaceOps(xs), ns, same).Refused? {
        assert [] + xs == xs;
        var m := CollectAll(Free, map[], [], xs, ns, same);
      }
    }
    if NoneRefuses(NamespaceOps(xs), same) {
      forall x, y | x in xs && y in xs && x.ns == y.ns && x.name == y.name ensures same(x.value, y.value) {
        assert !PutAll(Free, NamespaceOps(xs), x.ns, same).Refused?;
        var m := HeldGrows(Free, xs, x.ns, same);
        assert same(m[x.name], x.value) && same(m[x.name], y.value);
      }
    }
  }

  // ----- the main results -----

  /**
   * Every order builds, with the same namespaces, if and only if the namespaced insertions are
   * consistent and the roots fit. For consistent insertions the order is irrelevant exactly when
   * the roots fit.
   */
  lemma OrderIndependentExactly(a: seq<Schema>, annotate: Annotate, same: (Json, Json) -> bool)
    requires Equivalence(same)
    ensures AlwaysBuilds(a, annotate, same) && OrderIndependent(a, annotate, same)
       <==> Consistent(Insertions(a, annotate), same) && RootsFit(a, annotate, same)
    ensures Consistent(Insertions(a, annotate), same) ==> (OrderIndependent(a, annotate, same) <==> RootsFit(a, annotate, same))
  {
    var order := NamedFirstBuilds(a, annotate, same);
    if Consistent(Insertions(a, annotate), same) {
      if RootsFit(a, annotate, same) {
        FittingRootsSuffice(a, annotate, same);
      }
      if OrderIndependent(a, annotate, same) {
        forall b | Reordered(a, b) ensures Assembled(b, annotate, same).Some? {
          assert SameResult(a, Assembled(order, annotate, same), Assembled(b, annotate, same), annotate, same);
        }
        FitNecessary(a, annotate, same);
      }
    }
  }

  lemma FitNecessary(a: seq<Schema>, annotate: Annotate, same: (Json, Json) -> bool)
    requires Equivalence(same) && AlwaysBuilds(a, annotate, same) && OrderIndependent(a, annotate, same)
    requires Consistent(Insertions(a, annotate), same)
    ensures RootsFit(a, annotate, same)
  {
    forall b, c | Reordered(a, b) && Reordered(a, c) ensures FitUnder(a, CollectTypes(b), CollectTypes(c), annotate, same) {
      forall ns, v | Inhabited(a, annotate, ns) && v in Leavings(a, CollectTypes(b), annotate, ns)
        ensures FitsWith(v, Leavings(a, CollectTypes(c), annotate, ns), Insertions(a, annotate), ns, same)
      {
        MustFitWith(a, b, c, annotate, same, ns, v);
      }
    }
  }

  /** In particular a value left in a namespace's place that is no object, or lacks a definition, makes the order count. */
  lemma RootNameBreaksOrder(a: seq<Schema>, annotate: Annotate, same: (Json, Json) -> bool, ns: string, v: Json)
    requires Equivalence(same) && Consistent(Insertions(a, annotate), same) && Inhabited(a, annotate, ns)
    requires v in Leavings(a, CollectTypes(a), annotate, ns) && !Fitting(v, Insertions(a, annotate), ns, same)
    ensures !OrderIndependent(a, annotate, same)
  {
    OrderIndependentExactly(a, annotate, same);
    assert Reordered(a, a);
  }

  // ----- which orders build -----

  predicate WritesRoot(op: Op, ns: string) {
    op.ToRoot? && op.name == ns
  }

  /** Nothing has been written at the root under `ns` since the `i`-th operation. */
  predicate Live(ops: seq<Op>, i: nat, ns: string) {
    forall k :: i < k < |ops| ==> !WritesRoot(ops[k], ns)
  }

  /** An insertion agrees with an operation whose effect it meets. */
  predicate Agrees(op: Op, y: Insertion, same: (Json, Json) -> bool) {
    match op
    case ToNamespace(x) => x.ns == y.ns && x.name == y.name ==> same(x.value, y.value)
    case ToRoot(name, v) => name == y.ns ==> v.Obj? && (y.name in AsMap(v.entries) ==> same(AsMap(v.entries)[y.name], y.value))
  }

  /** An insertion agrees with everything in its namespace's place that no root value has wiped since. */
  ghost predicate MeetsWell(ops: seq<Op>, y: Insertion, same: (Json, Json) -> bool) {
    forall i :: 0 <= i < |ops| && Live(ops, i, y.ns) ==> Agrees(ops[i], y, same)
  }

  ghost predicate AllMeetWell(ops: seq<Op>, ns: string, same: (Json, Json) -> bool) {
    forall j :: 0 <= j < |ops| && ops[j].ToNamespace? && ops[j].x.ns == ns ==> MeetsWell(ops[..j], ops[j].x, same)
  }

  /** What an operation puts under a name of `ns`. */
  function PutsUnder(op: Op, ns: string, name: string): Option<Json> {
    match op
    case ToNamespace(x) => if x.ns == ns && x.name == name then Some(x.value) else None
    case ToRoot(n, Obj(entries)) => if n == ns && name in AsMap(entries) then Some(AsMap(entries)[name]) else None
    case _ => None
  }

  /** The place holds what the live operations put there, up to equality, and nothing else. */
  ghost predicate Reflects(p: Place, ops: seq<Op>, ns: string, same: (Json, Json) -> bool) {
    && !p.Refused?
    && (Held(p).None? ==> exists i :: 0 <= i < |ops| && Live(ops, i, ns) && WritesRoot(ops[i], ns) && !ops[i].value.Obj?)
    && (Held(p).Some? ==> HoldsLive(Held(p).value, ops, ns, same))
  }

  ghost predicate HoldsLive(m: map<string, Json>, ops: seq<Op>, ns: string, same: (Json, Json) -> bool) {
    ObjectsOnly(ops, ns) && Covers(m, ops, ns, same) && Sourced(m, ops, ns)
  }

  ghost predicate ObjectsOnly(ops: seq<Op>, ns: string) {
    forall i :: 0 <= i < |ops| && Live(ops, i, ns) && WritesRoot(ops[i], ns) ==> ops[i].value.Obj?
  }

  ghost predicate Covers(m: map<string, Json>, ops: seq<Op>, ns: string, same: (Json, Json) -> bool) {
    forall i :: 0 <= i < |ops| && Live(ops, i, ns) ==> CoversOne(m, ops[i], ns, same)
  }

  ghost predicate CoversOne(m: map<string, Json>, op: Op, ns: string, same: (Json, Json) -> bool) {
    forall name :: PutsUnder(op, ns, name).Some? ==> name in m && same(m[name], PutsUnder(op, ns, name).value)
  }

  ghost predicate Sourced(m: map<string, Json>, ops: seq<Op>, ns: string) {
    forall name :: name in m ==> PutBySome(ops, ns, name, m[name])
  }

  ghost predicate PutBySome(ops: seq<Op>, ns: string, name: string, v: Json) {
    exists i :: 0 <= i < |ops| && Live(ops, i, ns) && PutsUnder(ops[i], ns, name) == Some(v)
  }

  lemma LiveNext(ops: seq<Op>, op: Op, ns: string)
    ensures Live(ops + [op], |ops|, ns)
    ensures forall i :: 0 <= i < |ops| ==> (Live(ops + [op], i, ns) <==> Live(ops, i, ns) && !WritesRoot(op, ns))
  {
    var all := ops + [op];
    forall i | 0 <= i < |ops| ensures Live(all, i, ns) <==> Live(ops, i, ns) && !WritesRoot(op, ns) {
      if Live(all, i, ns) {
        assert all[|ops|] == op;
        assert forall k :: i < k < |ops| ==> all[k] == ops[k];
      }
    }
  }

  lemma PutByLast(ops: seq<Op>, op: Op, ns: string, name: string, v: Json)
    requires PutsUnder(op, ns, name) == Some(v)
    ensures PutBySome(ops + [op], ns, name, v)
  {
    LiveNext(ops, op, ns);
    assert (ops + [op])[|ops|] == op;
  }

  /** A root value wipes everything before it. */
  lemma RootReflected(ops: seq<Op>, v: Json, ns: string, same: (Json, Json) -> bool)
    requires Equivalence(same)
    ensures Reflects(Taken(Root(v)), ops + [ToRoot(ns, v)], ns, same)
  {
    var op := ToRoot(ns, v);
    var all := ops + [op];
    LiveNext(ops, op, ns);
    assert all[|ops|] == op && forall i :: 0 <= i < |all| && Live(all, i, ns) ==> i == |ops|;
    if v.Obj? {
      forall name | name in AsMap(v.entries) ensures PutBySome(all, ns, name, AsMap(v.entries)[name]) {
        PutByLast(ops, op, ns, name, AsMap(v.entries)[name]);
      }
    }
  }

  lemma ObjectsNext(ops: seq<Op>, op: Op, ns: string)
    requires ObjectsOnly(ops, ns) && !WritesRoot(op, ns)
    ensures ObjectsOnly(ops + [op], ns)
  {
    LiveNext(ops, op, ns);
  }

  lemma CoversNext(m: map<string, Json>, n: map<string, Json>, ops: seq<Op>, op: Op, ns: string, same: (Json, Json) -> bool)
    requires Covers(m, ops, ns, same) && Extends(m, n) && CoversOne(n, op, ns, same) && !WritesRoot(op, ns)
    ensures Covers(n, ops + [op], ns, same)
  {
    var all := ops + [op];
    LiveNext(ops, op, ns);
    forall i | 0 <= i < |all| && Live(all, i, ns) ensures CoversOne(n, all[i], ns, same) {
      if i < |ops| {
        assert all[i] == ops[i] && CoversOne(m, ops[i], ns, same);
      }
    }
  }

  lemma PutBySomeNext(ops: seq<Op>, op: Op, ns: string, name: string, v: Json)
    requires PutBySome(ops, ns, name, v) && !WritesRoot(op, ns)
    ensures PutBySome(ops + [op], ns, name, v)
  {
    var i :| 0 <= i < |ops| && Live(ops, i, ns) && PutsUnder(ops[i], ns, name) == Some(v);
    LiveNext(ops, op, ns);
    assert (ops + [op])[i] == ops[i];
  }

  lemma SourcedNext(m: map<string, Json>, ops: seq<Op>, op: Op, ns: string)
    requires Sourced(m, ops, ns) && !WritesRoot(op, ns)
    ensures Sourced(m, ops + [op], ns)
  {
    forall name | name in m ensures PutBySome(ops + [op], ns, name, m[name]) {
      PutBySomeNext(ops, op, ns, name, m[name]);
    }
  }

  /** An operation about another name changes nothing. */
  lemma OtherReflected(p: Place, ops: seq<Op>, op: Op, ns: string, same: (Json, Json) -> bool)
    requires Reflects(p, ops, ns, same) && !WritesRoot(op, ns) && (op.ToNamespace? ==> op.x.ns != ns)
    ensures Reflects(p, ops + [op], ns, same)
  {
    if Held(p).None? {
      var i :| 0 <= i < |ops| && Live(ops, i, ns) && WritesRoot(ops[i], ns) && !ops[i].value.Obj?;
      LiveNext(ops, op, ns);
      assert (ops + [op])[i] == ops[i];
    } else {
      var m := Held(p).value;
      ObjectsNext(ops, op, ns);
      CoversNext(m, m, ops, op, ns, same);
      SourcedNext(m, ops, op, ns);
    }
  }

  /** Against a place that reflects the live operations, an insertion is accepted exactly when it agrees with them. */
  lemma AcceptedExactly(m: map<string, Json>, ops: seq<Op>, y: Insertion, same: (Json, Json) -> bool)
    requires Equivalence(same) && HoldsLive(m, ops, y.ns, same)
    ensures (y.name in m ==> same(m[y.name], y.value)) <==> MeetsWell(ops, y, same)
  {
    if y.name in m ==> same(m[y.name], y.value) {
      forall i | 0 <= i < |ops| && Live(ops, i, y.ns) ensures Agrees(ops[i], y, same) {
        CoveredAgrees(m, ops[i], y, same);
      }
    } else {
      assert PutBySome(ops, y.ns, y.name, m[y.name]);
      var i :| 0 <= i < |ops| && Live(ops, i, y.ns) && PutsUnder(ops[i], y.ns, y.name) == Some(m[y.name]);
      assert !Agrees(ops[i], y, same);
    }
  }

  lemma CoveredAgrees(m: map<string, Json>, op: Op, y: Insertion, same: (Json, Json) -> bool)
    requires Equivalence(same) && CoversOne(m, op, y.ns, same) && (y.name in m ==> same(m[y.name], y.value))
    requires WritesRoot(op, y.ns) ==> op.value.Obj?
    ensures Agrees(op, y, same)
  {
    if PutsUnder(op, y.ns, y.name).Some? {
      assert same(m[y.name], PutsUnder(op, y.ns, y.name).value);
    }
  }

  lemma InsertionReflected(m: map<string, Json>, ops: seq<Op>, y: Insertion, same: (Json, Json) -> bool)
    requires Equivalence(same) && HoldsLive(m, ops, y.ns, same) && (y.name in m ==> same(m[y.name], y.value))
    ensures HoldsLive(if y.name in m then m else m[y.name := y.value], ops + [ToNamespace(y)], y.ns, same)
  {
    var op, m' := ToNamespace(y), if y.name in m then m else m[y.name := y.value];
    ObjectsNext(ops, op, y.ns);
    CoversNext(m, m', ops, op, y.ns, same);
    SourcedNext(m, ops, op, y.ns);
    forall name | name in m' ensures PutBySome(ops + [op], y.ns, name, m'[name]) {
      if name !in m {
        PutByLast(ops, op, y.ns, name, m'[name]);
      }
    }
  }

  lemma PutReflected(p: Place, ops: seq<Op>, y: Insertion, same: (Json, Json) -> bool)
    requires Equivalence(same) && Reflects(p, ops, y.ns, same)
    ensures var q := Put(p, ToNamespace(y), y.ns, same);
            (q.Refused? <==> !MeetsWell(ops, y, same)) && (!q.Refused? ==> Reflects(q, ops + [ToNamespace(y)], y.ns, same))
  {
    if Held(p).None? {
      var i :| 0 <= i < |ops| && Live(ops, i, y.ns) && WritesRoot(ops[i], y.ns) && !ops[i].value.Obj?;
      assert !Agrees(ops[i], y, same);
    } else {
      var m := Held(p).value;
      AcceptedExactly(m, ops, y, same);
      if y.name in m ==> same(m[y.name], y.value) {
        InsertionReflected(m, ops, y, same);
      }
    }
  }

  lemma AllMeetNext(ops: seq<Op>, op: Op, ns: string, same: (Json, Json) -> bool)
    ensures AllMeetWell(ops + [op], ns, same)
       <==> AllMeetWell(ops, ns, same) && (op.ToNamespace? && op.x.ns == ns ==> MeetsWell(ops, op.x, same))
  {
    var all := ops + [op];
    assert all[..|ops|] == ops && all[|ops|] == op;
    forall j | 0 <= j < |ops| ensures all[j] == ops[j] && all[..j] == ops[..j] {
    }
  }

  /** A place refuses nothing exactly when every insertion into it agrees with what it meets. */
  lemma {:induction false} PlaceBuilds(ops: seq<Op>, ns: string, same: (Json, Json) -> bool)
    requires Equivalence(same)
    ensures var p := PutAll(Free, ops, ns, same);
            (!p.Refused? <==> AllMeetWell(ops, ns, same)) && (!p.Refused? ==> Reflects(p, ops, ns, same))
  {
    if ops != [] {
      var n := |ops| - 1;
      var before, op := ops[..n], ops[n];
      assert ops == before + [op];
      PlaceBuilds(before, ns, same);
      AllMeetNext(before, op, ns, same);
      var p := PutAll(Free, before, ns, same);
      if !p.Refused? {
        if WritesRoot(op, ns) {
          RootReflected(before, op.value, ns, same);
          assert op == ToRoot(ns, op.value);
        } else if op.ToNamespace? && op.x.ns == ns {
          PutReflected(p, before, op.x, same);
        } else {
          OtherReflected(p, before, op, ns, same);
        }
      }
    }
  }

  ghost predicate EveryInsertionAgrees(ops: seq<Op>, same: (Json, Json) -> bool) {
    forall ns :: AllMeetWell(ops, ns, same)
  }

  lemma OpsBuildExactly(ops: seq<Op>, same: (Json, Json) -> bool)
    requires Equivalence(same)
    ensures RunOps(ops, same).Some? <==> EveryInsertionAgrees(ops, same)
  {
    RunOpsPlaces(ops, same);
    forall ns ensures !PutAll(Free, ops, ns, same).Refused? <==> AllMeetWell(ops, ns, same) {
      PlaceBuilds(ops, ns, same);
    }
  }

  /**
   * Whatever the insertions, an order builds if and only if each insertion agrees with every earlier
   * one of the same name, and with every earlier root value in its namespace's place, that no later
   * root value has wiped.
   */
  lemma OrderBuildsExactly(b: seq<Schema>, annotate: Annotate, same: (Json, Json) -> bool)
    requires Equivalence(same)
    ensures Assembled(b, annotate, same).Some? <==> EveryInsertionAgrees(AllOps(b, CollectTypes(b), annotate), same)
  {
    OpsBuildExactly(AllOps(b, CollectTypes(b), annotate), same);
  }

  // ----- when the types do not depend on the order -----

  function Keys(entries: seq<Entry>): set<string> {
    set e | e in entries :: e.key
  }

  /** The type names a schema claims for its namespace. */
  function Claims(g: Generated): set<string> {
    {g.name} + Keys(EntriesUnder(g.value, "definitions")) + Keys(EntriesUnder(g.value, "$defs"))
  }

  /** No type name is claimed by two namespaces. */
  ghost predicate OneHome(a: seq<Schema>) {
    forall g, h, name :: Namespaced(g) in a && Namespaced(h) in a && name in Claims(g) && name in Claims(h) ==> g.ns == h.ns
  }

  /** `types` with `names` claimed for `ns` where nobody has claimed them yet. */
  ghost predicate Claimed(types: Types, names: set<string>, ns: string, types': Types) {
    && types'.Keys == types.Keys + names
    && (forall name :: name in types' ==> types'[name] == if name in types then types[name] else ns)
  }

  lemma {:induction false} KeysClaimed(types: Types, entries: seq<Entry>, ns: string)
    ensures Claimed(types, Keys(entries), ns, ClaimKeys(types, entries, ns))
  {
    if entries != [] {
      var n := |entries| - 1;
      assert entries == entries[..n] + [entries[n]];
      KeysClaimed(types, entries[..n], ns);
      assert Keys(entries) == Keys(entries[..n]) + {entries[n].key};
    }
  }

  lemma ClaimedTwice(a: Types, names: set<string>, b: Types, more: set<string>, c: Types, ns: string)
    requires Claimed(a, names, ns, b) && Claimed(b, more, ns, c)
    ensures Claimed(a, names + more, ns, c)
  {
  }

  lemma KeysClaimedTwice(types: Types, name: string, d: seq<Entry>, e: seq<Entry>, ns: string)
    ensures Claimed(types, {name} + Keys(d) + Keys(e), ns, ClaimKeys(ClaimKeys(Claim(types, name, ns), d, ns), e, ns))
  {
    var first := Claim(types, name, ns);
    var second := ClaimKeys(first, d, ns);
    KeysClaimed(first, d, ns);
    KeysClaimed(second, e, ns);
    ClaimedTwice(types, {name}, first, Keys(d), second, ns);
    ClaimedTwice(types, {name} + Keys(d), second, Keys(e), ClaimKeys(second, e, ns), ns);
  }

  lemma SchemaClaims(schemas: seq<Schema>, g: Generated)
    ensures Claimed(CollectTypes(schemas), Claims(g), g.ns, CollectTypes(schemas + [Namespaced(g)]))
  {
    assert (schemas + [Namespaced(g)])[..|schemas|] == schemas;
    KeysClaimedTwice(CollectTypes(schemas), g.name, EntriesUnder(g.value, "definitions"), EntriesUnder(g.value, "$defs"), g.ns);
  }

  ghost predicate ClaimedBy(schemas: seq<Schema>, name: string, ns: string) {
    exists g :: Namespaced(g) in schemas && name in Claims(g) && g.ns == ns
  }

  lemma ClaimedByNext(schemas: seq<Schema>, s: Schema, name: string, ns: string)
    ensures ClaimedBy(schemas + [s], name, ns)
       <==> ClaimedBy(schemas, name, ns) || (s.Namespaced? && name in Claims(s.g) && s.g.ns == ns)
  {
    if ClaimedBy(schemas, name, ns) {
      var g :| Namespaced(g) in schemas && name in Claims(g) && g.ns == ns;
      assert Namespaced(g) in schemas + [s];
    }
    if s.Namespaced? && name in Claims(s.g) && s.g.ns == ns {
      assert Namespaced(s.g) == s && s in schemas + [s];
    }
  }

  lemma {:induction false} TypesClaimed(schemas: seq<Schema>, name: string)
    ensures name in CollectTypes(schemas) ==> ClaimedBy(schemas, name, CollectTypes(schemas)[name])
    ensures name !in CollectTypes(schemas) ==> forall ns :: !ClaimedBy(schemas, name, ns)
  {
    if schemas != [] {
      var n := |schemas| - 1;
      var before, s := schemas[..n], schemas[n];
      assert schemas == before + [s];
      TypesClaimed(before, name);
      if s.Namespaced? {
        SchemaClaims(before, s.g);
      } else {
        TypesNext(before, s);
      }
      forall ns
        ensures ClaimedBy(schemas, name, ns)
           <==> ClaimedBy(before, name, ns) || (s.Namespaced? && name in Claims(s.g) && s.g.ns == ns)
      {
        ClaimedByNext(before, s, name, ns);
      }
    }
  }

  lemma ClaimStays(before: seq<Schema>, s: Schema, name: string, ns: string)
    requires name in CollectTypes(before) && CollectTypes(before)[name] == ns
    ensures name in CollectTypes(before + [s]) && CollectTypes(before + [s])[name] == ns
  {
    if s.Namespaced? {
      SchemaClaims(before, s.g);
    } else {
      TypesNext(before, s);
    }
  }

  /** What is claimed first stays claimed. */
  lemma {:induction false} FirstClaimStays(g: Generated, rest: seq<Schema>, name: string)
    requires name in Claims(g)
    ensures name in CollectTypes([Namespaced(g)] + rest) && CollectTypes([Namespaced(g)] + rest)[name] == g.ns
    decreases rest
  {
    if rest == [] {
      assert [Namespaced(g)] + rest == [] + [Namespaced(g)];
      SchemaClaims([], g);
    } else {
      var n := |rest| - 1;
      FirstClaimStays(g, rest[..n], name);
      ClaimStays([Namespaced(g)] + rest[..n], rest[n], name, g.ns);
      assert [Namespaced(g)] + rest == [Namespaced(g)] + rest[..n] + [rest[n]];
    }
  }

  lemma MoveToFront(a: seq<Schema>, s: Schema) returns (rest: seq<Schema>)
    requires s in a
    ensures Reordered(a, [s] + rest)
  {
    var i :| 0 <= i < |a| && a[i] == s;
    rest := a[..i] + a[i + 1..];
    assert a == a[..i] + [s] + a[i + 1..];
  }

  lemma SameClaims(a: seq<Schema>, b: seq<Schema>, name: string)
    requires OneHome(a) && forall s :: s in a <==> s in b
    ensures name in CollectTypes(b) <==> name in CollectTypes(a)
    ensures name in CollectTypes(a) ==> CollectTypes(b)[name] == CollectTypes(a)[name]
  {
    TypesClaimed(a, name);
    TypesClaimed(b, name);
    assert forall ns :: ClaimedBy(a, name, ns) <==> ClaimedBy(b, name, ns);
  }

  lemma OneHomeStable(a: seq<Schema>, b: seq<Schema>)
    requires OneHome(a) && Reordered(a, b)
    ensures CollectTypes(b) == CollectTypes(a)
  {
    ReorderedMembers(a, b);
    forall name
      ensures name in CollectTypes(b) <==> name in CollectTypes(a)
      ensures name in CollectTypes(a) ==> CollectTypes(b)[name] == CollectTypes(a)[name]
    {
      SameClaims(a, b, name);
    }
  }

  lemma TwoHomesUnstable(a: seq<Schema>, g: Generated, h: Generated, name: string) returns (b: seq<Schema>, c: seq<Schema>)
    requires Namespaced(g) in a && Namespaced(h) in a && name in Claims(g) && name in Claims(h) && g.ns != h.ns
    ensures Reordered(a, b) && Reordered(a, c) && CollectTypes(b) != CollectTypes(c)
  {
    var p := MoveToFront(a, Namespaced(g));
    var q := MoveToFront(a, Namespaced(h));
    FirstClaimStays(g, p, name);
    FirstClaimStays(h, q, name);
    b, c := [Namespaced(g)] + p, [Namespaced(h)] + q;
  }

  /** The types are the same in every order exactly when no name is claimed by two namespaces. */
  lemma TypesStableExactly(a: seq<Schema>)
    ensures (forall b :: Reordered(a, b) ==> CollectTypes(b) == CollectTypes(a)) <==> OneHome(a)
  {
    if OneHome(a) {
      forall b | Reordered(a, b) ensures CollectTypes(b) == CollectTypes(a) {
        OneHomeStable(a, b);
      }
    } else {
      var g, h, name :| Namespaced(g) in a && Namespaced(h) in a && name in Claims(g) && name in Claims(h) && g.ns != h.ns;
      var b, c := TwoHomesUnstable(a, g, h, name);
    }
  }

  /** Then the condition is about one set of root values. */
  lemma OneHomeExactly(a: seq<Schema>, annotate: Annotate, same: (Json, Json) -> bool)
    requires Equivalence(same) && OneHome(a)
    ensures AlwaysBuilds(a, annotate, same) && OrderIndependent(a, annotate, same)
       <==> Consistent(Insertions(a, annotate), same) && FitUnder(a, CollectTypes(a), CollectTypes(a), annotate, same)
  {
    OrderIndependentExactly(a, annotate, same);
    TypesStableExactly(a);
    assert Reordered(a, a);
  }

  // ----- two schemas whose order counts -----

  const MEMBER := Generated("v2", "A", Bool(true))

  lemma ExampleOps(v: Json, types: Types, annotate: Annotate)
    requires v == Bool(true) || v == Obj([])
    ensures OpsOf(Unnamespaced("v2", v, false), types, annotate) == [ToRoot("v2", v)]
    ensures OpsOf(Namespaced(MEMBER), types, annotate) == [ToNamespace(Insertion("v2", "A", Bool(true)))]
  {
    assert |"v2"| != |IGNORED[0]| && |"A"| != |IGNORED[0]|;
    assert RewriteKnown(v, types) == v && Definitions(v) == [] && Remainder(v) == v;
    assert Contributions(MEMBER, annotate) == [Insertion("v2", "A", Bool(true))];
  }

  lemma TwoSchemas(s: Schema, t: Schema, p: Op, q: Op, types: Types, annotate: Annotate)
    requires OpsOf(s, types, annotate) == [p] && OpsOf(t, types, annotate) == [q]
    ensures AllOps([s, t], types, annotate) == [p, q]
  {
    AllOpsNext([], s, types, annotate);
    AllOpsNext([s], t, types, annotate);
    assert [] + [s] == [s] && [s] + [t] == [s, t];
  }

  lemma RunTwo(p: Op, q: Op, same: (Json, Json) -> bool)
    ensures RunOps([p, q], same) == match Apply(map[], p, same) case Some(table) => Apply(table, q, same) case None => None
  {
    RunOpsSnoc([], p, same);
    RunOpsSnoc([p], q, same);
    assert [] + [p] == [p] && [p] + [q] == [p, q];
  }

  lemma TwoOps(s: Schema, t: Schema, p: Op, q: Op, types: Types, annotate: Annotate, same: (Json, Json) -> bool)
    requires OpsOf(s, types, annotate) == [p] && OpsOf(t, types, annotate) == [q]
    ensures RunOps(AllOps([s, t], types, annotate), same)
         == match Apply(map[], p, same) case Some(table) => Apply(table, q, same) case None => None
  {
    TwoSchemas(s, t, p, q, types, annotate);
    RunTwo(p, q, same);
  }

  /** A root value that is no object: the build fails if it comes first. */
  lemma RootValueExample(annotate: Annotate, same: (Json, Json) -> bool)
    ensures Assembled([Unnamespaced("v2", Bool(true), false), Namespaced(MEMBER)], annotate, same).None?
    ensures Assembled([Namespaced(MEMBER), Unnamespaced("v2", Bool(true), false)], annotate, same).Some?
  {
    var s, t, x := Unnamespaced("v2", Bool(true), false), Namespaced(MEMBER), Insertion("v2", "A", Bool(true));
    forall types ensures OpsOf(s, types, annotate) == [ToRoot("v2", Bool(true))] && OpsOf(t, types, annotate) == [ToNamespace(x)] {
      ExampleOps(Bool(true), types, annotate);
    }
    TwoOps(s, t, ToRoot("v2", Bool(true)), ToNamespace(x), CollectTypes([s, t]), annotate, same);
    TwoOps(t, s, ToNamespace(x), ToRoot("v2", Bool(true)), CollectTypes([t, s]), annotate, same);
  }

  /** A root object: both orders build, and the namespace is wiped if the object comes last. */
  lemma RootObjectExample(annotate: Annotate, same: (Json, Json) -> bool)
    ensures var s, t := Unnamespaced("v2", Obj([]), false), Namespaced(MEMBER);
            && Assembled([s, t], annotate, same) == Some(map["v2" := Names(map["A" := Bool(true)])])
            && Assembled([t, s], annotate, same) == Some(map["v2" := Root(Obj([]))])
  {
    var s, t, x := Unnamespaced("v2", Obj([]), false), Namespaced(MEMBER), Insertion("v2", "A", Bool(true));
    forall types ensures OpsOf(s, types, annotate) == [ToRoot("v2", Obj([]))] && OpsOf(t, types, annotate) == [ToNamespace(x)] {
      ExampleOps(Obj([]), types, annotate);
    }
    var wiped: Table := map["v2" := Root(Obj([]))];
    var filled: Table := map["v2" := Names(map["A" := Bool(true)])];
    assert Apply(map[], ToRoot("v2", Obj([])), same) == Some(wiped);
    assert IntoSlot(Some(wiped["v2"]), x, same) == Some(Names(map["A" := Bool(true)]));
    assert wiped["v2" := filled["v2"]] == filled && filled["v2" := wiped["v2"]] == wiped;
    assert Apply(wiped, ToNamespace(x), same) == Some(filled);
    assert Apply(map[], ToNamespace(x), same) == Some(filled);
    TwoOps(s, t, ToRoot("v2", Obj([])), ToNamespace(x), CollectTypes([s, t]), annotate, same);
    TwoOps(t, s, ToNamespace(x), ToRoot("v2", Obj([])), CollectTypes([t, s]), annotate, same);
  }

  lemma RunOpsSnoc(ops: seq<Op>, op: Op, same: (Json, Json) -> bool)
    ensures RunOps(ops + [op], same) == match RunOps(ops, same) case Some(table) => Apply(table, op, same) case None => None
  {
    assert (ops + [op])[..|ops|] == ops;
  }

  lemma OneOpMore(schemas: seq<Schema>, s: Schema, op: Op, types: Types, annotate: Annotate, same: (Json, Json) -> bool)
    requires OpsOf(s, types, annotate) == [op]
    ensures RunOps(AllOps(schemas + [s], types, annotate), same)
         == match RunOps(AllOps(schemas, types, annotate), same) case Some(table) => Apply(table, op, same) case None => None
  {
    AllOpsNext(schemas, s, types, annotate);
    RunOpsSnoc(AllOps(schemas, types, annotate), op, same);
  }

  const RIVAL := Generated("v2", "A", Bool(false))

  lemma RivalOps(types: Types, annotate: Annotate)
    ensures OpsOf(Namespaced(RIVAL), types, annotate) == [ToNamespace(Insertion("v2", "A", Bool(false)))]
  {
    assert |"A"| != |IGNORED[0]|;
    assert Contributions(RIVAL, annotate) == [Insertion("v2", "A", Bool(false))];
  }

  const TRUE_OP := ToNamespace(Insertion("v2", "A", Bool(true)))
  const FALSE_OP := ToNamespace(Insertion("v2", "A", Bool(false)))
  const WIPE := ToRoot("v2", Obj([]))

  lemma WipeOps(same: (Json, Json) -> bool)
    requires !same(Bool(true), Bool(false))
    ensures var filled: Table, wiped: Table := map["v2" := Names(map["A" := Bool(true)])], map["v2" := Root(Obj([]))];
            && Apply(map[], TRUE_OP, same) == Some(filled) && Apply(filled, FALSE_OP, same) == None
            && Apply(filled, WIPE, same) == Some(wiped) && Apply(wiped, FALSE_OP, same).Some?
  {
    var filled: Table, wiped: Table := map["v2" := Names(map["A" := Bool(true)])], map["v2" := Root(Obj([]))];
    assert filled["v2" := Root(Obj([]))] == wiped;
  }

  lemma ExampleSchemas(types: Types, annotate: Annotate)
    ensures OpsOf(Namespaced(MEMBER), types, annotate) == [TRUE_OP] && OpsOf(Namespaced(RIVAL), types, annotate) == [FALSE_OP]
    ensures OpsOf(Unnamespaced("v2", Obj([]), false), types, annotate) == [WIPE]
  {
    ExampleOps(Obj([]), types, annotate);
    RivalOps(types, annotate);
  }

  lemma ThreeOps(s: Schema, t: Schema, u: Schema, p: Op, q: Op, r: Op, types: Types, annotate: Annotate, same: (Json, Json) -> bool)
    requires OpsOf(s, types, annotate) == [p] && OpsOf(t, types, annotate) == [q] && OpsOf(u, types, annotate) == [r]
    requires Apply(map[], p, same).Some?
    ensures RunOps(AllOps([s, t, u], types, annotate), same)
         == match Apply(Apply(map[], p, same).value, q, same) case Some(table) => Apply(table, r, same) case None => None
  {
    TwoOps(s, t, p, q, types, annotate, same);
    OneOpMore([s, t], u, r, types, annotate, same);
    assert [s, t] + [u] == [s, t, u];
  }

  /** Two schemas that contradict each other build with a root object between them, and not with it after them. */
  lemma WipedBetweenExample(annotate: Annotate, same: (Json, Json) -> bool)
    requires !same(Bool(true), Bool(false))
    ensures var s, t, u := Namespaced(MEMBER), Unnamespaced("v2", Obj([]), false), Namespaced(RIVAL);
            Assembled([s, t, u], annotate, same).Some? && Assembled([s, u, t], annotate, same).None?
  {
    var s, t, u := Namespaced(MEMBER), Unnamespaced("v2", Obj([]), false), Namespaced(RIVAL);
    var first, second := CollectTypes([s, t, u]), CollectTypes([s, u, t]);
    WipeOps(same);
    ExampleSchemas(first, annotate);
    ExampleSchemas(second, annotate);
    ThreeOps(s, t, u, TRUE_OP, WIPE, FALSE_OP, first, annotate, same);
    ThreeOps(s, u, t, TRUE_OP, FALSE_OP, WIPE, second, annotate, same);
  }
}
