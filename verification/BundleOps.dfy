/** What each schema puts where in the bundle, read off the schema itself. */
module BundleOps {
  import opened Text
  import opened Sequences
  import opened Json
  import opened SchemaRefs
  import opened SchemaBundle
  import opened MixedBundle
  import opened MixedOrder
  import opened BundleRefs

  // ----- whose a type name is -----

  /** The value holds an object under `key` with a member of that name. */
  ghost predicate Defines(v: Json, key: string, name: string) {
    exists defs, d :: v.Obj? && Get(v.entries, key) == Some(Obj(defs)) && Entry(name, d) in defs
  }

  /** A namespaced schema claims its own name and those of its definitions, under either spelling. */
  ghost predicate ClaimsName(s: Schema, name: string) {
    s.Namespaced? && (name == s.g.name || Defines(s.g.value, "definitions", name) || Defines(s.g.value, "$defs", name))
  }

  lemma KeysDefine(v: Json, key: string, name: string)
    ensures name in Keys(EntriesUnder(v, key)) <==> Defines(v, key, name)
  {
    if name in Keys(EntriesUnder(v, key)) {
      var e :| e in EntriesUnder(v, key) && e.key == name;
      assert e == Entry(name, e.value);
      assert Get(v.entries, key) == Some(Obj(EntriesUnder(v, key)));
    }
    if Defines(v, key, name) {
      var defs, d :| v.Obj? && Get(v.entries, key) == Some(Obj(defs)) && Entry(name, d) in defs;
      assert EntriesUnder(v, key) == defs && Entry(name, d).key == name;
    }
  }

  lemma ClaimsExactly(g: Generated, name: string)
    ensures name in Claims(g) <==> ClaimsName(Namespaced(g), name)
  {
    KeysDefine(g.value, "definitions", name);
    KeysDefine(g.value, "$defs", name);
  }

  lemma CollectStep(schemas: seq<Schema>, s: Schema, name: string)
    ensures var before, after := CollectTypes(schemas), CollectTypes(schemas + [s]);
            && (name in after <==> name in before || ClaimsName(s, name))
            && (name in after ==> after[name] == if name in before then before[name] else s.g.ns)
  {
    assert (schemas + [s])[..|schemas|] == schemas;
    if s.Namespaced? {
      SchemaClaims(schemas, s.g);
      ClaimsExactly(s.g, name);
    }
  }

  /** A name belongs to the namespace of the first schema that claims it, and to none if no schema does. */
  lemma {:induction false} TypesExactly(schemas: seq<Schema>, name: string)
    ensures (forall k :: 0 <= k < |schemas| ==> !ClaimsName(schemas[k], name)) ==> name !in CollectTypes(schemas)
    ensures forall k :: 0 <= k < |schemas| && ClaimsName(schemas[k], name) && (forall j :: 0 <= j < k ==> !ClaimsName(schemas[j], name)) ==>
      name in CollectTypes(schemas) && CollectTypes(schemas)[name] == schemas[k].g.ns
  {
    if schemas != [] {
      var n := |schemas| - 1;
      var before := schemas[..n];
      assert schemas == before + [schemas[n]];
      TypesExactly(before, name);
      CollectStep(before, schemas[n], name);
      forall k | 0 <= k < |schemas| && ClaimsName(schemas[k], name) && (forall j :: 0 <= j < k ==> !ClaimsName(schemas[j], name))
        ensures name in CollectTypes(schemas) && CollectTypes(schemas)[name] == schemas[k].g.ns
      {
        if k < n {
          assert before[k] == schemas[k];
        }
      }
      assert forall k :: 0 <= k < n ==> before[k] == schemas[k];
    }
  }

  /** A root object taken for the map of a namespace holds its members under their keys. */
  lemma {:induction false} AsMapExactly(entries: seq<Entry>, key: string)
    requires UniqueKeys(entries)
    ensures key in AsMap(entries) <==> Get(entries, key).Some?
    ensures key in AsMap(entries) ==> Get(entries, key) == Some(AsMap(entries)[key])
  {
    if entries != [] {
      var n := |entries| - 1;
      assert entries == entries[..n] + [entries[n]];
      AsMapExactly(entries[..n], key);
      if Get(entries, key).Some? {
        var e := Entry(key, Get(entries, key).value);
        if e in entries[..n] {
          GetMember(entries[..n], e);
        }
      }
      if Get(entries[..n], key).Some? {
        GetMember(entries, Entry(key, Get(entries[..n], key).value));
      }
      GetMember(entries, entries[n]);
    }
  }

  // ----- schemas without a namespace -----

  /** A definition of such a schema moves if its name, or that name without its final digits, belongs to a namespace. */
  predicate Belongs(types: Types, inV1Dir: bool, e: Entry) {
    !inV1Dir && NamespaceFor(e.key, types).Some?
  }

  function StaysAtRoot(types: Types, inV1Dir: bool): Entry -> bool {
    (e: Entry) => Movable(e) && !Belongs(types, inV1Dir, e)
  }

  function LeavesRoot(types: Types, inV1Dir: bool): Entry -> bool {
    (e: Entry) => Movable(e) && Belongs(types, inV1Dir, e)
  }

  function AtRoot(annotate: Annotate): Entry -> Op {
    (e: Entry) => ToRoot(e.key, annotate(e.value, e.key))
  }

  function Home(types: Types): Entry -> (string, string) {
    (e: Entry) => (e.key, match NamespaceFor(e.key, types) case Some(ns) => ns case None => "")
  }

  function Chosen(keep: Entry -> bool, defs: seq<Entry>): seq<Entry> {
    if defs == [] then [] else Chosen(keep, defs[..|defs| - 1]) + if keep(defs[|defs| - 1]) then [defs[|defs| - 1]] else []
  }

  lemma {:induction false} ChosenExactly(keep: Entry -> bool, defs: seq<Entry>)
    ensures Filtered(keep, Chosen(keep, defs), defs)
  {
    if defs == [] {
      FilteredEmpty(keep);
    } else {
      var n := |defs| - 1;
      ChosenExactly(keep, defs[..n]);
      FilteredSnoc(keep, Chosen(keep, defs[..n]), defs[..n], defs[n]);
      assert defs == defs[..n] + [defs[n]];
    }
  }

  lemma {:induction false} RootDefinitionsExactly(defs: seq<Entry>, types: Types, inV1Dir: bool, annotate: Annotate)
    ensures RootDefinitions(defs, types, inV1Dir, annotate) == Map(AtRoot(annotate), Chosen(StaysAtRoot(types, inV1Dir), defs))
  {
    if defs != [] {
      var n, keep := |defs| - 1, StaysAtRoot(types, inV1Dir);
      RootDefinitionsExactly(defs[..n], types, inV1Dir, annotate);
      if keep(defs[n]) {
        MapSnoc(AtRoot(annotate), Chosen(keep, defs[..n]), defs[n]);
      }
    }
  }

  lemma {:induction false} ForcedExactly(defs: seq<Entry>, types: Types, inV1Dir: bool)
    ensures Forced(defs, types, inV1Dir) == Map(Home(types), Chosen(LeavesRoot(types, inV1Dir), defs))
  {
    if defs != [] {
      var n, keep := |defs| - 1, LeavesRoot(types, inV1Dir);
      ForcedExactly(defs[..n], types, inV1Dir);
      if keep(defs[n]) {
        MapSnoc(Home(types), Chosen(keep, defs[..n]), defs[n]);
      }
    }
  }

  /**
   * A schema without a namespace puts at the root each movable definition that belongs to none, in order,
   * and then itself without its definitions, its references to the others moved where they belong.
   */
  lemma RootOpsExactly(name: string, v: Json, inV1Dir: bool, types: Types, annotate: Annotate, value: Json)
    returns (stay: seq<Entry>, leave: seq<Entry>, rest: seq<Entry>)
    requires value == RewriteKnown(v, types)
    ensures var defs := match value case Obj(entries) => (match Get(entries, "definitions") case Some(Obj(d)) => d case _ => []) case _ => [];
            Filtered(StaysAtRoot(types, inV1Dir), stay, defs) && Filtered(LeavesRoot(types, inV1Dir), leave, defs)
    ensures value.Obj? ==> Filtered((e: Entry) => e.key != "definitions", rest, value.entries)
    ensures name == "Option<()>" ==> RootOps(name, v, inV1Dir, types, annotate) == []
    ensures name != "Option<()>" ==>
      RootOps(name, v, inV1Dir, types, annotate)
      == Map(AtRoot(annotate), stay) + [ToRoot(name, RewriteForced(if value.Obj? then Obj(rest) else value, Map(Home(types), leave)))]
  {
    var defs := Definitions(value);
    stay, leave := Chosen(StaysAtRoot(types, inV1Dir), defs), Chosen(LeavesRoot(types, inV1Dir), defs);
    ChosenExactly(StaysAtRoot(types, inV1Dir), defs);
    ChosenExactly(LeavesRoot(types, inV1Dir), defs);
    RootDefinitionsExactly(defs, types, inV1Dir, annotate);
    ForcedExactly(defs, types, inV1Dir);
    rest := [];
    if value.Obj? {
      rest := WithoutKey(value.entries, "definitions");
      WithoutKeyExactly(value.entries, "definitions");
    }
  }

  /** The forced rewrites happen one after the other, each moving the references to one name into one namespace. */
  lemma {:induction false} ForcedInTurn(v: Json, forced: seq<(string, string)>, name: string, ns: string)
    ensures RewriteForced(v, []) == v
    ensures RewriteForced(v, forced + [(name, ns)]) == MapRefs(RewriteForced(v, forced), (r: string) => NamedRef(ns, name, r))
  {
    var more := forced + [(name, ns)];
    assert more[..|more| - 1] == forced && more[|more| - 1] == (name, ns);
  }
}
