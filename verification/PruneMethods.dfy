/** Removing experimental method variants from every array of a schema in one pass. */
module PruneMethods {
  import opened Text
  import opened Json

  function ObjectUnder(v: Json, key: string): Option<Json> {
    if !v.Obj? then None
    else
      match Get(v.entries, key)
      case Some(Obj(inner)) => Some(Obj(inner))
      case _ => None
  }

  /** The schema of a variant's `method` property. */
  function MethodSchema(v: Json): (r: Option<Json>)
    ensures r.Some? ==> r.value.Obj?
  {
    match ObjectUnder(v, "properties")
    case Some(properties) => ObjectUnder(properties, "method")
    case None => None
  }

  function ConstLiteral(schema: Json): Option<string>
    requires schema.Obj?
  {
    match Get(schema.entries, "const")
    case Some(Str(s)) => Some(s)
    case _ => None
  }

  function EnumValues(schema: Json): Option<seq<Json>>
    requires schema.Obj?
  {
    match Get(schema.entries, "enum")
    case Some(Arr(values)) => Some(values)
    case _ => None
  }

  predicate SingleMethod(values: seq<Json>, methods: set<string>) {
    |values| == 1 && values[0].Str? && values[0].s in methods
  }

  /** The schema pins the method to one of `methods`. */
  predicate PinsMethod(schema: Json, methods: set<string>)
    requires schema.Obj?
  {
    if ConstLiteral(schema).Some? then ConstLiteral(schema).value in methods
    else EnumValues(schema).Some? && SingleMethod(EnumValues(schema).value, methods)
  }

  predicate IsVariant(v: Json, methods: set<string>) {
    var schema := MethodSchema(v);
    schema.Some? && PinsMethod(schema.value, methods)
  }

  // ----- which variants a method names -----

  /** `v` is an object with `w` under `key`. */
  predicate Has(v: Json, key: string, w: Json) {
    v.Obj? && Get(v.entries, key) == Some(w)
  }

  /** The schema allows `m` alone: by a `const`, or by an `enum` of one value where no `const` is a string. */
  ghost predicate AllowsOnly(schema: Json, m: string) {
    || Has(schema, "const", Str(m))
    || ((forall s :: !Has(schema, "const", Str(s))) && Has(schema, "enum", Arr([Str(m)])))
  }

  ghost predicate NamesMethod(v: Json, m: string) {
    exists properties, schema :: Has(v, "properties", Obj(properties)) && Has(Obj(properties), "method", schema) && AllowsOnly(schema, m)
  }

  lemma PinsExactly(schema: Json, methods: set<string>)
    requires schema.Obj?
    ensures PinsMethod(schema, methods) <==> exists m :: m in methods && AllowsOnly(schema, m)
  {
    if ConstLiteral(schema).Some? {
      assert Has(schema, "const", Str(ConstLiteral(schema).value));
    }
    if PinsMethod(schema, methods) {
      if ConstLiteral(schema).Some? {
        assert AllowsOnly(schema, ConstLiteral(schema).value);
      } else {
        var values := EnumValues(schema).value;
        assert values == [Str(values[0].s)];
        assert AllowsOnly(schema, values[0].s);
      }
    }
  }

  /** A variant is an element whose `method` property allows one of the methods alone. */
  lemma IsVariantExactly(v: Json, methods: set<string>)
    ensures IsVariant(v, methods) <==> exists m :: m in methods && NamesMethod(v, m)
  {
    var found := MethodSchema(v);
    if found.Some? {
      PinsExactly(found.value, methods);
      var properties := ObjectUnder(v, "properties").value;
      assert Has(v, "properties", properties) && Has(properties, "method", found.value);
    }
    if IsVariant(v, methods) {
      var m :| m in methods && AllowsOnly(found.value, m);
      assert NamesMethod(v, m);
    }
  }

  function Prune(v: Json, methods: set<string>): Json
    decreases v, 1
  {
    match v
    case Arr(items) => Arr(PruneItems(items, methods))
    case Obj(entries) => Obj(PruneEntries(entries, methods))
    case _ => v
  }

  function PruneItems(items: seq<Json>, methods: set<string>): seq<Json>
    decreases items, 0
  {
    if items == [] then []
    else
      var n := |items| - 1;
      PruneItems(items[..n], methods) + if IsVariant(items[n], methods) then [] else [Prune(items[n], methods)]
  }

  function PruneEntries(entries: seq<Entry>, methods: set<string>): (r: seq<Entry>)
    ensures |r| == |entries|
    ensures forall i :: 0 <= i < |entries| ==> r[i] == Entry(entries[i].key, Prune(entries[i].value, methods))
    decreases entries, 0
  {
    seq(|entries|, i requires 0 <= i < |entries| => Entry(entries[i].key, Prune(entries[i].value, methods)))
  }

  /** No array at any depth contains an experimental variant. */
  predicate NoVariants(v: Json, methods: set<string>) {
    match v
    case Arr(items) => forall i :: 0 <= i < |items| ==> !IsVariant(items[i], methods) && NoVariants(items[i], methods)
    case Obj(entries) => forall i :: 0 <= i < |entries| ==> NoVariants(entries[i].value, methods)
    case _ => true
  }

  function Survivors(values: seq<Json>, methods: set<string>): seq<Json> {
    if values == [] then []
    else
      var n := |values| - 1;
      Survivors(values[..n], methods) + if IsVariant(values[n], methods) then [] else [values[n]]
  }

  /**
   * Not a variant yet, but its `method` enum lists one experimental method beside elements
   * that the pass itself removes.
   */
  predicate Exposed(v: Json, methods: set<string>) {
    var schema := MethodSchema(v);
    schema.Some? && ExposesMethod(schema.value, methods)
  }

  predicate ExposesMethod(schema: Json, methods: set<string>)
    requires schema.Obj?
  {
    ConstLiteral(schema).None? && EnumValues(schema).Some? &&
    var values := EnumValues(schema).value;
    |values| != 1 && SingleMethod(Survivors(values, methods), methods)
  }

  /** No array element that survives the pass is exposed by it. */
  predicate NothingExposed(v: Json, methods: set<string>) {
    match v
    case Arr(items) =>
      forall i :: 0 <= i < |items| ==>
        IsVariant(items[i], methods) || (!Exposed(items[i], methods) && NothingExposed(items[i], methods))
    case Obj(entries) => forall i :: 0 <= i < |entries| ==> NothingExposed(entries[i].value, methods)
    case _ => true
  }

  // ----- pruning one element -----

  lemma {:induction false} PruneGet(entries: seq<Entry>, methods: set<string>, key: string)
    ensures Get(PruneEntries(entries, methods), key)
         == match Get(entries, key) case Some(v) => Some(Prune(v, methods)) case None => None
  {
    if entries != [] && entries[0].key != key {
      PruneGet(entries[1..], methods, key);
      assert PruneEntries(entries, methods)[1..] == PruneEntries(entries[1..], methods);
    }
  }

  lemma PruneObjectUnder(v: Json, methods: set<string>, key: string)
    ensures ObjectUnder(Prune(v, methods), key)
         == match ObjectUnder(v, key) case Some(inner) => Some(Prune(inner, methods)) case None => None
  {
    if v.Obj? {
      PruneGet(v.entries, methods, key);
    }
  }

  lemma PruneMethodSchema(v: Json, methods: set<string>)
    ensures MethodSchema(Prune(v, methods))
         == match MethodSchema(v) case Some(schema) => Some(Prune(schema, methods)) case None => None
  {
    PruneObjectUnder(v, methods, "properties");
    if ObjectUnder(v, "properties").Some? {
      PruneObjectUnder(ObjectUnder(v, "properties").value, methods, "method");
    }
  }

  lemma {:induction false} PruneSurvivors(values: seq<Json>, methods: set<string>)
    ensures |PruneItems(values, methods)| == |Survivors(values, methods)| <= |values|
    ensures forall i :: 0 <= i < |Survivors(values, methods)| ==>
              PruneItems(values, methods)[i] == Prune(Survivors(values, methods)[i], methods)
    ensures forall i :: 0 <= i < |Survivors(values, methods)| ==>
              Survivors(values, methods)[i] in values && !IsVariant(Survivors(values, methods)[i], methods)
    ensures forall v :: v in values && !IsVariant(v, methods) ==> v in Survivors(values, methods)
  {
    if values != [] {
      var n := |values| - 1;
      assert values == values[..n] + [values[n]];
      PruneSurvivors(values[..n], methods);
    }
  }

  lemma PruneSingleMethod(values: seq<Json>, methods: set<string>)
    ensures SingleMethod(PruneItems(values, methods), methods) <==> SingleMethod(Survivors(values, methods), methods)
    ensures |values| == 1 ==> (SingleMethod(Survivors(values, methods), methods) <==> SingleMethod(values, methods))
  {
    PruneSurvivors(values, methods);
    if |values| == 1 {
      assert values[..0] == [];
      assert Survivors(values[..0], methods) == [];
      if values[0].Str? {
        assert !IsVariant(values[0], methods);
      }
      assert Survivors(values, methods) == [] || Survivors(values, methods) == [values[0]];
    }
  }

  lemma PrunePinsMethod(schema: Json, methods: set<string>)
    requires schema.Obj? && !PinsMethod(schema, methods)
    ensures PinsMethod(Prune(schema, methods), methods) <==> ExposesMethod(schema, methods)
  {
    PruneGet(schema.entries, methods, "const");
    PruneGet(schema.entries, methods, "enum");
    assert ConstLiteral(Prune(schema, methods)) == ConstLiteral(schema);
    if EnumValues(schema).Some? {
      assert EnumValues(Prune(schema, methods)) == Some(PruneItems(EnumValues(schema).value, methods));
      PruneSingleMethod(EnumValues(schema).value, methods);
    }
  }

  /** Pruning turns an element into a variant exactly when it exposes it. */
  lemma PruneExposes(v: Json, methods: set<string>)
    requires !IsVariant(v, methods)
    ensures IsVariant(Prune(v, methods), methods) <==> Exposed(v, methods)
  {
    PruneMethodSchema(v, methods);
    if MethodSchema(v).Some? {
      PrunePinsMethod(MethodSchema(v).value, methods);
    }
  }

  // ----- the main results -----

  /** The pruned item is free of variants, inside and itself, exactly when pruning exposes none in it. */
  ghost predicate FixpointAt(item: Json, methods: set<string>) {
    (!IsVariant(Prune(item, methods), methods) && NoVariants(Prune(item, methods), methods))
    <==> (!Exposed(item, methods) && NothingExposed(item, methods))
  }

  lemma PruneArrayFixpoint(items: seq<Json>, methods: set<string>)
    requires forall i :: 0 <= i < |items| && !IsVariant(items[i], methods) ==> FixpointAt(items[i], methods)
    ensures NoVariants(Prune(Arr(items), methods), methods) <==> NothingExposed(Arr(items), methods)
  {
    var kept, out := Survivors(items, methods), PruneItems(items, methods);
    PruneSurvivors(items, methods);
    forall i | 0 <= i < |kept| ensures FixpointAt(kept[i], methods) {
      var j :| 0 <= j < |items| && items[j] == kept[i];
    }
    if NoVariants(Prune(Arr(items), methods), methods) {
      forall j | 0 <= j < |items| && !IsVariant(items[j], methods)
        ensures !Exposed(items[j], methods) && NothingExposed(items[j], methods)
      {
        assert items[j] in kept;
        var i :| 0 <= i < |kept| && kept[i] == items[j];
        assert FixpointAt(kept[i], methods);
      }
    }
    if NothingExposed(Arr(items), methods) {
      forall i | 0 <= i < |out| ensures !IsVariant(out[i], methods) && NoVariants(out[i], methods) {
        var j :| 0 <= j < |items| && items[j] == kept[i];
        assert FixpointAt(kept[i], methods);
      }
    }
  }

  /** One pass reaches its fixpoint exactly when it exposes nothing. */
  lemma {:induction false} PruneFixpointExactly(v: Json, methods: set<string>)
    ensures NoVariants(Prune(v, methods), methods) <==> NothingExposed(v, methods)
  {
    match v {
      case Arr(items) =>
        forall i | 0 <= i < |items| && !IsVariant(items[i], methods) ensures FixpointAt(items[i], methods) {
          PruneFixpointExactly(items[i], methods);
          PruneExposes(items[i], methods);
        }
        PruneArrayFixpoint(items, methods);
      case Obj(entries) =>
        var out := PruneEntries(entries, methods);
        forall i | 0 <= i < |entries|
          ensures NoVariants(out[i].value, methods) <==> NothingExposed(entries[i].value, methods)
        {
          PruneFixpointExactly(entries[i].value, methods);
        }
      case _ =>
    }
  }

  lemma {:induction false} NoVariantsUnchanged(v: Json, methods: set<string>)
    requires NoVariants(v, methods)
    ensures Prune(v, methods) == v
    decreases v, 1
  {
    match v {
      case Arr(items) => NoVariantItemsUnchanged(items, methods);
      case Obj(entries) =>
        forall i | 0 <= i < |entries| ensures PruneEntries(entries, methods)[i] == entries[i] {
          NoVariantsUnchanged(entries[i].value, methods);
        }
        assert PruneEntries(entries, methods) == entries;
      case _ =>
    }
  }

  lemma {:induction false} NoVariantItemsUnchanged(items: seq<Json>, methods: set<string>)
    requires forall i :: 0 <= i < |items| ==> !IsVariant(items[i], methods) && NoVariants(items[i], methods)
    ensures PruneItems(items, methods) == items
    decreases items, 0
  {
    if items != [] {
      var n := |items| - 1;
      NoVariantItemsUnchanged(items[..n], methods);
      NoVariantsUnchanged(items[n], methods);
      assert PruneItems(items, methods) == items[..n] + [items[n]];
      assert items == items[..n] + [items[n]];
    }
  }

  /** Where a `method` property has an enum, that enum lists strings only. */
  predicate StringEnums(v: Json) {
    && (MethodSchema(v).Some? && EnumValues(MethodSchema(v).value).Some? ==>
          forall i :: 0 <= i < |EnumValues(MethodSchema(v).value).value| ==> EnumValues(MethodSchema(v).value).value[i].Str?)
    && match v
       case Arr(items) => forall i :: 0 <= i < |items| ==> StringEnums(items[i])
       case Obj(entries) => forall i :: 0 <= i < |entries| ==> StringEnums(entries[i].value)
       case _ => true
  }

  lemma StringIsNoVariant(v: Json, methods: set<string>)
    requires v.Str?
    ensures !IsVariant(v, methods)
  {
  }

  lemma {:induction false} SurvivorsOfStrings(values: seq<Json>, methods: set<string>)
    requires forall i :: 0 <= i < |values| ==> values[i].Str?
    ensures Survivors(values, methods) == values
  {
    if values != [] {
      var n := |values| - 1;
      SurvivorsOfStrings(values[..n], methods);
      StringIsNoVariant(values[n], methods);
      assert values == values[..n] + [values[n]];
    }
  }

  lemma {:induction false} StringEnumsExposeNothing(v: Json, methods: set<string>)
    requires StringEnums(v)
    ensures !Exposed(v, methods) && NothingExposed(v, methods)
  {
    if MethodSchema(v).Some? && EnumValues(MethodSchema(v).value).Some? {
      SurvivorsOfStrings(EnumValues(MethodSchema(v).value).value, methods);
    }
    match v {
      case Arr(items) =>
        forall i | 0 <= i < |items| ensures !Exposed(items[i], methods) && NothingExposed(items[i], methods) {
          StringEnumsExposeNothing(items[i], methods);
        }
      case Obj(entries) =>
        forall i | 0 <= i < |entries| ensures NothingExposed(entries[i].value, methods) {
          StringEnumsExposeNothing(entries[i].value, methods);
        }
      case _ =>
    }
  }

  /** With string-only method enums, one pass removes every variant and a second changes nothing. */
  lemma PruneOnceSuffices(v: Json, methods: set<string>)
    requires StringEnums(v)
    ensures NoVariants(Prune(v, methods), methods)
    ensures Prune(Prune(v, methods), methods) == Prune(v, methods)
  {
    StringEnumsExposeNothing(v, methods);
    PruneFixpointExactly(v, methods);
    NoVariantsUnchanged(Prune(v, methods), methods);
  }

  /** The positions `at` are exactly those of the elements that are not variants. */
  ghost predicate KeptPositions(items: seq<Json>, methods: set<string>, at: seq<nat>) {
    && (forall j :: 0 <= j < |at| ==> at[j] < |items| && !IsVariant(items[at[j]], methods))
    && (forall j, k :: 0 <= j < k < |at| ==> at[j] < at[k])
    && (forall i :: 0 <= i < |items| && !IsVariant(items[i], methods) ==> i in at)
  }

  /** `r` is `v` with exactly the variants deleted from its arrays. */
  ghost predicate DeletesExactly(v: Json, r: Json, methods: set<string>)
    decreases v, 1
  {
    match v
    case Arr(items) =>
      r.Arr? && exists at :: KeptPositions(items, methods, at) && DeletesAt(items, r.items, methods, at)
    case Obj(entries) =>
      && r.Obj? && |r.entries| == |entries|
      && forall i :: 0 <= i < |entries| ==>
           r.entries[i].key == entries[i].key && DeletesExactly(entries[i].value, r.entries[i].value, methods)
    case _ => r == v
  }

  ghost predicate DeletesAt(items: seq<Json>, out: seq<Json>, methods: set<string>, at: seq<nat>)
    decreases items, 0
  {
    && |out| == |at|
    && forall j :: 0 <= j < |at| ==> at[j] < |items| && DeletesExactly(items[at[j]], out[j], methods)
  }

  lemma {:induction false} PruneDeletesExactly(v: Json, methods: set<string>)
    ensures DeletesExactly(v, Prune(v, methods), methods)
    decreases v, 1
  {
    match v {
      case Arr(items) =>
        var at := PruneItemsDeletes(items, methods);
      case Obj(entries) =>
        forall i | 0 <= i < |entries|
          ensures DeletesExactly(entries[i].value, PruneEntries(entries, methods)[i].value, methods)
        {
          PruneDeletesExactly(entries[i].value, methods);
        }
      case _ =>
    }
  }

  lemma {:induction false} PruneItemsDeletes(items: seq<Json>, methods: set<string>) returns (at: seq<nat>)
    ensures KeptPositions(items, methods, at) && DeletesAt(items, PruneItems(items, methods), methods, at)
    decreases items, 0
  {
    at := [];
    if items != [] {
      var n := |items| - 1;
      at := PruneItemsDeletes(items[..n], methods);
      if !IsVariant(items[n], methods) {
        PruneDeletesExactly(items[n], methods);
        KeptSnoc(items, methods, at, PruneItems(items[..n], methods));
        at := at + [n];
      } else {
        assert forall i :: 0 <= i < n ==> items[..n][i] == items[i];
      }
    }
  }

  lemma KeptSnoc(items: seq<Json>, methods: set<string>, at: seq<nat>, out: seq<Json>)
    requires items != [] && !IsVariant(items[|items| - 1], methods)
    requires KeptPositions(items[..|items| - 1], methods, at)
    requires DeletesAt(items[..|items| - 1], out, methods, at)
    requires DeletesExactly(items[|items| - 1], Prune(items[|items| - 1], methods), methods)
    ensures KeptPositions(items, methods, at + [|items| - 1])
    ensures DeletesAt(items, out + [Prune(items[|items| - 1], methods)], methods, at + [|items| - 1])
  {
    var n := |items| - 1;
    assert forall i :: 0 <= i < n ==> items[..n][i] == items[i];
    forall i | 0 <= i < |items| && !IsVariant(items[i], methods) ensures i in at + [n] {
      if i < n {
        assert i in at;
      }
    }
  }

  // ----- an input one pass does not finish -----

  function WithMethod(schema: Entry): Json {
    Obj([Entry("properties", Obj([Entry("method", Obj([schema]))]))])
  }

  lemma MethodSchemaOf(schema: Entry)
    ensures MethodSchema(WithMethod(schema)) == Some(Obj([schema]))
  {
    assert Get([Entry("method", Obj([schema]))], "method") == Some(Obj([schema]));
  }

  /** An enum that lists a method beside an experimental variant becomes a variant itself, and stays behind. */
  lemma OnePassNotEnough(name: string, methods: set<string>)
    requires name in methods
    ensures var v := Arr([WithMethod(Entry("enum", Arr([WithMethod(Entry("const", Str(name))), Str(name)])))]);
            !NoVariants(Prune(v, methods), methods)
  {
    var pinned := WithMethod(Entry("const", Str(name)));
    MethodSchemaOf(Entry("const", Str(name)));
    var values := [pinned, Str(name)];
    assert values[..1] == [pinned] && [pinned][..0] == [];
    assert Survivors([pinned], methods) == [];
    assert Survivors(values, methods) == [Str(name)];
    MethodSchemaOf(Entry("enum", Arr(values)));
    var item := WithMethod(Entry("enum", Arr(values)));
    assert Exposed(item, methods) && !IsVariant(item, methods);
    var v := Arr([item]);
    assert v.items[0] == item;
    PruneFixpointExactly(v, methods);
  }

  // ----- the code -----

  /** Drop the variants of an array, then descend into what is left; descend into every value of an object. */
  method PruneExperimentalMethods(value: Json, methods: set<string>) returns (r: Json)
    ensures r == Prune(value, methods)
    decreases value, 1
  {
    match value {
      case Arr(items) =>
        var pruned := PruneArray(items, methods);
        r := Arr(pruned);
      case Obj(entries) =>
        var pruned := PruneObject(entries, methods);
        r := Obj(pruned);
      case _ => r := value;
    }
  }

  method PruneArray(items: seq<Json>, methods: set<string>) returns (out: seq<Json>)
    ensures out == PruneItems(items, methods)
    decreases items, 0
  {
    out := [];
    var n := 0;
    while n < |items|
      invariant 0 <= n <= |items|
      invariant out == PruneItems(items[..n], methods)
    {
      if !IsVariant(items[n], methods) {
        var item := PruneExperimentalMethods(items[n], methods);
        out := out + [item];
      }
      assert items[..n + 1][..n] == items[..n];
      n := n + 1;
    }
    assert items[..n] == items;
  }

  method PruneObject(entries: seq<Entry>, methods: set<string>) returns (out: seq<Entry>)
    ensures out == PruneEntries(entries, methods)
    decreases entries, 0
  {
    ghost var goal := PruneEntries(entries, methods);
    out := [];
    var n := 0;
    while n < |entries|
      invariant 0 <= n <= |entries|
      invariant out == goal[..n]
    {
      var value := PruneExperimentalMethods(entries[n].value, methods);
      out := out + [Entry(entries[n].key, value)];
      n := n + 1;
    }
  }
}
