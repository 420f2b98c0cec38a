/** What a fingerprint can see of a schema: exactly the properties within five hops, under names that are not always
    unambiguous (bin/contract-diff.js). */
module ContractSight {
  import opened ContractDiff

  /** One step down a schema: to a property, by position, or to the items. */
  datatype Hop = To(i: nat) | Into

  predicate HasHop(schema: Schema, hop: Hop) {
    schema.Schema? && if hop.To? then hop.i < |schema.properties| else schema.items.Items?
  }

  function Below(schema: Schema, hop: Hop): Schema
    requires HasHop(schema, hop)
  {
    if hop.To? then schema.properties[hop.i].schema else schema.items.schema
  }

  function Deeper(prefix: string, schema: Schema, hop: Hop): string
    requires HasHop(schema, hop)
  {
    if hop.To? then prefix + "." + schema.properties[hop.i].name else prefix + "[]"
  }

  /** The path ends at a property and the text is its dotted name and type. */
  ghost predicate Names(schema: Schema, hops: seq<Hop>, prefix: string, f: string)
    decreases |hops|
  {
    hops != [] && HasHop(schema, hops[0]) &&
    if |hops| == 1 then hops[0].To? && f == FieldText(prefix, schema.properties[hops[0].i])
    else Names(Below(schema, hops[0]), hops[1..], Deeper(prefix, schema, hops[0]), f)
  }

  /** Some path of at most so many hops names the field. */
  ghost predicate Reachable(schema: Schema, prefix: string, levels: nat, f: string) {
    exists hops: seq<Hop> :: |hops| <= levels && Names(schema, hops, prefix, f)
  }

  lemma ReachableHere(schema: Schema, i: nat, prefix: string, levels: nat)
    requires HasHop(schema, To(i)) && levels > 0
    ensures Reachable(schema, prefix, levels, FieldText(prefix, schema.properties[i]))
  {
    assert Names(schema, [To(i)], prefix, FieldText(prefix, schema.properties[i]));
  }

  lemma ReachableBelow(schema: Schema, hop: Hop, prefix: string, levels: nat, f: string)
    requires HasHop(schema, hop) && Reachable(Below(schema, hop), Deeper(prefix, schema, hop), levels, f)
    ensures Reachable(schema, prefix, levels + 1, f)
  {
    var hops: seq<Hop> :| |hops| <= levels && Names(Below(schema, hop), hops, Deeper(prefix, schema, hop), f);
    var all := [hop] + hops;
    assert all[0] == hop && all[1..] == hops;
    assert Names(schema, all, prefix, f);
  }

  lemma PropertiesAppend(properties: seq<Property>, p: Property, prefix: string, depth: nat)
    requires depth <= MaxDepth
    ensures CollectProperties(properties + [p], prefix, depth) ==
            CollectProperties(properties, prefix, depth) + {FieldText(prefix, p)} +
              Collect(p.schema, prefix + "." + p.name, depth + 1)
  {
    assert (properties + [p])[..|properties|] == properties;
  }

  /** The field is the property's own or one of those below it. */
  ghost predicate Gives(p: Property, prefix: string, depth: nat, f: string) {
    f == FieldText(prefix, p) || f in Collect(p.schema, prefix + "." + p.name, depth + 1)
  }

  lemma {:induction false} PropertiesMember(properties: seq<Property>, prefix: string, depth: nat, f: string)
    requires depth <= MaxDepth
    ensures f in CollectProperties(properties, prefix, depth) <==>
            exists i :: 0 <= i < |properties| && Gives(properties[i], prefix, depth, f)
  {
    if properties != [] {
      var n := |properties| - 1;
      assert properties == properties[..n] + [properties[n]];
      PropertiesAppend(properties[..n], properties[n], prefix, depth);
      PropertiesMember(properties[..n], prefix, depth, f);
      assert forall i :: 0 <= i < n ==> properties[..n][i] == properties[i];
    }
  }

  lemma GivenIsReachable(schema: Schema, i: nat, prefix: string, depth: nat, f: string)
    requires HasHop(schema, To(i)) && depth <= MaxDepth && Gives(schema.properties[i], prefix, depth, f)
    ensures Reachable(schema, prefix, Levels(depth), f)
    decreases Levels(depth), 0
  {
    if f == FieldText(prefix, schema.properties[i]) {
      ReachableHere(schema, i, prefix, Levels(depth));
    } else {
      CollectedIsReachable(schema.properties[i].schema, prefix + "." + schema.properties[i].name, depth + 1, f);
      ReachableBelow(schema, To(i), prefix, Levels(depth + 1), f);
    }
  }

  lemma ItemIsReachable(schema: Schema, prefix: string, depth: nat, f: string)
    requires HasHop(schema, Into) && depth <= MaxDepth && f in Collect(schema.items.schema, prefix + "[]", depth + 1)
    ensures Reachable(schema, prefix, Levels(depth), f)
    decreases Levels(depth), 0
  {
    CollectedIsReachable(schema.items.schema, prefix + "[]", depth + 1, f);
    ReachableBelow(schema, Into, prefix, Levels(depth + 1), f);
  }

  /** A collected field comes from a property or from the items. */
  lemma CollectedFrom(schema: Schema, prefix: string, depth: nat, f: string)
    requires f in Collect(schema, prefix, depth)
    ensures schema.Schema? && depth <= MaxDepth
    ensures (exists i :: 0 <= i < |schema.properties| && Gives(schema.properties[i], prefix, depth, f)) ||
            (HasHop(schema, Into) && f in Collect(schema.items.schema, prefix + "[]", depth + 1))
  {
    PropertiesMember(schema.properties, prefix, depth, f);
  }

  lemma CollectedIsReachable(schema: Schema, prefix: string, depth: nat, f: string)
    requires f in Collect(schema, prefix, depth)
    ensures Reachable(schema, prefix, Levels(depth), f)
    decreases Levels(depth), 1
  {
    CollectedFrom(schema, prefix, depth, f);
    if i :| 0 <= i < |schema.properties| && Gives(schema.properties[i], prefix, depth, f) {
      GivenIsReachable(schema, i, prefix, depth, f);
    } else {
      ItemIsReachable(schema, prefix, depth, f);
    }
  }

  lemma CollectedBelow(schema: Schema, hop: Hop, prefix: string, depth: nat, f: string)
    requires HasHop(schema, hop) && depth <= MaxDepth
    requires f in Collect(Below(schema, hop), Deeper(prefix, schema, hop), depth + 1)
    ensures f in Collect(schema, prefix, depth)
  {
    if hop.To? {
      PropertiesMember(schema.properties, prefix, depth, f);
      assert Gives(schema.properties[hop.i], prefix, depth, f);
    }
  }

  lemma {:induction false} NamedIsCollected(schema: Schema, hops: seq<Hop>, prefix: string, depth: nat, f: string)
    requires |hops| <= Levels(depth) && Names(schema, hops, prefix, f)
    ensures f in Collect(schema, prefix, depth)
    decreases |hops|
  {
    if |hops| == 1 {
      PropertiesMember(schema.properties, prefix, depth, f);
      assert Gives(schema.properties[hops[0].i], prefix, depth, f);
    } else {
      NamedIsCollected(Below(schema, hops[0]), hops[1..], Deeper(prefix, schema, hops[0]), depth + 1, f);
      CollectedBelow(schema, hops[0], prefix, depth, f);
    }
  }

  /** The fields collected are exactly the properties within five hops of the response schema. */
  lemma FieldsAreTheReachable(schema: Schema, prefix: string, f: string)
    ensures f in Collect(schema, prefix, 0) <==> Reachable(schema, prefix, MaxDepth + 1, f)
  {
    if f in Collect(schema, prefix, 0) { CollectedIsReachable(schema, prefix, 0, f); }
    if Reachable(schema, prefix, MaxDepth + 1, f) {
      var hops: seq<Hop> :| |hops| <= MaxDepth + 1 && Names(schema, hops, prefix, f);
      NamedIsCollected(schema, hops, prefix, 0, f);
    }
  }

  // ---- What it cannot see ----

  /** The schema without anything more than so many hops down. */
  function Truncate(schema: Schema, levels: nat): Schema
    decreases levels, 1, 0
  {
    if schema.NotObject? then NotObject
    else if levels == 0 then Schema(schema.typ, [], NoItems)
    else Schema(schema.typ, TruncateAll(schema.properties, levels - 1), TruncateItems(schema.items, levels - 1))
  }

  function TruncateItems(items: Items, levels: nat): Items
    decreases levels, 2, 0
  {
    if items.NoItems? then NoItems else Items(Truncate(items.schema, levels))
  }

  function TruncateAll(properties: seq<Property>, levels: nat): seq<Property>
    decreases levels, 2, |properties|
  {
    if properties == [] then []
    else
      var n := |properties| - 1;
      TruncateAll(properties[..n], levels) + [Property(properties[n].name, Truncate(properties[n].schema, levels))]
  }

  /** Nothing below the fifth level reaches the fingerprint, so no change there can fail the gate. */
  lemma {:induction false} DeepPartsAreInvisible(schema: Schema, prefix: string, depth: nat)
    ensures Collect(Truncate(schema, Levels(depth)), prefix, depth) == Collect(schema, prefix, depth)
    decreases Levels(depth), 1, 0
  {
    if schema.Schema? && depth <= MaxDepth {
      DeepPropertiesAreInvisible(schema.properties, prefix, depth);
      DeepItemsAreInvisible(schema.items, prefix, depth);
    }
  }

  lemma DeepItemsAreInvisible(items: Items, prefix: string, depth: nat)
    requires depth <= MaxDepth
    ensures CollectItems(TruncateItems(items, Levels(depth + 1)), prefix, depth) == CollectItems(items, prefix, depth)
    decreases Levels(depth), 0, 0
  {
    if items.Items? { DeepPartsAreInvisible(items.schema, prefix + "[]", depth + 1); }
  }

  lemma {:induction false} DeepPropertiesAreInvisible(properties: seq<Property>, prefix: string, depth: nat)
    requires depth <= MaxDepth
    ensures CollectProperties(TruncateAll(properties, Levels(depth + 1)), prefix, depth) ==
            CollectProperties(properties, prefix, depth)
    decreases Levels(depth), 0, |properties|
  {
    if properties != [] {
      var n := |properties| - 1;
      var p, levels := properties[n], Levels(depth + 1);
      var q := Property(p.name, Truncate(p.schema, levels));
      DeepPropertiesAreInvisible(properties[..n], prefix, depth);
      DeepPartsAreInvisible(p.schema, prefix + "." + p.name, depth + 1);
      SamePropertyText(p, q, prefix, levels);
      PropertiesAppend(TruncateAll(properties[..n], levels), q, prefix, depth);
    }
  }

  lemma SamePropertyText(p: Property, q: Property, prefix: string, levels: nat)
    requires q == Property(p.name, Truncate(p.schema, levels))
    ensures FieldText(prefix, q) == FieldText(prefix, p)
  {
  }

  lemma LeafCollectsNothing(typ: string, prefix: string, depth: nat)
    ensures Collect(Schema(typ, [], NoItems), prefix, depth) == {}
  {
  }

  lemma OneProperty(typ: string, p: Property, prefix: string, depth: nat)
    requires depth <= MaxDepth
    ensures Collect(Schema(typ, [p], NoItems), prefix, depth) ==
            {FieldText(prefix, p)} + Collect(p.schema, prefix + "." + p.name, depth + 1)
  {
    assert [] + [p] == [p];
    PropertiesAppend([], p, prefix, depth);
  }

  lemma TwoProperties(typ: string, p: Property, q: Property, prefix: string, depth: nat)
    requires depth <= MaxDepth && Collect(q.schema, prefix + "." + q.name, depth + 1) == {}
    ensures Collect(Schema(typ, [p, q], NoItems), prefix, depth) ==
            Collect(Schema(typ, [p], NoItems), prefix, depth) + {FieldText(prefix, q)}
  {
    assert [p] + [q] == [p, q];
    PropertiesAppend([p], q, prefix, depth);
  }

  /** A property named with a dot stands in for a nested one: the removal of the nested property goes unnoticed. */
  lemma DottedNameHidesARemoval(prefix: string, depth: nat)
    requires depth < MaxDepth
    ensures var leaf, bare := Schema("integer", [], NoItems), Schema("object", [], NoItems);
            var nested := Schema("object", [Property("b", leaf)], NoItems);
            Collect(Schema("", [Property("a", nested)], NoItems), prefix, depth) ==
            Collect(Schema("", [Property("a", bare), Property("a.b", leaf)], NoItems), prefix, depth)
  {
    var leaf, bare := Schema("integer", [], NoItems), Schema("object", [], NoItems);
    var b, dotted := Property("b", leaf), Property("a.b", leaf);
    var nested := Schema("object", [b], NoItems);
    OneProperty("", Property("a", nested), prefix, depth);
    OneProperty("object", b, prefix + "." + "a", depth + 1);
    LeafCollectsNothing("integer", prefix + "." + "a" + "." + "b", depth + 2);
    LeafCollectsNothing("object", prefix + "." + "a", depth + 1);
    LeafCollectsNothing("integer", prefix + "." + "a.b", depth + 1);
    OneProperty("", Property("a", bare), prefix, depth);
    TwoProperties("", Property("a", bare), dotted, prefix, depth);
    assert FieldText(prefix, dotted) == FieldText(prefix + "." + "a", b);
  }

  // ---- In plain text ----

  /** A property without a type that holds one further property. */
  function Holding(name: string, inner: Schema): Schema {
    Schema("", [Property(name, inner)], NoItems)
  }

  lemma HoldingShows(name: string, inner: Schema, prefix: string, depth: nat)
    requires depth <= 4
    ensures Collect(Holding(name, inner), prefix, depth) ==
            {prefix + "." + name + ":" + (if inner.NotObject? || inner.typ == "" then "any" else inner.typ)} +
            Collect(inner, prefix + "." + name, depth + 1)
    ensures prefix + "." + name + ":" + "any" == prefix + "." + name + ":any"
  {
    var p := Property(name, inner);
    assert [p][..0] == [];
    assert CollectProperties([], prefix, depth) == {};
    assert CollectProperties([p], prefix, depth) ==
           {FieldText(prefix, p)} + Collect(inner, prefix + "." + name, depth + 1);
    assert CollectItems(NoItems, prefix, depth) == {};
  }

  /** Five levels of properties show in a fingerprint, each under its path and without a type as any; the sixth does
      not. */
  lemma FiveLevelsShow(code: string, a: string, b: string, c: string, d: string, e: string, f: string)
    ensures var deep := Holding(a, Holding(b, Holding(c, Holding(d, Holding(e, Holding(f, NotObject))))));
            var one := code + "." + a;
            var two := one + "." + b;
            var three := two + "." + c;
            var four := three + "." + d;
            var five := four + "." + e;
            Collect(deep, code, 0) == {one + ":any", two + ":any", three + ":any", four + ":any", five + ":any"}
  {
    var six := Holding(f, NotObject);
    var s5 := Holding(e, six);
    var s4 := Holding(d, s5);
    var s3 := Holding(c, s4);
    var s2 := Holding(b, s3);
    var one := code + "." + a;
    var two := one + "." + b;
    var three := two + "." + c;
    var four := three + "." + d;
    HoldingShows(a, s2, code, 0);
    HoldingShows(b, s3, one, 1);
    HoldingShows(c, s4, two, 2);
    HoldingShows(d, s5, three, 3);
    HoldingShows(e, six, four, 4);
    BelowTheCut(six, four + "." + e);
  }

  lemma BelowTheCut(schema: Schema, prefix: string)
    ensures Collect(schema, prefix, 5) == {}
  {
  }

  lemma MethodsInCapitals()
    ensures Upper("GET") == Upper("get") == "GET" && Upper("post") == "POST" && Upper("put") == "PUT"
    ensures Upper("patch") == "PATCH" && Upper("delete") == "DELETE"
    ensures Upper("head") == "HEAD" && Upper("options") == "OPTIONS"
  {
  }

  /** The seven methods count in any case; other members of a path do not. */
  lemma MethodsInAnyCase()
    ensures IsMethod("get") && IsMethod("GET") && IsMethod("post") && IsMethod("put") && IsMethod("patch")
    ensures IsMethod("delete") && IsMethod("head") && IsMethod("options")
    ensures !IsMethod("trace") && !IsMethod("parameters") && !IsMethod("summary") && !IsMethod("")
  {
    MethodsInCapitals();
    assert Upper("trace")[0] == 'T' && Upper("summary")[0] == 'S' && |Upper("parameters")| == 10;
  }
}
