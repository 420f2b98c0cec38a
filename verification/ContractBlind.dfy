/** Changes that break a client and pass the contract gate (bin/contract-diff.js). */
module ContractBlind {
  import opened ContractDiff
  import opened ContractGate
  import opened ContractSight
  import opened ContractDetect
  import opened ContractExact

  /** A specification of one endpoint. */
  function OneOperation(path: string, verb: string, operation: Operation): Spec {
    Spec([PathItem(path, [Verb(verb, operation)])])
  }

  /** A specification of one endpoint with one response of one media type. */
  function OneBody(path: string, verb: string, code: string, schema: Schema): Spec {
    OneOperation(path, verb, BodyOf(code, schema))
  }

  function BodyOf(code: string, schema: Schema): Operation {
    Operation([Response(code, [Media("application/json", schema)])])
  }

  lemma BodyFields(code: string, schema: Schema)
    ensures Fields(BodyOf(code, schema)) == {"status:" + code} + Collect(schema, code, 0)
  {
    var m := Media("application/json", schema);
    var r := Response(code, [m]);
    assert [m][..0] == [] && [r][..0] == [];
    assert MediaFields(code, [m]) == MediaFields(code, []) + Collect(schema, code, 0);
    assert ResponsesFields([r]) == ResponsesFields([]) + ResponseFields(r);
  }

  lemma OneEndpoint(path: string, verb: string, operation: Operation)
    requires IsMethod(verb)
    ensures Endpoints(OneOperation(path, verb, operation)) == [Endpoint(path, verb, operation)]
  {
    var v := Verb(verb, operation);
    OnePath(path, [v]);
    VerbAppended(path, [], v);
    assert [] + [v] == [v];
  }

  /** Between two such specifications the gate compares nothing but the fields. */
  lemma GateComparesFields(path: string, verb: string, base: Operation, cur: Operation)
    requires IsMethod(verb) && Fields(base) <= Fields(cur)
    ensures Breaking(FingerprintOf(OneOperation(path, verb, base)), FingerprintOf(OneOperation(path, verb, cur))) == []
  {
    OneEndpoint(path, verb, base);
    OneEndpoint(path, verb, cur);
    var e := Endpoint(path, verb, cur);
    assert Wins([e], 0) && [e][0] == e;
    GatePassesExactlyOnLastSpellings(OneOperation(path, verb, base), OneOperation(path, verb, cur));
  }

  lemma GateComparesCollected(path: string, verb: string, code: string, base: Schema, cur: Schema)
    requires IsMethod(verb) && Collect(base, code, 0) <= Collect(cur, code, 0)
    ensures Breaking(FingerprintOf(OneBody(path, verb, code, base)),
            FingerprintOf(OneBody(path, verb, code, cur))) == []
  {
    BodyFields(code, base);
    BodyFields(code, cur);
    GateComparesFields(path, verb, BodyOf(code, base), BodyOf(code, cur));
  }

  lemma OneBodyExtends(path: string, verb: string, code: string, base: Schema, cur: Schema)
    requires IsMethod(verb)
    ensures ExtendsSpec(OneBody(path, verb, code, cur), OneBody(path, verb, code, base)) ==> Extends(cur, base)
  {
    OneEndpoint(path, verb, BodyOf(code, base));
    OneEndpoint(path, verb, BodyOf(code, cur));
    var e, d := Endpoint(path, verb, BodyOf(code, base)), Endpoint(path, verb, BodyOf(code, cur));
    if ExtendsSpec(OneBody(path, verb, code, cur), OneBody(path, verb, code, base)) {
      assert KeepsEndpoint([d], [e][0]);
      assert KeepsResponse(d.operation.responses, e.operation.responses[0]);
      assert KeepsMedia(d.operation.responses[0].content, e.operation.responses[0].content[0]);
    }
  }

  // ---- Too deep ----

  /** Everything more than five hops down may be dropped from any response: the gate passes. */
  lemma DroppingDeepPartsPasses(path: string, verb: string, code: string, schema: Schema)
    requires IsMethod(verb)
    ensures Breaking(FingerprintOf(OneBody(path, verb, code, schema)),
                     FingerprintOf(OneBody(path, verb, code, Truncate(schema, MaxDepth + 1)))) == []
  {
    DeepPartsAreInvisible(schema, code, 0);
    GateComparesCollected(path, verb, code, schema, Truncate(schema, MaxDepth + 1));
  }

  /** A property within a property, so many levels down. */
  function Nested(levels: nat): Schema {
    if levels == 0 then Schema("object", [], NoItems)
    else Schema("object", [Property("a", Nested(levels - 1))], NoItems)
  }

  lemma TruncateOne(p: Property, levels: nat)
    ensures TruncateAll([p], levels) == [Property(p.name, Truncate(p.schema, levels))]
  {
    assert [p][..0] == [] && TruncateAll([], levels) == [];
  }

  /** A schema that keeps none of the same name does not keep the property. */
  lemma LosesProperty(cur: Schema, base: Schema, i: nat)
    requires base.Schema? && i < |base.properties|
    requires cur.Schema? ==> forall j :: 0 <= j < |cur.properties| ==>
               cur.properties[j].name != base.properties[i].name ||
               !Extends(cur.properties[j].schema, base.properties[i].schema)
    ensures !Extends(cur, base)
  {
    if cur.Schema? { assert !KeepsProperty(cur.properties, base.properties[i]); }
  }

  lemma {:induction false} TruncatedLosesDeepest(levels: nat)
    ensures !Extends(Truncate(Nested(levels + 1), levels), Nested(levels + 1))
  {
    if levels > 0 {
      TruncatedLosesDeepest(levels - 1);
      TruncateOne(Property("a", Nested(levels)), levels - 1);
    }
    LosesProperty(Truncate(Nested(levels + 1), levels), Nested(levels + 1), 0);
  }

  /** The removal of a property on the sixth level passes. */
  lemma DeepRemovalPasses(path: string, verb: string, code: string)
    requires IsMethod(verb)
    ensures var base := OneBody(path, verb, code, Nested(MaxDepth + 2));
            var cur := OneBody(path, verb, code, Truncate(Nested(MaxDepth + 2), MaxDepth + 1));
            Breaking(FingerprintOf(base), FingerprintOf(cur)) == [] && !ExtendsSpec(cur, base)
  {
    DroppingDeepPartsPasses(path, verb, code, Nested(MaxDepth + 2));
    OneBodyExtends(path, verb, code, Nested(MaxDepth + 2), Truncate(Nested(MaxDepth + 2), MaxDepth + 1));
    TruncatedLosesDeepest(MaxDepth + 1);
  }

  // ---- Dotted names ----

  function Leaf(): Schema {
    Schema("integer", [], NoItems)
  }

  function WithNested(): Schema {
    Schema("", [Property("a", Schema("object", [Property("b", Leaf())], NoItems))], NoItems)
  }

  function WithDotted(): Schema {
    Schema("", [Property("a", Schema("object", [], NoItems)), Property("a.b", Leaf())], NoItems)
  }

  lemma DottedDoesNotExtend()
    ensures !Extends(WithDotted(), WithNested())
  {
    var nested, bare := WithNested().properties[0].schema, WithDotted().properties[0].schema;
    LosesProperty(bare, nested, 0);
    assert "a.b" != "a" by { assert |"a.b"| != |"a"|; }
    LosesProperty(WithDotted(), WithNested(), 0);
  }

  /** The removal of a nested property passes when a property with the dotted name takes its place. */
  lemma DottedRemovalPasses(path: string, verb: string, code: string)
    requires IsMethod(verb)
    ensures var base, cur := OneBody(path, verb, code, WithNested()), OneBody(path, verb, code, WithDotted());
            Breaking(FingerprintOf(base), FingerprintOf(cur)) == [] && !ExtendsSpec(cur, base)
  {
    DottedNameHidesARemoval(code, 0);
    GateComparesCollected(path, verb, code, WithNested(), WithDotted());
    OneBodyExtends(path, verb, code, WithNested(), WithDotted());
    DottedDoesNotExtend();
  }

  // ---- Content types ----

  /** The same body in two representations. */
  function TwoBodies(code: string, schema: Schema): Operation {
    Operation([Response(code, [Media("application/json", schema), Media("application/xml", schema)])])
  }

  lemma TwoBodiesFields(code: string, schema: Schema)
    ensures Fields(TwoBodies(code, schema)) == Fields(BodyOf(code, schema))
  {
    var m, n := Media("application/json", schema), Media("application/xml", schema);
    var r := Response(code, [m, n]);
    BodyFields(code, schema);
    assert [m][..0] == [] && [m, n][..1] == [m] && [r][..0] == [];
    assert MediaFields(code, [m]) == MediaFields(code, []) + Collect(schema, code, 0);
    assert MediaFields(code, [m, n]) == MediaFields(code, [m]) + Collect(schema, code, 0);
    assert ResponsesFields([r]) == ResponsesFields([]) + ResponseFields(r);
  }

  /** Dropping a content type passes, whatever the schema, as long as another one of the same status carries it. */
  lemma DroppedContentTypePasses(path: string, verb: string, code: string, schema: Schema)
    requires IsMethod(verb)
    ensures var base, cur := OneOperation(path, verb, TwoBodies(code, schema)), OneBody(path, verb, code, schema);
            Breaking(FingerprintOf(base), FingerprintOf(cur)) == [] && !ExtendsSpec(cur, base)
  {
    var base, cur := TwoBodies(code, schema), BodyOf(code, schema);
    TwoBodiesFields(code, schema);
    GateComparesFields(path, verb, base, cur);
    OneEndpoint(path, verb, base);
    OneEndpoint(path, verb, cur);
    assert "application/json" != "application/xml" by { assert |"application/json"| != |"application/xml"|; }
    assert !KeepsMedia(cur.responses[0].content, base.responses[0].content[1]);
    assert !KeepsResponse(cur.responses, base.responses[0]);
    assert !KeepsEndpoint([Endpoint(path, verb, cur)], [Endpoint(path, verb, base)][0]);
  }

  // ---- Types of items and bodies ----

  /** A body that is kept strictly promises each part of the old one. */
  lemma LosesPart(
      path: string, verb: string, code: string, base: Schema, cur: Schema, part: seq<Segment>, typ: string)
    requires IsMethod(verb) && Reaches(base, part, typ) && !Reaches(cur, part, typ)
    ensures !KeptStrictly(Endpoints(OneBody(path, verb, code, cur)), Endpoints(OneBody(path, verb, code, base))[0])
  {
    var before, after := BodyOf(code, base), BodyOf(code, cur);
    OneEndpoint(path, verb, before);
    OneEndpoint(path, verb, after);
    assert before.responses[0].content[0].schema == base && after.responses[0].content[0].schema == cur;
    assert MediaReaches(before.responses[0].content, "application/json", part, typ);
    assert PromisesPart(before, code, "application/json", part, typ);
    assert !PromisesPart(after, code, "application/json", part, typ);
  }

  /** An array property with items of this type. */
  function Tags(typ: string): Schema {
    Schema("object", [Property("tags", Schema("array", [], Items(Schema(typ, [], NoItems))))], NoItems)
  }

  lemma TagsItems(typ: string, found: string)
    requires typ != ""
    ensures Reaches(Tags(typ), [Name("tags"), Item], found) <==> found == typ
  {
    var p := [Name("tags"), Item];
    var tags := Tags(typ).properties[0].schema;
    assert p[1..] == [Item] && p[1..][1..] == [];
    assert Reaches(tags.items.schema, [], found) <==> found == typ;
    assert Reaches(tags, [Item], found) <==> found == typ;
    assert Tags(typ).properties[0].name == "tags";
  }

  lemma TagsFields(typ: string, prefix: string)
    ensures Collect(Tags(typ), prefix, 0) == {prefix + ".tags:array"}
  {
    var p := Tags(typ).properties[0];
    OneProperty("object", p, prefix, 0);
    assert CollectProperties([], prefix + ".tags", 1) == {};
    assert Collect(p.schema.items.schema, prefix + ".tags" + "[]", 2) == {};
    assert prefix + "." + "tags" == prefix + ".tags";
    assert Collect(p.schema, prefix + "." + p.name, 1) == {};
    assert FieldText(prefix, p) == prefix + ".tags:array";
  }

  /** A change of the items' type passes. */
  lemma RetypedItemsPass(path: string, verb: string, code: string, before: string, now: string)
    requires IsMethod(verb) && before != now && before != "" && now != ""
    ensures var base, cur := OneBody(path, verb, code, Tags(before)), OneBody(path, verb, code, Tags(now));
            Breaking(FingerprintOf(base), FingerprintOf(cur)) == [] && !KeptStrictly(Endpoints(cur), Endpoints(base)[0])
  {
    TagsFields(before, code);
    TagsFields(now, code);
    GateComparesCollected(path, verb, code, Tags(before), Tags(now));
    TagsItems(before, before);
    TagsItems(now, before);
    LosesPart(path, verb, code, Tags(before), Tags(now), [Name("tags"), Item], before);
  }

  /** A change of the body's own type passes too, whatever the body. */
  lemma RetypedBodyPasses(path: string, verb: string, code: string, schema: Schema, now: string)
    requires IsMethod(verb) && schema.Schema? && schema.typ != now && schema.typ != "" && now != ""
    ensures var base, cur := OneBody(path, verb, code, schema), OneBody(path, verb, code, schema.(typ := now));
            Breaking(FingerprintOf(base), FingerprintOf(cur)) == [] && !KeptStrictly(Endpoints(cur), Endpoints(base)[0])
  {
    assert Collect(schema, code, 0) == Collect(schema.(typ := now), code, 0);
    GateComparesCollected(path, verb, code, schema, schema.(typ := now));
    LosesPart(path, verb, code, schema, schema.(typ := now), [], schema.typ);
  }
}
