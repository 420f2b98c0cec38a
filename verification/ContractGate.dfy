/** What the contract gate decides: additive releases pass, anything the fingerprint sees removed or retyped does not,
    and what the fingerprint cannot see (bin/contract-diff.js). */
module ContractGate {
  import opened SortedKeys
  import opened Text
  import opened ContractDiff

  // ---- One schema extends another ----

  /** Every property and item schema is kept, with its type, at every depth. */
  ghost predicate Extends(cur: Schema, base: Schema)
    decreases base
  {
    base.NotObject? ||
    (cur.Schema? &&
     (forall i :: 0 <= i < |base.properties| ==> KeepsProperty(cur.properties, base.properties[i])) &&
     (base.items.Items? ==> cur.items.Items? && Extends(cur.items.schema, base.items.schema)))
  }

  ghost predicate KeepsProperty(properties: seq<Property>, p: Property)
    decreases p
  {
    exists j :: 0 <= j < |properties| && properties[j].name == p.name &&
      TypeOf(properties[j].schema) == TypeOf(p.schema) && Extends(properties[j].schema, p.schema)
  }

  lemma {:induction false} CollectPropertiesHas(properties: seq<Property>, prefix: string, depth: nat, j: nat)
    requires depth <= MaxDepth && j < |properties|
    ensures FieldText(prefix, properties[j]) in CollectProperties(properties, prefix, depth)
    ensures Collect(properties[j].schema, prefix + "." + properties[j].name, depth + 1) <=
            CollectProperties(properties, prefix, depth)
  {
    var n := |properties| - 1;
    if j < n {
      CollectPropertiesHas(properties[..n], prefix, depth, j);
    }
  }

  /** The fields of a property are among those of any list that keeps it. */
  lemma KeptPropertyCollected(properties: seq<Property>, p: Property, prefix: string, depth: nat)
    requires depth <= MaxDepth && KeepsProperty(properties, p)
    ensures FieldText(prefix, p) in CollectProperties(properties, prefix, depth)
    ensures Collect(p.schema, prefix + "." + p.name, depth + 1) <= CollectProperties(properties, prefix, depth)
    decreases Levels(depth), 0, 0
  {
    var j :| 0 <= j < |properties| && properties[j].name == p.name &&
      TypeOf(properties[j].schema) == TypeOf(p.schema) && Extends(properties[j].schema, p.schema);
    CollectPropertiesHas(properties, prefix, depth, j);
    CollectGrows(properties[j].schema, p.schema, prefix + "." + p.name, depth + 1);
  }

  /** The property's own field and those below it are among the fields. */
  ghost predicate Within(p: Property, prefix: string, depth: nat, fields: set<string>) {
    FieldText(prefix, p) in fields && Collect(p.schema, prefix + "." + p.name, depth + 1) <= fields
  }

  lemma {:induction false} CollectPropertiesWithin(
      properties: seq<Property>, prefix: string, depth: nat, fields: set<string>)
    requires depth <= MaxDepth && forall i :: 0 <= i < |properties| ==> Within(properties[i], prefix, depth, fields)
    ensures CollectProperties(properties, prefix, depth) <= fields
  {
    if properties != [] {
      var n := |properties| - 1;
      assert forall i :: 0 <= i < n ==> properties[..n][i] == properties[i];
      CollectPropertiesWithin(properties[..n], prefix, depth, fields);
      assert Within(properties[n], prefix, depth, fields);
    }
  }

  lemma CollectPropertiesGrows(cur: seq<Property>, base: seq<Property>, prefix: string, depth: nat)
    requires depth <= MaxDepth && forall i :: 0 <= i < |base| ==> KeepsProperty(cur, base[i])
    ensures CollectProperties(base, prefix, depth) <= CollectProperties(cur, prefix, depth)
    decreases Levels(depth), 1, 0
  {
    var fields := CollectProperties(cur, prefix, depth);
    forall i | 0 <= i < |base|
      ensures Within(base[i], prefix, depth, fields)
    {
      KeptPropertyCollected(cur, base[i], prefix, depth);
    }
    CollectPropertiesWithin(base, prefix, depth, fields);
  }

  /** A schema that extends another promises all its fields, wherever the depth cut falls. */
  lemma {:induction false} CollectGrows(cur: Schema, base: Schema, prefix: string, depth: nat)
    requires Extends(cur, base)
    ensures Collect(base, prefix, depth) <= Collect(cur, prefix, depth)
    decreases Levels(depth), 2, 0
  {
    if base.Schema? && depth <= MaxDepth {
      CollectPropertiesGrows(cur.properties, base.properties, prefix, depth);
      if base.items.Items? { CollectGrows(cur.items.schema, base.items.schema, prefix + "[]", depth + 1); }
    }
  }

  // ---- One specification extends another ----

  ghost predicate KeepsMedia(content: seq<Media>, m: Media) {
    exists j :: 0 <= j < |content| && content[j].contentType == m.contentType && Extends(content[j].schema, m.schema)
  }

  ghost predicate KeepsResponse(responses: seq<Response>, r: Response) {
    exists j :: 0 <= j < |responses| && responses[j].code == r.code &&
      forall i :: 0 <= i < |r.content| ==> KeepsMedia(responses[j].content, r.content[i])
  }

  ghost predicate KeepsOperation(cur: Operation, base: Operation) {
    forall i :: 0 <= i < |base.responses| ==> KeepsResponse(cur.responses, base.responses[i])
  }

  ghost predicate KeepsEndpoint(endpoints: seq<Endpoint>, e: Endpoint) {
    exists j :: 0 <= j < |endpoints| && endpoints[j].path == e.path && Upper(endpoints[j].verb) == Upper(e.verb) &&
      KeepsOperation(endpoints[j].operation, e.operation)
  }

  /** Every endpoint, response, media type and schema of the old specification is kept by the new one. */
  ghost predicate ExtendsSpec(cur: Spec, base: Spec) {
    forall i :: 0 <= i < |Endpoints(base)| ==> KeepsEndpoint(Endpoints(cur), Endpoints(base)[i])
  }

  /** No path lists a method twice in different case. */
  ghost predicate DistinctMethods(endpoints: seq<Endpoint>) {
    forall i, j :: 0 <= i < j < |endpoints| && endpoints[i].path == endpoints[j].path ==>
      Upper(endpoints[i].verb) != Upper(endpoints[j].verb)
  }

  lemma {:induction false} MediaFieldsHas(code: string, content: seq<Media>, j: nat)
    requires j < |content|
    ensures Collect(content[j].schema, code, 0) <= MediaFields(code, content)
  {
    if j < |content| - 1 { MediaFieldsHas(code, content[..|content| - 1], j); }
  }

  lemma {:induction false} MediaFieldsGrow(code: string, cur: seq<Media>, base: seq<Media>)
    requires forall i :: 0 <= i < |base| ==> KeepsMedia(cur, base[i])
    ensures MediaFields(code, base) <= MediaFields(code, cur)
  {
    if base != [] {
      var n := |base| - 1;
      assert forall i :: 0 <= i < n ==> base[..n][i] == base[i];
      MediaFieldsGrow(code, cur, base[..n]);
      assert KeepsMedia(cur, base[n]);
      var j :| 0 <= j < |cur| && cur[j].contentType == base[n].contentType && Extends(cur[j].schema, base[n].schema);
      CollectGrows(cur[j].schema, base[n].schema, code, 0);
      MediaFieldsHas(code, cur, j);
    }
  }

  lemma {:induction false} ResponsesFieldsHas(responses: seq<Response>, j: nat)
    requires j < |responses|
    ensures ResponseFields(responses[j]) <= ResponsesFields(responses)
  {
    if j < |responses| - 1 { ResponsesFieldsHas(responses[..|responses| - 1], j); }
  }

  lemma {:induction false} ResponsesFieldsGrow(cur: seq<Response>, base: seq<Response>)
    requires forall i :: 0 <= i < |base| ==> KeepsResponse(cur, base[i])
    ensures ResponsesFields(base) <= ResponsesFields(cur)
  {
    if base != [] {
      var n := |base| - 1;
      assert forall i :: 0 <= i < n ==> base[..n][i] == base[i];
      ResponsesFieldsGrow(cur, base[..n]);
      assert KeepsResponse(cur, base[n]);
      var j :| 0 <= j < |cur| && cur[j].code == base[n].code &&
        forall i :: 0 <= i < |base[n].content| ==> KeepsMedia(cur[j].content, base[n].content[i]);
      MediaFieldsGrow(base[n].code, cur[j].content, base[n].content);
      ResponsesFieldsHas(cur, j);
    }
  }

  // ---- Fingerprints as tables ----

  lemma SpaceNotInMethod(verb: string)
    requires IsMethod(verb)
    ensures ' ' !in Upper(verb)
  {
  }

  lemma KeysAreDistinct(a: Endpoint, b: Endpoint)
    requires IsMethod(a.verb) && IsMethod(b.verb) && KeyOf(a) == KeyOf(b)
    ensures a.path == b.path && Upper(a.verb) == Upper(b.verb)
  {
    SpaceNotInMethod(a.verb);
    SpaceNotInMethod(b.verb);
    FirstSeparatorSplits(Upper(a.verb), a.path, Upper(b.verb), b.path, ' ');
  }

  ghost predicate ProperMethods(endpoints: seq<Endpoint>) {
    forall i :: 0 <= i < |endpoints| ==> IsMethod(endpoints[i].verb)
  }

  lemma {:induction false} PathMethodsAreProper(path: string, verbs: seq<Verb>)
    ensures ProperMethods(EndpointsOfPath(path, verbs))
  {
    if verbs != [] { PathMethodsAreProper(path, verbs[..|verbs| - 1]); }
  }

  lemma {:induction false} MethodsAreProper(paths: seq<PathItem>)
    ensures ProperMethods(EndpointsOf(paths))
  {
    if paths != [] {
      var n := |paths| - 1;
      MethodsAreProper(paths[..n]);
      PathMethodsAreProper(paths[n].path, paths[n].verbs);
    }
  }

  lemma AssignedEntry(table: Print, e: Entry, key: string)
    ensures HasKey(Assign(table, e), key) <==> HasKey(table, key) || key == e.key
    ensures HasKey(Assign(table, e), key) ==>
              FieldsAt(Assign(table, e), key) == if key == e.key then e.fields else FieldsAt(table, key)
  {
    var after := Assign(table, e);
    var k, a, b := Find(table, e.key), Find(after, key), Find(table, key);
    assert b < |table| ==> after[b].key == key;
    assert key == e.key && k == |table| ==> after[k].key == key;
    assert a < |table| ==> table[a].key == key;
  }

  /** Each row of a fingerprint is that of some endpoint, and every row can be found under its key. */
  lemma {:induction false} RowsAreEndpoints(endpoints: seq<Endpoint>, k: nat)
    requires k < |PrintOf(endpoints)|
    ensures exists i :: 0 <= i < |endpoints| && EntryOf(endpoints[i]) == PrintOf(endpoints)[k]
  {
    var n := |endpoints| - 1;
    var before := PrintOf(endpoints[..n]);
    PrintUnrolls(endpoints);
    if k < |before| && PrintOf(endpoints)[k] == before[k] {
      RowsAreEndpoints(endpoints[..n], k);
      var i :| 0 <= i < n && EntryOf(endpoints[..n][i]) == before[k];
      assert EntryOf(endpoints[i]) == PrintOf(endpoints)[k];
    } else {
      assert EntryOf(endpoints[n]) == PrintOf(endpoints)[k];
    }
  }

  /** The endpoint's own row, found under its key. */
  ghost predicate HasRow(table: Print, e: Endpoint) {
    HasKey(table, KeyOf(e)) && FieldsAt(table, KeyOf(e)) == Sorted(Fields(e.operation))
  }

  lemma NewRowFound(table: Print, e: Endpoint)
    ensures HasRow(Assign(table, EntryOf(e)), e)
  {
    AssignedEntry(table, EntryOf(e), KeyOf(e));
  }

  lemma OtherRowStays(table: Print, e: Endpoint, last: Endpoint)
    requires HasRow(table, e) && KeyOf(e) != KeyOf(last)
    ensures HasRow(Assign(table, EntryOf(last)), e)
  {
    AssignedEntry(table, EntryOf(last), KeyOf(e));
  }

  lemma KeysDiffer(endpoints: seq<Endpoint>, i: nat, j: nat)
    requires i < j < |endpoints| && ProperMethods(endpoints) && DistinctMethods(endpoints)
    ensures KeyOf(endpoints[i]) != KeyOf(endpoints[j])
  {
    if KeyOf(endpoints[i]) == KeyOf(endpoints[j]) { KeysAreDistinct(endpoints[i], endpoints[j]); }
  }

  lemma FrontIsDistinct(endpoints: seq<Endpoint>)
    requires endpoints != [] && ProperMethods(endpoints) && DistinctMethods(endpoints)
    ensures ProperMethods(endpoints[..|endpoints| - 1]) && DistinctMethods(endpoints[..|endpoints| - 1])
  {
    var front := endpoints[..|endpoints| - 1];
    assert forall j :: 0 <= j < |front| ==> front[j] == endpoints[j];
  }

  /** With distinct methods every endpoint has its own row. */
  lemma {:induction false} EndpointsHaveRows(endpoints: seq<Endpoint>, i: nat)
    requires i < |endpoints| && ProperMethods(endpoints) && DistinctMethods(endpoints)
    ensures HasRow(PrintOf(endpoints), endpoints[i])
  {
    var n := |endpoints| - 1;
    PrintUnrolls(endpoints);
    if i == n {
      NewRowFound(PrintOf(endpoints[..n]), endpoints[n]);
    } else {
      FrontIsDistinct(endpoints);
      EndpointsHaveRows(endpoints[..n], i);
      KeysDiffer(endpoints, i, n);
      OtherRowStays(PrintOf(endpoints[..n]), endpoints[i], endpoints[n]);
    }
  }

  /** The table keeps a row: the endpoint is there with at least those fields. */
  ghost predicate KeepsEntry(table: Print, e: Entry) {
    HasKey(table, e.key) && forall f :: f in e.fields ==> f in FieldsAt(table, e.key)
  }

  ghost predicate Keeps(cur: Print, base: Print) {
    forall k :: 0 <= k < |base| ==> KeepsEntry(cur, base[k])
  }

  lemma KeptEndpointKeepsRow(endpoints: seq<Endpoint>, e: Endpoint)
    requires ProperMethods(endpoints) && DistinctMethods(endpoints) && KeepsEndpoint(endpoints, e)
    ensures KeepsEntry(PrintOf(endpoints), EntryOf(e))
  {
    var j :| 0 <= j < |endpoints| && endpoints[j].path == e.path && Upper(endpoints[j].verb) == Upper(e.verb) &&
      KeepsOperation(endpoints[j].operation, e.operation);
    EndpointsHaveRows(endpoints, j);
    assert KeyOf(endpoints[j]) == KeyOf(e);
    ResponsesFieldsGrow(endpoints[j].operation.responses, e.operation.responses);
  }

  /** An extension keeps every row of the fingerprint. */
  lemma FingerprintGrows(cur: Spec, base: Spec)
    requires ExtendsSpec(cur, base) && DistinctMethods(Endpoints(cur))
    ensures Keeps(FingerprintOf(cur), FingerprintOf(base))
  {
    var rows := FingerprintOf(base);
    MethodsAreProper(cur.paths);
    forall k | 0 <= k < |rows|
      ensures KeepsEntry(FingerprintOf(cur), rows[k])
    {
      RowsAreEndpoints(Endpoints(base), k);
      var i :| 0 <= i < |Endpoints(base)| && EntryOf(Endpoints(base)[i]) == rows[k];
      KeptEndpointKeepsRow(Endpoints(cur), Endpoints(base)[i]);
    }
  }

  // ---- The gate ----

  lemma {:induction false} NothingMissing(intro: string, fields: seq<string>, others: seq<string>)
    ensures Missing(intro, fields, others) == [] <==> forall f :: f in fields ==> f in others
  {
    if fields != [] {
      var n := |fields| - 1;
      NothingMissing(intro, fields[..n], others);
      assert fields == fields[..n] + [fields[n]];
    }
  }

  lemma NothingBreakingAt(e: Entry, cur: Print)
    ensures BreakingOf(e, cur) == [] <==> KeepsEntry(cur, e)
  {
    if HasKey(cur, e.key) { NothingMissing(e.key + ": removed or retyped ", e.fields, FieldsAt(cur, e.key)); }
  }

  /** The gate passes exactly when every endpoint and every field of the baseline is still there. */
  lemma {:induction false} GatePassesExactlyWhenKept(base: Print, cur: Print)
    ensures Breaking(base, cur) == [] <==> Keeps(cur, base)
  {
    if base != [] {
      var n := |base| - 1;
      GatePassesExactlyWhenKept(base[..n], cur);
      NothingBreakingAt(base[n], cur);
      assert Keeps(cur, base) <==> Keeps(cur, base[..n]) && KeepsEntry(cur, base[n]) by {
        assert forall k :: 0 <= k < n ==> base[..n][k] == base[k];
      }
    }
  }

  /** Additive changes never fail the gate. */
  lemma AdditiveReleasePasses(cur: Spec, base: Spec)
    requires ExtendsSpec(cur, base) && DistinctMethods(Endpoints(cur))
    ensures Breaking(FingerprintOf(base), FingerprintOf(cur)) == []
  {
    FingerprintGrows(cur, base);
    GatePassesExactlyWhenKept(FingerprintOf(base), FingerprintOf(cur));
  }

  lemma KeepsIsTransitive(a: Print, b: Print, c: Print)
    requires Keeps(b, a) && Keeps(c, b)
    ensures Keeps(c, a)
  {
    forall k | 0 <= k < |a|
      ensures KeepsEntry(c, a[k])
    {
      assert KeepsEntry(b, a[k]);
      assert KeepsEntry(c, b[Find(b, a[k].key)]);
    }
  }

  ghost predicate DistinctRows(table: Print) {
    forall i, j :: 0 <= i < j < |table| ==> table[i].key != table[j].key
  }

  lemma AssignKeepsDistinct(table: Print, e: Entry)
    requires DistinctRows(table)
    ensures DistinctRows(Assign(table, e))
  {
  }

  lemma {:induction false} PrintIsDistinct(endpoints: seq<Endpoint>)
    ensures DistinctRows(PrintOf(endpoints))
  {
    if endpoints != [] {
      var n := |endpoints| - 1;
      PrintIsDistinct(endpoints[..n]);
      PrintUnrolls(endpoints);
      AssignKeepsDistinct(PrintOf(endpoints[..n]), EntryOf(endpoints[n]));
    }
  }

  lemma KeepsItself(table: Print)
    requires DistinctRows(table)
    ensures Keeps(table, table)
  {
    forall k | 0 <= k < |table|
      ensures KeepsEntry(table, table[k])
    {
      var i := Find(table, table[k].key);
      assert i <= k;
      assert i == k;
    }
  }

  /** Each release extends the one before. */
  ghost predicate Additive(releases: seq<Spec>) {
    forall k :: 0 < k < |releases| ==>
      ExtendsSpec(releases[k], releases[k - 1]) && DistinctMethods(Endpoints(releases[k]))
  }

  lemma {:induction false} KeepsAlong(tables: seq<Print>, i: nat, j: nat)
    requires i <= j < |tables| && DistinctRows(tables[i])
    requires forall k :: 0 < k < |tables| ==> Keeps(tables[k], tables[k - 1])
    ensures Keeps(tables[j], tables[i])
  {
    if i == j {
      KeepsItself(tables[i]);
    } else {
      KeepsAlong(tables, i, j - 1);
      KeepsIsTransitive(tables[i], tables[j - 1], tables[j]);
    }
  }

  /** A chain of additive releases passes the gate between any two of them. */
  lemma ChainOfReleasesPasses(releases: seq<Spec>, i: nat, j: nat)
    requires i <= j < |releases| && Additive(releases)
    ensures Breaking(FingerprintOf(releases[i]), FingerprintOf(releases[j])) == []
  {
    var tables := seq(|releases|, k requires 0 <= k < |releases| => FingerprintOf(releases[k]));
    forall k | 0 < k < |tables|
      ensures Keeps(tables[k], tables[k - 1])
    {
      FingerprintGrows(releases[k], releases[k - 1]);
    }
    PrintIsDistinct(Endpoints(releases[i]));
    KeepsAlong(tables, i, j);
    GatePassesExactlyWhenKept(tables[i], tables[j]);
  }

  // ---- Methods in two cases ----

  lemma OnePath(path: string, verbs: seq<Verb>)
    ensures Endpoints(Spec([PathItem(path, verbs)])) == EndpointsOfPath(path, verbs)
  {
    var paths := [PathItem(path, verbs)];
    assert paths[..|paths| - 1] == [];
    assert EndpointsOf(paths) == EndpointsOf([]) + EndpointsOfPath(path, verbs);
  }

  lemma VerbAppended(path: string, verbs: seq<Verb>, v: Verb)
    requires IsMethod(v.name)
    ensures EndpointsOfPath(path, verbs + [v]) == EndpointsOfPath(path, verbs) + [Endpoint(path, v.name, v.operation)]
  {
    assert (verbs + [v])[..|verbs|] == verbs;
  }

  lemma TwoCases(path: string, verb: string, variant: string, operation: Operation)
    requires IsMethod(verb) && Upper(variant) == Upper(verb)
    ensures var e, shadow := Endpoint(path, verb, operation), Endpoint(path, variant, Operation([]));
            Endpoints(Spec([PathItem(path, [Verb(verb, operation)])])) == [e] &&
            Endpoints(Spec([PathItem(path, [Verb(verb, operation), Verb(variant, Operation([]))])])) == [e, shadow]
  {
    var v, w := Verb(verb, operation), Verb(variant, Operation([]));
    OnePath(path, [v]);
    OnePath(path, [v, w]);
    VerbAppended(path, [], v);
    VerbAppended(path, [v], w);
    assert [] + [v] == [v] && [v] + [w] == [v, w];
  }

  lemma {:induction false} ExtendsItself(schema: Schema)
    ensures Extends(schema, schema)
    decreases schema
  {
    if schema.Schema? {
      forall i | 0 <= i < |schema.properties|
        ensures KeepsProperty(schema.properties, schema.properties[i])
      {
        ExtendsItself(schema.properties[i].schema);
      }
      if schema.items.Items? { ExtendsItself(schema.items.schema); }
    }
  }

  lemma OperationKeepsItself(operation: Operation)
    ensures KeepsOperation(operation, operation)
  {
    forall i | 0 <= i < |operation.responses|
      ensures KeepsResponse(operation.responses, operation.responses[i])
    {
      var r := operation.responses[i];
      forall j | 0 <= j < |r.content|
        ensures KeepsMedia(r.content, r.content[j])
      {
        ExtendsItself(r.content[j].schema);
      }
    }
  }

  lemma LastSpellingWins(e: Endpoint, shadow: Endpoint)
    requires KeyOf(shadow) == KeyOf(e)
    ensures PrintOf([e]) == [EntryOf(e)] && PrintOf([e, shadow]) == [EntryOf(shadow)]
  {
    AssignOneMore([], [], e);
    AssignOneMore([], [e], shadow);
    assert [] + [e] == [e] && [e] + [shadow] == [e, shadow];
    assert [EntryOf(e)][0 := EntryOf(shadow)] == [EntryOf(shadow)];
  }

  lemma ShadowLoses(e: Endpoint, shadow: Endpoint)
    requires KeyOf(shadow) == KeyOf(e) && Fields(e.operation) != {} && Fields(shadow.operation) == {}
    ensures Breaking([EntryOf(e)], [EntryOf(shadow)]) != []
  {
    var base, cur := [EntryOf(e)], [EntryOf(shadow)];
    var f :| f in Fields(e.operation);
    assert f in base[0].fields && f !in FieldsAt(cur, base[0].key);
    assert !KeepsEntry(cur, base[0]);
    GatePassesExactlyWhenKept(base, cur);
  }

  lemma ShadowedStillKept(e: Endpoint, shadow: Endpoint)
    ensures KeepsEndpoint([e, shadow], e)
  {
    OperationKeepsItself(e.operation);
    assert [e, shadow][0] == e;
  }

  lemma ShadowedBreaks(e: Endpoint, shadow: Endpoint)
    requires KeyOf(shadow) == KeyOf(e) && Fields(e.operation) != {} && Fields(shadow.operation) == {}
    ensures Breaking(PrintOf([e]), PrintOf([e, shadow])) != []
  {
    LastSpellingWins(e, shadow);
    ShadowLoses(e, shadow);
  }

  /** The premise on methods is needed: adding the same method in another case, with nothing in it, keeps every endpoint
      and fails the gate, because the last spelling overwrites the row. */
  lemma SecondSpellingFailsTheGate(path: string, verb: string, variant: string, operation: Operation)
    requires IsMethod(verb) && Upper(variant) == Upper(verb) && Fields(operation) != {}
    ensures var base := Spec([PathItem(path, [Verb(verb, operation)])]);
            var cur := Spec([PathItem(path, [Verb(verb, operation), Verb(variant, Operation([]))])]);
            ExtendsSpec(cur, base) && Breaking(FingerprintOf(base), FingerprintOf(cur)) != []
  {
    var e, shadow := Endpoint(path, verb, operation), Endpoint(path, variant, Operation([]));
    TwoCases(path, verb, variant, operation);
    ShadowedStillKept(e, shadow);
    ShadowedBreaks(e, shadow);
  }
}
