/** The contract gate: which fields a specification promises, and what a newer one takes back (bin/contract-diff.js). */
module ContractDiff {
  import opened Folding
  import opened SortedKeys

  // ---- Specifications ----

  /** A schema of an OpenAPI document; anything that is not an object promises nothing below it. An empty type text
      stands for a type that is absent or falsy. */
  datatype Schema = NotObject | Schema(typ: string, properties: seq<Property>, items: Items)

  datatype Property = Property(name: string, schema: Schema)

  datatype Items = NoItems | Items(schema: Schema)

  /** One `content` entry of a response. */
  datatype Media = Media(contentType: string, schema: Schema)

  datatype Response = Response(code: string, content: seq<Media>)

  datatype Operation = Operation(responses: seq<Response>)

  datatype Verb = Verb(name: string, operation: Operation)

  datatype PathItem = PathItem(path: string, verbs: seq<Verb>)

  datatype Spec = Spec(paths: seq<PathItem>)

  /** The deepest schema looked into. */
  const MaxDepth := 4

  function TypeOf(schema: Schema): string {
    if schema.NotObject? || schema.typ == "" then "any" else schema.typ
  }

  // ---- Collecting the fields of a schema ----

  function FieldText(prefix: string, p: Property): string {
    prefix + "." + p.name + ":" + TypeOf(p.schema)
  }

  function Levels(depth: nat): nat {
    if depth > MaxDepth then 0 else MaxDepth + 1 - depth
  }

  function Collect(schema: Schema, prefix: string, depth: nat): set<string>
    decreases Levels(depth), 1, 0
  {
    if schema.NotObject? || depth > MaxDepth then {}
    else CollectProperties(schema.properties, prefix, depth) + CollectItems(schema.items, prefix, depth)
  }

  function CollectProperties(properties: seq<Property>, prefix: string, depth: nat): set<string>
    requires depth <= MaxDepth
    decreases Levels(depth), 0, |properties|
  {
    if properties == [] then {}
    else
      var last := properties[|properties| - 1];
      CollectProperties(properties[..|properties| - 1], prefix, depth) + {FieldText(prefix, last)} +
      Collect(last.schema, prefix + "." + last.name, depth + 1)
  }

  function CollectItems(items: Items, prefix: string, depth: nat): set<string>
    requires depth <= MaxDepth
    decreases Levels(depth), 0, 0
  {
    if items.NoItems? then {} else Collect(items.schema, prefix + "[]", depth + 1)
  }

  /** The shared Set that the recursion adds to. */
  class FieldSet {
    var fields: set<string>

    constructor ()
      ensures fields == {}
    {
      fields := {};
    }

    method CollectInto(schema: Schema, prefix: string, depth: nat)
      modifies this
      ensures fields == old(fields) + Collect(schema, prefix, depth)
      decreases Levels(depth)
    {
      if schema.NotObject? || depth > MaxDepth {
        return;
      }
      var i := 0;
      while i < |schema.properties|
        invariant 0 <= i <= |schema.properties|
        invariant fields == old(fields) + CollectProperties(schema.properties[..i], prefix, depth)
      {
        var p := schema.properties[i];
        assert schema.properties[..i + 1][..i] == schema.properties[..i];
        fields := fields + {FieldText(prefix, p)};
        CollectInto(p.schema, prefix + "." + p.name, depth + 1);
        i := i + 1;
      }
      assert schema.properties[..|schema.properties|] == schema.properties;
      if schema.items.Items? {
        CollectInto(schema.items.schema, prefix + "[]", depth + 1);
      }
    }

    method CollectResponse(response: Response)
      modifies this
      ensures fields == old(fields) + ResponseFields(response)
    {
      fields := fields + {"status:" + response.code};
      var content := response.content;
      for i := 0 to |content|
        invariant fields == old(fields) + {"status:" + response.code} + MediaFields(response.code, content[..i])
      {
        assert content[..i + 1][..i] == content[..i];
        CollectInto(content[i].schema, response.code, 0);
      }
      assert content[..|content|] == content;
    }
  }

  // ---- Fingerprints ----

  function MediaFields(code: string, content: seq<Media>): set<string> {
    if content == [] then {}
    else MediaFields(code, content[..|content| - 1]) + Collect(content[|content| - 1].schema, code, 0)
  }

  function ResponseFields(response: Response): set<string> {
    {"status:" + response.code} + MediaFields(response.code, response.content)
  }

  function ResponsesFields(responses: seq<Response>): set<string> {
    if responses == [] then {}
    else ResponsesFields(responses[..|responses| - 1]) + ResponseFields(responses[|responses| - 1])
  }

  function Fields(operation: Operation): set<string> {
    ResponsesFields(operation.responses)
  }

  function UpperChar(c: char): char {
    if 'a' <= c <= 'z' then (c as int - 32) as char else c
  }

  function Upper(s: string): (r: string)
    ensures |r| == |s| && forall i :: 0 <= i < |s| ==> r[i] == UpperChar(s[i])
  {
    seq(|s|, i requires 0 <= i < |s| => UpperChar(s[i]))
  }

  /** The METHODS pattern, case ignored. */
  predicate IsMethod(s: string) {
    Upper(s) in ["GET", "POST", "PUT", "PATCH", "DELETE", "HEAD", "OPTIONS"]
  }

  /** An endpoint of a specification. */
  datatype Endpoint = Endpoint(path: string, verb: string, operation: Operation)

  function KeyOf(e: Endpoint): string {
    Upper(e.verb) + " " + e.path
  }

  function EndpointsOfPath(path: string, verbs: seq<Verb>): seq<Endpoint> {
    if verbs == [] then []
    else
      var n := |verbs| - 1;
      var front := EndpointsOfPath(path, verbs[..n]);
      if IsMethod(verbs[n].name) then front + [Endpoint(path, verbs[n].name, verbs[n].operation)] else front
  }

  function EndpointsOf(paths: seq<PathItem>): seq<Endpoint> {
    if paths == [] then []
    else
      var n := |paths| - 1;
      EndpointsOf(paths[..n]) + EndpointsOfPath(paths[n].path, paths[n].verbs)
  }

  function Endpoints(spec: Spec): seq<Endpoint> {
    EndpointsOf(spec.paths)
  }

  /** One property of a fingerprint object: an endpoint and its sorted fields. */
  datatype Entry = Entry(key: string, fields: seq<string>)

  type Print = seq<Entry>

  function Find(table: Print, key: string): (k: nat)
    ensures k <= |table|
    ensures k < |table| ==> table[k].key == key
    ensures forall i :: 0 <= i < k ==> table[i].key != key
    decreases |table|
  {
    if table == [] then 0
    else if table[0].key == key then 0
    else
      var k := Find(table[1..], key);
      assert forall i :: 0 < i < k + 1 ==> table[i] == table[1..][i - 1];
      k + 1
  }

  predicate HasKey(table: Print, key: string) {
    Find(table, key) < |table|
  }

  function FieldsAt(table: Print, key: string): seq<string>
    requires HasKey(table, key)
  {
    table[Find(table, key)].fields
  }

  /** Property assignment: an existing key keeps its position. */
  function Assign(table: Print, e: Entry): Print {
    var k := Find(table, e.key);
    if k < |table| then table[k := e] else table + [e]
  }

  function EntryOf(e: Endpoint): Entry {
    Entry(KeyOf(e), Sorted(Fields(e.operation)))
  }

  function AssignEndpoint(table: Print, e: Endpoint): Print {
    Assign(table, EntryOf(e))
  }

  /** The rows of some endpoints assigned to a table one after the other. */
  function AssignAll(table: Print, endpoints: seq<Endpoint>): Print {
    FoldLeft(AssignEndpoint, table, endpoints)
  }

  function PrintOf(endpoints: seq<Endpoint>): Print {
    AssignAll([], endpoints)
  }

  lemma AssignOneMore(table: Print, endpoints: seq<Endpoint>, e: Endpoint)
    ensures AssignAll(table, endpoints + [e]) == Assign(AssignAll(table, endpoints), EntryOf(e))
  {
    FoldOneMore(AssignEndpoint, table, endpoints, e);
  }

  /** A fingerprint from its last endpoint. */
  lemma PrintUnrolls(endpoints: seq<Endpoint>)
    requires endpoints != []
    ensures PrintOf(endpoints) == Assign(PrintOf(endpoints[..|endpoints| - 1]), EntryOf(endpoints[|endpoints| - 1]))
  {
    var n := |endpoints| - 1;
    assert endpoints[..n] + [endpoints[n]] == endpoints;
    AssignOneMore([], endpoints[..n], endpoints[n]);
  }

  function FingerprintOf(spec: Spec): Print {
    PrintOf(Endpoints(spec))
  }

  method CollectOperation(operation: Operation) returns (fields: set<string>)
    ensures fields == Fields(operation)
  {
    var collected := new FieldSet();
    var responses := operation.responses;
    for i := 0 to |responses|
      invariant collected.fields == ResponsesFields(responses[..i])
    {
      assert responses[..i + 1][..i] == responses[..i];
      collected.CollectResponse(responses[i]);
    }
    assert responses[..|responses|] == responses;
    fields := collected.fields;
  }

  method FingerprintPath(path: string, verbs: seq<Verb>, start: Print) returns (out: Print)
    ensures out == AssignAll(start, EndpointsOfPath(path, verbs))
  {
    out := start;
    for j := 0 to |verbs|
      invariant out == AssignAll(start, EndpointsOfPath(path, verbs[..j]))
    {
      assert verbs[..j + 1][..j] == verbs[..j];
      var verb := verbs[j];
      if IsMethod(verb.name) {
        var fields := CollectOperation(verb.operation);
        AssignOneMore(start, EndpointsOfPath(path, verbs[..j]), Endpoint(path, verb.name, verb.operation));
        out := Assign(out, Entry(Upper(verb.name) + " " + path, Sorted(fields)));
      }
    }
    assert verbs[..|verbs|] == verbs;
  }

  method Fingerprint(spec: Spec) returns (out: Print)
    ensures out == FingerprintOf(spec)
  {
    out := [];
    for i := 0 to |spec.paths|
      invariant out == PrintOf(EndpointsOf(spec.paths[..i]))
    {
      assert spec.paths[..i + 1][..i] == spec.paths[..i];
      FoldSplits(AssignEndpoint, [], EndpointsOf(spec.paths[..i]),
        EndpointsOfPath(spec.paths[i].path, spec.paths[i].verbs));
      out := FingerprintPath(spec.paths[i].path, spec.paths[i].verbs, out);
    }
    assert spec.paths[..|spec.paths|] == spec.paths;
  }

  // ---- Differences ----

  /** The fields of a list that are not among the others, each with its message. */
  function Missing(intro: string, fields: seq<string>, others: seq<string>): seq<string> {
    if fields == [] then []
    else
      var n := |fields| - 1;
      var front := Missing(intro, fields[..n], others);
      if fields[n] in others then front else front + [intro + fields[n]]
  }

  function BreakingOf(e: Entry, cur: Print): seq<string> {
    if !HasKey(cur, e.key) then ["removed endpoint: " + e.key]
    else Missing(e.key + ": removed or retyped ", e.fields, FieldsAt(cur, e.key))
  }

  function AdditiveOf(e: Entry, cur: Print): seq<string> {
    if !HasKey(cur, e.key) then [] else Missing(e.key + ": new ", FieldsAt(cur, e.key), e.fields)
  }

  function Breaking(base: Print, cur: Print): seq<string> {
    if base == [] then [] else Breaking(base[..|base| - 1], cur) + BreakingOf(base[|base| - 1], cur)
  }

  function NewFields(base: Print, cur: Print): seq<string> {
    if base == [] then [] else NewFields(base[..|base| - 1], cur) + AdditiveOf(base[|base| - 1], cur)
  }

  function NewEndpoints(base: Print, cur: Print): seq<string> {
    if cur == [] then []
    else
      var n := |cur| - 1;
      var front := NewEndpoints(base, cur[..n]);
      if HasKey(base, cur[n].key) then front else front + ["new endpoint: " + cur[n].key]
  }

  method ListMissing(intro: string, fields: seq<string>, others: seq<string>, start: seq<string>)
    returns (found: seq<string>)
    ensures found == start + Missing(intro, fields, others)
  {
    found := start;
    for i := 0 to |fields|
      invariant found == start + Missing(intro, fields[..i], others)
    {
      assert fields[..i + 1][..i] == fields[..i];
      if fields[i] !in others {
        found := found + [intro + fields[i]];
      }
    }
    assert fields[..|fields|] == fields;
  }

  method ListNewEndpoints(base: Print, cur: Print, start: seq<string>) returns (found: seq<string>)
    ensures found == start + NewEndpoints(base, cur)
  {
    found := start;
    for i := 0 to |cur|
      invariant found == start + NewEndpoints(base, cur[..i])
    {
      assert cur[..i + 1][..i] == cur[..i];
      if !HasKey(base, cur[i].key) {
        found := found + ["new endpoint: " + cur[i].key];
      }
    }
    assert cur[..|cur|] == cur;
  }

  /** The findings about one endpoint of the baseline. */
  method DiffEndpoint(e: Entry, cur: Print) returns (breaking: seq<string>, additive: seq<string>)
    ensures breaking == BreakingOf(e, cur) && additive == AdditiveOf(e, cur)
  {
    if !HasKey(cur, e.key) {
      return ["removed endpoint: " + e.key], [];
    }
    breaking := ListMissing(e.key + ": removed or retyped ", e.fields, FieldsAt(cur, e.key), []);
    additive := ListMissing(e.key + ": new ", FieldsAt(cur, e.key), e.fields, []);
  }

  method Diff(base: Print, cur: Print) returns (breaking: seq<string>, additive: seq<string>)
    ensures breaking == Breaking(base, cur)
    ensures additive == NewFields(base, cur) + NewEndpoints(base, cur)
  {
    breaking, additive := [], [];
    for i := 0 to |base|
      invariant breaking == Breaking(base[..i], cur)
      invariant additive == NewFields(base[..i], cur)
    {
      assert base[..i + 1][..i] == base[..i];
      var b, a := DiffEndpoint(base[i], cur);
      breaking, additive := breaking + b, additive + a;
    }
    assert base[..|base|] == base;
    additive := ListNewEndpoints(base, cur, additive);
  }
}
