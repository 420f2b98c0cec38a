/** What a passing contract gate says about the two specifications (bin/contract-diff.js): exactly when nothing
    breaking is reported, in terms of endpoints, statuses and named property paths. */
module ContractDetect {
  import opened Text
  import opened ContractDiff
  import opened ContractGate
  import opened ContractSight

  // ---- Rows belong to the last spelling of a method ----

  /** No later endpoint has the same key. */
  ghost predicate Wins(endpoints: seq<Endpoint>, i: nat)
    requires i < |endpoints|
  {
    forall j :: i < j < |endpoints| ==> KeyOf(endpoints[j]) != KeyOf(endpoints[i])
  }

  lemma WinsInFront(endpoints: seq<Endpoint>, i: nat)
    requires i < |endpoints| - 1
    ensures var n := |endpoints| - 1;
            Wins(endpoints, i) <==> Wins(endpoints[..n], i) && KeyOf(endpoints[n]) != KeyOf(endpoints[i])
  {
    var front := endpoints[..|endpoints| - 1];
    assert forall j :: 0 <= j < |front| ==> front[j] == endpoints[j];
  }

  lemma {:induction false} WinnersHaveRows(endpoints: seq<Endpoint>, i: nat)
    requires i < |endpoints| && Wins(endpoints, i)
    ensures HasRow(PrintOf(endpoints), endpoints[i])
  {
    var n := |endpoints| - 1;
    PrintUnrolls(endpoints);
    if i == n {
      NewRowFound(PrintOf(endpoints[..n]), endpoints[n]);
    } else {
      WinsInFront(endpoints, i);
      WinnersHaveRows(endpoints[..n], i);
      OtherRowStays(PrintOf(endpoints[..n]), endpoints[i], endpoints[n]);
    }
  }

  /** A row is that of a winning endpoint. */
  ghost predicate FromWinner(endpoints: seq<Endpoint>, row: Entry) {
    exists i :: 0 <= i < |endpoints| && Wins(endpoints, i) && EntryOf(endpoints[i]) == row
  }

  lemma WinnerStays(endpoints: seq<Endpoint>, row: Entry)
    requires endpoints != [] && FromWinner(endpoints[..|endpoints| - 1], row)
    requires row.key != KeyOf(endpoints[|endpoints| - 1])
    ensures FromWinner(endpoints, row)
  {
    var front := endpoints[..|endpoints| - 1];
    var i :| 0 <= i < |front| && Wins(front, i) && EntryOf(front[i]) == row;
    WinsInFront(endpoints, i);
    assert EntryOf(endpoints[i]) == row;
  }

  lemma LastWins(endpoints: seq<Endpoint>)
    requires endpoints != []
    ensures FromWinner(endpoints, EntryOf(endpoints[|endpoints| - 1]))
  {
    assert Wins(endpoints, |endpoints| - 1);
  }

  lemma AssignedRow(table: Print, e: Entry, k: nat)
    requires DistinctRows(table) && k < |Assign(table, e)|
    ensures Assign(table, e)[k] == e || (k < |table| && Assign(table, e)[k] == table[k] && table[k].key != e.key)
  {
    var at := Find(table, e.key);
    assert k < |table| && table[k].key == e.key ==> at < |table| && at == k;
  }

  lemma {:induction false} RowsAreWinners(endpoints: seq<Endpoint>, k: nat)
    requires k < |PrintOf(endpoints)|
    ensures FromWinner(endpoints, PrintOf(endpoints)[k])
  {
    var n := |endpoints| - 1;
    var before, last := PrintOf(endpoints[..n]), EntryOf(endpoints[n]);
    PrintUnrolls(endpoints);
    PrintIsDistinct(endpoints[..n]);
    AssignedRow(before, last, k);
    if PrintOf(endpoints)[k] == last {
      LastWins(endpoints);
    } else {
      RowsAreWinners(endpoints[..n], k);
      WinnerStays(endpoints, before[k]);
    }
  }

  /** Some winning endpoint of the list has the same path, the same method ignoring case and at least these fields. */
  ghost predicate Covered(endpoints: seq<Endpoint>, e: Endpoint) {
    exists j :: 0 <= j < |endpoints| && Wins(endpoints, j) && endpoints[j].path == e.path &&
      Upper(endpoints[j].verb) == Upper(e.verb) && Fields(e.operation) <= Fields(endpoints[j].operation)
  }

  ghost predicate AllCovered(cur: seq<Endpoint>, base: seq<Endpoint>) {
    forall i :: 0 <= i < |base| && Wins(base, i) ==> Covered(cur, base[i])
  }

  lemma KeptRowIsCovered(cur: seq<Endpoint>, e: Endpoint)
    requires ProperMethods(cur) && IsMethod(e.verb) && KeepsEntry(PrintOf(cur), EntryOf(e))
    ensures Covered(cur, e)
  {
    var table := PrintOf(cur);
    var k := Find(table, KeyOf(e));
    RowsAreWinners(cur, k);
    var j :| 0 <= j < |cur| && Wins(cur, j) && EntryOf(cur[j]) == table[k];
    KeysAreDistinct(cur[j], e);
    forall f | f in Fields(e.operation) ensures f in Fields(cur[j].operation) {
      assert f in EntryOf(e).fields;
    }
  }

  lemma CoveredRowIsKept(cur: seq<Endpoint>, e: Endpoint)
    requires Covered(cur, e)
    ensures KeepsEntry(PrintOf(cur), EntryOf(e))
  {
    var j :| 0 <= j < |cur| && Wins(cur, j) && cur[j].path == e.path &&
      Upper(cur[j].verb) == Upper(e.verb) && Fields(e.operation) <= Fields(cur[j].operation);
    WinnersHaveRows(cur, j);
    assert KeyOf(cur[j]) == KeyOf(e);
  }

  lemma TablesKeptExactlyWhenCovered(cur: seq<Endpoint>, base: seq<Endpoint>)
    requires ProperMethods(cur) && ProperMethods(base)
    ensures Keeps(PrintOf(cur), PrintOf(base)) <==> AllCovered(cur, base)
  {
    if Keeps(PrintOf(cur), PrintOf(base)) {
      forall i | 0 <= i < |base| && Wins(base, i) ensures Covered(cur, base[i]) {
        WinnersHaveRows(base, i);
        assert KeepsEntry(PrintOf(cur), PrintOf(base)[Find(PrintOf(base), KeyOf(base[i]))]);
        KeptRowIsCovered(cur, base[i]);
      }
    }
    if AllCovered(cur, base) {
      forall k | 0 <= k < |PrintOf(base)| ensures KeepsEntry(PrintOf(cur), PrintOf(base)[k]) {
        RowsAreWinners(base, k);
        var i :| 0 <= i < |base| && Wins(base, i) && EntryOf(base[i]) == PrintOf(base)[k];
        CoveredRowIsKept(cur, base[i]);
      }
    }
  }

  /** For any two specifications: nothing breaking is reported exactly when, for every method of every path, the fields
      of its last spelling in the baseline are among those of its last spelling now. */
  lemma GatePassesExactlyOnLastSpellings(base: Spec, cur: Spec)
    ensures Breaking(FingerprintOf(base), FingerprintOf(cur)) == [] <==> AllCovered(Endpoints(cur), Endpoints(base))
  {
    MethodsAreProper(base.paths);
    MethodsAreProper(cur.paths);
    GatePassesExactlyWhenKept(FingerprintOf(base), FingerprintOf(cur));
    TablesKeptExactlyWhenCovered(Endpoints(cur), Endpoints(base));
  }

  // ---- Named property paths ----

  /** A step of a path as the specification names it. */
  datatype Segment = Name(name: string) | Item

  /** The path leads to a property of this type. */
  ghost predicate Leads(schema: Schema, path: seq<Segment>, typ: string)
    decreases |path|, 0
  {
    path != [] && schema.Schema? &&
    match path[0]
    case Item => |path| > 1 && schema.items.Items? && Leads(schema.items.schema, path[1..], typ)
    case Name(name) =>
      exists i :: 0 <= i < |schema.properties| && schema.properties[i].name == name &&
        LeadsFrom(schema.properties[i], path[1..], typ)
  }

  ghost predicate LeadsFrom(p: Property, rest: seq<Segment>, typ: string)
    decreases |rest|, 1
  {
    if rest == [] then typ == TypeOf(p.schema) else Leads(p.schema, rest, typ)
  }

  function Extend(prefix: string, s: Segment): string {
    if s.Item? then prefix + "[]" else prefix + "." + s.name
  }

  function PathText(prefix: string, path: seq<Segment>): string
    decreases |path|
  {
    if path == [] then prefix else PathText(Extend(prefix, path[0]), path[1..])
  }

  function FieldOf(prefix: string, path: seq<Segment>, typ: string): string {
    PathText(prefix, path) + ":" + typ
  }

  lemma {:induction false} NamedHopsAreAPath(schema: Schema, hops: seq<Hop>, prefix: string, f: string)
      returns (path: seq<Segment>, typ: string)
    requires Names(schema, hops, prefix, f)
    ensures |path| == |hops| && Leads(schema, path, typ) && f == FieldOf(prefix, path, typ)
    decreases |hops|
  {
    var hop := hops[0];
    var s := if hop.To? then Name(schema.properties[hop.i].name) else Item;
    if |hops| == 1 {
      path, typ := [s], TypeOf(schema.properties[hop.i].schema);
      assert path[1..] == [];
      assert PathText(Extend(prefix, s), path[1..]) == prefix + "." + schema.properties[hop.i].name;
      assert LeadsFrom(schema.properties[hop.i], path[1..], typ);
    } else {
      var rest, t := NamedHopsAreAPath(Below(schema, hop), hops[1..], Deeper(prefix, schema, hop), f);
      path, typ := [s] + rest, t;
      assert path[0] == s && path[1..] == rest;
      if hop.To? { assert LeadsFrom(schema.properties[hop.i], path[1..], typ); }
    }
  }

  lemma {:induction false} PathIsNamedByHops(schema: Schema, path: seq<Segment>, prefix: string, typ: string)
      returns (hops: seq<Hop>)
    requires Leads(schema, path, typ)
    ensures |hops| == |path| && Names(schema, hops, prefix, FieldOf(prefix, path, typ))
    decreases |path|
  {
    var hop := Into;
    if path[0].Name? {
      var i :| 0 <= i < |schema.properties| && schema.properties[i].name == path[0].name &&
        LeadsFrom(schema.properties[i], path[1..], typ);
      hop := To(i);
    }
    if |path| == 1 {
      hops := [hop];
    } else {
      var rest := PathIsNamedByHops(Below(schema, hop), path[1..], Extend(prefix, path[0]), typ);
      hops := [hop] + rest;
      assert hops[1..] == rest;
    }
  }

  /** A field collected from a response schema is a path of at most five segments, and the other way round. */
  lemma CollectedPaths(schema: Schema, prefix: string, f: string)
    ensures f in Collect(schema, prefix, 0) <==>
            exists path, typ :: |path| <= MaxDepth + 1 && Leads(schema, path, typ) && f == FieldOf(prefix, path, typ)
  {
    FieldsAreTheReachable(schema, prefix, f);
    if f in Collect(schema, prefix, 0) {
      var hops: seq<Hop> :| |hops| <= MaxDepth + 1 && Names(schema, hops, prefix, f);
      var path, typ := NamedHopsAreAPath(schema, hops, prefix, f);
    }
    if path: seq<Segment>, typ :|
        |path| <= MaxDepth + 1 && Leads(schema, path, typ) && f == FieldOf(prefix, path, typ) {
      var hops := PathIsNamedByHops(schema, path, prefix, typ);
    }
  }

  // ---- Field texts read back ----

  /** Text without the marks that a field text puts between its parts. */
  predicate Plain(s: string) {
    '.' !in s && ':' !in s && '[' !in s
  }

  predicate PlainPath(path: seq<Segment>) {
    forall i :: 0 <= i < |path| ==> path[i].Item? || Plain(path[i].name)
  }

  function SegmentText(s: Segment): string {
    if s.Item? then "[]" else "." + s.name
  }

  function SegmentsText(path: seq<Segment>): string {
    if path == [] then "" else SegmentText(path[0]) + SegmentsText(path[1..])
  }

  lemma ExtendJoins(prefix: string, s: Segment, rest: string)
    ensures Extend(prefix, s) + rest == prefix + (SegmentText(s) + rest)
  {
    assert Extend(prefix, s) == prefix + SegmentText(s);
  }

  lemma {:induction false} PathTextJoins(prefix: string, path: seq<Segment>)
    ensures PathText(prefix, path) == prefix + SegmentsText(path)
    decreases |path|
  {
    if path != [] {
      PathTextJoins(Extend(prefix, path[0]), path[1..]);
      ExtendJoins(prefix, path[0], SegmentsText(path[1..]));
    }
  }

  lemma {:induction false} SegmentsHaveNoColon(path: seq<Segment>)
    requires PlainPath(path)
    ensures ':' !in SegmentsText(path)
    decreases |path|
  {
    if path != [] {
      assert path[0].Item? || Plain(path[0].name);
      assert forall i :: 0 <= i < |path[1..]| ==> path[1..][i] == path[i + 1];
      SegmentsHaveNoColon(path[1..]);
    }
  }

  predicate StartsSegment(s: string) {
    s == "" || s[0] == '.' || s[0] == '['
  }

  lemma SegmentsStart(path: seq<Segment>)
    ensures StartsSegment(SegmentsText(path))
  {
    if path != [] { assert SegmentsText(path)[0] == SegmentText(path[0])[0]; }
  }

  /** A plain text ends where the next segment starts. */
  lemma PlainHeadSplits(a: string, s: string, b: string, t: string)
    requires Plain(a) && Plain(b) && StartsSegment(s) && StartsSegment(t) && a + s == b + t
    ensures a == b && s == t
  {
    var u, v := a + s, b + t;
    assert forall i :: 0 <= i < |a| ==> u[i] == a[i] && a[i] in a;
    assert forall i :: 0 <= i < |b| ==> v[i] == b[i] && b[i] in b;
    assert s != [] ==> u[|a|] == s[0];
    assert t != [] ==> v[|b|] == t[0];
    assert |a| == |b|;
    assert a == u[..|a|] == v[..|b|] == b;
    assert s == u[|a|..] == v[|b|..] == t;
  }

  lemma ItemMarks(rest: string)
    ensures var text := "[]" + rest; |text| >= 2 && text[0] == '[' && text[2..] == rest
  {
  }

  lemma NameMark(name: string, rest: string)
    ensures var text := ("." + name) + rest; |text| >= 1 && text[0] == '.' && text[1..] == name + rest
  {
  }

  lemma FirstSegment(path: seq<Segment>)
    requires path != []
    ensures var text := SegmentsText(path);
            if path[0].Item? then |text| >= 2 && text[0] == '[' && text[2..] == SegmentsText(path[1..])
            else |text| >= 1 && text[0] == '.' && text[1..] == path[0].name + SegmentsText(path[1..])
  {
    if path[0].Item? {
      ItemMarks(SegmentsText(path[1..]));
    } else {
      NameMark(path[0].name, SegmentsText(path[1..]));
    }
  }

  lemma {:induction false} SegmentsReadBack(p: seq<Segment>, q: seq<Segment>)
    requires PlainPath(p) && PlainPath(q) && SegmentsText(p) == SegmentsText(q)
    ensures p == q
    decreases |p|
  {
    if p != [] { FirstSegment(p); }
    if q != [] { FirstSegment(q); }
    if p != [] && q != [] {
      assert forall i :: 0 <= i < |p[1..]| ==> p[1..][i] == p[i + 1];
      assert forall i :: 0 <= i < |q[1..]| ==> q[1..][i] == q[i + 1];
      if p[0].Name? {
        SegmentsStart(p[1..]);
        SegmentsStart(q[1..]);
        PlainHeadSplits(p[0].name, SegmentsText(p[1..]), q[0].name, SegmentsText(q[1..]));
      }
      SegmentsReadBack(p[1..], q[1..]);
      assert p == [p[0]] + p[1..] && q == [q[0]] + q[1..];
    }
  }

  /** With plain codes and names the text of a field determines code, path and type. */
  lemma FieldReadsBack(code: string, p: seq<Segment>, typ: string, code': string, q: seq<Segment>, typ': string)
    requires Plain(code) && Plain(code') && PlainPath(p) && PlainPath(q)
    requires FieldOf(code, p, typ) == FieldOf(code', q, typ')
    ensures code == code' && p == q && typ == typ'
  {
    PathTextJoins(code, p);
    PathTextJoins(code', q);
    SegmentsHaveNoColon(p);
    SegmentsHaveNoColon(q);
    FirstSeparatorSplits(PathText(code, p), typ, PathText(code', q), typ', ':');
    SegmentsStart(p);
    SegmentsStart(q);
    PlainHeadSplits(code, SegmentsText(p), code', SegmentsText(q));
    SegmentsReadBack(p, q);
  }

  lemma PathIsNotPlain(code: string, p: seq<Segment>, plain: string)
    requires Plain(code) && Plain(plain) && p != []
    ensures PathText(code, p) != plain
  {
    PathTextJoins(code, p);
    SegmentsStart(p);
    FirstSegment(p);
    if code + SegmentsText(p) == plain + "" { PlainHeadSplits(code, SegmentsText(p), plain, ""); }
    assert plain + "" == plain;
  }

  /** A status is never mistaken for a field. */
  lemma StatusIsNoField(status: string, code: string, p: seq<Segment>, typ: string)
    requires Plain(code) && PlainPath(p) && p != []
    ensures "status:" + status != FieldOf(code, p, typ)
  {
    PathIsNotPlain(code, p, "status");
    PathTextJoins(code, p);
    SegmentsHaveNoColon(p);
    assert "status:" + status == "status" + ":" + status;
    if "status" + ":" + status == PathText(code, p) + ":" + typ {
      FirstSeparatorSplits("status", status, PathText(code, p), typ, ':');
    }
  }

  // ---- What an operation promises ----

  /** Some response has this status code. */
  ghost predicate PromisesStatus(op: Operation, code: string) {
    exists i :: 0 <= i < |op.responses| && op.responses[i].code == code
  }

  ghost predicate MediaLeads(content: seq<Media>, path: seq<Segment>, typ: string) {
    exists j :: 0 <= j < |content| && Leads(content[j].schema, path, typ)
  }

  /** Some body of a response with this code has a property of this type under this path. */
  ghost predicate PromisesField(op: Operation, code: string, path: seq<Segment>, typ: string) {
    exists i :: 0 <= i < |op.responses| && op.responses[i].code == code &&
      MediaLeads(op.responses[i].content, path, typ)
  }

  /** Everything promised, down to the depth the fingerprint looks, is promised still. */
  ghost predicate KeepsPromises(cur: Operation, base: Operation) {
    (forall code :: PromisesStatus(base, code) ==> PromisesStatus(cur, code)) &&
    (forall code, path, typ :: |path| <= MaxDepth + 1 && PromisesField(base, code, path, typ) ==>
       PromisesField(cur, code, path, typ))
  }

  lemma {:induction false} MediaFieldsMember(code: string, content: seq<Media>, f: string)
    ensures f in MediaFields(code, content) <==>
            exists j :: 0 <= j < |content| && f in Collect(content[j].schema, code, 0)
  {
    if content != [] {
      var n := |content| - 1;
      MediaFieldsMember(code, content[..n], f);
      assert forall j :: 0 <= j < n ==> content[..n][j] == content[j];
    }
  }

  lemma {:induction false} ResponsesFieldsMember(responses: seq<Response>, f: string)
    ensures f in ResponsesFields(responses) <==> exists i :: 0 <= i < |responses| && f in ResponseFields(responses[i])
  {
    if responses != [] {
      var n := |responses| - 1;
      ResponsesFieldsMember(responses[..n], f);
      assert forall i :: 0 <= i < n ==> responses[..n][i] == responses[i];
    }
  }

  /** The text of something the operation promises. */
  ghost predicate IsStatus(op: Operation, f: string) {
    exists code :: PromisesStatus(op, code) && f == "status:" + code
  }

  ghost predicate IsField(op: Operation, f: string) {
    exists code, path, typ ::
      |path| <= MaxDepth + 1 && PromisesField(op, code, path, typ) && f == FieldOf(code, path, typ)
  }

  lemma FieldsArePromises(op: Operation, f: string)
    ensures f in Fields(op) ==> IsStatus(op, f) || IsField(op, f)
  {
    ResponsesFieldsMember(op.responses, f);
    if i :| 0 <= i < |op.responses| && f in ResponseFields(op.responses[i]) {
      var r := op.responses[i];
      if f == "status:" + r.code {
        assert PromisesStatus(op, r.code);
      } else {
        MediaFieldsMember(r.code, r.content, f);
        var j :| 0 <= j < |r.content| && f in Collect(r.content[j].schema, r.code, 0);
        CollectedPaths(r.content[j].schema, r.code, f);
        var path: seq<Segment>, typ :| |path| <= MaxDepth + 1 && Leads(r.content[j].schema, path, typ) &&
            f == FieldOf(r.code, path, typ);
        assert MediaLeads(r.content, path, typ);
        assert PromisesField(op, r.code, path, typ);
      }
    }
  }

  lemma StatusIsListed(op: Operation, code: string)
    requires PromisesStatus(op, code)
    ensures "status:" + code in Fields(op)
  {
    var i :| 0 <= i < |op.responses| && op.responses[i].code == code;
    ResponsesFieldsMember(op.responses, "status:" + code);
    assert "status:" + code in ResponseFields(op.responses[i]);
  }

  lemma FieldIsListed(op: Operation, code: string, path: seq<Segment>, typ: string)
    requires |path| <= MaxDepth + 1 && PromisesField(op, code, path, typ)
    ensures FieldOf(code, path, typ) in Fields(op)
  {
    var f := FieldOf(code, path, typ);
    var i :| 0 <= i < |op.responses| && op.responses[i].code == code && MediaLeads(op.responses[i].content, path, typ);
    var content := op.responses[i].content;
    var j :| 0 <= j < |content| && Leads(content[j].schema, path, typ);
    CollectedPaths(content[j].schema, code, f);
    MediaFieldsMember(code, content, f);
    ResponsesFieldsMember(op.responses, f);
    assert f in ResponseFields(op.responses[i]);
  }

  // ---- Plain specifications ----

  /** Property names without the marks. */
  ghost predicate PlainSchema(schema: Schema)
    decreases schema
  {
    schema.NotObject? ||
    ((forall i :: 0 <= i < |schema.properties| ==>
        Plain(schema.properties[i].name) && PlainSchema(schema.properties[i].schema)) &&
     (schema.items.Items? ==> PlainSchema(schema.items.schema)))
  }

  ghost predicate PlainOperation(op: Operation) {
    forall i :: 0 <= i < |op.responses| ==>
      Plain(op.responses[i].code) &&
      forall j :: 0 <= j < |op.responses[i].content| ==> PlainSchema(op.responses[i].content[j].schema)
  }

  lemma {:induction false} PlainSchemaPlainPath(schema: Schema, path: seq<Segment>, typ: string)
    requires PlainSchema(schema) && Leads(schema, path, typ)
    ensures PlainPath(path)
    decreases |path|
  {
    var rest := path[1..];
    assert forall i :: 1 <= i < |path| ==> path[i] == rest[i - 1];
    if path[0].Item? {
      PlainSchemaPlainPath(schema.items.schema, rest, typ);
    } else {
      var i :| 0 <= i < |schema.properties| && schema.properties[i].name == path[0].name &&
          LeadsFrom(schema.properties[i], rest, typ);
      if rest != [] { PlainSchemaPlainPath(schema.properties[i].schema, rest, typ); }
    }
  }

  lemma PlainPromise(op: Operation, code: string, path: seq<Segment>, typ: string)
    requires PlainOperation(op) && PromisesField(op, code, path, typ)
    ensures Plain(code) && PlainPath(path) && path != []
  {
    var i :| 0 <= i < |op.responses| && op.responses[i].code == code && MediaLeads(op.responses[i].content, path, typ);
    var j :| 0 <= j < |op.responses[i].content| && Leads(op.responses[i].content[j].schema, path, typ);
    PlainSchemaPlainPath(op.responses[i].content[j].schema, path, typ);
  }

  lemma ListedStatusIsPromised(op: Operation, code: string)
    requires PlainOperation(op) && "status:" + code in Fields(op)
    ensures PromisesStatus(op, code)
  {
    var f := "status:" + code;
    FieldsArePromises(op, f);
    if IsStatus(op, f) {
      var c :| PromisesStatus(op, c) && f == "status:" + c;
      assert c == ("status:" + c)[7..] == ("status:" + code)[7..] == code;
    } else {
      var c, path, typ :| |path| <= MaxDepth + 1 && PromisesField(op, c, path, typ) && f == FieldOf(c, path, typ);
      PlainPromise(op, c, path, typ);
      StatusIsNoField(code, c, path, typ);
    }
  }

  lemma ListedFieldIsPromised(op: Operation, code: string, path: seq<Segment>, typ: string)
    requires PlainOperation(op) && Plain(code) && PlainPath(path) && path != []
    requires FieldOf(code, path, typ) in Fields(op)
    ensures PromisesField(op, code, path, typ)
  {
    var f := FieldOf(code, path, typ);
    FieldsArePromises(op, f);
    if IsField(op, f) {
      var c, p, t :| |p| <= MaxDepth + 1 && PromisesField(op, c, p, t) && f == FieldOf(c, p, t);
      PlainPromise(op, c, p, t);
      FieldReadsBack(code, path, typ, c, p, t);
    } else {
      var c :| PromisesStatus(op, c) && f == "status:" + c;
      StatusIsNoField(c, code, path, typ);
    }
  }

  /** With plain names the listed fields are kept exactly when the promises are. */
  lemma FieldsKeptExactlyWhenPromisesAre(cur: Operation, base: Operation)
    requires PlainOperation(cur) && PlainOperation(base)
    ensures Fields(base) <= Fields(cur) <==> KeepsPromises(cur, base)
  {
    if Fields(base) <= Fields(cur) {
      forall code | PromisesStatus(base, code) ensures PromisesStatus(cur, code) {
        StatusIsListed(base, code);
        ListedStatusIsPromised(cur, code);
      }
      forall code, path, typ | |path| <= MaxDepth + 1 && PromisesField(base, code, path, typ)
        ensures PromisesField(cur, code, path, typ)
      {
        FieldIsListed(base, code, path, typ);
        PlainPromise(base, code, path, typ);
        ListedFieldIsPromised(cur, code, path, typ);
      }
    }
    if KeepsPromises(cur, base) {
      forall f | f in Fields(base) ensures f in Fields(cur) {
        KeptPromiseIsListed(cur, base, f);
      }
    }
  }

  lemma KeptPromiseIsListed(cur: Operation, base: Operation, f: string)
    requires KeepsPromises(cur, base) && f in Fields(base)
    ensures f in Fields(cur)
  {
    FieldsArePromises(base, f);
    if IsStatus(base, f) {
      var code :| PromisesStatus(base, code) && f == "status:" + code;
      StatusIsListed(cur, code);
    } else {
      var code, path, typ :| |path| <= MaxDepth + 1 && PromisesField(base, code, path, typ) &&
          f == FieldOf(code, path, typ);
      FieldIsListed(cur, code, path, typ);
    }
  }

  // ---- The gate ----

  ghost predicate PlainEndpoints(endpoints: seq<Endpoint>) {
    forall i :: 0 <= i < |endpoints| ==> PlainOperation(endpoints[i].operation)
  }

  /** Some endpoint of the list has the same path, the same method ignoring case, and keeps every promise. */
  ghost predicate Kept(endpoints: seq<Endpoint>, e: Endpoint) {
    exists j :: 0 <= j < |endpoints| && endpoints[j].path == e.path && Upper(endpoints[j].verb) == Upper(e.verb) &&
      KeepsPromises(endpoints[j].operation, e.operation)
  }

  ghost predicate AllKept(cur: seq<Endpoint>, base: seq<Endpoint>) {
    forall i :: 0 <= i < |base| ==> Kept(cur, base[i])
  }

  lemma DistinctAllWin(endpoints: seq<Endpoint>, i: nat)
    requires i < |endpoints| && ProperMethods(endpoints) && DistinctMethods(endpoints)
    ensures Wins(endpoints, i)
  {
    forall j | i < j < |endpoints| ensures KeyOf(endpoints[j]) != KeyOf(endpoints[i]) {
      KeysDiffer(endpoints, i, j);
    }
  }

  lemma CoveredExactlyWhenKept(cur: seq<Endpoint>, e: Endpoint)
    requires ProperMethods(cur) && DistinctMethods(cur) && PlainEndpoints(cur) && PlainOperation(e.operation)
    ensures Covered(cur, e) <==> Kept(cur, e)
  {
    if Covered(cur, e) {
      var j :| 0 <= j < |cur| && Wins(cur, j) && cur[j].path == e.path &&
        Upper(cur[j].verb) == Upper(e.verb) && Fields(e.operation) <= Fields(cur[j].operation);
      FieldsKeptExactlyWhenPromisesAre(cur[j].operation, e.operation);
    }
    if Kept(cur, e) {
      var j :| 0 <= j < |cur| && cur[j].path == e.path && Upper(cur[j].verb) == Upper(e.verb) &&
        KeepsPromises(cur[j].operation, e.operation);
      FieldsKeptExactlyWhenPromisesAre(cur[j].operation, e.operation);
      DistinctAllWin(cur, j);
    }
  }

  lemma AllCoveredExactlyWhenAllKept(cur: seq<Endpoint>, base: seq<Endpoint>)
    requires ProperMethods(cur) && DistinctMethods(cur) && PlainEndpoints(cur)
    requires ProperMethods(base) && DistinctMethods(base) && PlainEndpoints(base)
    ensures AllCovered(cur, base) <==> AllKept(cur, base)
  {
    forall i | 0 <= i < |base|
      ensures Wins(base, i) && (Covered(cur, base[i]) <==> Kept(cur, base[i]))
    {
      DistinctAllWin(base, i);
      CoveredExactlyWhenKept(cur, base[i]);
    }
  }

  /** The gate on named properties. With methods distinct ignoring case, and status codes and property names free of
      dots, colons and brackets, nothing breaking is reported exactly when every endpoint, every status and every
      property path of at most five segments, with its type, is promised still, under whichever content type of the
      status. */
  lemma GateDetectsExactly(base: Spec, cur: Spec)
    requires DistinctMethods(Endpoints(base)) && PlainEndpoints(Endpoints(base))
    requires DistinctMethods(Endpoints(cur)) && PlainEndpoints(Endpoints(cur))
    ensures Breaking(FingerprintOf(base), FingerprintOf(cur)) == [] <==> AllKept(Endpoints(cur), Endpoints(base))
  {
    GatePassesExactlyOnLastSpellings(base, cur);
    MethodsAreProper(base.paths);
    MethodsAreProper(cur.paths);
    AllCoveredExactlyWhenAllKept(Endpoints(cur), Endpoints(base));
  }

  // ---- Shallow specifications ----

  /** No property lies more than so many hops down. */
  ghost predicate Shallow(schema: Schema, levels: nat)
    decreases schema
  {
    schema.NotObject? ||
    ((forall i :: 0 <= i < |schema.properties| ==> levels > 0 && Shallow(schema.properties[i].schema, levels - 1)) &&
     (schema.items.Items? ==> levels > 0 && Shallow(schema.items.schema, levels - 1)))
  }

  lemma {:induction false} ShallowPathsAreShort(schema: Schema, levels: nat, path: seq<Segment>, typ: string)
    requires Shallow(schema, levels) && Leads(schema, path, typ)
    ensures |path| <= levels
    decreases |path|
  {
    if path[0].Item? {
      ShallowPathsAreShort(schema.items.schema, levels - 1, path[1..], typ);
    } else {
      var i :| 0 <= i < |schema.properties| && schema.properties[i].name == path[0].name &&
        LeadsFrom(schema.properties[i], path[1..], typ);
      assert levels > 0 && Shallow(schema.properties[i].schema, levels - 1);
      if path[1..] != [] { ShallowPathsAreShort(schema.properties[i].schema, levels - 1, path[1..], typ); }
    }
  }

  ghost predicate ShallowOperation(op: Operation) {
    forall i, j :: 0 <= i < |op.responses| && 0 <= j < |op.responses[i].content| ==>
      Shallow(op.responses[i].content[j].schema, MaxDepth + 1)
  }

  /** Everything promised, at any depth, is promised still. */
  ghost predicate KeepsAllPromises(cur: Operation, base: Operation) {
    (forall code :: PromisesStatus(base, code) ==> PromisesStatus(cur, code)) &&
    (forall code, path, typ :: PromisesField(base, code, path, typ) ==> PromisesField(cur, code, path, typ))
  }

  /** Of a response no deeper than the fingerprint looks, the promises within reach are all the promises. */
  lemma ShallowKeepsAll(cur: Operation, base: Operation)
    requires ShallowOperation(base)
    ensures KeepsPromises(cur, base) <==> KeepsAllPromises(cur, base)
  {
    forall code, path, typ | PromisesField(base, code, path, typ) ensures |path| <= MaxDepth + 1 {
      var i :| 0 <= i < |base.responses| && base.responses[i].code == code &&
          MediaLeads(base.responses[i].content, path, typ);
      var j :| 0 <= j < |base.responses[i].content| && Leads(base.responses[i].content[j].schema, path, typ);
      ShallowPathsAreShort(base.responses[i].content[j].schema, MaxDepth + 1, path, typ);
    }
  }

  ghost predicate KeptWhole(endpoints: seq<Endpoint>, e: Endpoint) {
    exists j :: 0 <= j < |endpoints| && endpoints[j].path == e.path && Upper(endpoints[j].verb) == Upper(e.verb) &&
      KeepsAllPromises(endpoints[j].operation, e.operation)
  }

  lemma KeptExactlyWhenKeptWhole(endpoints: seq<Endpoint>, e: Endpoint)
    requires ShallowOperation(e.operation)
    ensures Kept(endpoints, e) <==> KeptWhole(endpoints, e)
  {
    forall j | 0 <= j < |endpoints|
      ensures KeepsPromises(endpoints[j].operation, e.operation) <==>
              KeepsAllPromises(endpoints[j].operation, e.operation)
    {
      ShallowKeepsAll(endpoints[j].operation, e.operation);
    }
  }

  /** Where moreover no response of the baseline is more than five hops deep, it misses no property path. What else a
      response promises is the subject of ContractExact. */
  lemma GateIsExactOnShallow(base: Spec, cur: Spec)
    requires DistinctMethods(Endpoints(base)) && PlainEndpoints(Endpoints(base))
    requires DistinctMethods(Endpoints(cur)) && PlainEndpoints(Endpoints(cur))
    requires forall i :: 0 <= i < |Endpoints(base)| ==> ShallowOperation(Endpoints(base)[i].operation)
    ensures Breaking(FingerprintOf(base), FingerprintOf(cur)) == [] <==>
            forall i :: 0 <= i < |Endpoints(base)| ==> KeptWhole(Endpoints(cur), Endpoints(base)[i])
  {
    GateDetectsExactly(base, cur);
    forall i | 0 <= i < |Endpoints(base)|
      ensures Kept(Endpoints(cur), Endpoints(base)[i]) <==> KeptWhole(Endpoints(cur), Endpoints(base)[i])
    {
      KeptExactlyWhenKeptWhole(Endpoints(cur), Endpoints(base)[i]);
    }
  }
}
