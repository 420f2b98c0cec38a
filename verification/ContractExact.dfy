/** What the contract gate sees of everything a specification promises, and what it cannot see (bin/contract-diff.js):
    promises by status, content type and path, with the types of bodies and of array items. */
module ContractExact {
  import opened ContractDiff
  import opened ContractGate
  import opened ContractDetect

  // ---- Parts of a response ----

  /** The path leads to a part of this type: the body itself, an item or a property. */
  ghost predicate Reaches(schema: Schema, path: seq<Segment>, typ: string)
    decreases |path|
  {
    if path == [] then typ == TypeOf(schema)
    else
      schema.Schema? &&
      match path[0]
      case Item => schema.items.Items? && Reaches(schema.items.schema, path[1..], typ)
      case Name(name) =>
        exists i :: 0 <= i < |schema.properties| && schema.properties[i].name == name &&
          Reaches(schema.properties[i].schema, path[1..], typ)
  }

  /** The path ends in a property name. */
  predicate Named(path: seq<Segment>) {
    path != [] && path[|path| - 1].Name?
  }

  lemma NamedRest(path: seq<Segment>)
    requires path != [] && path[1..] != []
    ensures Named(path) <==> Named(path[1..])
  {
    assert path[1..][|path| - 2] == path[|path| - 1];
  }

  /** The fingerprint's paths are the ones that end in a name. */
  lemma {:induction false} LeadsExactlyToNamed(schema: Schema, path: seq<Segment>, typ: string)
    ensures Leads(schema, path, typ) <==> Named(path) && Reaches(schema, path, typ)
    decreases |path|
  {
    if path != [] && schema.Schema? {
      var rest := path[1..];
      if rest != [] { NamedRest(path); }
      if path[0].Item? {
        if schema.items.Items? && rest != [] { LeadsExactlyToNamed(schema.items.schema, rest, typ); }
      } else {
        forall i | 0 <= i < |schema.properties|
          ensures Named(path) ==>
                    (LeadsFrom(schema.properties[i], rest, typ) <==> Reaches(schema.properties[i].schema, rest, typ))
          ensures LeadsFrom(schema.properties[i], rest, typ) ==> Named(path)
        {
          if rest != [] { LeadsExactlyToNamed(schema.properties[i].schema, rest, typ); }
        }
      }
    }
  }

  // ---- Promises by content type ----

  ghost predicate MediaReaches(content: seq<Media>, contentType: string, path: seq<Segment>, typ: string) {
    exists j :: 0 <= j < |content| && content[j].contentType == contentType && Reaches(content[j].schema, path, typ)
  }

  /** A response with this code has a body of this content type with such a part. */
  ghost predicate PromisesPart(op: Operation, code: string, contentType: string, path: seq<Segment>, typ: string) {
    exists i :: 0 <= i < |op.responses| && op.responses[i].code == code &&
      MediaReaches(op.responses[i].content, contentType, path, typ)
  }

  lemma PartIsField(op: Operation, code: string, contentType: string, path: seq<Segment>, typ: string)
    requires Named(path) && PromisesPart(op, code, contentType, path, typ)
    ensures PromisesField(op, code, path, typ)
  {
    var i :| 0 <= i < |op.responses| && op.responses[i].code == code &&
      MediaReaches(op.responses[i].content, contentType, path, typ);
    var content := op.responses[i].content;
    var j :| 0 <= j < |content| && content[j].contentType == contentType && Reaches(content[j].schema, path, typ);
    LeadsExactlyToNamed(content[j].schema, path, typ);
    assert MediaLeads(content, path, typ);
  }

  lemma FieldIsPart(op: Operation, code: string, path: seq<Segment>, typ: string) returns (contentType: string)
    requires PromisesField(op, code, path, typ)
    ensures Named(path) && PromisesPart(op, code, contentType, path, typ)
  {
    var i :| 0 <= i < |op.responses| && op.responses[i].code == code && MediaLeads(op.responses[i].content, path, typ);
    var content := op.responses[i].content;
    var j :| 0 <= j < |content| && Leads(content[j].schema, path, typ);
    LeadsExactlyToNamed(content[j].schema, path, typ);
    contentType := content[j].contentType;
    assert MediaReaches(content, contentType, path, typ);
  }

  // ---- Seen and unseen ----

  /** The paths the fingerprint lists. */
  predicate Seen(path: seq<Segment>) {
    Named(path) && |path| <= MaxDepth + 1
  }

  ghost predicate KeepsStatuses(cur: Operation, base: Operation) {
    forall code :: PromisesStatus(base, code) ==> PromisesStatus(cur, code)
  }

  /** Everything promised is promised still, under its status and content type. */
  ghost predicate KeepsEveryPart(cur: Operation, base: Operation) {
    KeepsStatuses(cur, base) &&
    forall code, contentType, path, typ ::
      PromisesPart(base, code, contentType, path, typ) ==> PromisesPart(cur, code, contentType, path, typ)
  }

  /** The parts the fingerprint never lists are kept: types of bodies and items, and whatever lies too deep. */
  ghost predicate KeepsUnseen(cur: Operation, base: Operation) {
    forall code, contentType, path, typ ::
      !Seen(path) && PromisesPart(base, code, contentType, path, typ) ==>
      PromisesPart(cur, code, contentType, path, typ)
  }

  /** No part is kept under other content types only. */
  ghost predicate KeepsContentTypes(cur: Operation, base: Operation) {
    forall code, contentType, path, typ ::
      Seen(path) && PromisesPart(base, code, contentType, path, typ) && PromisesField(cur, code, path, typ) ==>
      PromisesPart(cur, code, contentType, path, typ)
  }

  /** The gate's own measure and the two things it leaves out make up the whole. */
  lemma EveryPartIsSeenOrUnseen(cur: Operation, base: Operation)
    ensures KeepsEveryPart(cur, base) <==>
            KeepsPromises(cur, base) && KeepsUnseen(cur, base) && KeepsContentTypes(cur, base)
  {
    if KeepsEveryPart(cur, base) {
      forall code, path, typ | |path| <= MaxDepth + 1 && PromisesField(base, code, path, typ)
        ensures PromisesField(cur, code, path, typ)
      {
        var contentType := FieldIsPart(base, code, path, typ);
        PartIsField(cur, code, contentType, path, typ);
      }
    }
    if KeepsPromises(cur, base) && KeepsUnseen(cur, base) && KeepsContentTypes(cur, base) {
      forall code, contentType, path, typ | PromisesPart(base, code, contentType, path, typ)
        ensures PromisesPart(cur, code, contentType, path, typ)
      {
        if Seen(path) { PartIsField(base, code, contentType, path, typ); }
      }
    }
  }

  // ---- The gate ----

  predicate SameEndpoint(a: Endpoint, b: Endpoint) {
    a.path == b.path && Upper(a.verb) == Upper(b.verb)
  }

  /** Some endpoint of the list is the same and keeps every part. */
  ghost predicate KeptStrictly(endpoints: seq<Endpoint>, e: Endpoint) {
    exists j :: 0 <= j < |endpoints| && SameEndpoint(endpoints[j], e) &&
      KeepsEveryPart(endpoints[j].operation, e.operation)
  }

  /** What the gate does not look at is kept between the same endpoints. */
  ghost predicate UnseenKept(cur: seq<Endpoint>, base: seq<Endpoint>) {
    forall i, j :: 0 <= i < |base| && 0 <= j < |cur| && SameEndpoint(cur[j], base[i]) ==>
      KeepsUnseen(cur[j].operation, base[i].operation) && KeepsContentTypes(cur[j].operation, base[i].operation)
  }

  lemma OnlyOneSame(endpoints: seq<Endpoint>, e: Endpoint, j: nat, k: nat)
    requires DistinctMethods(endpoints) && j < |endpoints| && k < |endpoints|
    requires SameEndpoint(endpoints[j], e) && SameEndpoint(endpoints[k], e)
    ensures j == k
  {
  }

  lemma KeptStrictlyUnlessUnseen(cur: seq<Endpoint>, base: seq<Endpoint>)
    requires DistinctMethods(cur)
    ensures (forall i :: 0 <= i < |base| ==> KeptStrictly(cur, base[i])) <==>
            AllKept(cur, base) && UnseenKept(cur, base)
  {
    if forall i :: 0 <= i < |base| ==> KeptStrictly(cur, base[i]) {
      forall i | 0 <= i < |base| ensures Kept(cur, base[i]) {
        var j :| 0 <= j < |cur| && SameEndpoint(cur[j], base[i]) &&
          KeepsEveryPart(cur[j].operation, base[i].operation);
        EveryPartIsSeenOrUnseen(cur[j].operation, base[i].operation);
      }
      forall i, k | 0 <= i < |base| && 0 <= k < |cur| && SameEndpoint(cur[k], base[i])
        ensures KeepsUnseen(cur[k].operation, base[i].operation)
        ensures KeepsContentTypes(cur[k].operation, base[i].operation)
      {
        assert KeptStrictly(cur, base[i]);
        var j :| 0 <= j < |cur| && SameEndpoint(cur[j], base[i]) &&
          KeepsEveryPart(cur[j].operation, base[i].operation);
        OnlyOneSame(cur, base[i], j, k);
        EveryPartIsSeenOrUnseen(cur[j].operation, base[i].operation);
      }
    }
    if AllKept(cur, base) && UnseenKept(cur, base) {
      forall i | 0 <= i < |base| ensures KeptStrictly(cur, base[i]) {
        assert Kept(cur, base[i]);
        var j :| 0 <= j < |cur| && cur[j].path == base[i].path && Upper(cur[j].verb) == Upper(base[i].verb) &&
          KeepsPromises(cur[j].operation, base[i].operation);
        assert SameEndpoint(cur[j], base[i]);
        EveryPartIsSeenOrUnseen(cur[j].operation, base[i].operation);
      }
    }
  }

  /** What a passing gate leaves open, exactly. With methods distinct ignoring case and plain names, everything is kept
      if and only if nothing breaking is reported and three things the gate never looks at are kept too: the types of
      bodies and items, whatever lies more than five hops down, and the content type a field was promised under. */
  lemma GateAndUnseenMakeTheWhole(base: Spec, cur: Spec)
    requires DistinctMethods(Endpoints(base)) && PlainEndpoints(Endpoints(base))
    requires DistinctMethods(Endpoints(cur)) && PlainEndpoints(Endpoints(cur))
    ensures (forall i :: 0 <= i < |Endpoints(base)| ==> KeptStrictly(Endpoints(cur), Endpoints(base)[i])) <==>
            Breaking(FingerprintOf(base), FingerprintOf(cur)) == [] && UnseenKept(Endpoints(cur), Endpoints(base))
  {
    GateDetectsExactly(base, cur);
    KeptStrictlyUnlessUnseen(Endpoints(cur), Endpoints(base));
  }

  // ---- One content type per status, nothing too deep ----

  /** Some response with this code has a body of this content type. */
  ghost predicate UsesType(op: Operation, code: string, contentType: string) {
    exists i, j :: 0 <= i < |op.responses| && 0 <= j < |op.responses[i].content| &&
      op.responses[i].code == code && op.responses[i].content[j].contentType == contentType
  }

  /** Where both describe a status, they do so under the same single content type. */
  ghost predicate SameSingleType(cur: Operation, base: Operation) {
    forall code, contentType, contentType' ::
      UsesType(base, code, contentType) && UsesType(cur, code, contentType') ==> contentType == contentType'
  }

  lemma PartUsesType(op: Operation, code: string, contentType: string, path: seq<Segment>, typ: string)
    requires PromisesPart(op, code, contentType, path, typ)
    ensures UsesType(op, code, contentType)
  {
    var i :| 0 <= i < |op.responses| && op.responses[i].code == code &&
      MediaReaches(op.responses[i].content, contentType, path, typ);
    var j :| 0 <= j < |op.responses[i].content| && op.responses[i].content[j].contentType == contentType &&
      Reaches(op.responses[i].content[j].schema, path, typ);
  }

  lemma SingleTypeIsKept(cur: Operation, base: Operation)
    requires SameSingleType(cur, base)
    ensures KeepsContentTypes(cur, base)
  {
    forall code, contentType, path, typ |
        Seen(path) && PromisesPart(base, code, contentType, path, typ) && PromisesField(cur, code, path, typ)
      ensures PromisesPart(cur, code, contentType, path, typ)
    {
      var contentType' := FieldIsPart(cur, code, path, typ);
      PartUsesType(base, code, contentType, path, typ);
      PartUsesType(cur, code, contentType', path, typ);
    }
  }

  lemma {:induction false} ShallowReachesAreShort(schema: Schema, levels: nat, path: seq<Segment>, typ: string)
    requires Shallow(schema, levels) && Reaches(schema, path, typ)
    ensures |path| <= levels
    decreases |path|
  {
    if path != [] {
      if path[0].Item? {
        ShallowReachesAreShort(schema.items.schema, levels - 1, path[1..], typ);
      } else {
        var i :| 0 <= i < |schema.properties| && schema.properties[i].name == path[0].name &&
          Reaches(schema.properties[i].schema, path[1..], typ);
        assert levels > 0 && Shallow(schema.properties[i].schema, levels - 1);
        ShallowReachesAreShort(schema.properties[i].schema, levels - 1, path[1..], typ);
      }
    }
  }

  /** The types of bodies and of array items are kept. */
  ghost predicate KeepsBodyAndItemTypes(cur: Operation, base: Operation) {
    forall code, contentType, path, typ ::
      !Named(path) && PromisesPart(base, code, contentType, path, typ) ==>
      PromisesPart(cur, code, contentType, path, typ)
  }

  lemma ShallowPartsAreShort(op: Operation, code: string, contentType: string, path: seq<Segment>, typ: string)
    requires ShallowOperation(op) && PromisesPart(op, code, contentType, path, typ)
    ensures |path| <= MaxDepth + 1
  {
    var i :| 0 <= i < |op.responses| && op.responses[i].code == code &&
      MediaReaches(op.responses[i].content, contentType, path, typ);
    var j :| 0 <= j < |op.responses[i].content| && op.responses[i].content[j].contentType == contentType &&
      Reaches(op.responses[i].content[j].schema, path, typ);
    ShallowReachesAreShort(op.responses[i].content[j].schema, MaxDepth + 1, path, typ);
  }

  /** In a shallow baseline only the types of bodies and items are unseen. */
  lemma ShallowUnseen(cur: Operation, base: Operation)
    requires ShallowOperation(base)
    ensures KeepsUnseen(cur, base) <==> KeepsBodyAndItemTypes(cur, base)
  {
    forall code, contentType, path, typ | PromisesPart(base, code, contentType, path, typ)
      ensures Seen(path) <==> Named(path)
    {
      ShallowPartsAreShort(base, code, contentType, path, typ);
    }
  }

  /** Between the same endpoints: the same single content type per status. */
  ghost predicate SingleTypes(cur: seq<Endpoint>, base: seq<Endpoint>) {
    forall i, j :: 0 <= i < |base| && 0 <= j < |cur| && SameEndpoint(cur[j], base[i]) ==>
      SameSingleType(cur[j].operation, base[i].operation)
  }

  ghost predicate BodyAndItemTypesKept(cur: seq<Endpoint>, base: seq<Endpoint>) {
    forall i, j :: 0 <= i < |base| && 0 <= j < |cur| && SameEndpoint(cur[j], base[i]) ==>
      KeepsBodyAndItemTypes(cur[j].operation, base[i].operation)
  }

  /** The gate at its best: plain names, methods distinct ignoring case, at most five hops, and one content type per
      status. Then only a change of a body's or an item's type escapes it. */
  lemma GateMissesOnlyBodyAndItemTypes(base: Spec, cur: Spec)
    requires DistinctMethods(Endpoints(base)) && PlainEndpoints(Endpoints(base))
    requires DistinctMethods(Endpoints(cur)) && PlainEndpoints(Endpoints(cur))
    requires forall i :: 0 <= i < |Endpoints(base)| ==> ShallowOperation(Endpoints(base)[i].operation)
    requires SingleTypes(Endpoints(cur), Endpoints(base))
    ensures (forall i :: 0 <= i < |Endpoints(base)| ==> KeptStrictly(Endpoints(cur), Endpoints(base)[i])) <==>
            Breaking(FingerprintOf(base), FingerprintOf(cur)) == [] &&
            BodyAndItemTypesKept(Endpoints(cur), Endpoints(base))
  {
    GateAndUnseenMakeTheWhole(base, cur);
    UnseenAreTypes(Endpoints(cur), Endpoints(base));
  }

  lemma UnseenAreTypes(cur: seq<Endpoint>, base: seq<Endpoint>)
    requires forall i :: 0 <= i < |base| ==> ShallowOperation(base[i].operation)
    requires SingleTypes(cur, base)
    ensures UnseenKept(cur, base) <==> BodyAndItemTypesKept(cur, base)
  {
    forall i, j | 0 <= i < |base| && 0 <= j < |cur| && SameEndpoint(cur[j], base[i])
      ensures KeepsContentTypes(cur[j].operation, base[i].operation)
      ensures KeepsUnseen(cur[j].operation, base[i].operation) <==>
              KeepsBodyAndItemTypes(cur[j].operation, base[i].operation)
    {
      SingleTypeIsKept(cur[j].operation, base[i].operation);
      ShallowUnseen(cur[j].operation, base[i].operation);
    }
  }
}
