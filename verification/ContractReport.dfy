/** What the contract gate lists: which endpoints and fields its two reports name (bin/contract-diff.js). */
module ContractReport {
  import opened ContractDiff
  import opened ContractGate

  /** A message for a field that the first list has and the second has not. */
  ghost predicate NamesField(intro: string, fields: seq<string>, others: seq<string>, m: string) {
    exists f :: f in fields && f !in others && m == intro + f
  }

  lemma {:induction false} MissingNames(intro: string, fields: seq<string>, others: seq<string>, m: string)
    ensures m in Missing(intro, fields, others) <==> NamesField(intro, fields, others, m)
  {
    if fields != [] {
      var n := |fields| - 1;
      MissingNames(intro, fields[..n], others, m);
      assert fields == fields[..n] + [fields[n]];
      if fields[n] !in others && m == intro + fields[n] { assert fields[n] in fields; }
    }
  }

  /** A message for an endpoint that only the first table has. */
  ghost predicate NamesEndpointOnlyIn(intro: string, table: Print, other: Print, m: string) {
    exists i :: 0 <= i < |table| && m == intro + table[i].key &&
      forall j :: 0 <= j < |other| ==> other[j].key != table[i].key
  }

  lemma {:induction false} NewEndpointsNamed(base: Print, cur: Print, m: string)
    ensures m in NewEndpoints(base, cur) <==> NamesEndpointOnlyIn("new endpoint: ", cur, base, m)
  {
    if cur != [] {
      var n := |cur| - 1;
      NewEndpointsNamed(base, cur[..n], m);
      EndpointsSplit("new endpoint: ", cur, base, m);
    }
  }

  lemma EndpointsSplit(intro: string, table: Print, other: Print, m: string)
    requires table != []
    ensures var n := |table| - 1;
            NamesEndpointOnlyIn(intro, table, other, m) <==>
            NamesEndpointOnlyIn(intro, table[..n], other, m) ||
            (m == intro + table[n].key && !HasKey(other, table[n].key))
  {
    var n := |table| - 1;
    if i :| 0 <= i < |table| && m == intro + table[i].key &&
            forall j :: 0 <= j < |other| ==> other[j].key != table[i].key {
      if i < n { assert table[..n][i] == table[i]; }
    }
    if NamesEndpointOnlyIn(intro, table[..n], other, m) {
      var i :| 0 <= i < n && m == intro + table[..n][i].key &&
               forall j :: 0 <= j < |other| ==> other[j].key != table[..n][i].key;
      assert table[i] == table[..n][i];
    }
  }

  /** A message for a field of an endpoint both tables have: one added by the second table, or one missing from it. */
  ghost predicate NamesChange(intro: string, base: Print, cur: Print, added: bool, m: string) {
    exists i, j :: 0 <= i < |base| && 0 <= j < |cur| && base[i].key == cur[j].key &&
      ChangeAt(intro, base[i], cur[j], added, m)
  }

  ghost predicate ChangeAt(intro: string, e: Entry, c: Entry, added: bool, m: string) {
    if added then NamesField(e.key + intro, c.fields, e.fields, m) else NamesField(e.key + intro, e.fields, c.fields, m)
  }

  lemma ChangesSplit(intro: string, base: Print, cur: Print, added: bool, m: string)
    requires base != [] && DistinctRows(cur)
    ensures var n := |base| - 1;
            NamesChange(intro, base, cur, added, m) <==>
            NamesChange(intro, base[..n], cur, added, m) ||
            (HasKey(cur, base[n].key) && ChangeAt(intro, base[n], cur[Find(cur, base[n].key)], added, m))
  {
    var n := |base| - 1;
    if i, j :| 0 <= i < |base| && 0 <= j < |cur| && base[i].key == cur[j].key &&
               ChangeAt(intro, base[i], cur[j], added, m) {
      assert Find(cur, base[i].key) == j;
      if i < n { assert base[..n][i] == base[i]; }
    }
    if NamesChange(intro, base[..n], cur, added, m) {
      var i, j :| 0 <= i < n && 0 <= j < |cur| && base[..n][i].key == cur[j].key &&
                  ChangeAt(intro, base[..n][i], cur[j], added, m);
      assert base[i] == base[..n][i];
    }
  }

  lemma {:induction false} NewFieldsNamed(base: Print, cur: Print, m: string)
    requires DistinctRows(cur)
    ensures m in NewFields(base, cur) <==> NamesChange(": new ", base, cur, true, m)
  {
    if base != [] {
      var n := |base| - 1;
      NewFieldsNamed(base[..n], cur, m);
      ChangesSplit(": new ", base, cur, true, m);
      if HasKey(cur, base[n].key) {
        MissingNames(base[n].key + ": new ", FieldsAt(cur, base[n].key), base[n].fields, m);
      }
    }
  }

  lemma {:induction false} BreakingNamed(base: Print, cur: Print, m: string)
    requires DistinctRows(cur)
    ensures m in Breaking(base, cur) <==>
            NamesChange(": removed or retyped ", base, cur, false, m) ||
            NamesEndpointOnlyIn("removed endpoint: ", base, cur, m)
  {
    if base != [] {
      var n := |base| - 1;
      BreakingNamed(base[..n], cur, m);
      ChangesSplit(": removed or retyped ", base, cur, false, m);
      EndpointsSplit("removed endpoint: ", base, cur, m);
      if HasKey(cur, base[n].key) {
        MissingNames(base[n].key + ": removed or retyped ", base[n].fields, FieldsAt(cur, base[n].key), m);
      }
    }
  }

  /** Between two specifications the breaking list names exactly the endpoints only the old one has and the fields, with
      their types, that an endpoint of both lost; the additive list names exactly the endpoints only the new one has and
      the fields an endpoint of both gained. */
  lemma ReportNamesExactly(before: Spec, after: Spec, m: string)
    ensures var base, cur := FingerprintOf(before), FingerprintOf(after);
            (m in Breaking(base, cur) <==>
               NamesEndpointOnlyIn("removed endpoint: ", base, cur, m) ||
               NamesChange(": removed or retyped ", base, cur, false, m)) &&
            (m in NewFields(base, cur) + NewEndpoints(base, cur) <==>
               NamesEndpointOnlyIn("new endpoint: ", cur, base, m) || NamesChange(": new ", base, cur, true, m))
  {
    var base, cur := FingerprintOf(before), FingerprintOf(after);
    PrintIsDistinct(Endpoints(after));
    BreakingNamed(base, cur, m);
    NewFieldsNamed(base, cur, m);
    NewEndpointsNamed(base, cur, m);
  }
}
