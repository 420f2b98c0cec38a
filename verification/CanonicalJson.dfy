/** The canonical JSON text of a state map, as `json.dumps(..., sort_keys=True, separators=(",", ":"))` writes it
    for snapshot payloads and digests (Runtime/sarembok_knowledge_state_snapshot.py,
    Runtime/sarembok_knowledge_sqlite.py), and the reader that loading a snapshot needs. */
module CanonicalJson {
  import opened Results
  import opened Text
  import opened JsonText
  import opened SortedKeys
  import opened Lifecycle
  import opened StateReducer

  // ---- State objects ----

  const KnowledgeIdKey := "{\"knowledge_id\":"
  const LastEventIdKey := ",\"last_event_id\":"
  const LastSequenceKey := ",\"last_sequence\":"
  const StateKey := ",\"state\":"

  function StateText(s: KnowledgeState): string {
    KnowledgeIdKey + (JsonString(s.knowledgeId) +
    (LastEventIdKey + (JsonString(s.lastEventId) +
    (LastSequenceKey + (IntText(s.lastSequence) +
    (StateKey + (JsonString(s.state.Value()) + "}")))))))
  }

  function ReadIntField(key: string, text: string): (r: Option<(int, string)>)
    requires key != ""
    ensures r.Some? ==> |r.value.1| < |text|
  {
    var after := Skip(key, text);
    if after.None? then None else ReadInt(after.value)
  }

  function ReadStringField(key: string, text: string): (r: Option<(string, string)>)
    requires key != ""
    ensures r.Some? ==> |r.value.1| < |text|
  {
    var after := Skip(key, text);
    if after.None? then None else ReadString(after.value)
  }

  lemma StringFieldReadsBack(key: string, s: string, rest: string)
    requires key != ""
    ensures ReadStringField(key, key + (JsonString(s) + rest)) == Some((s, rest))
  {
    SkipsOpening(key, JsonString(s) + rest);
    StringReadsBack(s, rest);
  }

  lemma IntFieldReadsBack(key: string, n: int, rest: string)
    requires key != ""
    requires rest == "" || !IsDigit(rest[0])
    ensures ReadIntField(key, key + (IntText(n) + rest)) == Some((n, rest))
  {
    SkipsOpening(key, IntText(n) + rest);
    IntReadsBack(n, rest);
  }

  function ReadState(text: string): (r: Option<(KnowledgeState, string)>)
    ensures r.Some? ==> |r.value.1| < |text|
  {
    var id := ReadStringField(KnowledgeIdKey, text);
    if id.None? then None else
    var event := ReadStringField(LastEventIdKey, id.value.1);
    if event.None? then None else
    var sequence := ReadIntField(LastSequenceKey, event.value.1);
    if sequence.None? then None else
    var name := ReadStringField(StateKey, sequence.value.1);
    if name.None? then None else
    var state := ParseState(name.value.0);
    var end := Skip("}", name.value.1);
    if state.None? || end.None? then None
    else Some((KnowledgeState(id.value.0, state.value, event.value.0, sequence.value.0), end.value))
  }

  lemma StateReadsBack(s: KnowledgeState, rest: string)
    ensures ReadState(StateText(s) + rest) == Some((s, rest))
  {
    var t4 := "}" + rest;
    var t3 := StateKey + (JsonString(s.state.Value()) + t4);
    var t2 := LastSequenceKey + (IntText(s.lastSequence) + t3);
    var t1 := LastEventIdKey + (JsonString(s.lastEventId) + t2);
    var t0 := KnowledgeIdKey + (JsonString(s.knowledgeId) + t1);
    StateTextUnrolls(s, rest);
    assert StateText(s) + rest == t0;
    StringFieldReadsBack(KnowledgeIdKey, s.knowledgeId, t1);
    StringFieldReadsBack(LastEventIdKey, s.lastEventId, t2);
    IntFieldReadsBack(LastSequenceKey, s.lastSequence, t3);
    StringFieldReadsBack(StateKey, s.state.Value(), t4);
    StateTextReadsBack(s.state);
    SkipsOpening("}", rest);
  }

  lemma StateTextUnrolls(s: KnowledgeState, rest: string)
    ensures StateText(s) + rest ==
            KnowledgeIdKey + (JsonString(s.knowledgeId) +
            (LastEventIdKey + (JsonString(s.lastEventId) +
            (LastSequenceKey + (IntText(s.lastSequence) +
            (StateKey + (JsonString(s.state.Value()) + ("}" + rest))))))))
  {
    var a, b, c, d := JsonString(s.knowledgeId), JsonString(s.lastEventId), IntText(s.lastSequence),
        JsonString(s.state.Value());
    var e7 := d + "}";
    var e6 := StateKey + e7;
    var e5 := c + e6;
    var e4 := LastSequenceKey + e5;
    var e3 := b + e4;
    var e2 := LastEventIdKey + e3;
    var e1 := a + e2;
    Reassociates(KnowledgeIdKey, e1, rest);
    Reassociates(a, e2, rest);
    Reassociates(LastEventIdKey, e3, rest);
    Reassociates(b, e4, rest);
    Reassociates(LastSequenceKey, e5, rest);
    Reassociates(c, e6, rest);
    Reassociates(StateKey, e7, rest);
    Reassociates(d, "}", rest);
  }

  // ---- Comma-separated lists ----

  /** Texts separated by commas, up to and including the closing brace. */
  function Join(texts: seq<string>): string {
    if texts == [] then "}"
    else if |texts| == 1 then texts[0] + "}"
    else texts[0] + ("," + Join(texts[1..]))
  }

  /** A reader of one element consumes something. */
  ghost predicate Shrinks<T(!new)>(read: string -> Option<(T, string)>) {
    forall text: string :: read(text).Some? ==> |read(text).value.1| < |text|
  }

  /** Elements up to the closing brace. */
  function ReadList<T(!new)>(read: string -> Option<(T, string)>, text: string): Option<(seq<T>, string)>
    requires Shrinks(read)
    decreases |text|
  {
    var first := read(text);
    if first.None? then None else
    var comma := Skip(",", first.value.1);
    if comma.None? then
      var end := Skip("}", first.value.1);
      if end.None? then None else Some(([first.value.0], end.value))
    else
      var more := ReadList(read, comma.value);
      if more.None? then None else Some(([first.value.0] + more.value.0, more.value.1))
  }

  /** Whatever follows it, the text reads as this element. */
  ghost predicate ReadsAs<T(!new)>(read: string -> Option<(T, string)>, text: string, element: T) {
    forall after: string :: read(text + after) == Some((element, after))
  }

  lemma {:induction false} ListReadsBack<T(!new)>(
      read: string -> Option<(T, string)>, texts: seq<string>, elements: seq<T>, rest: string)
    requires Shrinks(read)
    requires |texts| == |elements| > 0
    requires forall i :: 0 <= i < |elements| ==> ReadsAs(read, texts[i], elements[i])
    ensures ReadList(read, Join(texts) + rest) == Some((elements, rest))
  {
    assert ReadsAs(read, texts[0], elements[0]);
    if |elements| == 1 {
      Reassociates(texts[0], "}", rest);
      assert read(texts[0] + ("}" + rest)) == Some((elements[0], "}" + rest));
      assert Skip(",", "}" + rest).None? by {
        assert ("}" + rest)[0] == '}' && ","[0] == ',';
      }
      SkipsOpening("}", rest);
      assert elements == [elements[0]];
    } else {
      var more := Join(texts[1..]);
      Reassociates(texts[0], "," + more, rest);
      Reassociates(",", more, rest);
      assert read(texts[0] + ("," + (more + rest))) == Some((elements[0], "," + (more + rest)));
      SkipsOpening(",", more + rest);
      ListReadsBack(read, texts[1..], elements[1..], rest);
      assert elements == [elements[0]] + elements[1..];
    }
  }

  // ---- Dicts ----

  /** A dict as the sequence of its items in insertion order. */
  type Items = seq<(string, KnowledgeState)>

  predicate DistinctKeys(items: Items) {
    forall i, j :: 0 <= i < j < |items| ==> items[i].0 != items[j].0
  }

  predicate Ascends(items: Items) {
    forall i, j :: 0 <= i < j < |items| ==> Before(items[i].0, items[j].0)
  }

  /** The map a list of items stands for; a later item with the same key wins. */
  function Lookup(items: Items): States {
    if items == [] then map[]
    else Lookup(items[..|items| - 1])[items[|items| - 1].0 := items[|items| - 1].1]
  }

  /** With distinct keys the map holds exactly the items. */
  lemma {:induction false} LookupHolds(items: Items)
    requires DistinctKeys(items)
    ensures forall i :: 0 <= i < |items| ==> items[i].0 in Lookup(items) && Lookup(items)[items[i].0] == items[i].1
    ensures forall k :: k in Lookup(items) ==> exists i :: 0 <= i < |items| && items[i].0 == k
  {
    if items != [] {
      var front := items[..|items| - 1];
      LookupHolds(front);
      forall k | k in Lookup(items)
        ensures exists i :: 0 <= i < |items| && items[i].0 == k
      {
        if k != items[|items| - 1].0 {
          assert k in Lookup(front);
          var i :| 0 <= i < |front| && front[i].0 == k;
          assert items[i].0 == k;
        }
      }
    }
  }

  // ---- State maps ----

  function MemberText(key: string, state: KnowledgeState): string {
    JsonString(key) + (":" + StateText(state))
  }

  /** The members of an object in the given order. */
  function MembersText(items: Items): string {
    Join(seq(|items|, i requires 0 <= i < |items| => MemberText(items[i].0, items[i].1)))
  }

  /** `sorted(states.items())`. */
  function SortedItems(states: States): (items: Items)
    ensures |items| == |Sorted(states.Keys)|
    ensures forall i :: 0 <= i < |items| ==>
              items[i].0 == Sorted(states.Keys)[i] && items[i].0 in states && items[i].1 == states[items[i].0]
  {
    var keys := Sorted(states.Keys);
    assert forall i :: 0 <= i < |keys| ==> keys[i] in keys;
    seq(|keys|, i requires 0 <= i < |keys| => (keys[i], states[keys[i]]))
  }

  /** `json.dumps` of the whole map: keys ascending whatever order the dict was filled in. */
  function StatesText(states: States): string {
    "{" + MembersText(SortedItems(states))
  }

  function ReadMember(text: string): (r: Option<((string, KnowledgeState), string)>)
    ensures r.Some? ==> |r.value.1| < |text|
  {
    var key := ReadString(text);
    if key.None? then None else
    var colon := Skip(":", key.value.1);
    if colon.None? then None else
    var state := ReadState(colon.value);
    if state.None? then None else Some(((key.value.0, state.value.0), state.value.1))
  }

  /** `json.loads` restricted to text in canonical form. */
  function ReadStates(text: string): Option<(States, string)> {
    var open := Skip("{", text);
    if open.None? then None else
    var empty := Skip("}", open.value);
    if empty.Some? then Some((map[], empty.value)) else
    assert Shrinks(ReadMember);
    var members := ReadList(ReadMember, open.value);
    if members.None? then None else Some((Lookup(members.value.0), members.value.1))
  }

  lemma MemberReadsBack(key: string, state: KnowledgeState, rest: string)
    ensures ReadMember(MemberText(key, state) + rest) == Some(((key, state), rest))
  {
    Reassociates(JsonString(key), ":" + StateText(state), rest);
    Reassociates(":", StateText(state), rest);
    StringReadsBack(key, ":" + (StateText(state) + rest));
    SkipsOpening(":", StateText(state) + rest);
    StateReadsBack(state, rest);
  }

  lemma MembersReadBack(items: Items, rest: string)
    requires items != []
    ensures Shrinks(ReadMember)
    ensures ReadList(ReadMember, MembersText(items) + rest) == Some((items, rest))
  {
    var texts := seq(|items|, i requires 0 <= i < |items| => MemberText(items[i].0, items[i].1));
    forall i | 0 <= i < |items|
      ensures ReadsAs(ReadMember, texts[i], items[i])
    {
      forall after: string
        ensures ReadMember(texts[i] + after) == Some((items[i], after))
      {
        MemberReadsBack(items[i].0, items[i].1, after);
      }
    }
    ListReadsBack(ReadMember, texts, items, rest);
  }

  lemma AscendingKeysDistinct(items: Items)
    requires Ascends(items)
    ensures DistinctKeys(items)
  {
    forall i, j | 0 <= i < j < |items|
      ensures items[i].0 != items[j].0
    {
      BeforeIsAsymmetric(items[i].0, items[j].0);
    }
  }

  /** A list that holds every key of the map once, with its value, stands for the map. */
  lemma ItemsOfMap(items: Items, states: States)
    requires DistinctKeys(items)
    requires forall i :: 0 <= i < |items| ==> items[i].0 in states && items[i].1 == states[items[i].0]
    requires forall k :: k in states ==> exists i :: 0 <= i < |items| && items[i].0 == k
    ensures Lookup(items) == states
  {
    LookupHolds(items);
  }

  lemma SortedItemsLookup(states: States)
    ensures Ascends(SortedItems(states)) && Lookup(SortedItems(states)) == states
  {
    var items, keys := SortedItems(states), Sorted(states.Keys);
    AscendingKeysDistinct(items);
    forall k | k in states
      ensures exists i :: 0 <= i < |items| && items[i].0 == k
    {
      assert k in keys;
      var i :| 0 <= i < |keys| && keys[i] == k;
      assert items[i].0 == k;
    }
    ItemsOfMap(items, states);
  }

  /** Loading what was saved gives the same map, and stops where it ended. */
  lemma StatesReadBack(states: States, rest: string)
    ensures ReadStates(StatesText(states) + rest) == Some((states, rest))
  {
    var items := SortedItems(states);
    var body := MembersText(items) + rest;
    Reassociates("{", MembersText(items), rest);
    SkipsOpening("{", body);
    SortedItemsLookup(states);
    if items == [] {
      SkipsOpening("}", rest);
    } else {
      assert Skip("}", body).None? by {
        assert body[0] == '"' && "}"[0] == '}';
      }
      MembersReadBack(items, rest);
    }
  }

  lemma OnlyKey(keys: seq<string>, key: string)
    requires Ascending(keys) && key in keys && forall k :: k in keys ==> k == key
    ensures keys == [key]
  {
    var last := |keys| - 1;
    assert keys[0] in keys && keys[last] in keys;
    assert last > 0 ==> Before(keys[0], keys[last]);
    BeforeIsAsymmetric(keys[0], keys[last]);
  }

  lemma OneMember(key: string, s: KnowledgeState)
    ensures StatesText(map[key := s]) == "{" + (MemberText(key, s) + "}")
  {
    var states := map[key := s];
    var keys := Sorted(states.Keys);
    assert states.Keys == {key};
    OnlyKey(keys, key);
  }

  /** The text of one item, written out. */
  lemma OneItemText(key: string, s: KnowledgeState)
    ensures var id, event, state := JsonString(s.knowledgeId), JsonString(s.lastEventId), JsonString(s.state.Value());
            var fields :=
              "{\"knowledge_id\":" + (id +
              (",\"last_event_id\":" + (event +
              (",\"last_sequence\":" + (IntText(s.lastSequence) +
              (",\"state\":" + (state + "}")))))));
            StatesText(map[key := s]) == "{" + ((JsonString(key) + (":" + fields)) + "}")
  {
    OneMember(key, s);
  }

  /** The text that is hashed: the sequence and the map, keys ascending at every level. */
  function DigestText(lastSequence: int, states: States): string {
    "{\"last_sequence\":" + (IntText(lastSequence) + (",\"states\":" + (StatesText(states) + "}")))
  }

  /** Two different snapshots never have the same hashed text. */
  lemma DigestTextInjective(m: int, s: States, n: int, t: States)
    requires DigestText(m, s) == DigestText(n, t)
    ensures m == n && s == t
  {
    DigestTextReadsBack(m, s);
    DigestTextReadsBack(n, t);
  }

  lemma DigestTextReadsBack(n: int, states: States)
    ensures var number := ReadIntField("{\"last_sequence\":", DigestText(n, states));
            number.Some? && number.value.0 == n &&
            var body := Skip(",\"states\":", number.value.1);
            body.Some? && ReadStates(body.value) == Some((states, "}"))
  {
    var t1 := ",\"states\":" + (StatesText(states) + "}");
    assert t1[0] == ',';
    IntFieldReadsBack("{\"last_sequence\":", n, t1);
    SkipsOpening(",\"states\":", StatesText(states) + "}");
    StatesReadBack(states, "}");
  }

  // ---- Insertion order ----

  /** The keys of an item list, in order. */
  function Keys(items: Items): (keys: seq<string>)
    requires DistinctKeys(items)
    ensures |keys| == |items| && forall i :: 0 <= i < |items| ==> keys[i] == items[i].0
    ensures forall k :: k in keys <==> k in Lookup(items)
  {
    LookupHolds(items);
    var keys := seq(|items|, i requires 0 <= i < |items| => items[i].0);
    assert forall i :: 0 <= i < |items| ==> keys[i] in Lookup(items);
    assert forall k :: k in Lookup(items) ==> k in keys by {
      forall k | k in Lookup(items)
        ensures k in keys
      {
        var i :| 0 <= i < |items| && items[i].0 == k;
        assert keys[i] == k;
      }
    }
    keys
  }

  /** Two item lists in ascending key order that stand for the same map are the same list. */
  lemma AscendingItemsUnique(a: Items, b: Items)
    requires Ascends(a) && Ascends(b) && Lookup(a) == Lookup(b)
    ensures a == b
  {
    AscendingKeysDistinct(a);
    AscendingKeysDistinct(b);
    LookupHolds(a);
    LookupHolds(b);
    var keysA, keysB := Keys(a), Keys(b);
    AscendingIsUnique(keysA, keysB);
    forall i | 0 <= i < |a|
      ensures a[i] == b[i]
    {
      assert keysA[i] == keysB[i];
      assert a[i].1 == Lookup(a)[a[i].0] && b[i].1 == Lookup(b)[b[i].0];
    }
  }

  /** Sorting a dict's items by key gives the text of the map they stand for: insertion order is forgotten. */
  lemma InsertionOrderForgotten(dict: Items, sorted: Items)
    requires DistinctKeys(dict) && Ascends(sorted)
    requires multiset(sorted) == multiset(dict)
    ensures "{" + MembersText(sorted) == StatesText(Lookup(dict))
  {
    AscendingKeysDistinct(sorted);
    SameItemsSameLookup(dict, sorted);
    SortedItemsLookup(Lookup(dict));
    AscendingItemsUnique(sorted, SortedItems(Lookup(dict)));
  }

  lemma SameItemsSameLookup(a: Items, b: Items)
    requires DistinctKeys(a) && DistinctKeys(b) && multiset(a) == multiset(b)
    ensures Lookup(a) == Lookup(b)
  {
    LookupHoldsItems(a, b);
    LookupHoldsItems(b, a);
  }

  lemma LookupHoldsItems(a: Items, b: Items)
    requires DistinctKeys(a) && DistinctKeys(b) && multiset(a) == multiset(b)
    ensures forall k :: k in Lookup(a) ==> k in Lookup(b) && Lookup(a)[k] == Lookup(b)[k]
  {
    LookupHolds(a);
    LookupHolds(b);
    forall k | k in Lookup(a)
      ensures k in Lookup(b) && Lookup(a)[k] == Lookup(b)[k]
    {
      var i :| 0 <= i < |a| && a[i].0 == k && a[i].1 == Lookup(a)[k];
      assert a[i] in multiset(b);
      var j :| 0 <= j < |b| && b[j] == a[i];
    }
  }
}
