/** Exactly when the paged store agrees with a plain map (Runtime/dual_tier_memory.py): document ids join pid and page
    id with an underscore, so two keys can share one document. */
module PagingCollisions {
  import opened Results
  import opened Paging
  import opened PagingRuns

  function PlainApply(m: map<Key, string>, op: Op): map<Key, string> {
    match op
    case AllocateOp(pid, pageId, data, _) => m[(pid, pageId) := data]
    case AccessOp(pid, pageId, _, fallback) =>
      if (pid, pageId) !in m && fallback.Some? then m[(pid, pageId) := fallback.value] else m
    case SwapOutOp(_, _) => m
    case SweepOp(_, _, _) => m
  }

  /** A dictionary with no tiers at all: an allocation stores, an access to an unknown key stores what was offered for
      it. */
  function Plain(ops: seq<Op>): map<Key, string> {
    if ops == [] then map[] else PlainApply(Plain(ops[..|ops| - 1]), ops[|ops| - 1])
  }

  function PlainAccess(ops: seq<Op>, pid: string, pageId: string, fallback: Option<string>): Option<string> {
    if (pid, pageId) in Plain(ops) then Some(Plain(ops)[(pid, pageId)]) else fallback
  }

  lemma PlainStep(ops: seq<Op>, op: Op)
    ensures Plain(ops + [op]) == PlainApply(Plain(ops), op)
  {
    assert (ops + [op])[..|ops|] == ops;
  }

  /** With room for at least one page every allocation succeeds, and what the run stores is what the dictionary
      stores. */
  lemma {:induction false} MemoryIsPlain(limit: nat, ops: seq<Op>, keys: set<Key>)
    requires limit >= 1 && NoCollision(keys) && Touched(ops) <= keys
    ensures Memory(limit, ops) == Plain(ops)
  {
    if ops != [] {
      var n := |ops| - 1;
      MemoryIsPlain(limit, ops[..n], keys);
      RunCoherent(limit, ops[..n], keys);
      match ops[n]
      case AccessOp(pid, pageId, _, fallback) =>
        var v, m := Run(limit, ops[..n]), Memory(limit, ops[..n]);
        AccessReadsMap(v, m, keys, pid, pageId, fallback);
        if (pid, pageId) !in m { UnheldHasNoDocument(v, m, keys, (pid, pageId)); }
      case _ =>
    }
  }

  /** Every run over these keys answers every access as the dictionary would. */
  ghost predicate AgreesWithPlain(limit: nat, keys: set<Key>) {
    forall ops, pid, pageId, fallback :: Touched(ops) <= keys && (pid, pageId) in keys ==>
      Accessed(Run(limit, ops), pid, pageId, fallback) == PlainAccess(ops, pid, pageId, fallback)
  }

  lemma AgreesWithoutCollision(limit: nat, keys: set<Key>)
    requires limit >= 1 && NoCollision(keys)
    ensures AgreesWithPlain(limit, keys)
  {
    forall ops, pid, pageId, fallback | Touched(ops) <= keys && (pid, pageId) in keys
      ensures Accessed(Run(limit, ops), pid, pageId, fallback) == PlainAccess(ops, pid, pageId, fallback)
    {
      PagingIsAMap(limit, ops, keys, pid, pageId, fallback);
      MemoryIsPlain(limit, ops, keys);
    }
  }

  // ---- Two keys with one document ----

  function Clash(a: Key, b: Key, x: string, y: string): seq<Op> {
    [AllocateOp(a.0, a.1, x, 0.0)] + [SwapOutOp(a.0, a.1)] + [AllocateOp(b.0, b.1, y, 1.0)] + [SwapOutOp(b.0, b.1)]
  }

  lemma OnePageOut(p: Page)
    requires p.state.ActiveL1?
    ensures SwapOut(Vmm([p], map[], 0, 0, 0), p.pid, p.pageId) ==
            Vmm([p.(state := SwappedL2)], map[DocId(p.pid, p.pageId) := p.data], 0, 1, 0)
  {
    assert [p][0 := p.(state := SwappedL2)] == [p.(state := SwappedL2)];
  }

  lemma SecondPageIn(limit: nat, p: Page, l2: map<string, string>, b: Key, y: string, now: real)
    requires limit >= 1 && p.state.SwappedL2? && !IsPage(p, b.0, b.1)
    ensures Allocate(Vmm([p], l2, 0, 1, 0), limit, b.0, b.1, y, now) ==
            Vmm([p, Page(b.0, b.1, y, ActiveL1, now, 1)], l2, 0, 1, 0)
  {
    assert [p][..0] == [] && ActiveCount([p], b.0) == 0;
    assert Find([p], b.0, b.1) == 1;
  }

  lemma SecondPageOut(p: Page, q: Page, l2: map<string, string>)
    requires q.state.ActiveL1? && !IsPage(p, q.pid, q.pageId)
    ensures SwapOut(Vmm([p, q], l2, 0, 1, 0), q.pid, q.pageId) ==
            Vmm([p, q.(state := SwappedL2)], l2[DocId(q.pid, q.pageId) := q.data], 0, 2, 0)
  {
    assert [p, q][1..] == [q] && Find([p, q], q.pid, q.pageId) == 1;
    assert [p, q][1 := q.(state := SwappedL2)] == [p, q.(state := SwappedL2)];
  }

  lemma ClashRun(limit: nat, a: Key, b: Key, x: string, y: string)
    requires limit >= 1 && a != b && DocId(a.0, a.1) == DocId(b.0, b.1)
    ensures Accessed(Run(limit, Clash(a, b, x, y)), a.0, a.1, None) == Some(y)
  {
    var p, q := Page(a.0, a.1, x, ActiveL1, 0.0, 1), Page(b.0, b.1, y, ActiveL1, 1.0, 1);
    var o1, o2, o3, o4 := AllocateOp(a.0, a.1, x, 0.0), SwapOutOp(a.0, a.1), AllocateOp(b.0, b.1, y, 1.0),
        SwapOutOp(b.0, b.1);
    RunOfOne(limit, o1);
    RunStep(limit, [o1], o2);
    RunStep(limit, [o1] + [o2], o3);
    RunStep(limit, [o1] + [o2] + [o3], o4);
    AllocateOnEmpty(limit, a.0, a.1, x, 0.0);
    OnePageOut(p);
    var out := p.(state := SwappedL2);
    SecondPageIn(limit, out, map[DocId(a.0, a.1) := x], b, y, 1.0);
    SecondPageOut(out, q, map[DocId(a.0, a.1) := x]);
    assert Run(limit, Clash(a, b, x, y)).l2[DocId(a.0, a.1)] == y;
  }

  lemma ClashPlain(a: Key, b: Key, x: string, y: string)
    requires a != b
    ensures PlainAccess(Clash(a, b, x, y), a.0, a.1, None) == Some(x)
  {
    var o1, o2, o3, o4 := AllocateOp(a.0, a.1, x, 0.0), SwapOutOp(a.0, a.1), AllocateOp(b.0, b.1, y, 1.0),
        SwapOutOp(b.0, b.1);
    PlainStep([], o1);
    assert [] + [o1] == [o1];
    PlainStep([o1], o2);
    PlainStep([o1] + [o2], o3);
    PlainStep([o1] + [o2] + [o3], o4);
  }

  lemma TouchedStep(ops: seq<Op>, op: Op)
    ensures Touched(ops + [op]) == Touched(ops) + Touches(op)
  {
    assert (ops + [op])[..|ops|] == ops;
  }

  lemma ClashTouched(a: Key, b: Key, x: string, y: string)
    ensures Touched(Clash(a, b, x, y)) == {a, b}
  {
    var o1, o2, o3, o4 := AllocateOp(a.0, a.1, x, 0.0), SwapOutOp(a.0, a.1), AllocateOp(b.0, b.1, y, 1.0),
        SwapOutOp(b.0, b.1);
    TouchedStep([], o1);
    assert [] + [o1] == [o1];
    TouchedStep([o1], o2);
    TouchedStep([o1] + [o2], o3);
    TouchedStep([o1] + [o2] + [o3], o4);
    assert (a.0, a.1) == a && (b.0, b.1) == b;
  }

  /** Paging agrees with a dictionary on a set of keys exactly when no two of them share a document id; two that do can
      be made to return each other's data. */
  lemma PagingIsAMapExactlyWithoutCollision(limit: nat, keys: set<Key>)
    requires limit >= 1
    ensures AgreesWithPlain(limit, keys) <==> NoCollision(keys)
  {
    if NoCollision(keys) {
      AgreesWithoutCollision(limit, keys);
    } else {
      var a, b :| a in keys && b in keys && DocId(a.0, a.1) == DocId(b.0, b.1) && a != b;
      ClashRun(limit, a, b, "x", "y");
      ClashPlain(a, b, "x", "y");
      ClashTouched(a, b, "x", "y");
      assert (a.0, a.1) in keys;
      assert Accessed(Run(limit, Clash(a, b, "x", "y")), a.0, a.1, None) !=
        PlainAccess(Clash(a, b, "x", "y"), a.0, a.1, None);
    }
  }

  /** An underscore in a pid is enough for a collision. */
  lemma UnderscorePidsCollide()
    ensures !NoCollision({("a_b", "c"), ("a", "b_c")})
  {
    var a, b := ("a_b", "c"), ("a", "b_c");
    assert "a_b" + "_" + "c" == "a" + "_" + "b_c";
    assert a != b by { assert |a.0| != |b.0|; }
    assert DocId(a.0, a.1) == DocId(b.0, b.1);
  }
}
