/** Runs of the page fault engine: when paging is a plain map, how far working sets grow, and the page account
    (Runtime/dual_tier_memory.py). */
module PagingRuns {
  import opened Results
  import opened Text
  import opened Paging

  datatype Op =
    | AllocateOp(pid: string, pageId: string, data: string, now: real)
    | SwapOutOp(pid: string, pageId: string)
    | AccessOp(pid: string, pageId: string, now: real, fallback: Option<string>)
    | SweepOp(order: seq<nat>, now: real, threshold: real)

  type Key = (string, string)

  predicate ValidOrder(order: seq<nat>, pages: seq<Page>) {
    forall i :: 0 <= i < |order| ==> order[i] < |pages|
  }

  /** One operation; a sweep visits existing pages only. */
  function Apply(v: Vmm, limit: int, op: Op): Vmm {
    match op
    case AllocateOp(pid, pageId, data, now) => Allocate(v, limit, pid, pageId, data, now)
    case SwapOutOp(pid, pageId) => SwapOut(v, pid, pageId)
    case AccessOp(pid, pageId, now, fallback) => Access(v, pid, pageId, now, fallback)
    case SweepOp(order, now, threshold) => if ValidOrder(order, v.pages) then Sweep(v, order, now, threshold) else v
  }

  function Run(limit: int, ops: seq<Op>): Vmm {
    if ops == [] then Vmm([], map[], 0, 0, 0) else Apply(Run(limit, ops[..|ops| - 1]), limit, ops[|ops| - 1])
  }

  lemma RunStep(limit: int, ops: seq<Op>, op: Op)
    ensures Run(limit, ops + [op]) == Apply(Run(limit, ops), limit, op)
  {
    assert (ops + [op])[..|ops|] == ops;
  }

  lemma RunOfOne(limit: int, op: Op)
    ensures Run(limit, [op]) == Apply(Vmm([], map[], 0, 0, 0), limit, op)
  {
    assert [] + [op] == [op];
    RunStep(limit, [], op);
  }

  lemma AllocateOnEmpty(limit: int, pid: string, pageId: string, data: string, now: real)
    requires limit >= 1
    ensures Allocate(Vmm([], map[], 0, 0, 0), limit, pid, pageId, data, now) ==
            Vmm([Page(pid, pageId, data, ActiveL1, now, 1)], map[], 0, 0, 0)
  {
  }

  function Touches(op: Op): set<Key> {
    match op
    case AllocateOp(pid, pageId, _, _) => {(pid, pageId)}
    case AccessOp(pid, pageId, _, _) => {(pid, pageId)}
    case _ => {}
  }

  /** The keys a run allocates or accesses. */
  function Touched(ops: seq<Op>): set<Key> {
    if ops == [] then {} else Touched(ops[..|ops| - 1]) + Touches(ops[|ops| - 1])
  }

  // ---- The plain map ----

  predicate IsHeld(v: Vmm, pid: string, pageId: string) {
    Find(v.pages, pid, pageId) < |v.pages|
  }

  /** What one operation stores in the plain map: an allocation its data, an access to a page that was never allocated
      whatever was retrieved for it. */
  function Stored(m: map<Key, string>, v: Vmm, limit: int, op: Op): map<Key, string> {
    match op
    case AllocateOp(pid, pageId, data, _) => if MakeRoom(v, limit, pid).Some? then m[(pid, pageId) := data] else m
    case AccessOp(pid, pageId, _, fallback) =>
      if !IsHeld(v, pid, pageId) && Retrieved(v, pid, pageId, fallback).Some?
      then m[(pid, pageId) := Retrieved(v, pid, pageId, fallback).value] else m
    case _ => m
  }

  /** The data last stored for each key. */
  function Memory(limit: int, ops: seq<Op>): map<Key, string> {
    if ops == [] then map[]
    else Stored(Memory(limit, ops[..|ops| - 1]), Run(limit, ops[..|ops| - 1]), limit, ops[|ops| - 1])
  }

  /** Different keys of the set have different document ids. */
  ghost predicate NoCollision(keys: set<Key>) {
    forall a, b :: a in keys && b in keys && DocId(a.0, a.1) == DocId(b.0, b.1) ==> a == b
  }

  function KeyOf(p: Page): Key {
    (p.pid, p.pageId)
  }

  /** An active page holds its data; a swapped page's data is in the index under its document id. */
  ghost predicate PageOk(p: Page, l2: map<string, string>, m: map<Key, string>) {
    KeyOf(p) in m &&
    match p.state
    case ActiveL1 => p.data == m[KeyOf(p)]
    case SwappedL2 => DocId(p.pid, p.pageId) in l2 && l2[DocId(p.pid, p.pageId)] == m[KeyOf(p)]
  }

  ghost predicate PagesOk(pages: seq<Page>, l2: map<string, string>, m: map<Key, string>) {
    forall i :: 0 <= i < |pages| ==> PageOk(pages[i], l2, m)
  }

  ghost predicate AllHeld(pages: seq<Page>, m: map<Key, string>) {
    forall key :: key in m ==> Find(pages, key.0, key.1) < |pages|
  }

  /** Every document belongs to a key of the map. */
  ghost predicate DocumentsOwned(l2: map<string, string>, m: map<Key, string>) {
    forall doc :: doc in l2 ==> exists key :: key in m && DocId(key.0, key.1) == doc
  }

  ghost predicate Coherent(v: Vmm, m: map<Key, string>) {
    DistinctPages(v.pages) && PagesOk(v.pages, v.l2, m) && AllHeld(v.pages, m) && DocumentsOwned(v.l2, m)
  }

  lemma SameKeysSameHeld(pages: seq<Page>, k: nat, p: Page)
    requires k < |pages| && IsPage(p, pages[k].pid, pages[k].pageId)
    ensures DistinctPages(pages) ==> DistinctPages(pages[k := p])
    ensures forall pid, pageId :: Find(pages[k := p], pid, pageId) == Find(pages, pid, pageId)
  {
    forall pid, pageId
      ensures Find(pages[k := p], pid, pageId) == Find(pages, pid, pageId)
    {
      var a, b := Find(pages[k := p], pid, pageId), Find(pages, pid, pageId);
      assert a < |pages| ==> IsPage(pages[a], pid, pageId);
      assert b < |pages| ==> IsPage(pages[k := p][b], pid, pageId);
    }
  }

  lemma ReplacedPageStillHeld(pages: seq<Page>, k: nat, p: Page, m: map<Key, string>)
    requires k < |pages| && IsPage(p, pages[k].pid, pages[k].pageId)
    requires DistinctPages(pages) && AllHeld(pages, m)
    ensures DistinctPages(pages[k := p]) && AllHeld(pages[k := p], m)
  {
    SameKeysSameHeld(pages, k, p);
  }

  /** Writing one page's document leaves the other pages alone, as long as document ids do not collide. */
  lemma SwapOutPagesOk(v: Vmm, m: map<Key, string>, k: nat)
    requires DistinctPages(v.pages) && PagesOk(v.pages, v.l2, m) && NoCollision(m.Keys)
    requires k < |v.pages| && v.pages[k].state.ActiveL1?
    ensures PagesOk(SwapOutAt(v, k).pages, SwapOutAt(v, k).l2, m)
  {
    var p, after := v.pages[k], SwapOutAt(v, k);
    assert PageOk(p, v.l2, m);
    forall i | 0 <= i < |after.pages|
      ensures PageOk(after.pages[i], after.l2, m)
    {
      assert PageOk(v.pages[i], v.l2, m);
      if i != k {
        assert KeyOf(v.pages[i]) != KeyOf(p);
      }
    }
  }

  lemma NewDocumentOwned(l2: map<string, string>, m: map<Key, string>, key: Key, data: string)
    requires DocumentsOwned(l2, m) && key in m
    ensures DocumentsOwned(l2[DocId(key.0, key.1) := data], m)
  {
  }

  /** Swapping a page out writes its document; without collisions no other page's document is overwritten. */
  lemma SwapOutCoherent(v: Vmm, m: map<Key, string>, k: nat)
    requires Coherent(v, m) && NoCollision(m.Keys)
    requires k < |v.pages| && v.pages[k].state.ActiveL1?
    ensures Coherent(SwapOutAt(v, k), m)
  {
    var p := v.pages[k];
    assert PageOk(p, v.l2, m);
    SwapOutPagesOk(v, m, k);
    ReplacedPageStillHeld(v.pages, k, p.(state := SwappedL2), m);
    NewDocumentOwned(v.l2, m, KeyOf(p), p.data);
  }

  lemma PutHolds(pages: seq<Page>, p: Page, pid: string, pageId: string)
    ensures Find(Put(pages, p), pid, pageId) < |Put(pages, p)| <==>
            Find(pages, pid, pageId) < |pages| || IsPage(p, pid, pageId)
  {
    var k := Find(pages, p.pid, p.pageId);
    var after := Put(pages, p);
    var a, b := Find(after, pid, pageId), Find(pages, pid, pageId);
    if k < |pages| {
      SameKeysSameHeld(pages, k, p);
    } else if b < |pages| {
      assert IsPage(after[b], pid, pageId);
    } else if IsPage(p, pid, pageId) {
      assert IsPage(after[|pages|], pid, pageId);
    } else {
      assert forall i :: 0 <= i < |after| ==> !IsPage(after[i], pid, pageId);
    }
  }

  lemma PutPagesOk(pages: seq<Page>, l2: map<string, string>, m: map<Key, string>, p: Page)
    requires DistinctPages(pages) && PagesOk(pages, l2, m) && p.state.ActiveL1?
    ensures PagesOk(Put(pages, p), l2, m[KeyOf(p) := p.data])
  {
    var after, k := Put(pages, p), Find(pages, p.pid, p.pageId);
    forall i | 0 <= i < |after|
      ensures PageOk(after[i], l2, m[KeyOf(p) := p.data])
    {
      if i < |pages| && i != k {
        assert PageOk(pages[i], l2, m);
        assert KeyOf(pages[i]) != KeyOf(p);
      }
    }
  }

  lemma PutAllHeld(pages: seq<Page>, m: map<Key, string>, p: Page)
    requires AllHeld(pages, m)
    ensures AllHeld(Put(pages, p), m[KeyOf(p) := p.data])
  {
    forall key | key in m[KeyOf(p) := p.data]
      ensures Find(Put(pages, p), key.0, key.1) < |Put(pages, p)|
    {
      PutHolds(pages, p, key.0, key.1);
    }
  }

  lemma MoreKeysStillOwn(l2: map<string, string>, m: map<Key, string>, key: Key, data: string)
    requires DocumentsOwned(l2, m)
    ensures DocumentsOwned(l2, m[key := data])
  {
    forall doc | doc in l2
      ensures exists k :: k in m[key := data] && DocId(k.0, k.1) == doc
    {
      var k :| k in m && DocId(k.0, k.1) == doc;
      assert k in m[key := data];
    }
  }

  /** Storing an active page under a key and its data in the map. */
  lemma PutCoherent(v: Vmm, m: map<Key, string>, p: Page)
    requires Coherent(v, m) && p.state.ActiveL1?
    ensures Coherent(v.(pages := Put(v.pages, p)), m[KeyOf(p) := p.data])
  {
    PutKeepsDistinct(v.pages, p);
    PutPagesOk(v.pages, v.l2, m, p);
    PutAllHeld(v.pages, m, p);
    MoreKeysStillOwn(v.l2, m, KeyOf(p), p.data);
  }

  lemma AllocateCoherent(v: Vmm, m: map<Key, string>, limit: int, pid: string, pageId: string, data: string, now: real)
    requires Coherent(v, m) && NoCollision(m.Keys)
    ensures Coherent(Allocate(v, limit, pid, pageId, data, now),
            Stored(m, v, limit, AllocateOp(pid, pageId, data, now)))
  {
    var room := MakeRoom(v, limit, pid);
    if room.Some? {
      if ActiveCount(v.pages, pid) >= limit {
        SwapOutCoherent(v, m, Lru(v.pages, pid));
      }
      PutCoherent(room.value, m, Page(pid, pageId, data, ActiveL1, now, 1));
    }
  }

  /** A page that is not held has no document either. */
  lemma UnheldHasNoDocument(v: Vmm, m: map<Key, string>, keys: set<Key>, key: Key)
    requires Coherent(v, m) && NoCollision(keys) && m.Keys <= keys && key in keys && key !in m
    ensures !IsHeld(v, key.0, key.1) && DocId(key.0, key.1) !in v.l2
  {
    var k := Find(v.pages, key.0, key.1);
    assert k < |v.pages| ==> PageOk(v.pages[k], v.l2, m);
  }

  /** What an access returns is what the map holds, and the fallback where it holds nothing. */
  lemma AccessReadsMap(
      v: Vmm, m: map<Key, string>, keys: set<Key>, pid: string, pageId: string, fallback: Option<string>)
    requires Coherent(v, m) && NoCollision(keys) && m.Keys <= keys && (pid, pageId) in keys
    ensures Accessed(v, pid, pageId, fallback) == if (pid, pageId) in m then Some(m[(pid, pageId)]) else fallback
    ensures IsHeld(v, pid, pageId) <==> (pid, pageId) in m
  {
    var k := Find(v.pages, pid, pageId);
    if (pid, pageId) in m {
      assert IsHeld(v, pid, pageId);
      assert PageOk(v.pages[k], v.l2, m);
    } else {
      UnheldHasNoDocument(v, m, keys, (pid, pageId));
    }
  }

  /** Replacing a page by one that agrees with the map. */
  lemma TouchCoherent(v: Vmm, m: map<Key, string>, k: nat, p: Page)
    requires Coherent(v, m) && k < |v.pages| && IsPage(p, v.pages[k].pid, v.pages[k].pageId)
    requires PageOk(p, v.l2, m)
    ensures Coherent(v.(pages := v.pages[k := p]), m)
  {
    ReplacedPageStillHeld(v.pages, k, p, m);
  }

  lemma CountersDoNotMatter(v: Vmm, m: map<Key, string>, faults: nat, swapIns: nat)
    requires Coherent(v, m)
    ensures Coherent(v.(faults := faults, swapIns := swapIns), m)
  {
  }

  lemma RefreshedOk(pages: seq<Page>, l2: map<string, string>, m: map<Key, string>, k: nat, now: real)
    requires k < |pages| && PagesOk(pages, l2, m)
    ensures PageOk(Refreshed(pages[k], now), l2, m)
  {
    assert PageOk(pages[k], l2, m);
  }

  lemma HitCoherent(v: Vmm, m: map<Key, string>, k: nat, now: real)
    requires Coherent(v, m) && k < |v.pages| && v.pages[k].state.ActiveL1?
    ensures Coherent(Hit(v, k, now), m)
  {
    RefreshedOk(v.pages, v.l2, m, k, now);
    TouchCoherent(v, m, k, Refreshed(v.pages[k], now));
  }

  /** A fault on a held page brings back the data the map holds for it. */
  lemma HeldMissCoherent(v: Vmm, m: map<Key, string>, pid: string, pageId: string, data: string, now: real)
    requires Coherent(v, m) && IsHeld(v, pid, pageId) && (pid, pageId) in m && data == m[(pid, pageId)]
    ensures Coherent(v.(pages := PagedIn(v.pages, pid, pageId, data, now)), m)
  {
    var k := Find(v.pages, pid, pageId);
    TouchCoherent(v, m, k, Restored(v.pages[k], data, now));
  }

  lemma UnheldMissCoherent(v: Vmm, m: map<Key, string>, pid: string, pageId: string, data: string, now: real)
    requires Coherent(v, m) && !IsHeld(v, pid, pageId)
    ensures Coherent(v.(pages := PagedIn(v.pages, pid, pageId, data, now)), m[(pid, pageId) := data])
  {
    PutCoherent(v, m, Page(pid, pageId, data, ActiveL1, now, 1));
  }

  /** A fault that finds data, on a page held or not. */
  lemma ServedCoherent(v: Vmm, m: map<Key, string>, pid: string, pageId: string, data: string, now: real)
    requires Coherent(v, m) && (IsHeld(v, pid, pageId) ==> (pid, pageId) in m && data == m[(pid, pageId)])
    ensures Coherent(v.(pages := PagedIn(v.pages, pid, pageId, data, now), faults := v.faults + 1,
                        swapIns := v.swapIns + 1),
                     if IsHeld(v, pid, pageId) then m else m[(pid, pageId) := data])
  {
    var after := v.(pages := PagedIn(v.pages, pid, pageId, data, now));
    if IsHeld(v, pid, pageId) {
      HeldMissCoherent(v, m, pid, pageId, data, now);
      CountersDoNotMatter(after, m, v.faults + 1, v.swapIns + 1);
    } else {
      UnheldMissCoherent(v, m, pid, pageId, data, now);
      CountersDoNotMatter(after, m[(pid, pageId) := data], v.faults + 1, v.swapIns + 1);
    }
  }

  lemma HeldRetrievesMap(v: Vmm, m: map<Key, string>, pid: string, pageId: string, fallback: Option<string>)
    requires Coherent(v, m) && IsHeld(v, pid, pageId) && !Swappable(v, pid, pageId)
    ensures (pid, pageId) in m && Retrieved(v, pid, pageId, fallback) == Some(m[(pid, pageId)])
  {
    assert PageOk(v.pages[Find(v.pages, pid, pageId)], v.l2, m);
  }

  lemma MissOnHeld(v: Vmm, m: map<Key, string>, pid: string, pageId: string, now: real, fallback: Option<string>)
    requires Coherent(v, m) && !Swappable(v, pid, pageId) && IsHeld(v, pid, pageId)
    ensures Coherent(Miss(v, pid, pageId, now, fallback), m)
  {
    HeldRetrievesMap(v, m, pid, pageId, fallback);
    ServedCoherent(v, m, pid, pageId, m[(pid, pageId)], now);
  }

  lemma MissOnUnheld(v: Vmm, m: map<Key, string>, pid: string, pageId: string, now: real, fallback: Option<string>)
    requires Coherent(v, m) && !IsHeld(v, pid, pageId)
    ensures var data := Retrieved(v, pid, pageId, fallback);
            Coherent(Miss(v, pid, pageId, now, fallback), if data.Some? then m[(pid, pageId) := data.value] else m)
  {
    var data := Retrieved(v, pid, pageId, fallback);
    if data.None? {
      CountersDoNotMatter(v, m, v.faults + 1, v.swapIns);
    } else {
      ServedCoherent(v, m, pid, pageId, data.value, now);
    }
  }

  lemma MissCoherent(
      v: Vmm, m: map<Key, string>, limit: int, pid: string, pageId: string, now: real, fallback: Option<string>)
    requires Coherent(v, m) && !Swappable(v, pid, pageId)
    ensures Coherent(Miss(v, pid, pageId, now, fallback), Stored(m, v, limit, AccessOp(pid, pageId, now, fallback)))
  {
    if IsHeld(v, pid, pageId) {
      MissOnHeld(v, m, pid, pageId, now, fallback);
    } else {
      MissOnUnheld(v, m, pid, pageId, now, fallback);
    }
  }

  lemma {:induction false} SweepCoherent(v: Vmm, m: map<Key, string>, order: seq<nat>, now: real, threshold: real)
    requires Coherent(v, m) && NoCollision(m.Keys) && ValidOrder(order, v.pages)
    ensures Coherent(Sweep(v, order, now, threshold), m)
  {
    if order != [] {
      var n := |order| - 1;
      SweepCoherent(v, m, order[..n], now, threshold);
      var before := Sweep(v, order[..n], now, threshold);
      if Idle(before.pages[order[n]], now, threshold) {
        SwapOutCoherent(before, m, order[n]);
      }
    }
  }

  lemma ApplyCoherent(v: Vmm, m: map<Key, string>, keys: set<Key>, limit: int, op: Op)
    requires Coherent(v, m) && NoCollision(keys) && m.Keys <= keys && Touches(op) <= keys
    ensures Coherent(Apply(v, limit, op), Stored(m, v, limit, op))
    ensures Stored(m, v, limit, op).Keys <= keys
  {
    match op
    case AllocateOp(pid, pageId, data, now) => AllocateCoherent(v, m, limit, pid, pageId, data, now);
    case SwapOutOp(pid, pageId) =>
      if Swappable(v, pid, pageId) { SwapOutCoherent(v, m, Find(v.pages, pid, pageId)); }
    case AccessOp(pid, pageId, now, fallback) =>
      if Swappable(v, pid, pageId) { HitCoherent(v, m, Find(v.pages, pid, pageId), now); }
      else { MissCoherent(v, m, limit, pid, pageId, now, fallback); }
    case SweepOp(order, now, threshold) =>
      if ValidOrder(order, v.pages) { SweepCoherent(v, m, order, now, threshold); }
  }

  lemma {:induction false} RunCoherent(limit: int, ops: seq<Op>, keys: set<Key>)
    requires NoCollision(keys) && Touched(ops) <= keys
    ensures Coherent(Run(limit, ops), Memory(limit, ops)) && Memory(limit, ops).Keys <= keys
  {
    if ops != [] {
      var n := |ops| - 1;
      RunCoherent(limit, ops[..n], keys);
      ApplyCoherent(Run(limit, ops[..n]), Memory(limit, ops[..n]), keys, limit, ops[n]);
    }
  }

  /** Paging is a plain map: whatever allocations, evictions, swaps, sweeps and faults came before, an access to any key
      returns the data last stored for it, as long as the keys in play have different document ids. */
  lemma PagingIsAMap(limit: int, ops: seq<Op>, keys: set<Key>, pid: string, pageId: string, fallback: Option<string>)
    requires NoCollision(keys) && Touched(ops) <= keys && (pid, pageId) in keys
    ensures var m := Memory(limit, ops);
            Accessed(Run(limit, ops), pid, pageId, fallback) ==
            if (pid, pageId) in m then Some(m[(pid, pageId)]) else fallback
  {
    RunCoherent(limit, ops, keys);
    AccessReadsMap(Run(limit, ops), Memory(limit, ops), keys, pid, pageId, fallback);
  }

  /** Pids without underscores never collide. */
  lemma UnderscoreFreePidsDoNotCollide(keys: set<Key>)
    requires forall key :: key in keys ==> '_' !in key.0
    ensures NoCollision(keys)
  {
    forall a, b | a in keys && b in keys && DocId(a.0, a.1) == DocId(b.0, b.1)
      ensures a == b
    {
      assert a.0 + "_" + a.1 == DocId(a.0, a.1)[8..];
      assert b.0 + "_" + b.1 == DocId(b.0, b.1)[8..];
      FirstSeparatorSplits(a.0, a.1, b.0, b.1, '_');
    }
  }
}
