/** How far working sets grow past their limit, and the account of swaps over a run (Runtime/dual_tier_memory.py). */
module PagingAccount {
  import opened Results
  import opened Paging
  import opened PagingRuns

  function Bit(b: bool): nat {
    if b then 1 else 0
  }

  function Max(a: int, b: int): int {
    if a < b then b else a
  }

  function SwappedCount(pages: seq<Page>): nat {
    if pages == [] then 0 else SwappedCount(pages[..|pages| - 1]) + Bit(pages[|pages| - 1].state.SwappedL2?)
  }

  lemma {:induction false} CountsAfterUpdate(pages: seq<Page>, k: nat, p: Page, pid: string)
    requires k < |pages|
    ensures SwappedCount(pages[k := p]) + Bit(pages[k].state.SwappedL2?) ==
            SwappedCount(pages) + Bit(p.state.SwappedL2?)
    ensures ActiveCount(pages[k := p], pid) + Bit(IsActive(pages[k], pid)) ==
            ActiveCount(pages, pid) + Bit(IsActive(p, pid))
  {
    var n := |pages| - 1;
    var after := pages[k := p];
    if k == n {
      assert after[..n] == pages[..n];
    } else {
      assert after[..n] == pages[..n][k := p];
      CountsAfterUpdate(pages[..n], k, p, pid);
    }
  }

  lemma CountsAfterAppend(pages: seq<Page>, p: Page, pid: string)
    ensures SwappedCount(pages + [p]) == SwappedCount(pages) + Bit(p.state.SwappedL2?)
    ensures ActiveCount(pages + [p], pid) == ActiveCount(pages, pid) + Bit(IsActive(p, pid))
  {
    assert (pages + [p])[..|pages|] == pages;
  }

  predicate HeldSwapped(pages: seq<Page>, pid: string, pageId: string) {
    var k := Find(pages, pid, pageId);
    k < |pages| && pages[k].state.SwappedL2?
  }

  lemma CountsAfterPut(pages: seq<Page>, p: Page, pid: string)
    requires p.state.ActiveL1?
    ensures SwappedCount(Put(pages, p)) + Bit(HeldSwapped(pages, p.pid, p.pageId)) == SwappedCount(pages)
    ensures ActiveCount(Put(pages, p), pid) <= ActiveCount(pages, pid) + Bit(p.pid == pid)
  {
    var k := Find(pages, p.pid, p.pageId);
    if k < |pages| {
      CountsAfterUpdate(pages, k, p, pid);
    } else {
      CountsAfterAppend(pages, p, pid);
    }
  }

  lemma CountsAfterSwapOut(v: Vmm, k: nat, pid: string)
    requires k < |v.pages| && v.pages[k].state.ActiveL1?
    ensures SwappedCount(SwapOutAt(v, k).pages) == SwappedCount(v.pages) + 1
    ensures ActiveCount(SwapOutAt(v, k).pages, pid) + Bit(v.pages[k].pid == pid) == ActiveCount(v.pages, pid)
  {
    CountsAfterUpdate(v.pages, k, v.pages[k].(state := SwappedL2), pid);
  }

  /** The idle pages of a list. */
  function IdleCount(pages: seq<Page>, now: real, threshold: real): nat {
    if pages == [] then 0
    else IdleCount(pages[..|pages| - 1], now, threshold) + Bit(Idle(pages[|pages| - 1], now, threshold))
  }

  lemma {:induction false} SweptCounts(before: seq<Page>, after: seq<Page>, now: real, threshold: real)
    requires |after| == |before|
    requires forall k :: 0 <= k < |before| ==> after[k] == SweptPage(before[k], true, now, threshold)
    ensures SwappedCount(after) == SwappedCount(before) + IdleCount(before, now, threshold)
  {
    if before != [] { SweptCounts(before[..|before| - 1], after[..|after| - 1], now, threshold); }
  }

  // ---- What an operation adds to the account ----

  /** The operation takes a fault on the pid. */
  predicate FaultsOn(v: Vmm, op: Op, pid: string) {
    op.AccessOp? && op.pid == pid && !Swappable(v, op.pid, op.pageId)
  }

  /** The operation brings in a page that was never allocated. */
  predicate BringsStray(v: Vmm, op: Op) {
    op.AccessOp? && !IsHeld(v, op.pid, op.pageId) && Retrieved(v, op.pid, op.pageId, op.fallback).Some?
  }

  /** The operation allocates over a page that is swapped out at that moment. */
  predicate ReplacesSwapped(v: Vmm, limit: int, op: Op) {
    op.AllocateOp? && MakeRoom(v, limit, op.pid).Some? &&
    HeldSwapped(MakeRoom(v, limit, op.pid).value.pages, op.pid, op.pageId)
  }

  function FaultCount(limit: int, ops: seq<Op>, pid: string): nat {
    if ops == [] then 0
    else FaultCount(limit, ops[..|ops| - 1], pid) + Bit(FaultsOn(Run(limit, ops[..|ops| - 1]), ops[|ops| - 1], pid))
  }

  function StrayCount(limit: int, ops: seq<Op>): nat {
    if ops == [] then 0
    else StrayCount(limit, ops[..|ops| - 1]) + Bit(BringsStray(Run(limit, ops[..|ops| - 1]), ops[|ops| - 1]))
  }

  function ReplacedCount(limit: int, ops: seq<Op>): nat {
    if ops == [] then 0
    else ReplacedCount(limit, ops[..|ops| - 1]) +
         Bit(ReplacesSwapped(Run(limit, ops[..|ops| - 1]), limit, ops[|ops| - 1]))
  }

  /** Swap-outs not yet accounted for by a swap-in or by a page still out. */
  function Gap(v: Vmm): int {
    v.swapOuts - v.swapIns - SwappedCount(v.pages)
  }

  // ---- One operation ----

  lemma SwapOutStep(v: Vmm, k: nat, pid: string)
    requires k < |v.pages| && v.pages[k].state.ActiveL1?
    ensures Gap(SwapOutAt(v, k)) == Gap(v)
    ensures ActiveCount(SwapOutAt(v, k).pages, pid) <= ActiveCount(v.pages, pid)
    ensures v.pages[k].pid == pid ==> ActiveCount(SwapOutAt(v, k).pages, pid) < ActiveCount(v.pages, pid)
  {
    CountsAfterSwapOut(v, k, pid);
  }

  /** Room is really room: the allocating pid ends below its limit, or below where it was. */
  lemma MakeRoomStep(v: Vmm, limit: int, owner: string, pid: string)
    requires MakeRoom(v, limit, owner).Some?
    ensures var room := MakeRoom(v, limit, owner).value;
            Gap(room) == Gap(v) && ActiveCount(room.pages, pid) <= ActiveCount(v.pages, pid) &&
            (owner == pid ==>
              ActiveCount(room.pages, pid) < limit || ActiveCount(room.pages, pid) < ActiveCount(v.pages, pid))
  {
    if ActiveCount(v.pages, owner) >= limit {
      SwapOutStep(v, Lru(v.pages, owner), pid);
    }
  }

  lemma AllocateStep(v: Vmm, limit: int, op: Op, pid: string)
    requires op.AllocateOp?
    ensures Gap(Apply(v, limit, op)) == Gap(v) + Bit(ReplacesSwapped(v, limit, op))
    ensures ActiveCount(Apply(v, limit, op).pages, pid) <= Max(limit, ActiveCount(v.pages, pid))
  {
    var room := MakeRoom(v, limit, op.pid);
    if room.Some? {
      MakeRoomStep(v, limit, op.pid, pid);
      CountsAfterPut(room.value.pages, Page(op.pid, op.pageId, op.data, ActiveL1, op.now, 1), pid);
    }
  }

  lemma HitStep(v: Vmm, k: nat, now: real, pid: string)
    requires k < |v.pages|
    ensures Gap(Hit(v, k, now)) == Gap(v) && ActiveCount(Hit(v, k, now).pages, pid) == ActiveCount(v.pages, pid)
  {
    CountsAfterUpdate(v.pages, k, Refreshed(v.pages[k], now), pid);
  }

  lemma PagedInStep(pages: seq<Page>, owner: string, pageId: string, data: string, now: real, pid: string)
    ensures SwappedCount(PagedIn(pages, owner, pageId, data, now)) + Bit(HeldSwapped(pages, owner, pageId)) ==
            SwappedCount(pages)
    ensures ActiveCount(PagedIn(pages, owner, pageId, data, now), pid) <= ActiveCount(pages, pid) + Bit(owner == pid)
  {
    var k := Find(pages, owner, pageId);
    if k < |pages| {
      CountsAfterUpdate(pages, k, Restored(pages[k], data, now), pid);
    } else {
      CountsAfterAppend(pages, Page(owner, pageId, data, ActiveL1, now, 1), pid);
    }
  }

  lemma AccessStep(v: Vmm, limit: int, op: Op, pid: string)
    requires op.AccessOp?
    ensures Gap(Apply(v, limit, op)) == Gap(v) - Bit(BringsStray(v, op))
    ensures ActiveCount(Apply(v, limit, op).pages, pid) <= ActiveCount(v.pages, pid) + Bit(FaultsOn(v, op, pid))
  {
    if Swappable(v, op.pid, op.pageId) {
      HitStep(v, Find(v.pages, op.pid, op.pageId), op.now, pid);
    } else {
      var data := Retrieved(v, op.pid, op.pageId, op.fallback);
      if data.Some? { PagedInStep(v.pages, op.pid, op.pageId, data.value, op.now, pid); }
    }
  }

  lemma {:induction false} SweepStep(v: Vmm, order: seq<nat>, now: real, threshold: real, pid: string)
    requires ValidOrder(order, v.pages)
    ensures Gap(Sweep(v, order, now, threshold)) == Gap(v)
    ensures ActiveCount(Sweep(v, order, now, threshold).pages, pid) <= ActiveCount(v.pages, pid)
  {
    if order != [] {
      var n := |order| - 1;
      SweepStep(v, order[..n], now, threshold, pid);
      var before := Sweep(v, order[..n], now, threshold);
      if Idle(before.pages[order[n]], now, threshold) { SwapOutStep(before, order[n], pid); }
    }
  }

  /** A sweep of all pages makes as many swap-outs as there were idle pages. */
  lemma SweepCountsIdle(v: Vmm, order: seq<nat>, now: real, threshold: real)
    requires CoversAll(order, v.pages)
    ensures Sweep(v, order, now, threshold).swapOuts == v.swapOuts + IdleCount(v.pages, now, threshold)
  {
    var after := Sweep(v, order, now, threshold);
    forall k | 0 <= k < |v.pages|
      ensures after.pages[k] == SweptPage(v.pages[k], true, now, threshold)
    {
      SweepMovesIdle(v, order, now, threshold, k);
    }
    SweptCounts(v.pages, after.pages, now, threshold);
    SweepStep(v, order, now, threshold, "");
    SweepKeepsSwapIns(v, order, now, threshold);
  }

  lemma {:induction false} SweepKeepsSwapIns(v: Vmm, order: seq<nat>, now: real, threshold: real)
    requires ValidOrder(order, v.pages)
    ensures Sweep(v, order, now, threshold).swapIns == v.swapIns
  {
    if order != [] { SweepKeepsSwapIns(v, order[..|order| - 1], now, threshold); }
  }

  lemma ApplyKeepsBound(v: Vmm, limit: int, op: Op, pid: string)
    ensures ActiveCount(Apply(v, limit, op).pages, pid) <= Max(limit, ActiveCount(v.pages, pid)) +
            Bit(FaultsOn(v, op, pid))
  {
    match op
    case AllocateOp(_, _, _, _) => AllocateStep(v, limit, op, pid);
    case AccessOp(_, _, _, _) => AccessStep(v, limit, op, pid);
    case SwapOutOp(owner, pageId) =>
      if Swappable(v, owner, pageId) { SwapOutStep(v, Find(v.pages, owner, pageId), pid); }
    case SweepOp(order, now, threshold) =>
      if ValidOrder(order, v.pages) { SweepStep(v, order, now, threshold, pid); }
  }

  lemma ApplyMovesGap(v: Vmm, limit: int, op: Op)
    ensures Gap(Apply(v, limit, op)) == Gap(v) + Bit(ReplacesSwapped(v, limit, op)) - Bit(BringsStray(v, op))
  {
    match op
    case AllocateOp(_, _, _, _) => AllocateStep(v, limit, op, "");
    case AccessOp(_, _, _, _) => AccessStep(v, limit, op, "");
    case SwapOutOp(owner, pageId) =>
      if Swappable(v, owner, pageId) { SwapOutStep(v, Find(v.pages, owner, pageId), ""); }
    case SweepOp(order, now, threshold) =>
      if ValidOrder(order, v.pages) { SweepStep(v, order, now, threshold, ""); }
  }

  // ---- Whole runs ----

  /** The pid's active pages never exceed the limit by more than the faults taken on that pid. */
  lemma {:induction false} WorkingSetIsBounded(limit: nat, ops: seq<Op>, pid: string)
    ensures ActiveCount(Run(limit, ops).pages, pid) <= limit + FaultCount(limit, ops, pid)
  {
    if ops != [] {
      var n := |ops| - 1;
      WorkingSetIsBounded(limit, ops[..n], pid);
      ApplyKeepsBound(Run(limit, ops[..n]), limit, ops[n], pid);
    }
  }

  /** Every swap-out is undone by a swap-in, still out, or was replaced by a reallocation; swap-ins of pages that were
      never allocated are the only ones without a swap-out. */
  lemma {:induction false} SwapsBalance(limit: int, ops: seq<Op>)
    ensures var v := Run(limit, ops);
            v.swapOuts + StrayCount(limit, ops) == v.swapIns + SwappedCount(v.pages) + ReplacedCount(limit, ops)
  {
    if ops != [] {
      var n := |ops| - 1;
      SwapsBalance(limit, ops[..n]);
      ApplyMovesGap(Run(limit, ops[..n]), limit, ops[n]);
    }
  }

  lemma NoFaultsYet(o1: Op, o2: Op, pid: string)
    requires o1.AllocateOp? && o2.AllocateOp?
    ensures FaultCount(1, [o1, o2], pid) == 0
  {
    assert [o1, o2][..1] == [o1] && [o1][..0] == [];
    assert FaultCount(1, [o1], pid) == 0;
  }

  lemma FirstEvicted(pid: string, a: string, b: string, data: string)
    requires a != b
    ensures Run(1, [AllocateOp(pid, a, data, 0.0), AllocateOp(pid, b, data, 1.0)]) ==
            Vmm([Page(pid, a, data, SwappedL2, 0.0, 1), Page(pid, b, data, ActiveL1, 1.0, 1)],
              map[DocId(pid, a) := data], 0, 1, 0)
  {
    var o1, o2 := AllocateOp(pid, a, data, 0.0), AllocateOp(pid, b, data, 1.0);
    RunOfOne(1, o1);
    RunStep(1, [o1], o2);
    assert [o1] + [o2] == [o1, o2];
    AllocateOnEmpty(1, pid, a, data, 0.0);
    AllocateEvicts(Page(pid, a, data, ActiveL1, 0.0, 1), b, data, 1.0);
  }

  lemma AllocateEvicts(p: Page, pageId: string, data: string, now: real)
    requires p.state.ActiveL1? && p.pageId != pageId
    ensures Allocate(Vmm([p], map[], 0, 0, 0), 1, p.pid, pageId, data, now) ==
            Vmm([p.(state := SwappedL2), Page(p.pid, pageId, data, ActiveL1, now, 1)],
              map[DocId(p.pid, p.pageId) := p.data], 0, 1, 0)
  {
    assert [p][..0] == [] && ActiveCount([p], p.pid) == 1 && Lru([p], p.pid) == 0;
    var out := p.(state := SwappedL2);
    assert [p][0 := out] == [out];
    assert Find([out], p.pid, pageId) == 1;
  }

  lemma AccessBringsBack(p: Page, q: Page, l2: map<string, string>, now: real)
    requires p.state.SwappedL2? && q.state.ActiveL1? && q.pid == p.pid && DocId(p.pid, p.pageId) in l2
    ensures !Swappable(Vmm([p, q], l2, 0, 1, 0), p.pid, p.pageId)
    ensures ActiveCount(Access(Vmm([p, q], l2, 0, 1, 0), p.pid, p.pageId, now, None).pages, p.pid) == 2
  {
    var back := Restored(p, l2[DocId(p.pid, p.pageId)], now);
    assert [p, q][0 := back] == [back, q];
    assert [back, q][..1] == [back] && [back][..0] == [];
    assert ActiveCount([back], p.pid) == 1;
  }

  /** The limit itself is not kept: one eviction and one fault on the evicted page leave two pages active under a limit
      of one. */
  lemma LimitIsExceededByAFault(pid: string, a: string, b: string, data: string)
    requires a != b
    ensures var ops := [AllocateOp(pid, a, data, 0.0), AllocateOp(pid, b, data, 1.0), AccessOp(pid, a, 2.0, None)];
            ActiveCount(Run(1, ops).pages, pid) == 2 && FaultCount(1, ops, pid) == 1
  {
    var o1, o2, o3 := AllocateOp(pid, a, data, 0.0), AllocateOp(pid, b, data, 1.0), AccessOp(pid, a, 2.0, None);
    FirstEvicted(pid, a, b, data);
    RunStep(1, [o1, o2], o3);
    assert [o1, o2] + [o3] == [o1, o2, o3] && [o1, o2, o3][..2] == [o1, o2];
    var out, last := Page(pid, a, data, SwappedL2, 0.0, 1), Page(pid, b, data, ActiveL1, 1.0, 1);
    AccessBringsBack(out, last, map[DocId(pid, a) := data], 2.0);
    NoFaultsYet(o1, o2, pid);
  }
}
