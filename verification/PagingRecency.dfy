/** Which page a full working set gives up, in terms of the operations alone: clocks and counters of pages over whole
    runs (Runtime/dual_tier_memory.py). */
module PagingRecency {
  import opened Results
  import opened Paging
  import opened PagingRuns

  // ---- Uses ----

  /** The operation allocates or accesses this key. */
  predicate Uses(op: Op, pid: string, pageId: string) {
    (op.AllocateOp? || op.AccessOp?) && op.pid == pid && op.pageId == pageId
  }

  /** The time of the last operation that allocated or accessed the key. */
  function LastUse(ops: seq<Op>, pid: string, pageId: string): Option<real> {
    if ops == [] then None
    else
      var n := |ops| - 1;
      if Uses(ops[n], pid, pageId) then Some(ops[n].now) else LastUse(ops[..n], pid, pageId)
  }

  lemma DistinctFound(pages: seq<Page>, k: nat)
    requires DistinctPages(pages) && k < |pages|
    ensures Find(pages, pages[k].pid, pages[k].pageId) == k
  {
    var f := Find(pages, pages[k].pid, pages[k].pageId);
    assert f <= k by { assert IsPage(pages[k], pages[k].pid, pages[k].pageId); }
  }

  lemma SameKeysDistinct(before: seq<Page>, after: seq<Page>)
    requires DistinctPages(before) && |after| == |before|
    requires forall i :: 0 <= i < |before| ==> IsPage(after[i], before[i].pid, before[i].pageId)
    ensures DistinctPages(after)
  {
  }

  lemma {:induction false} RunIsDistinct(limit: int, ops: seq<Op>)
    ensures DistinctPages(Run(limit, ops).pages)
  {
    if ops != [] {
      var v, op := Run(limit, ops[..|ops| - 1]), ops[|ops| - 1];
      RunIsDistinct(limit, ops[..|ops| - 1]);
      ApplyKeepsDistinct(v, limit, op);
    }
  }

  lemma ApplyKeepsDistinct(v: Vmm, limit: int, op: Op)
    requires DistinctPages(v.pages)
    ensures DistinctPages(Apply(v, limit, op).pages)
  {
    match op
    case AllocateOp(pid, pageId, data, now) =>
      var room := MakeRoom(v, limit, pid);
      if room.Some? {
        SameKeysDistinct(v.pages, room.value.pages);
        PutKeepsDistinct(room.value.pages, Page(pid, pageId, data, ActiveL1, now, 1));
      }
    case SwapOutOp(pid, pageId) => SameKeysDistinct(v.pages, SwapOut(v, pid, pageId).pages);
    case AccessOp(pid, pageId, now, fallback) => AccessKeepsDistinct(v, pid, pageId, now, fallback);
    case SweepOp(order, now, threshold) =>
      if ValidOrder(order, v.pages) {
        forall k | 0 <= k < |v.pages|
          ensures IsPage(Sweep(v, order, now, threshold).pages[k], v.pages[k].pid, v.pages[k].pageId)
        {
          SweepMovesIdle(v, order, now, threshold, k);
        }
        SameKeysDistinct(v.pages, Sweep(v, order, now, threshold).pages);
      }
  }

  lemma AccessKeepsDistinct(v: Vmm, pid: string, pageId: string, now: real, fallback: Option<string>)
    requires DistinctPages(v.pages)
    ensures DistinctPages(Access(v, pid, pageId, now, fallback).pages)
  {
    var k := Find(v.pages, pid, pageId);
    if k < |v.pages| {
      SameKeysDistinct(v.pages, Access(v, pid, pageId, now, fallback).pages);
    } else if Retrieved(v, pid, pageId, fallback).Some? {
      PutKeepsDistinct(v.pages, Page(pid, pageId, Retrieved(v, pid, pageId, fallback).value, ActiveL1, now, 1));
    }
  }

  // ---- Clocks ----

  /** An active page shows the time of its key's last use. */
  ghost predicate ClocksRight(pages: seq<Page>, ops: seq<Op>) {
    forall k :: 0 <= k < |pages| && pages[k].state.ActiveL1? ==>
      LastUse(ops, pages[k].pid, pages[k].pageId) == Some(pages[k].lastAccessed)
  }

  /** What an operation does to one page, by the fields of page and operation: a use that is served makes it active
      now, and otherwise it can only be swapped out. */
  ghost predicate PageMoves(before: Page, after: Page, op: Op) {
    after.pid == before.pid && after.pageId == before.pageId &&
    if after.state.ActiveL1? then
      if Uses(op, before.pid, before.pageId) then after.lastAccessed == op.now else after == before
    else after == before.(state := SwappedL2)
  }

  lemma MoveKeepsClock(before: Page, after: Page, ops: seq<Op>, op: Op)
    requires PageMoves(before, after, op)
    requires before.state.ActiveL1? ==> LastUse(ops, before.pid, before.pageId) == Some(before.lastAccessed)
    ensures after.state.ActiveL1? ==> LastUse(ops + [op], after.pid, after.pageId) == Some(after.lastAccessed)
  {
    assert (ops + [op])[..|ops|] == ops && (ops + [op])[|ops|] == op;
  }

  /** Every page moves like that, and a new one is in use now. */
  ghost predicate PagesMove(before: seq<Page>, after: seq<Page>, op: Op) {
    |before| <= |after| <= |before| + 1 &&
    (forall k :: 0 <= k < |before| ==> PageMoves(before[k], after[k], op)) &&
    (|after| > |before| ==>
       var p := after[|before|]; Uses(op, p.pid, p.pageId) && p.lastAccessed == op.now && p.state.ActiveL1?)
  }

  lemma AllocateMoves(v: Vmm, limit: int, op: Op)
    requires DistinctPages(v.pages) && op.AllocateOp?
    ensures PagesMove(v.pages, Apply(v, limit, op).pages, op)
  {
    var room := MakeRoom(v, limit, op.pid);
    if room.None? {
      forall k | 0 <= k < |v.pages|
        ensures PageMoves(v.pages[k], v.pages[k], op)
      {
        NoneActive(v.pages, op.pid);
      }
    } else {
      SameKeysDistinct(v.pages, room.value.pages);
      forall k | 0 <= k < |v.pages|
        ensures PageMoves(v.pages[k], Apply(v, limit, op).pages[k], op)
      {
        DistinctFound(room.value.pages, k);
      }
    }
  }

  lemma AccessMoves(v: Vmm, limit: int, op: Op)
    requires DistinctPages(v.pages) && op.AccessOp?
    ensures PagesMove(v.pages, Apply(v, limit, op).pages, op)
  {
    forall k | 0 <= k < |v.pages|
      ensures PageMoves(v.pages[k], Apply(v, limit, op).pages[k], op)
    {
      DistinctFound(v.pages, k);
    }
  }

  lemma OtherMoves(v: Vmm, limit: int, op: Op)
    requires DistinctPages(v.pages) && (op.SwapOutOp? || op.SweepOp?)
    ensures PagesMove(v.pages, Apply(v, limit, op).pages, op)
  {
    if op.SweepOp? && ValidOrder(op.order, v.pages) {
      forall k | 0 <= k < |v.pages|
        ensures PageMoves(v.pages[k], Sweep(v, op.order, op.now, op.threshold).pages[k], op)
      {
        SweepMovesIdle(v, op.order, op.now, op.threshold, k);
      }
    }
  }

  lemma ApplyMoves(v: Vmm, limit: int, op: Op)
    requires DistinctPages(v.pages)
    ensures PagesMove(v.pages, Apply(v, limit, op).pages, op)
  {
    match op
    case AllocateOp(_, _, _, _) => AllocateMoves(v, limit, op);
    case AccessOp(_, _, _, _) => AccessMoves(v, limit, op);
    case _ => OtherMoves(v, limit, op);
  }

  lemma MovesKeepClocks(before: seq<Page>, after: seq<Page>, ops: seq<Op>, op: Op)
    requires PagesMove(before, after, op) && ClocksRight(before, ops)
    ensures ClocksRight(after, ops + [op])
  {
    assert (ops + [op])[..|ops|] == ops && (ops + [op])[|ops|] == op;
    forall k | 0 <= k < |after| && after[k].state.ActiveL1?
      ensures LastUse(ops + [op], after[k].pid, after[k].pageId) == Some(after[k].lastAccessed)
    {
      if k < |before| { MoveKeepsClock(before[k], after[k], ops, op); }
    }
  }

  /** Over every run an active page's clock is the time of the last operation that allocated or accessed its key. */
  lemma {:induction false} ActivePageShowsLastUse(limit: int, ops: seq<Op>)
    ensures ClocksRight(Run(limit, ops).pages, ops)
  {
    if ops != [] {
      var n := |ops| - 1;
      var v := Run(limit, ops[..n]);
      ActivePageShowsLastUse(limit, ops[..n]);
      RunIsDistinct(limit, ops[..n]);
      ApplyMoves(v, limit, ops[n]);
      MovesKeepClocks(v.pages, Apply(v, limit, ops[n]).pages, ops[..n], ops[n]);
      assert ops[..n] + [ops[n]] == ops;
    }
  }

  // ---- The page a full working set gives up ----

  /** The time of the key's last use; zero for a key never used. */
  function UseTime(ops: seq<Op>, pid: string, pageId: string): real {
    if LastUse(ops, pid, pageId).Some? then LastUse(ops, pid, pageId).value else 0.0
  }

  /** Page k is the active page of the pid whose key was used longest ago, the earliest inserted among equals. */
  ghost predicate UsedLongestAgo(pages: seq<Page>, ops: seq<Op>, pid: string, k: nat) {
    k < |pages| && IsActive(pages[k], pid) &&
    forall i :: 0 <= i < |pages| && i != k && IsActive(pages[i], pid) ==>
      var t, u := UseTime(ops, pid, pages[k].pageId), UseTime(ops, pid, pages[i].pageId);
      if i < k then t < u else t <= u
  }

  /** The positions of a pid's pages in the hot tier. */
  function HotPages(pages: seq<Page>, pid: string): set<nat> {
    set k: nat | k < |pages| && pages[k].pid == pid && pages[k].state.ActiveL1?
  }

  lemma HotPagesStep(pages: seq<Page>, pid: string)
    requires pages != []
    ensures var n, p := |pages| - 1, pages[|pages| - 1];
            HotPages(pages, pid) ==
            if p.pid == pid && p.state.ActiveL1? then HotPages(pages[..n], pid) + {n} else HotPages(pages[..n], pid)
  {
  }

  /** What is counted against the limit of a pid is the number of its pages in the hot tier. */
  lemma {:induction false} ActiveCountCounts(pages: seq<Page>, pid: string)
    ensures ActiveCount(pages, pid) == |HotPages(pages, pid)|
  {
    if pages != [] {
      var n := |pages| - 1;
      ActiveCountCounts(pages[..n], pid);
      HotPagesStep(pages, pid);
      assert n !in HotPages(pages[..n], pid);
    }
  }

  lemma LongestAgoIsLru(pages: seq<Page>, ops: seq<Op>, pid: string)
    requires ClocksRight(pages, ops) && ActiveCount(pages, pid) > 0
    ensures UsedLongestAgo(pages, ops, pid, Lru(pages, pid))
    ensures forall k :: UsedLongestAgo(pages, ops, pid, k) ==> k == Lru(pages, pid)
  {
    var l := Lru(pages, pid);
    assert IsActive(pages[l], pid);
    assert UsedLongestAgo(pages, ops, pid, l);
  }

  /** Exactly one active page of a pid that has any was used longest ago. */
  lemma OneUsedLongestAgo(limit: int, ops: seq<Op>, pid: string)
    requires ActiveCount(Run(limit, ops).pages, pid) > 0
    ensures exists k :: UsedLongestAgo(Run(limit, ops).pages, ops, pid, k)
    ensures forall j, k ::
      (UsedLongestAgo(Run(limit, ops).pages, ops, pid, j) && UsedLongestAgo(Run(limit, ops).pages, ops, pid, k))
      ==> j == k
  {
    ActivePageShowsLastUse(limit, ops);
    LongestAgoIsLru(Run(limit, ops).pages, ops, pid);
  }

  /** Every page but the allocated one is as before, and the allocated one is new. */
  ghost predicate AllocatedOver(before: seq<Page>, after: seq<Page>, op: Op)
    requires op.AllocateOp?
  {
    var k := Find(after, op.pid, op.pageId);
    |before| <= |after| && k < |after| &&
    after[k] == Page(op.pid, op.pageId, op.data, ActiveL1, op.now, 1) &&
    forall j :: 0 <= j < |before| && j != k ==> after[j] == before[j]
  }

  lemma PutAllocatesOver(pages: seq<Page>, op: Op)
    requires op.AllocateOp?
    ensures AllocatedOver(pages, Put(pages, Page(op.pid, op.pageId, op.data, ActiveL1, op.now, 1)), op)
  {
    var p := Page(op.pid, op.pageId, op.data, ActiveL1, op.now, 1);
    var k := Find(pages, op.pid, op.pageId);
    assert IsPage(Put(pages, p)[k], op.pid, op.pageId);
    assert Find(Put(pages, p), op.pid, op.pageId) == k;
  }

  /** An allocation into a full working set moves to the index exactly the active page of that pid that was used longest
      ago, and no other page changes but the allocated one. */
  lemma FullSetGivesUpOldest(limit: int, ops: seq<Op>, op: Op, k: nat)
    requires op.AllocateOp? && ActiveCount(Run(limit, ops).pages, op.pid) >= limit
    requires UsedLongestAgo(Run(limit, ops).pages, ops, op.pid, k)
    ensures var v, w := Run(limit, ops), Run(limit, ops + [op]);
            AllocatedOver(v.pages[k := v.pages[k].(state := SwappedL2)], w.pages, op) &&
            w.l2 == v.l2[DocId(op.pid, v.pages[k].pageId) := v.pages[k].data] &&
            w.swapOuts == v.swapOuts + 1 && w.faults == v.faults && w.swapIns == v.swapIns
  {
    var v := Run(limit, ops);
    RunStep(limit, ops, op);
    if ActiveCount(v.pages, op.pid) == 0 { NoneActive(v.pages, op.pid); }
    ActivePageShowsLastUse(limit, ops);
    LongestAgoIsLru(v.pages, ops, op.pid);
    PutAllocatesOver(v.pages[k := v.pages[k].(state := SwappedL2)], op);
  }

  /** An allocation below the limit swaps nothing out, and one that finds nothing to swap out does nothing at all. */
  lemma OtherAllocationsGiveUpNothing(limit: int, ops: seq<Op>, op: Op)
    requires op.AllocateOp?
    ensures var v, w := Run(limit, ops), Run(limit, ops + [op]);
            (ActiveCount(v.pages, op.pid) < limit ==>
               AllocatedOver(v.pages, w.pages, op) && w == v.(pages := w.pages)) &&
            (limit <= 0 && ActiveCount(v.pages, op.pid) == 0 ==> w == v)
  {
    RunStep(limit, ops, op);
    PutAllocatesOver(Run(limit, ops).pages, op);
  }

  // ---- Counters ----

  /** The uses that were served since the key was last allocated, that allocation included. */
  function ServedUses(limit: int, ops: seq<Op>, pid: string, pageId: string): nat {
    if ops == [] then 0
    else
      var n := |ops| - 1;
      var v, op := Run(limit, ops[..n]), ops[n];
      var before := ServedUses(limit, ops[..n], pid, pageId);
      if !Uses(op, pid, pageId) then before
      else if op.AllocateOp? then if limit <= 0 && ActiveCount(v.pages, pid) == 0 then before else 1
      else if Accessed(v, pid, pageId, op.fallback).Some? then before + 1
      else before
  }

  function CountShown(pages: seq<Page>, pid: string, pageId: string): int {
    var k := Find(pages, pid, pageId);
    if k < |pages| then pages[k].accessCount else 0
  }

  lemma SameCountsShown(before: seq<Page>, after: seq<Page>, pid: string, pageId: string)
    requires |after| == |before|
    requires forall k :: 0 <= k < |before| ==>
      IsPage(after[k], before[k].pid, before[k].pageId) && after[k].accessCount == before[k].accessCount
    ensures CountShown(after, pid, pageId) == CountShown(before, pid, pageId)
    ensures Find(after, pid, pageId) == Find(before, pid, pageId)
  {
    var a, b := Find(after, pid, pageId), Find(before, pid, pageId);
    assert a < |before| ==> IsPage(before[a], pid, pageId);
    assert b < |before| ==> IsPage(after[b], pid, pageId);
  }

  /** Dict assignment shows the new page's count under its key and every other count as before. */
  lemma PutShows(pages: seq<Page>, p: Page, pid: string, pageId: string)
    ensures CountShown(Put(pages, p), pid, pageId) ==
            if IsPage(p, pid, pageId) then p.accessCount else CountShown(pages, pid, pageId)
  {
    var after, k := Put(pages, p), Find(pages, p.pid, p.pageId);
    var a, b := Find(after, pid, pageId), Find(pages, pid, pageId);
    if IsPage(p, pid, pageId) {
      assert IsPage(after[k], pid, pageId);
    } else {
      assert a < |after| ==> a != k;
      assert a < |pages| ==> IsPage(pages[a], pid, pageId);
      assert b < |pages| ==> IsPage(after[b], pid, pageId);
    }
  }

  lemma AllocateShows(v: Vmm, limit: int, op: Op, pid: string, pageId: string)
    requires op.AllocateOp?
    ensures CountShown(Apply(v, limit, op).pages, pid, pageId) ==
            if Uses(op, pid, pageId) && !(limit <= 0 && ActiveCount(v.pages, pid) == 0) then 1
            else CountShown(v.pages, pid, pageId)
  {
    var room := MakeRoom(v, limit, op.pid);
    if room.Some? {
      SameCountsShown(v.pages, room.value.pages, pid, pageId);
      PutShows(room.value.pages, Page(op.pid, op.pageId, op.data, ActiveL1, op.now, 1), pid, pageId);
    }
  }

  lemma AccessShows(v: Vmm, limit: int, op: Op, pid: string, pageId: string)
    requires op.AccessOp?
    ensures CountShown(Apply(v, limit, op).pages, pid, pageId) ==
            CountShown(v.pages, pid, pageId) +
            if Uses(op, pid, pageId) && Accessed(v, pid, pageId, op.fallback).Some? then 1 else 0
  {
    var k := Find(v.pages, op.pid, op.pageId);
    if Accessed(v, op.pid, op.pageId, op.fallback).Some? {
      var after := Apply(v, limit, op).pages;
      var p := after[k];
      assert after == Put(v.pages, p);
      PutShows(v.pages, p, pid, pageId);
    }
  }

  lemma OtherShows(v: Vmm, limit: int, op: Op, pid: string, pageId: string)
    requires op.SwapOutOp? || op.SweepOp?
    ensures CountShown(Apply(v, limit, op).pages, pid, pageId) == CountShown(v.pages, pid, pageId)
  {
    if op.SweepOp? && ValidOrder(op.order, v.pages) {
      forall k | 0 <= k < |v.pages|
        ensures Apply(v, limit, op).pages[k] == SweptPage(v.pages[k], k in op.order, op.now, op.threshold)
      {
        SweepMovesIdle(v, op.order, op.now, op.threshold, k);
      }
    }
    SameCountsShown(v.pages, Apply(v, limit, op).pages, pid, pageId);
  }

  /** Over every run a page's counter is the number of its uses served since it was last allocated. */
  lemma {:induction false} CounterCountsServedUses(limit: int, ops: seq<Op>, pid: string, pageId: string)
    ensures CountShown(Run(limit, ops).pages, pid, pageId) == ServedUses(limit, ops, pid, pageId)
  {
    if ops != [] {
      var n := |ops| - 1;
      var v, op := Run(limit, ops[..n]), ops[n];
      CounterCountsServedUses(limit, ops[..n], pid, pageId);
      match op
      case AllocateOp(_, _, _, _) => AllocateShows(v, limit, op, pid, pageId);
      case AccessOp(_, _, _, _) => AccessShows(v, limit, op, pid, pageId);
      case _ => OtherShows(v, limit, op, pid, pageId);
    }
  }

  /** The key's page is in the hot tier. */
  ghost predicate IsHot(pages: seq<Page>, pid: string, pageId: string) {
    exists k :: 0 <= k < |pages| && pages[k].pid == pid && pages[k].pageId == pageId && pages[k].state.ActiveL1?
  }

  lemma HotIsSwappable(v: Vmm, pid: string, pageId: string)
    requires DistinctPages(v.pages)
    ensures IsHot(v.pages, pid, pageId) <==> Swappable(v, pid, pageId)
  {
    if IsHot(v.pages, pid, pageId) {
      var k :| 0 <= k < |v.pages| && v.pages[k].pid == pid && v.pages[k].pageId == pageId && v.pages[k].state.ActiveL1?;
      DistinctFound(v.pages, k);
    }
  }

  /** The accesses that did not find their page in the hot tier, and those of them that found its data elsewhere. */
  ghost function Misses(limit: int, ops: seq<Op>, served: bool): nat {
    if ops == [] then 0
    else
      var n := |ops| - 1;
      var v, op := Run(limit, ops[..n]), ops[n];
      Misses(limit, ops[..n], served) +
      if op.AccessOp? && !IsHot(v.pages, op.pid, op.pageId) &&
         (served ==> op.fallback.Some? || "swapped_" + (op.pid + "_" + op.pageId) in v.l2) then 1 else 0
  }

  /** Over every run the engine's fault and swap-in counters are the numbers of missed and of served accesses. */
  lemma {:induction false} CountersCountMisses(limit: int, ops: seq<Op>)
    ensures Run(limit, ops).faults == Misses(limit, ops, false)
    ensures Run(limit, ops).swapIns == Misses(limit, ops, true)
  {
    if ops != [] {
      var n := |ops| - 1;
      CountersCountMisses(limit, ops[..n]);
      RunIsDistinct(limit, ops[..n]);
      CountersStep(Run(limit, ops[..n]), limit, ops[n]);
    }
  }

  lemma CountersStep(v: Vmm, limit: int, op: Op)
    requires DistinctPages(v.pages)
    ensures var missed := op.AccessOp? && !IsHot(v.pages, op.pid, op.pageId);
            Apply(v, limit, op).faults == v.faults + (if missed then 1 else 0) &&
            Apply(v, limit, op).swapIns == v.swapIns +
            if missed && (op.fallback.Some? || "swapped_" + (op.pid + "_" + op.pageId) in v.l2) then 1 else 0
  {
    if op.AccessOp? { HotIsSwappable(v, op.pid, op.pageId); }
    if op.SweepOp? && ValidOrder(op.order, v.pages) { SweepCountsNothingIn(v, op.order, op.now, op.threshold); }
  }

  lemma {:induction false} SweepCountsNothingIn(v: Vmm, order: seq<nat>, now: real, threshold: real)
    requires ValidOrder(order, v.pages)
    ensures var w := Sweep(v, order, now, threshold); w.faults == v.faults && w.swapIns == v.swapIns
  {
    if order != [] { SweepCountsNothingIn(v, order[..|order| - 1], now, threshold); }
  }

  // ---- Swapping out ----

  /** Swapping out a page of the hot tier moves that page and no other, with its data, to the index; asking for any
      other page does nothing. */
  lemma SwapOutMovesPage(limit: int, ops: seq<Op>, op: Op)
    requires op.SwapOutOp?
    ensures var v, w := Run(limit, ops), Run(limit, ops + [op]);
            if IsHot(v.pages, op.pid, op.pageId) then
              exists k :: 0 <= k < |v.pages| && v.pages[k].pid == op.pid && v.pages[k].pageId == op.pageId &&
                          w == v.(pages := v.pages[k := v.pages[k].(state := SwappedL2)],
                                  l2 := v.l2["swapped_" + (op.pid + "_" + op.pageId) := v.pages[k].data],
                                  swapOuts := v.swapOuts + 1)
            else w == v
  {
    var v := Run(limit, ops);
    RunStep(limit, ops, op);
    RunIsDistinct(limit, ops);
    HotIsSwappable(v, op.pid, op.pageId);
    var k := Find(v.pages, op.pid, op.pageId);
    assert k < |v.pages| ==> IsPage(v.pages[k], op.pid, op.pageId);
  }

  // ---- The idle sweep ----

  /** A sweep moves out exactly the pages it visits that are in the hot tier and were last used at least the threshold
      ago, and leaves every other page as it was. */
  lemma SweepMovesUnused(limit: int, ops: seq<Op>, op: Op, k: nat)
    requires op.SweepOp? && ValidOrder(op.order, Run(limit, ops).pages) && k < |Run(limit, ops).pages|
    ensures var p, after := Run(limit, ops).pages[k], Run(limit, ops + [op]).pages;
            |after| == |Run(limit, ops).pages| &&
            after[k] ==
            if k in op.order && p.state.ActiveL1? && op.now - UseTime(ops, p.pid, p.pageId) >= op.threshold
            then p.(state := SwappedL2) else p
  {
    RunStep(limit, ops, op);
    ActivePageShowsLastUse(limit, ops);
    SweepMovesIdle(Run(limit, ops), op.order, op.now, op.threshold, k);
  }
}
