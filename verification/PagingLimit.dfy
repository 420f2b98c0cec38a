/** Exactly when a working set outgrows its limit (Runtime/dual_tier_memory.py): the limit is enforced where a page is
    allocated, not where a fault brings one back. */
module PagingLimit {
  import opened Results
  import opened Paging
  import opened PagingRuns
  import opened PagingAccount

  /** A fault that is served for a pid whose working set is full. */
  predicate Overfills(v: Vmm, limit: int, op: Op, pid: string) {
    op.AccessOp? && op.pid == pid && ActiveCount(v.pages, pid) == limit &&
    !Swappable(v, op.pid, op.pageId) && Retrieved(v, op.pid, op.pageId, op.fallback).Some?
  }

  /** A page brought in for its owner is one active page more. */
  lemma PagedInCounts(pages: seq<Page>, owner: string, pageId: string, data: string, now: real)
    requires Find(pages, owner, pageId) < |pages| ==> pages[Find(pages, owner, pageId)].state.SwappedL2?
    ensures ActiveCount(PagedIn(pages, owner, pageId, data, now), owner) == ActiveCount(pages, owner) + 1
  {
    var k := Find(pages, owner, pageId);
    if k < |pages| {
      CountsAfterUpdate(pages, k, Restored(pages[k], data, now), owner);
    } else {
      CountsAfterAppend(pages, Page(owner, pageId, data, ActiveL1, now, 1), owner);
    }
  }

  lemma ServedFaultCounts(v: Vmm, op: Op)
    requires op.AccessOp? && !Swappable(v, op.pid, op.pageId) && Retrieved(v, op.pid, op.pageId, op.fallback).Some?
    ensures ActiveCount(Access(v, op.pid, op.pageId, op.now, op.fallback).pages, op.pid) ==
            ActiveCount(v.pages, op.pid) + 1
  {
    PagedInCounts(v.pages, op.pid, op.pageId, Retrieved(v, op.pid, op.pageId, op.fallback).value, op.now);
  }

  lemma UnservedAccessKeepsCount(v: Vmm, op: Op, pid: string)
    requires op.AccessOp?
    requires Swappable(v, op.pid, op.pageId) || Retrieved(v, op.pid, op.pageId, op.fallback).None?
    ensures ActiveCount(Access(v, op.pid, op.pageId, op.now, op.fallback).pages, pid) == ActiveCount(v.pages, pid)
  {
    if Swappable(v, op.pid, op.pageId) { HitStep(v, Find(v.pages, op.pid, op.pageId), op.now, pid); }
  }

  lemma AccessOverfills(v: Vmm, limit: int, op: Op, pid: string)
    requires op.AccessOp? && ActiveCount(v.pages, pid) <= limit
    ensures ActiveCount(Apply(v, limit, op).pages, pid) > limit <==> Overfills(v, limit, op, pid)
  {
    if Swappable(v, op.pid, op.pageId) || Retrieved(v, op.pid, op.pageId, op.fallback).None? {
      UnservedAccessKeepsCount(v, op, pid);
    } else if op.pid == pid {
      ServedFaultCounts(v, op);
    } else {
      ApplyKeepsBound(v, limit, op, pid);
    }
  }

  /** One operation takes a working set over its limit exactly when it is a fault served while the set is full. */
  lemma LimitBrokenExactlyByServedFault(v: Vmm, limit: int, op: Op, pid: string)
    requires limit >= 1 && ActiveCount(v.pages, pid) <= limit
    ensures ActiveCount(Apply(v, limit, op).pages, pid) > limit <==> Overfills(v, limit, op, pid)
  {
    if op.AccessOp? {
      AccessOverfills(v, limit, op, pid);
    } else {
      ApplyKeepsBound(v, limit, op, pid);
    }
  }

  /** The limit holds at the end of the run and at every point before it. */
  ghost predicate KeepsLimit(limit: int, ops: seq<Op>, pid: string) {
    ActiveCount(Run(limit, ops).pages, pid) <= limit && (ops != [] ==> KeepsLimit(limit, ops[..|ops| - 1], pid))
  }

  /** No operation of the run overfills the pid's working set. */
  ghost predicate NeverOverfills(limit: int, ops: seq<Op>, pid: string) {
    ops != [] ==>
      NeverOverfills(limit, ops[..|ops| - 1], pid) &&
      !Overfills(Run(limit, ops[..|ops| - 1]), limit, ops[|ops| - 1], pid)
  }

  lemma LastStepKeepsLimit(limit: int, v: Vmm, op: Op, after: Vmm, pid: string)
    requires limit >= 1 && ActiveCount(v.pages, pid) <= limit && after == Apply(v, limit, op)
    ensures ActiveCount(after.pages, pid) > limit <==> Overfills(v, limit, op, pid)
  {
    LimitBrokenExactlyByServedFault(v, limit, op, pid);
  }

  /** A run keeps a pid within its limit throughout exactly when it never serves a fault of a full working set. */
  lemma {:induction false} RunKeepsLimitExactly(limit: int, ops: seq<Op>, pid: string)
    requires limit >= 1
    ensures KeepsLimit(limit, ops, pid) <==> NeverOverfills(limit, ops, pid)
  {
    if ops != [] {
      var front, last := ops[..|ops| - 1], ops[|ops| - 1];
      RunKeepsLimitExactly(limit, front, pid);
      if KeepsLimit(limit, front, pid) { LastStepKeepsLimit(limit, Run(limit, front), last, Run(limit, ops), pid); }
    }
  }

  // ---- Every limit can be exceeded ----

  /** The name of the n-th further page, longer than every earlier one. */
  function Further(n: nat): (name: string)
    ensures |name| == n + 2
  {
    if n == 0 then "aa" else Further(n - 1) + "a"
  }

  /** One page allocated and swapped out, then n others allocated. */
  function Filling(pid: string, data: string, n: nat): seq<Op> {
    if n == 0 then [AllocateOp(pid, "a", data, 0.0)] + [SwapOutOp(pid, "a")]
    else Filling(pid, data, n - 1) + [AllocateOp(pid, Further(n - 1), data, 1.0)]
  }

  /** The first page is out, its document is in the index, and n other pages, with shorter names to come, are active. */
  ghost predicate Filled(v: Vmm, pid: string, n: nat) {
    v.pages != [] && IsPage(v.pages[0], pid, "a") && v.pages[0].state.SwappedL2? && DocId(pid, "a") in v.l2 &&
    ActiveCount(v.pages, pid) == n && forall i :: 0 <= i < |v.pages| ==> |v.pages[i].pageId| <= n + 1
  }

  lemma FillingStarts(limit: nat, pid: string, data: string)
    requires limit >= 1
    ensures Filled(Run(limit, Filling(pid, data, 0)), pid, 0)
  {
    var p := Page(pid, "a", data, ActiveL1, 0.0, 1);
    var out := p.(state := SwappedL2);
    RunOfOne(limit, AllocateOp(pid, "a", data, 0.0));
    AllocateOnEmpty(limit, pid, "a", data, 0.0);
    RunStep(limit, [AllocateOp(pid, "a", data, 0.0)], SwapOutOp(pid, "a"));
    assert [p][0 := out] == [out];
    assert [out][..0] == [];
  }

  lemma FillingGrows(limit: nat, v: Vmm, pid: string, data: string, n: nat)
    requires n < limit && Filled(v, pid, n)
    ensures Filled(Allocate(v, limit, pid, Further(n), data, 1.0), pid, n + 1)
  {
    var p := Page(pid, Further(n), data, ActiveL1, 1.0, 1);
    assert Find(v.pages, pid, Further(n)) == |v.pages|;
    CountsAfterAppend(v.pages, p, pid);
  }

  lemma {:induction false} FillingFills(limit: nat, pid: string, data: string, n: nat)
    requires limit >= 1 && n <= limit
    ensures Filled(Run(limit, Filling(pid, data, n)), pid, n)
  {
    if n == 0 {
      FillingStarts(limit, pid, data);
    } else {
      FillingFills(limit, pid, data, n - 1);
      FillingGrows(limit, Run(limit, Filling(pid, data, n - 1)), pid, data, n - 1);
      RunStep(limit, Filling(pid, data, n - 1), AllocateOp(pid, Further(n - 1), data, 1.0));
    }
  }

  lemma FilledOverfills(v: Vmm, limit: nat, pid: string)
    requires Filled(v, pid, limit)
    ensures Overfills(v, limit, AccessOp(pid, "a", 2.0, None), pid)
  {
    assert Find(v.pages, pid, "a") == 0;
  }

  /** Whatever the limit, a pid and data: filling the working set after swapping a page out, and accessing that page,
      leaves more pages active than the limit allows. */
  lemma EveryLimitCanBeExceeded(limit: nat, pid: string, data: string)
    requires limit >= 1
    ensures ActiveCount(Run(limit, Filling(pid, data, limit) + [AccessOp(pid, "a", 2.0, None)]).pages, pid) > limit
  {
    var v := Run(limit, Filling(pid, data, limit));
    FillingFills(limit, pid, data, limit);
    FilledOverfills(v, limit, pid);
    LimitBrokenExactlyByServedFault(v, limit, AccessOp(pid, "a", 2.0, None), pid);
    RunStep(limit, Filling(pid, data, limit), AccessOp(pid, "a", 2.0, None));
  }
}
