/** Context paging: pages in a hot tier, evicted pages in a shared document index (Runtime/dual_tier_memory.py).
    The nested dict page_table[pid][page_id] is one list of pages in insertion order, each naming its pid; restricted to
    a pid it is the inner dict with its order. */
module Paging {
  import opened Results

  datatype PageState = ActiveL1 | SwappedL2

  /** A page as a value. */
  datatype Page = Page(
    pid: string, pageId: string, data: string, state: PageState, lastAccessed: real, accessCount: int)

  /** The engine's state: pages, the payload of each index document, and the three counters. */
  datatype Vmm = Vmm(pages: seq<Page>, l2: map<string, string>, faults: nat, swapOuts: nat, swapIns: nat)

  function DocId(pid: string, pageId: string): string {
    "swapped_" + (pid + "_" + pageId)
  }

  predicate IsPage(p: Page, pid: string, pageId: string) {
    p.pid == pid && p.pageId == pageId
  }

  predicate DistinctPages(pages: seq<Page>) {
    forall i, j :: 0 <= i < j < |pages| ==> !IsPage(pages[j], pages[i].pid, pages[i].pageId)
  }

  /** The position of a page, or the length of the list when it is not there. */
  function Find(pages: seq<Page>, pid: string, pageId: string): (k: nat)
    ensures k <= |pages|
    ensures k < |pages| ==> IsPage(pages[k], pid, pageId)
    ensures forall i :: 0 <= i < k ==> !IsPage(pages[i], pid, pageId)
    decreases |pages|
  {
    if pages == [] then 0
    else if IsPage(pages[0], pid, pageId) then 0
    else
      var k := Find(pages[1..], pid, pageId);
      assert forall i :: 0 < i < k + 1 ==> pages[i] == pages[1..][i - 1];
      k + 1
  }

  predicate IsActive(p: Page, pid: string) {
    p.pid == pid && p.state.ActiveL1?
  }

  function ActiveCount(pages: seq<Page>, pid: string): nat {
    if pages == [] then 0
    else ActiveCount(pages[..|pages| - 1], pid) + (if IsActive(pages[|pages| - 1], pid) then 1 else 0)
  }

  /** The active page of the pid accessed longest ago, the earliest inserted among equals. */
  function Lru(pages: seq<Page>, pid: string): (k: nat)
    requires ActiveCount(pages, pid) > 0
    ensures k < |pages| && IsActive(pages[k], pid)
    ensures forall i :: 0 <= i < |pages| && IsActive(pages[i], pid) ==> pages[k].lastAccessed <= pages[i].lastAccessed
    ensures forall i :: 0 <= i < k && IsActive(pages[i], pid) ==> pages[k].lastAccessed < pages[i].lastAccessed
  {
    var n := |pages| - 1;
    if ActiveCount(pages[..n], pid) == 0 then
      NoneActive(pages[..n], pid);
      assert forall i :: 0 <= i < n ==> pages[..n][i] == pages[i];
      n
    else
      var best := Lru(pages[..n], pid);
      assert forall i :: 0 <= i < n ==> pages[..n][i] == pages[i];
      if IsActive(pages[n], pid) && pages[n].lastAccessed < pages[best].lastAccessed then n else best
  }

  lemma {:induction false} NoneActive(pages: seq<Page>, pid: string)
    requires ActiveCount(pages, pid) == 0
    ensures forall i :: 0 <= i < |pages| ==> !IsActive(pages[i], pid)
  {
    if pages != [] {
      var n := |pages| - 1;
      NoneActive(pages[..n], pid);
      assert forall i :: 0 <= i < n ==> pages[..n][i] == pages[i];
    }
  }

  // ---- What the operations do ----

  predicate Swappable(v: Vmm, pid: string, pageId: string) {
    var k := Find(v.pages, pid, pageId);
    k < |v.pages| && v.pages[k].state.ActiveL1?
  }

  /** Moves the page at k to the index. */
  function SwapOutAt(v: Vmm, k: nat): Vmm
    requires k < |v.pages|
  {
    var p := v.pages[k];
    v.(pages := v.pages[k := p.(state := SwappedL2)], l2 := v.l2[DocId(p.pid, p.pageId) := p.data],
      swapOuts := v.swapOuts + 1)
  }

  function SwapOut(v: Vmm, pid: string, pageId: string): Vmm {
    if Swappable(v, pid, pageId) then SwapOutAt(v, Find(v.pages, pid, pageId)) else v
  }

  /** Dict assignment: an existing page keeps its position, a new one comes last. */
  function Put(pages: seq<Page>, p: Page): seq<Page> {
    var k := Find(pages, p.pid, p.pageId);
    if k < |pages| then pages[k := p] else pages + [p]
  }

  /** The working-set limit, enforced before the new page is looked up; None where the source raises because there is
      no active page to evict. */
  function MakeRoom(v: Vmm, limit: int, pid: string): Option<Vmm> {
    if ActiveCount(v.pages, pid) < limit then Some(v)
    else if ActiveCount(v.pages, pid) == 0 then None
    else Some(SwapOutAt(v, Lru(v.pages, pid)))
  }

  function Allocate(v: Vmm, limit: int, pid: string, pageId: string, data: string, now: real): Vmm {
    var room := MakeRoom(v, limit, pid);
    if room.None? then v
    else room.value.(pages := Put(room.value.pages, Page(pid, pageId, data, ActiveL1, now, 1)))
  }

  /** What a fault finds: the document under the page's id, or else what semantic search offers for it. */
  function Retrieved(v: Vmm, pid: string, pageId: string, fallback: Option<string>): Option<string> {
    var doc := DocId(pid, pageId);
    if doc in v.l2 then Some(v.l2[doc]) else fallback
  }

  /** A page accessed in the hot tier. */
  function Refreshed(p: Page, now: real): Page {
    p.(lastAccessed := now, accessCount := p.accessCount + 1)
  }

  /** A page brought back with retrieved data. */
  function Restored(p: Page, data: string, now: real): Page {
    p.(data := data, state := ActiveL1, lastAccessed := now, accessCount := p.accessCount + 1)
  }

  function PagedIn(pages: seq<Page>, pid: string, pageId: string, data: string, now: real): seq<Page> {
    var k := Find(pages, pid, pageId);
    if k < |pages| then pages[k := Restored(pages[k], data, now)]
    else pages + [Page(pid, pageId, data, ActiveL1, now, 1)]
  }

  /** A hit: only the page's clock and counter move. */
  function Hit(v: Vmm, k: nat, now: real): Vmm
    requires k < |v.pages|
  {
    v.(pages := v.pages[k := Refreshed(v.pages[k], now)])
  }

  /** A fault: counted before anything is looked up, and served only if something is found. */
  function Miss(v: Vmm, pid: string, pageId: string, now: real, fallback: Option<string>): Vmm {
    var data := Retrieved(v, pid, pageId, fallback);
    if data.None? then v.(faults := v.faults + 1)
    else v.(pages := PagedIn(v.pages, pid, pageId, data.value, now), faults := v.faults + 1, swapIns := v.swapIns + 1)
  }

  function Access(v: Vmm, pid: string, pageId: string, now: real, fallback: Option<string>): Vmm {
    if Swappable(v, pid, pageId) then Hit(v, Find(v.pages, pid, pageId), now) else Miss(v, pid, pageId, now, fallback)
  }

  /** The data an access returns; None is the KeyError. */
  function Accessed(v: Vmm, pid: string, pageId: string, fallback: Option<string>): Option<string> {
    if Swappable(v, pid, pageId) then Some(v.pages[Find(v.pages, pid, pageId)].data)
    else Retrieved(v, pid, pageId, fallback)
  }

  predicate Idle(p: Page, now: real, threshold: real) {
    p.state.ActiveL1? && now - p.lastAccessed >= threshold
  }

  /** Swaps out the idle pages at these positions, in this order. */
  function Sweep(v: Vmm, order: seq<nat>, now: real, threshold: real): Vmm
    requires forall i :: 0 <= i < |order| ==> order[i] < |v.pages|
    ensures |Sweep(v, order, now, threshold).pages| == |v.pages|
  {
    if order == [] then v
    else
      var n := |order| - 1;
      var before := Sweep(v, order[..n], now, threshold);
      if Idle(before.pages[order[n]], now, threshold) then SwapOutAt(before, order[n]) else before
  }

  /** The positions are those of all the pages. */
  predicate CoversAll(order: seq<nat>, pages: seq<Page>) {
    (forall i :: 0 <= i < |order| ==> order[i] < |pages|) && (forall k :: 0 <= k < |pages| ==> k in order)
  }

  /** What a sweep makes of one page. */
  function SweptPage(p: Page, visited: bool, now: real, threshold: real): Page {
    if visited && Idle(p, now, threshold) then p.(state := SwappedL2) else p
  }

  /** A sweep swaps out exactly the idle pages it visits and leaves every other page alone. */
  lemma {:induction false} SweepMovesIdle(v: Vmm, order: seq<nat>, now: real, threshold: real, k: nat)
    requires (forall i :: 0 <= i < |order| ==> order[i] < |v.pages|) && k < |v.pages|
    ensures Sweep(v, order, now, threshold).pages[k] == SweptPage(v.pages[k], k in order, now, threshold)
  {
    if order != [] {
      var n := |order| - 1;
      SweepMovesIdle(v, order[..n], now, threshold, k);
      assert order == order[..n] + [order[n]];
    }
  }

  // ---- The engine ----

  class ContextVirtualPage {
    const pageId: string
    const agentPid: string
    var data: string
    var state: PageState
    var lastAccessed: real
    var accessCount: int

    constructor (agentPid: string, pageId: string, data: string, now: real, accessCount: int)
      ensures Value() == Page(agentPid, pageId, data, ActiveL1, now, accessCount)
    {
      this.agentPid := agentPid;
      this.pageId := pageId;
      this.data := data;
      this.state := ActiveL1;
      this.lastAccessed := now;
      this.accessCount := accessCount;
    }

    function Value(): Page
      reads this
    {
      Page(agentPid, pageId, data, state, lastAccessed, accessCount)
    }
  }

  function ValuesOf(objects: seq<ContextVirtualPage>): (pages: seq<Page>)
    reads objects
    ensures |pages| == |objects| && forall i :: 0 <= i < |pages| ==> pages[i] == objects[i].Value()
  {
    seq(|objects|, i requires 0 <= i < |objects| reads objects => objects[i].Value())
  }

  class ContextPageFaultEngine {
    const maxActivePagesPerPid: int
    var pageTable: seq<ContextVirtualPage>
    var l2: map<string, string>
    var totalPageFaults: nat
    var totalSwapOuts: nat
    var totalSwapIns: nat

    function Values(): (pages: seq<Page>)
      reads this`pageTable, pageTable
      ensures |pages| == |pageTable| && forall i :: 0 <= i < |pages| ==> pages[i] == pageTable[i].Value()
    {
      ValuesOf(pageTable)
    }

    function View(): Vmm
      reads this, pageTable
    {
      Vmm(Values(), l2, totalPageFaults, totalSwapOuts, totalSwapIns)
    }

    ghost predicate Valid()
      reads this`pageTable, pageTable
    {
      DistinctPages(Values())
    }

    constructor (maxActivePagesPerPid: int)
      ensures Valid() && View() == Vmm([], map[], 0, 0, 0) && this.maxActivePagesPerPid == maxActivePagesPerPid
    {
      this.maxActivePagesPerPid := maxActivePagesPerPid;
      this.pageTable := [];
      this.l2 := map[];
      this.totalPageFaults, this.totalSwapOuts, this.totalSwapIns := 0, 0, 0;
    }

    /** Pages out the page at a position. */
    method PageOut(k: nat)
      requires Valid() && k < |pageTable|
      modifies this`l2, this`totalSwapOuts, pageTable[k]
      ensures Valid() && View() == SwapOutAt(old(View()), k)
    {
      var page := pageTable[k];
      ghost var before := Values();
      l2 := l2[DocId(page.agentPid, page.pageId) := page.data];
      page.state := SwappedL2;
      totalSwapOuts := totalSwapOuts + 1;
      assert Values() == before[k := before[k].(state := SwappedL2)];
    }

    method SwapOutPage(agentPid: string, pageId: string) returns (swapped: bool)
      requires Valid()
      modifies this, pageTable
      ensures Valid() && pageTable == old(pageTable)
      ensures swapped == Swappable(old(View()), agentPid, pageId)
      ensures View() == SwapOut(old(View()), agentPid, pageId)
    {
      var k := Find(Values(), agentPid, pageId);
      if k == |pageTable| || pageTable[k].state != ActiveL1 {
        return false;
      }
      PageOut(k);
      swapped := true;
    }

    /** Stores a page object under its key. */
    method Install(page: ContextVirtualPage)
      requires Valid() && page !in pageTable
      modifies this`pageTable
      ensures Valid() && page in pageTable
      ensures forall p :: p in pageTable ==> p == page || p in old(pageTable)
      ensures View() == old(View()).(pages := Put(old(Values()), page.Value()))
    {
      var k := Find(Values(), page.agentPid, page.pageId);
      pageTable := if k < |pageTable| then pageTable[k := page] else pageTable + [page];
      assert Values() == Put(old(Values()), page.Value());
      PutKeepsDistinct(old(Values()), page.Value());
    }

    /** Evicts the least recently used page of a full pid; false where the source raises for want of one. */
    method EnforceLimit(agentPid: string) returns (room: bool)
      requires Valid()
      modifies this`l2, this`totalSwapOuts, pageTable
      ensures Valid()
      ensures room <==> MakeRoom(old(View()), maxActivePagesPerPid, agentPid).Some?
      ensures View() == if room then MakeRoom(old(View()), maxActivePagesPerPid, agentPid).value else old(View())
    {
      room := true;
      if ActiveCount(Values(), agentPid) >= maxActivePagesPerPid {
        if ActiveCount(Values(), agentPid) == 0 {
          return false;
        }
        PageOut(Lru(Values(), agentPid));
      }
    }

    /** None where the source raises for want of a page to evict. */
    method AllocatePage(agentPid: string, pageId: string, data: string, now: real)
      returns (r: Option<ContextVirtualPage>)
      requires Valid()
      modifies this, pageTable
      ensures Valid()
      ensures View() == Allocate(old(View()), maxActivePagesPerPid, agentPid, pageId, data, now)
      ensures r.None? <==> MakeRoom(old(View()), maxActivePagesPerPid, agentPid).None?
      ensures r.Some? ==> fresh(r.value) && r.value.Value() == Page(agentPid, pageId, data, ActiveL1, now, 1)
    {
      var room := EnforceLimit(agentPid);
      if !room {
        return None;
      }
      var page := new ContextVirtualPage(agentPid, pageId, data, now, 1);
      Install(page);
      r := Some(page);
    }

    method Touch(k: nat, now: real)
      requires Valid() && k < |pageTable|
      modifies pageTable[k]
      ensures Valid() && View() == Hit(old(View()), k, now)
    {
      var page := pageTable[k];
      ghost var before := Values();
      page.lastAccessed := now;
      page.accessCount := page.accessCount + 1;
      assert Values() == before[k := Refreshed(before[k], now)];
    }

    /** Brings retrieved data back under its key, reusing the page object if there is one. */
    method PageIn(agentPid: string, pageId: string, data: string, now: real) returns (page: ContextVirtualPage)
      requires Valid()
      modifies this`pageTable, pageTable
      ensures Valid() && page in pageTable
      ensures page.agentPid == agentPid && page.pageId == pageId && page.data == data
      ensures View() == old(View()).(pages := PagedIn(old(Values()), agentPid, pageId, data, now))
    {
      var k := Find(Values(), agentPid, pageId);
      ghost var before := Values();
      if k < |pageTable| {
        page := pageTable[k];
        page.data := data;
        page.state := ActiveL1;
        page.lastAccessed := now;
        page.accessCount := page.accessCount + 1;
        assert Values() == PagedIn(before, agentPid, pageId, data, now);
      } else {
        page := new ContextVirtualPage(agentPid, pageId, data, now, 1);
        Install(page);
      }
    }

    method Fault(agentPid: string, pageId: string, now: real, fallback: Option<string>)
      returns (r: Option<ContextVirtualPage>)
      requires Valid()
      modifies this, pageTable
      ensures Valid() && View() == Miss(old(View()), agentPid, pageId, now, fallback)
      ensures r.Some? <==> Retrieved(old(View()), agentPid, pageId, fallback).Some?
      ensures r.Some? ==> r.value in pageTable && IsPage(r.value.Value(), agentPid, pageId) &&
                          Some(r.value.data) == Retrieved(old(View()), agentPid, pageId, fallback)
    {
      ghost var before := View();
      totalPageFaults := totalPageFaults + 1;
      assert View() == before.(faults := before.faults + 1);
      var doc := DocId(agentPid, pageId);
      var retrieved := if doc in l2 then Some(l2[doc]) else fallback;
      assert retrieved == Retrieved(before, agentPid, pageId, fallback);
      if retrieved.None? {
        return None;
      }
      var page := PageIn(agentPid, pageId, retrieved.value, now);
      assert Values() == PagedIn(before.pages, agentPid, pageId, retrieved.value, now);
      totalSwapIns := totalSwapIns + 1;
      r := Some(page);
    }

    /** The page and whether a fault was taken; None is the KeyError. `fallback` is what semantic search would
        return. */
    method AccessPage(agentPid: string, pageId: string, now: real, fallback: Option<string>)
      returns (r: Option<ContextVirtualPage>, fault: bool)
      requires Valid()
      modifies this, pageTable
      ensures Valid() && View() == Access(old(View()), agentPid, pageId, now, fallback)
      ensures fault <==> !Swappable(old(View()), agentPid, pageId)
      ensures r.Some? <==> Accessed(old(View()), agentPid, pageId, fallback).Some?
      ensures r.Some? ==> r.value in pageTable && IsPage(r.value.Value(), agentPid, pageId) &&
                          Some(r.value.data) == Accessed(old(View()), agentPid, pageId, fallback)
    {
      var k := Find(Values(), agentPid, pageId);
      if k < |pageTable| && pageTable[k].state == ActiveL1 {
        Touch(k, now);
        r, fault := Some(pageTable[k]), false;
      } else {
        r := Fault(agentPid, pageId, now, fallback);
        fault := true;
      }
    }

    /** Swaps out every idle page and no other. `order` is the order in which the nested dicts yield their pages. */
    method SwapIdleProcesses(order: seq<nat>, now: real, threshold: real) returns (swapped: nat)
      requires Valid() && CoversAll(order, Values())
      modifies this, pageTable
      ensures Valid() && View() == Sweep(old(View()), order, now, threshold)
      ensures pageTable == old(pageTable)
      ensures forall k :: 0 <= k < |Values()| ==> Values()[k] == SweptPage(old(Values())[k], true, now, threshold)
      ensures totalSwapOuts == old(totalSwapOuts) + swapped
    {
      swapped := 0;
      ghost var before := View();
      for i := 0 to |order|
        invariant Valid() && pageTable == old(pageTable)
        invariant View() == Sweep(old(View()), order[..i], now, threshold)
        invariant totalSwapOuts == old(totalSwapOuts) + swapped
      {
        assert order[..i + 1][..i] == order[..i];
        var page := pageTable[order[i]];
        if page.state == ActiveL1 && now - page.lastAccessed >= threshold {
          PageOut(order[i]);
          swapped := swapped + 1;
        }
      }
      assert order[..|order|] == order;
      forall k | 0 <= k < |before.pages|
        ensures Sweep(before, order, now, threshold).pages[k] == SweptPage(before.pages[k], true, now, threshold)
      {
        SweepMovesIdle(before, order, now, threshold, k);
      }
    }
  }

  lemma PutKeepsDistinct(pages: seq<Page>, p: Page)
    requires DistinctPages(pages)
    ensures DistinctPages(Put(pages, p))
  {
  }
}
