/** Allocation that runs out of memory part way: rolling back and draining leaves what
    draining alone would have left. */
module UcmRollback {
  import opened UcmState
  import opened UcmInvariant
  import opened UcmSafety
  import opened UcmRuns

  /** The page boundaries the loops visit: n of them from va on. */
  function Boundaries(va: nat, n: nat): seq<nat> {
    seq(n, i requires 0 <= i < n => va + i * PAGE_SIZE)
  }

  /** Distinct addresses of which none is allocated yet, as the allocation loop asserts. */
  ghost predicate Clear(m: map<(Pid, nat), PageId>, pid: Pid, vas: seq<nat>) {
    && (forall i, j | 0 <= i < j < |vas| :: vas[i] != vas[j])
    && (forall i | 0 <= i < |vas| :: (pid, vas[i]) !in m)
  }

  datatype Allocation = Allocation(state: State, pages: nat)

  /** One page of the loop, seen from the descriptors, the address index and the processes. */
  ghost function AllocateStepAt(s: State, frames: set<Frame>, pid: Pid, va: nat, pref: Preference): (p: PageId)
    requires Inv(s, frames) && pid in s.proc && (pid, va) !in s.va && ChooseTier(s, pid, pref).Some?
    ensures p < |s.page| && !s.page[p].present && !s.page[p].inFreeRing
    ensures var s1 := AllocateStep(s, frames, pid, va, pref);
      && s1.page == s.page[p := Taken(s.page[p], pid, va)]
      && s1.va == s.va[(pid, va) := p]
      && s1.proc.Keys == s.proc.Keys
  {
    var fast := ChooseTier(s, pid, pref).value;
    TakeEffect(s, frames, pid, va, fast);
    OldestIsFree(s, frames, fast);
    assert s.proc[pid := AddBytes(s.proc[pid], fast, PAGE_SIZE)].Keys == s.proc.Keys;
    Oldest(s, fast)
  }

  lemma ClearAfter(m: map<(Pid, nat), PageId>, pid: Pid, vas: seq<nat>, p: PageId)
    requires vas != [] && Clear(m, pid, vas)
    ensures Clear(m[(pid, vas[0]) := p], pid, vas[1..])
  {}

  /** One turn of the allocation loop. */
  ghost function AllocateHere(s: State, frames: set<Frame>, pid: Pid, vas: seq<nat>, pref: Preference): (s': State)
    requires Inv(s, frames) && pid in s.proc && vas != [] && Clear(s.va, pid, vas) && ChooseTier(s, pid, pref).Some?
    ensures Inv(s', frames) && pid in s'.proc && Clear(s'.va, pid, vas[1..])
  {
    var p := AllocateStepAt(s, frames, pid, vas[0], pref);
    ClearAfter(s.va, pid, vas, p);
    AllocateStep(s, frames, pid, vas[0], pref)
  }

  /** The allocation loop: the state it leaves and how many pages it got, fewer than asked
      for when memory ran out. */
  ghost function AllocateRange(s: State, frames: set<Frame>, pid: Pid, vas: seq<nat>, pref: Preference): (r: Allocation)
    requires Inv(s, frames) && pid in s.proc && Clear(s.va, pid, vas)
    ensures Inv(r.state, frames) && pid in r.state.proc && r.pages <= |vas|
    decreases |vas|
  {
    if vas == [] || ChooseTier(s, pid, pref).None? then Allocation(s, 0)
    else
      var r := AllocateRange(AllocateHere(s, frames, pid, vas, pref), frames, pid, vas[1..], pref);
      Allocation(r.state, r.pages + 1)
  }

  /** Removing the pages found at the given addresses: the rollback loop, and the loop of
      ucm_deallocate_memory. */
  ghost function RemoveRange(s: State, frames: set<Frame>, pid: Pid, vas: seq<nat>): (s': State)
    requires Inv(s, frames)
    ensures Inv(s', frames)
    decreases |vas|
  {
    if vas == [] then s
    else RemoveRange(DeallocateStep(s, frames, pid, vas[0]), frames, pid, vas[1..])
  }

  /** handle_free_page_ring: until the ring is empty. */
  ghost function DrainAll(s: State, frames: set<Frame>, pid: Pid): (s': State)
    requires Inv(s, frames) && pid in s.ring
    ensures Inv(s', frames) && pid in s'.ring && s'.ring[pid] == []
    decreases |s.ring[pid]|
  {
    if s.ring[pid] == [] then s
    else DrainReady(s, frames, pid); DrainAll(DrainStep(s, frames, pid), frames, pid)
  }

  // ---------------------------------------------------------------------------
  // What each of the three does to a descriptor

  /** Untouched, or free before and now a live page at one of the addresses. */
  predicate AllocatedOr(g: Page, g': Page, pid: Pid, vas: seq<nat>) {
    || g' == g
    || (!g.present && g'.frame == g.frame && Live(g') && g'.pid == pid && g'.va in vas)
  }

  predicate AllAllocatedOr(page: seq<Page>, page': seq<Page>, pid: Pid, vas: seq<nat>) {
    |page'| == |page| && forall p | 0 <= p < |page| :: AllocatedOr(page[p], page'[p], pid, vas)
  }

  lemma OneThenMore(page: seq<Page>, p: PageId, page': seq<Page>, pid: Pid, vas: seq<nat>, n: nat)
    requires p < |page| && !page[p].present && !page[p].inFreeRing && n < |vas|
    requires AllAllocatedOr(page[p := Taken(page[p], pid, vas[0])], page', pid, vas[1..][..n])
    ensures AllAllocatedOr(page, page', pid, vas[..n + 1])
  {
    forall q | 0 <= q < |page| ensures AllocatedOr(page[q], page'[q], pid, vas[..n + 1]) {
      assert AllocatedOr(page[p := Taken(page[p], pid, vas[0])][q], page'[q], pid, vas[1..][..n]);
      assert vas[..n + 1] == [vas[0]] + vas[1..][..n];
    }
  }

  lemma {:induction false} AllocatedPages(s: State, frames: set<Frame>, pid: Pid, vas: seq<nat>, pref: Preference)
    requires Inv(s, frames) && pid in s.proc && Clear(s.va, pid, vas)
    ensures var r := AllocateRange(s, frames, pid, vas, pref);
      AllAllocatedOr(s.page, r.state.page, pid, vas[..r.pages]) && r.state.proc.Keys == s.proc.Keys
    decreases |vas|
  {
    if vas != [] && ChooseTier(s, pid, pref).Some? {
      var s1 := AllocateHere(s, frames, pid, vas, pref);
      var p := AllocateStepAt(s, frames, pid, vas[0], pref);
      AllocatedPages(s1, frames, pid, vas[1..], pref);
      var r1 := AllocateRange(s1, frames, pid, vas[1..], pref);
      OneThenMore(s.page, p, r1.state.page, pid, vas, r1.pages);
    }
  }

  /** The index has exactly these addresses of the process in addition. */
  ghost predicate Gained(m: map<(Pid, nat), PageId>, m': map<(Pid, nat), PageId>, pid: Pid, at: seq<nat>) {
    forall k :: k in m' <==> k in m || (k.0 == pid && k.1 in at)
  }

  /** The index lacks exactly these addresses of the process. */
  ghost predicate Lost(m: map<(Pid, nat), PageId>, m': map<(Pid, nat), PageId>, pid: Pid, at: seq<nat>) {
    forall k :: k in m' <==> k in m && !(k.0 == pid && k.1 in at)
  }

  lemma GainedMore(m: map<(Pid, nat), PageId>, p: PageId, m': map<(Pid, nat), PageId>, pid: Pid, vas: seq<nat>, n: nat)
    requires n < |vas| && Gained(m[(pid, vas[0]) := p], m', pid, vas[1..][..n])
    ensures Gained(m, m', pid, vas[..n + 1])
  {
    assert vas[..n + 1] == [vas[0]] + vas[1..][..n];
  }

  /** The pages that an allocation got are the ones it indexed. */
  lemma {:induction false} AllocatedAddresses(s: State, frames: set<Frame>, pid: Pid, vas: seq<nat>, pref: Preference)
    requires Inv(s, frames) && pid in s.proc && Clear(s.va, pid, vas)
    ensures var r := AllocateRange(s, frames, pid, vas, pref); Gained(s.va, r.state.va, pid, vas[..r.pages])
    decreases |vas|
  {
    if vas != [] && ChooseTier(s, pid, pref).Some? {
      var s1 := AllocateHere(s, frames, pid, vas, pref);
      var p := AllocateStepAt(s, frames, pid, vas[0], pref);
      AllocatedAddresses(s1, frames, pid, vas[1..], pref);
      GainedMore(s.va, p, AllocateRange(s1, frames, pid, vas[1..], pref).state.va, pid, vas,
                 AllocateRange(s1, frames, pid, vas[1..], pref).pages);
    }
  }

  lemma DeletedKey<K(!new)>(page: seq<Page>, m: map<K, PageId>, key: Page -> Option<K>, k: K)
    requires IndexInv(page, m, key) && k in m
    ensures forall j :: j in DeleteEntry(m, m[k]) <==> j in m && j != k
  {}

  lemma RemovedFromIndex(s: State, pid: Pid, p: PageId)
    requires p < |s.page| && pid in s.ring
    ensures RemovePage(s, pid, p).va == DeleteEntry(s.va, p)
  {}

  lemma AddressesInOrder(s: State, frames: set<Frame>)
    requires Inv(s, frames)
    ensures IndexInv(s.page, s.va, VaKey)
  {
    UnfoldInv(s, frames);
  }

  lemma LostOne(s: State, frames: set<Frame>, pid: Pid, a: nat)
    requires Inv(s, frames)
    ensures Lost(s.va, DeallocateStep(s, frames, pid, a).va, pid, [a])
  {
    if (pid, a) in s.va {
      AddressesInOrder(s, frames);
      DeletedKey(s.page, s.va, VaKey, (pid, a));
      Indexed(s, frames, pid, a);
      RemoveReady(s, frames, pid, s.va[(pid, a)]);
      RemovedFromIndex(s, pid, s.va[(pid, a)]);
    }
  }

  lemma LostMore(m: map<(Pid, nat), PageId>, m1: map<(Pid, nat), PageId>, m2: map<(Pid, nat), PageId>, pid: Pid,
    vas: seq<nat>)
    requires vas != [] && Lost(m, m1, pid, [vas[0]]) && Lost(m1, m2, pid, vas[1..])
    ensures Lost(m, m2, pid, vas)
  {
    assert vas == [vas[0]] + vas[1..];
  }

  /** Removing a range takes exactly its addresses out of the index. */
  lemma {:induction false} RemovedAddresses(s: State, frames: set<Frame>, pid: Pid, vas: seq<nat>)
    requires Inv(s, frames)
    ensures Lost(s.va, RemoveRange(s, frames, pid, vas).va, pid, vas)
    decreases |vas|
  {
    if vas != [] {
      var s1 := DeallocateStep(s, frames, pid, vas[0]);
      LostOne(s, frames, pid, vas[0]);
      RemovedAddresses(s1, frames, pid, vas[1..]);
      LostMore(s.va, s1.va, RemoveRange(s, frames, pid, vas).va, pid, vas);
    }
  }

  /** A live page of the range now waits to be freed; nothing else changes. */
  function RemovedIn(g: Page, pid: Pid, at: seq<nat>): Page {
    if Live(g) && g.pid == pid && g.va in at then Removed(g) else g
  }

  predicate AllRemovedIn(page: seq<Page>, page': seq<Page>, pid: Pid, at: seq<nat>) {
    |page'| == |page| && forall p | 0 <= p < |page| :: page'[p] == RemovedIn(page[p], pid, at)
  }

  lemma RemovedTwice(page: seq<Page>, page1: seq<Page>, page2: seq<Page>, pid: Pid, a: seq<nat>, b: seq<nat>)
    requires AllRemovedIn(page, page1, pid, a) && AllRemovedIn(page1, page2, pid, b)
    ensures AllRemovedIn(page, page2, pid, a + b)
  {}

  lemma {:induction false} RemovedPages(s: State, frames: set<Frame>, pid: Pid, vas: seq<nat>)
    requires Inv(s, frames)
    ensures var s' := RemoveRange(s, frames, pid, vas);
      AllRemovedIn(s.page, s'.page, pid, vas) && s'.proc == s.proc
    decreases |vas|
  {
    if vas != [] {
      var s1 := DeallocateStep(s, frames, pid, vas[0]);
      RemovedPage(s, frames, pid, vas[0]);
      RemovedPages(s1, frames, pid, vas[1..]);
      RemovedTwice(s.page, s1.page, RemoveRange(s, frames, pid, vas).page, pid, [vas[0]], vas[1..]);
      assert [vas[0]] + vas[1..] == vas;
    }
  }

  lemma FoundExactly(page: seq<Page>, m: map<(Pid, nat), PageId>, pid: Pid, va: nat, p: PageId)
    requires VaExact(page, m) && p < |page|
    ensures (pid, va) in m && m[(pid, va)] == p <==> Live(page[p]) && page[p].pid == pid && page[p].va == va
  {}

  lemma RemovedAt(page: seq<Page>, m: map<(Pid, nat), PageId>, pid: Pid, va: nat)
    requires VaExact(page, m) && (pid, va) in m && m[(pid, va)] < |page|
    ensures AllRemovedIn(page, page[m[(pid, va)] := Removed(page[m[(pid, va)]])], pid, [va])
  {
    forall p | 0 <= p < |page| ensures p == m[(pid, va)] <==> Live(page[p]) && page[p].pid == pid && page[p].va == va {
      FoundExactly(page, m, pid, va, p);
    }
  }

  lemma NothingAt(page: seq<Page>, m: map<(Pid, nat), PageId>, pid: Pid, va: nat)
    requires VaExact(page, m) && (pid, va) !in m
    ensures AllRemovedIn(page, page, pid, [va])
  {
    forall p | 0 <= p < |page| ensures !(Live(page[p]) && page[p].pid == pid && page[p].va == va) {
      FoundExactly(page, m, pid, va, p);
    }
  }

  lemma RemovedPage(s: State, frames: set<Frame>, pid: Pid, va: nat)
    requires Inv(s, frames)
    ensures var s1 := DeallocateStep(s, frames, pid, va);
      AllRemovedIn(s.page, s1.page, pid, [va]) && s1.proc == s.proc
  {
    InvGivesVaExact(s, frames);
    if (pid, va) in s.va {
      var q := s.va[(pid, va)];
      Indexed(s, frames, pid, va);
      RemoveReady(s, frames, pid, q);
      RemoveEffect(s, pid, q);
      RemovedAt(s.page, s.va, pid, va);
    } else {
      NothingAt(s.page, s.va, pid, va);
    }
  }

  function DrainedPage(g: Page, pid: Pid): Page {
    if g.inFreeRing && g.pid == pid then Freed(g) else g
  }

  predicate AllDrained(page: seq<Page>, page': seq<Page>, pid: Pid) {
    |page'| == |page| && forall p | 0 <= p < |page| :: page'[p] == DrainedPage(page[p], pid)
  }

  lemma DrainedFirst(page: seq<Page>, p: PageId, page': seq<Page>, pid: Pid)
    requires p < |page| && page[p].inFreeRing && page[p].pid == pid
    requires AllDrained(page[p := Freed(page[p])], page', pid)
    ensures AllDrained(page, page', pid)
  {
    forall q | 0 <= q < |page| ensures page'[q] == DrainedPage(page[q], pid) {
      assert page'[q] == DrainedPage(page[p := Freed(page[p])][q], pid);
    }
  }

  lemma NothingWaits(page: seq<Page>, ring: map<Pid, seq<PageId>>, pid: Pid)
    requires RingInv(page, ring) && pid in ring && ring[pid] == []
    ensures AllDrained(page, page, pid)
  {
    forall p | 0 <= p < |page| ensures page[p] == DrainedPage(page[p], pid) {
      assert multiset(ring[pid])[p] == Waiting(page, pid, p);
    }
  }

  lemma {:induction false} DrainedPages(s: State, frames: set<Frame>, pid: Pid)
    requires Inv(s, frames) && pid in s.ring
    ensures var s' := DrainAll(s, frames, pid); AllDrained(s.page, s'.page, pid) && s'.proc.Keys == s.proc.Keys
    decreases |s.ring[pid]|
  {
    if s.ring[pid] == [] {
      UnfoldInv(s, frames);
      NothingWaits(s.page, s.ring, pid);
    } else {
      DrainReady(s, frames, pid);
      var s1 := DrainStep(s, frames, pid);
      assert s1.proc.Keys == s.proc.Keys;
      DrainedPages(s1, frames, pid);
      DrainedFirst(s.page, s.ring[pid][0], DrainAll(s, frames, pid).page, pid);
    }
  }

  // ---------------------------------------------------------------------------
  // Rolling back

  /** The state ucm_allocate_memory leaves when it fails: what it got is removed again. */
  ghost function FailedAllocation(s: State, frames: set<Frame>, pid: Pid, vas: seq<nat>, pref: Preference): (s': State)
    requires Inv(s, frames) && pid in s.proc && Clear(s.va, pid, vas)
    ensures Inv(s', frames)
  {
    var r := AllocateRange(s, frames, pid, vas, pref);
    RemoveRange(r.state, frames, pid, vas[..r.pages])
  }

  // ---------------------------------------------------------------------------
  // When an allocation fails

  /** No slow page is free, and no fast one that the process may have. */
  ghost predicate OutOfMemory(s: State, pid: Pid, pref: Preference) {
    && pid in s.proc && At(s.lists, Free(false)) == []
    && (At(s.lists, Free(true)) == [] || (pref == FastPreferred && s.proc[pid].fastBytes >= s.proc[pid].maxFast))
  }

  lemma {:induction false} ShortOnlyWithoutMemory(s: State, frames: set<Frame>, pid: Pid, vas: seq<nat>,
    pref: Preference)
    requires Inv(s, frames) && pid in s.proc && Clear(s.va, pid, vas)
    ensures var r := AllocateRange(s, frames, pid, vas, pref);
      r.pages < |vas| ==> OutOfMemory(r.state, pid, pref)
    decreases |vas|
  {
    if vas != [] && ChooseTier(s, pid, pref).Some? {
      ShortOnlyWithoutMemory(AllocateHere(s, frames, pid, vas, pref), frames, pid, vas[1..], pref);
    }
  }

  lemma {:induction false} RemovalKeepsLists(s: State, frames: set<Frame>, pid: Pid, vas: seq<nat>)
    requires Inv(s, frames)
    ensures var s' := RemoveRange(s, frames, pid, vas); s'.lists == s.lists && s'.proc == s.proc
    decreases |vas|
  {
    if vas != [] {
      OneRemovalKeepsLists(s, frames, pid, vas[0]);
      RemovalKeepsLists(DeallocateStep(s, frames, pid, vas[0]), frames, pid, vas[1..]);
    }
  }

  lemma OneRemovalKeepsLists(s: State, frames: set<Frame>, pid: Pid, va: nat)
    requires Inv(s, frames)
    ensures var s' := DeallocateStep(s, frames, pid, va); s'.lists == s.lists && s'.proc == s.proc
  {
    if (pid, va) in s.va { Indexed(s, frames, pid, va); }
  }

  /** An allocation fails only when memory has run out, and then no memory is free until the ring
      of the process is drained. */
  lemma FailsOnlyWithoutMemory(s: State, frames: set<Frame>, pid: Pid, vas: seq<nat>, pref: Preference)
    requires Inv(s, frames) && pid in s.proc && Clear(s.va, pid, vas)
    requires AllocateRange(s, frames, pid, vas, pref).pages < |vas|
    ensures OutOfMemory(FailedAllocation(s, frames, pid, vas, pref), pid, pref)
  {
    var r := AllocateRange(s, frames, pid, vas, pref);
    ShortOnlyWithoutMemory(s, frames, pid, vas, pref);
    RemovalKeepsLists(r.state, frames, pid, vas[..r.pages]);
  }

  /** The same descriptor, or one that is free in both with the same frame. */
  predicate SameOrFree(g: Page, h: Page) {
    g == h || (!g.present && !h.present && !g.inFreeRing && !h.inFreeRing && g.frame == h.frame)
  }

  predicate AllSameOrFree(page: seq<Page>, page': seq<Page>) {
    |page'| == |page| && forall p | 0 <= p < |page| :: SameOrFree(page[p], page'[p])
  }

  lemma PagesRestored(page: seq<Page>, page1: seq<Page>, page2: seq<Page>, page3: seq<Page>, drained: seq<Page>,
                      pids: set<Pid>, pid: Pid, vas: seq<nat>)
    requires forall p | 0 <= p < |page| :: PageOk(page[p], pids)
    requires AllAllocatedOr(page, page1, pid, vas) && AllRemovedIn(page1, page2, pid, vas)
    requires AllDrained(page2, page3, pid)
    requires forall p | 0 <= p < |page| && Live(page[p]) && page[p].pid == pid :: page[p].va !in vas
    requires AllDrained(page, drained, pid)
    ensures AllSameOrFree(drained, page3)
  {
    forall p | 0 <= p < |page| ensures SameOrFree(drained[p], page3[p]) {
      assert PageOk(page[p], pids) && AllocatedOr(page[p], page1[p], pid, vas);
      assert page2[p] == RemovedIn(page1[p], pid, vas) && page3[p] == DrainedPage(page2[p], pid);
    }
  }

  lemma SameIndex<K(!new)>(page: seq<Page>, m: map<K, PageId>, page': seq<Page>, m': map<K, PageId>,
    key: Page -> Option<K>)
    requires IndexInv(page, m, key) && IndexInv(page', m', key) && |page| == |page'|
    requires forall p | 0 <= p < |page| :: key(page[p]) == key(page'[p])
    ensures m == m'
  {
    forall k | k in m ensures k in m' && m'[k] == m[k] {
      assert key(page[m[k]]) == Some(k);
    }
    forall k | k in m' ensures k in m {
      assert key(page'[m'[k]]) == Some(k);
    }
  }

  lemma {:induction false} SameCount(page: seq<Page>, page': seq<Page>, pid: Pid, fast: bool)
    requires AllSameOrFree(page, page')
    ensures Count(page, pid, fast) == Count(page', pid, fast)
  {
    if page != [] {
      var n := |page| - 1;
      assert SameOrFree(page[n], page'[n]);
      forall p | 0 <= p < n ensures SameOrFree(page[..n][p], page'[..n][p]) {
        assert SameOrFree(page[p], page'[p]);
      }
      SameCount(page[..n], page'[..n], pid, fast);
    }
  }

  /** Two states agree on the indexes, on which frames are free and on the byte counters. */
  ghost predicate SameMemory(s: State, t: State) {
    && s.va == t.va && s.cxl == t.cxl && s.pa == t.pa
    && |s.page| == |t.page| && (forall p | 0 <= p < |s.page| :: s.page[p].frame == t.page[p].frame)
    && (forall fast :: multiset(At(s.lists, Free(fast))) == multiset(At(t.lists, Free(fast))))
    && (forall pid | pid in s.proc && pid in t.proc ::
          s.proc[pid].fastBytes == t.proc[pid].fastBytes && s.proc[pid].slowBytes == t.proc[pid].slowBytes)
  }

  lemma SameIndexes(s: State, t: State, frames: set<Frame>)
    requires Inv(s, frames) && Inv(t, frames) && AllSameOrFree(s.page, t.page)
    ensures s.va == t.va && s.cxl == t.cxl && s.pa == t.pa
  {
    UnfoldInv(s, frames);
    UnfoldInv(t, frames);
    forall p | 0 <= p < |s.page|
      ensures VaKey(s.page[p]) == VaKey(t.page[p]) && CxlKey(s.page[p]) == CxlKey(t.page[p])
      ensures PaKey(s.page[p]) == PaKey(t.page[p])
    {
      assert SameOrFree(s.page[p], t.page[p]);
    }
    SameIndex(s.page, s.va, t.page, t.va, VaKey);
    SameIndex(s.page, s.cxl, t.page, t.cxl, CxlKey);
    SameIndex(s.page, s.pa, t.page, t.pa, PaKey);
  }

  lemma SameFreeLists(page: seq<Page>, lists: map<ListId, seq<PageId>>,
                      page': seq<Page>, lists': map<ListId, seq<PageId>>, fast: bool)
    requires ListInv(page, lists, {}) && ListInv(page', lists', {}) && AllSameOrFree(page, page')
    ensures multiset(At(lists, Free(fast))) == multiset(At(lists', Free(fast)))
  {
    forall p: PageId ensures multiset(At(lists, Free(fast)))[p] == multiset(At(lists', Free(fast)))[p] {
      assert multiset(At(lists, Free(fast)))[p] == Placed(page, {}, Free(fast), p);
      assert multiset(At(lists', Free(fast)))[p] == Placed(page', {}, Free(fast), p);
      if p < |page| { assert SameOrFree(page[p], page'[p]); }
    }
  }

  lemma SameBytes(page: seq<Page>, proc: map<Pid, Proc>, page': seq<Page>, proc': map<Pid, Proc>, pid: Pid)
    requires BytesInv(page, proc) && BytesInv(page', proc') && AllSameOrFree(page, page')
    requires pid in proc && pid in proc'
    ensures proc[pid].fastBytes == proc'[pid].fastBytes && proc[pid].slowBytes == proc'[pid].slowBytes
  {
    SameCount(page, page', pid, true);
    SameCount(page, page', pid, false);
  }

  lemma SamePagesSameMemory(s: State, t: State, frames: set<Frame>)
    requires Inv(s, frames) && Inv(t, frames) && AllSameOrFree(s.page, t.page)
    ensures SameMemory(s, t)
  {
    SameIndexes(s, t, frames);
    UnfoldInv(s, frames);
    UnfoldInv(t, frames);
    forall fast ensures multiset(At(s.lists, Free(fast))) == multiset(At(t.lists, Free(fast))) {
      SameFreeLists(s.page, s.lists, t.page, t.lists, fast);
    }
    forall pid | pid in s.proc && pid in t.proc
      ensures s.proc[pid].fastBytes == t.proc[pid].fastBytes && s.proc[pid].slowBytes == t.proc[pid].slowBytes
    {
      SameBytes(s.page, s.proc, t.page, t.proc, pid);
    }
    forall p | 0 <= p < |s.page| ensures s.page[p].frame == t.page[p].frame {
      assert SameOrFree(s.page[p], t.page[p]);
    }
  }

  lemma ClearOfLive(page: seq<Page>, m: map<(Pid, nat), PageId>, pid: Pid, vas: seq<nat>)
    requires VaExact(page, m) && Clear(m, pid, vas)
    ensures forall p | 0 <= p < |page| && Live(page[p]) && page[p].pid == pid :: page[p].va !in vas
  {
    forall p | 0 <= p < |page| && Live(page[p]) && page[p].pid == pid ensures page[p].va !in vas {
      FoundExactly(page, m, pid, page[p].va, p);
    }
  }

  lemma ClearPrefix(m: map<(Pid, nat), PageId>, pid: Pid, vas: seq<nat>, n: nat)
    requires Clear(m, pid, vas) && n <= |vas|
    ensures Clear(m, pid, vas[..n])
  {}

  /** A failed allocation of any range, rolled back and drained, leaves the indexes, the free
      frames of both tiers and the byte counters as a drain without it would. */
  lemma RollbackRestores(s: State, frames: set<Frame>, pid: Pid, vas: seq<nat>, pref: Preference)
    requires Inv(s, frames) && pid in s.proc && Clear(s.va, pid, vas)
    ensures pid in s.ring && pid in FailedAllocation(s, frames, pid, vas, pref).ring
    ensures SameMemory(DrainAll(s, frames, pid), DrainAll(FailedAllocation(s, frames, pid, vas, pref), frames, pid))
  {
    var r := AllocateRange(s, frames, pid, vas, pref);
    var t := FailedAllocation(s, frames, pid, vas, pref);
    AllocatedPages(s, frames, pid, vas, pref);
    RemovedPages(r.state, frames, pid, vas[..r.pages]);
    HasRing(s, frames, pid);
    HasRing(t, frames, pid);
    DrainedPages(t, frames, pid);
    DrainedPages(s, frames, pid);
    InvGivesVaExact(s, frames);
    ClearPrefix(s.va, pid, vas, r.pages);
    ClearOfLive(s.page, s.va, pid, vas[..r.pages]);
    var d, e := DrainAll(s, frames, pid), DrainAll(t, frames, pid);
    UnfoldInv(s, frames);
    PagesRestored(s.page, r.state.page, t.page, e.page, d.page, s.proc.Keys, pid, vas[..r.pages]);
    SamePagesSameMemory(d, e, frames);
  }

  /** With nothing waiting beforehand, that is the state before the request. */
  lemma RollbackRestoresExactly(s: State, frames: set<Frame>, pid: Pid, vas: seq<nat>, pref: Preference)
    requires Inv(s, frames) && pid in s.proc && Clear(s.va, pid, vas) && pid in s.ring && s.ring[pid] == []
    ensures pid in FailedAllocation(s, frames, pid, vas, pref).ring
    ensures SameMemory(s, DrainAll(FailedAllocation(s, frames, pid, vas, pref), frames, pid))
  {
    RollbackRestores(s, frames, pid, vas, pref);
  }
}
