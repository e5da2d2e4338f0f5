/** The manager as a program: its fields, and its operations as the loops and assignments
    that change them, each proved against the specification of the state it leaves. */
module Ucm {
  import Hotness
  import opened UcmState
  import opened UcmInvariant
  import opened UcmSafety
  import opened UcmMigration
  import opened UcmRuns
  import opened UcmRollback
  import opened UcmEpoch
  import opened UcmEffects

  class Manager {
    var page: seq<Page>
    var lists: map<ListId, seq<PageId>>
    var va: map<(Pid, nat), PageId>
    var cxl: map<(Pid, nat), PageId>
    var pa: map<nat, PageId>
    var proc: map<Pid, Proc>
    var ring: map<Pid, seq<PageId>>
    var epoch: nat
    ghost var owner: map<Frame, PageId>
    ghost var log: seq<(PageId, nat)>
    ghost const frames: set<Frame>

    ghost function Snapshot(): State
      reads this
    {
      State(page, lists, va, cxl, pa, proc, ring, epoch, owner, log)
    }

    ghost predicate Valid()
      reads this
    {
      Inv(Snapshot(), frames)
    }

    // -------------------------------------------------------------------------
    // Initialisation

    constructor (nFast: nat, nSlow: nat)
      ensures Valid() && Snapshot() == Init(nFast, nSlow) && frames == Frames(nFast, nSlow)
    {
      va, cxl, pa, proc, ring, epoch, log := map[], map[], map[], map[], map[], 0, [];
      owner := Init(nFast, nSlow).owner;
      frames := Frames(nFast, nSlow);
      page, lists := [], FreeLists([], []);
      new;
      InitFreeLists(nFast, nSlow);
      InitIsGood(nFast, nSlow);
    }

    /** init_free_lists: one descriptor per huge page of each tier. */
    method InitFreeLists(nFast: nat, nSlow: nat)
      requires page == [] && lists == FreeLists([], [])
      modifies `page, `lists
      ensures page == Init(nFast, nSlow).page && lists == Init(nFast, nSlow).lists
    {
      for i := 0 to nFast
        invariant page == FreshPages(true, i) && lists == FreeLists(Descending(0, i), [])
      {
        FreshPagesGrow(true, i);
        FreeListsGrow(Descending(0, i), [], i);
        page := page + [FreshPage(Frame(true, i * PAGE_SIZE))];
        EnqueuePage(Free(true), |page| - 1);
      }
      ghost var fast := page;
      for i := 0 to nSlow
        invariant page == fast + FreshPages(false, i)
        invariant lists == FreeLists(Descending(0, nFast), Descending(nFast, nFast + i))
      {
        FreshPagesGrow(false, i);
        FreeListsGrow(Descending(0, nFast), Descending(nFast, nFast + i), nFast + i);
        page := page + [FreshPage(Frame(false, i * PAGE_SIZE))];
        EnqueuePage(Free(false), |page| - 1);
      }
    }

    method Start(pid: Pid, maxFast: nat)
      requires Valid() && pid >= 0 && pid !in proc
      modifies this
      ensures Valid() && Snapshot() == AddProcess(old(Snapshot()), pid, maxFast)
      ensures proc == old(proc)[pid := Proc(0, 0, maxFast)] && ring == old(ring)[pid := []]
    {
      AddProcessKeeps(Snapshot(), frames, pid, maxFast);
      proc := proc[pid := Proc(0, 0, maxFast)];
      ring := ring[pid := []];
    }

    // -------------------------------------------------------------------------
    // Lists

    method EnqueuePage(id: ListId, p: PageId)
      modifies `lists
      ensures lists == Enqueue(old(lists), id, p)
    {
      lists := lists[id := [p] + At(lists, id)];
    }

    /** Takes the oldest entry. */
    method DequeuePage(id: ListId) returns (r: Option<PageId>)
      modifies `lists
      ensures var s := old(At(lists, id));
        if s == [] then r == None && lists == old(lists)
        else r == Some(s[|s| - 1]) && lists == Unlink(old(lists), id, |s| - 1)
    {
      var s := At(lists, id);
      if s == [] { return None; }
      r := Some(s[|s| - 1]);
      assert s[..|s| - 1] == s[..|s| - 1] + s[|s|..];
      lists := lists[id := s[..|s| - 1]];
    }

    method RemoveFromList(id: ListId, p: PageId)
      requires p in At(lists, id)
      modifies `lists
      ensures lists == Unlink(old(lists), id, IndexOf(old(At(lists, id)), p))
    {
      var k := IndexOf(At(lists, id), p);
      var s := At(lists, id);
      lists := lists[id := s[..k] + s[k + 1..]];
    }

    // -------------------------------------------------------------------------
    // Indexes

    method AddPaEntry(pid: Pid, p: PageId)
      requires p < |page|
      modifies `page, `pa
      ensures Snapshot() == AddToPa(old(Snapshot()), pid, p)
    {
      pa := pa[page[p].frame.offset := p];
      page := page[p := page[p].(entry := Some(pid))];
    }

    method AddPageToCxl(pid: Pid, p: PageId)
      requires p < |page|
      modifies `page, `cxl, `pa
      ensures Snapshot() == AddToCxl(old(Snapshot()), pid, p)
    {
      var offset := page[p].frame.offset;
      if (pid, offset) in cxl { return; }
      cxl := cxl[(pid, offset) := p];
      AddPaEntry(pid, p);
    }

    method RemovePaEntry(p: PageId)
      requires p < |page|
      modifies `page, `pa
      ensures Snapshot() == RemoveFromPa(old(Snapshot()), p)
    {
      if page[p].entry.Some? {
        pa := DeleteEntry(pa, p);
        page := page[p := page[p].(entry := None)];
      }
    }

    /** mm_remove_page: out of the indexes at once, into the free ring unless there already. */
    method RemoveOne(pid: Pid, p: PageId)
      requires p < |page| && pid in ring
      modifies this
      ensures Snapshot() == RemovePage(old(Snapshot()), pid, p)
    {
      va := DeleteEntry(va, p);
      if !page[p].frame.fast {
        cxl := DeleteEntry(cxl, p);
        RemovePaEntry(p);
      }
      if !page[p].inFreeRing {
        page := page[p := page[p].(inFreeRing := true)];
        ring := ring[pid := ring[pid] + [p]];
      }
    }

    // -------------------------------------------------------------------------
    // Allocation

    /** The two allocation preferences: claim the oldest free page of the chosen tier. */
    method AllocatePage(pid: Pid, pref: Preference) returns (r: Option<PageId>)
      requires pid in proc
      requires forall id, k | 0 <= k < |At(lists, id)| :: At(lists, id)[k] < |page|
      requires forall fast | At(lists, Free(fast)) != [] :: page[Oldest(Snapshot(), fast)].frame.fast == fast
      modifies `page, `lists, `proc
      ensures r.Some? ==> r.value < |page|
      ensures pref == FastPreferred ==>
        && (r.Some? && page[r.value].frame.fast
            <==> old(proc[pid].fastBytes < proc[pid].maxFast && At(lists, Free(true)) != []))
        && (r.Some? && !page[r.value].frame.fast
            <==> old(!(proc[pid].fastBytes < proc[pid].maxFast && At(lists, Free(true)) != [])
                     && At(lists, Free(false)) != []))
      ensures pref == SlowPreferred ==>
        && (r.Some? && !page[r.value].frame.fast <==> old(At(lists, Free(false)) != []))
        && (r.Some? && page[r.value].frame.fast
            <==> old(At(lists, Free(false)) == [] && At(lists, Free(true)) != []))
      ensures var tier := old(ChooseTier(Snapshot(), pid, pref));
        && (tier.None? ==> r.None? && Snapshot() == old(Snapshot()))
        && (tier.Some? ==>
              Claimed(old(Snapshot()), Snapshot(), pid, tier.value) && r == Some(Oldest(old(Snapshot()), tier.value)))
    {
      if pref.FastPreferred? {
        if proc[pid].fastBytes < proc[pid].maxFast {
          r := Claim(pid, true);
        } else {
          r := None;
        }
        if r.None? { r := Claim(pid, false); }
      } else {
        r := Claim(pid, false);
        if r.None? { r := Claim(pid, true); }
      }
    }

    method Claim(pid: Pid, fast: bool) returns (r: Option<PageId>)
      requires pid in proc
      requires At(lists, Free(fast)) != [] ==> Oldest(Snapshot(), fast) < |page|
      modifies `page, `lists, `proc
      ensures r.None? ==> old(At(lists, Free(fast))) == [] && Snapshot() == old(Snapshot())
      ensures r.Some? ==> Claimed(old(Snapshot()), Snapshot(), pid, fast) && r.value == Oldest(old(Snapshot()), fast)
    {
      r := DequeuePage(Free(fast));
      if r.None? { return; }
      var p := r.value;
      page := page[p := page[p].(present := true, pid := pid)];
      proc := proc[pid := AddBytes(proc[pid], fast, PAGE_SIZE)];
    }

    /** mm_add_page */
    method AddPage(pid: Pid, p: PageId)
      requires p < |page|
      modifies `page, `va, `cxl, `pa
      ensures Snapshot() == AddedPage(old(Snapshot()), pid, p)
    {
      if (pid, page[p].va) !in va { va := va[(pid, page[p].va) := p]; }
      if !page[p].frame.fast {
        if (pid, page[p].frame.offset) !in cxl { cxl := cxl[(pid, page[p].frame.offset) := p]; }
        AddPaEntry(pid, p);
      }
    }

    /** The claimed page gets its address, is indexed and goes on the cold list. */
    method PlacePage(pid: Pid, p: PageId, addr: nat)
      requires p < |page|
      modifies `page, `va, `cxl, `pa, `lists
      ensures Snapshot() == PagePlaced(old(Snapshot()), pid, p, addr)
    {
      page := page[p := page[p].(va := addr)];
      AddPage(pid, p);
      EnqueuePage(Hot(pid, page[p].frame.fast, Hotness.COLD), p);
    }

    /** The body of the allocation loop. */
    method TakeOne(pid: Pid, addr: nat, pref: Preference) returns (ok: bool)
      requires pid in proc
      requires forall id, k | 0 <= k < |At(lists, id)| :: At(lists, id)[k] < |page|
      requires forall fast | At(lists, Free(fast)) != [] :: page[Oldest(Snapshot(), fast)].frame.fast == fast
      modifies this
      ensures var tier := old(ChooseTier(Snapshot(), pid, pref));
        && ok == tier.Some?
        && Snapshot() == (if ok then TakePage(old(Snapshot()), pid, addr, tier.value) else old(Snapshot()))
    {
      ghost var s := Snapshot();
      var r := AllocatePage(pid, pref);
      if r.None? { return false; }
      TakeInSteps(s, Snapshot(), pid, addr, ChooseTier(s, pid, pref).value);
      PlacePage(pid, r.value, addr);
      ok := true;
    }

    /** One turn of the allocation loop. */
    method AllocateOne(pid: Pid, addr: nat, pref: Preference) returns (ok: bool)
      requires Valid() && pid in proc && (pid, addr) !in va
      modifies this
      ensures Valid() && ok == old(ChooseTier(Snapshot(), pid, pref)).Some?
      ensures Snapshot() == AllocateStep(old(Snapshot()), frames, pid, addr, pref)
    {
      ghost var s := Snapshot();
      UnfoldInv(s, frames);
      AllInRange(s);
      forall fast | At(lists, Free(fast)) != [] ensures page[Oldest(s, fast)].frame.fast == fast {
        OldestIsFree(s, frames, fast);
      }
      ok := TakeOne(pid, addr, pref);
      if ok { TakeKeeps(s, frames, pid, addr, ChooseTier(s, pid, pref).value); }
    }

    /** The same within the loop, which has i pages behind it and will end as r says. */
    method AllocateNext(pid: Pid, addr: nat, pref: Preference, ghost vas: seq<nat>, ghost i: nat, ghost r: Allocation)
      returns (ok: bool)
      requires Going(Snapshot(), frames, pid, vas, i, pref, r) && i < |vas| && vas[i] == addr
      modifies this
      ensures ok ==> Going(Snapshot(), frames, pid, vas, i + 1, pref, r)
      ensures !ok ==> Valid() && r == Allocation(Snapshot(), i)
    {
      GoingOn(Snapshot(), frames, pid, vas, i, pref, r);
      ok := AllocateOne(pid, addr, pref);
    }

    /** The allocation loop; returns how many pages it got. */
    method AllocateLoop(pid: Pid, start: nat, length: nat, pref: Preference) returns (i: nat)
      requires Valid() && pid in proc && Clear(va, pid, Boundaries(start, PagesIn(length)))
      modifies this
      ensures Valid()
      ensures AllocateRange(old(Snapshot()), frames, pid, Boundaries(start, PagesIn(length)), pref)
        == Allocation(Snapshot(), i)
    {
      ghost var vas := Boundaries(start, PagesIn(length));
      ghost var r := AllocateRange(Snapshot(), frames, pid, vas, pref);
      i := 0;
      var boundary := start;
      Visiting(start, length, i);
      GoingStarts(Snapshot(), frames, pid, vas, pref);
      while boundary < start + length
        invariant Visit(start, length, i, boundary, vas)
        invariant Going(Snapshot(), frames, pid, vas, i, pref, r)
      {
        var ok := AllocateNext(pid, boundary, pref, vas, i, r);
        if !ok { return; }
        i, boundary := i + 1, boundary + PAGE_SIZE;
        Visiting(start, length, i);
      }
      GoingEnds(Snapshot(), frames, pid, vas, i, pref, r);
    }

    /** ucm_allocate_memory: all the pages, or -1 and what was allocated removed again. */
    method AllocateMemory(pid: Pid, start: nat, length: nat, pref: Preference) returns (count: int)
      requires Valid() && pid in proc && Clear(va, pid, Boundaries(start, PagesIn(length)))
      modifies this
      ensures Valid()
      ensures var vas := Boundaries(start, PagesIn(length));
        var r := AllocateRange(old(Snapshot()), frames, pid, vas, pref);
        if r.pages == |vas| then count == |vas| && Snapshot() == r.state
        else count == -1 && Snapshot() == FailedAllocation(old(Snapshot()), frames, pid, vas, pref)
      ensures count >= 0 ==> Gained(old(va), va, pid, Boundaries(start, PagesIn(length)))
      ensures count >= 0 ==> forall a: nat :: (pid, a) in va <==> (pid, a) in old(va) || EveryPage(start, length, a)
      ensures count == -1 ==>
        pid in old(ring) && pid in ring
        && SameMemory(DrainAll(old(Snapshot()), frames, pid), DrainAll(Snapshot(), frames, pid))
      ensures count == -1 ==> OutOfMemory(Snapshot(), pid, pref)
    {
      ghost var vas := Boundaries(start, PagesIn(length));
      AllocatedAddresses(Snapshot(), frames, pid, vas, pref);
      RollbackRestores(Snapshot(), frames, pid, vas, pref);
      if AllocateRange(Snapshot(), frames, pid, vas, pref).pages < |vas| {
        FailsOnlyWithoutMemory(Snapshot(), frames, pid, vas, pref);
      }
      var i := AllocateLoop(pid, start, length, pref);
      if i < PagesIn(length) {
        BoundariesPrefix(start, PagesIn(length), i);
        Rollback(pid, start, i);
        count := -1;
      } else {
        count := i;
        GainedAre(old(va), va, pid, start, length);
      }
    }

    /** Removing the first n pages of a range again. */
    method Rollback(pid: Pid, start: nat, n: nat)
      requires Valid()
      modifies this
      ensures Valid() && Snapshot() == RemoveRange(old(Snapshot()), frames, pid, Boundaries(start, n))
    {
      ghost var vas := Boundaries(start, n);
      for i := 0 to n
        invariant Valid()
        invariant RemoveRange(Snapshot(), frames, pid, vas[i..]) == RemoveRange(old(Snapshot()), frames, pid, vas)
      {
        RemoveRangeStep(Snapshot(), frames, pid, vas, i);
        BoundaryAt(start, n, i);
        var found := DeallocateAt(pid, start + i * PAGE_SIZE);
      }
    }

    method DeallocateAt(pid: Pid, addr: nat) returns (found: bool)
      requires Valid()
      modifies this
      ensures Valid() && Snapshot() == DeallocateStep(old(Snapshot()), frames, pid, addr)
      ensures found == ((pid, addr) in old(va))
    {
      found := (pid, addr) in va;
      if found {
        var p := va[(pid, addr)];
        Indexed(Snapshot(), frames, pid, addr);
        RemoveKeeps(Snapshot(), frames, pid, p);
        RemoveOne(pid, p);
      }
    }

    /** Every page found at the boundaries from first up to a length; returns how many. */
    method RemoveSpan(pid: Pid, first: nat, length: nat) returns (freed: nat)
      requires Valid()
      modifies this
      ensures freed == IndexedIn(old(va), pid, Boundaries(first, PagesIn(length)))
      ensures Valid() && Snapshot() == RemoveRange(old(Snapshot()), frames, pid, Boundaries(first, PagesIn(length)))
    {
      ghost var vas := Boundaries(first, PagesIn(length));
      ghost var i := 0;
      var boundary := first;
      freed := 0;
      Visiting(first, length, i);
      while boundary < first + length
        invariant Visit(first, length, i, boundary, vas)
        invariant Valid() && freed + IndexedIn(va, pid, vas[i..]) == IndexedIn(old(va), pid, vas)
        invariant RemoveRange(Snapshot(), frames, pid, vas[i..]) == RemoveRange(old(Snapshot()), frames, pid, vas)
      {
        RemoveRangeStep(Snapshot(), frames, pid, vas, i);
        IndexedStep(Snapshot(), frames, pid, vas, i);
        var found := DeallocateAt(pid, boundary);
        if found { freed := freed + 1; }
        i, boundary := i + 1, boundary + PAGE_SIZE;
        Visiting(first, length, i);
      }
    }

    /** ucm_deallocate_memory: from the boundary at or below the start of the range; returns
        how many pages were found. */
    method DeallocateMemory(pid: Pid, start: nat, length: nat) returns (freed: nat)
      requires Valid()
      modifies this
      ensures Valid() && freed == IndexedIn(old(va), pid, BoundariesOf(start, length))
      ensures Snapshot() == RemoveRange(old(Snapshot()), frames, pid, BoundariesOf(start, length))
      ensures Lost(old(va), va, pid, BoundariesOf(start, length))
      ensures forall a: nat :: (pid, a) in va <==> (pid, a) in old(va) && !Touches(start, length, a)
    {
      RemovedAddresses(Snapshot(), frames, pid, BoundariesOf(start, length));
      var first := BoundaryBelow(start);
      freed := RemoveSpan(pid, first, start + length - first);
      LostAre(old(va), va, pid, start, length);
    }

    // -------------------------------------------------------------------------
    // Draining

    /** One page from the ring: off its list, its statistics reset, on the free list. */
    method FreeNext(pid: Pid)
      requires pid in ring && ring[pid] != [] && pid in proc
      requires ring[pid][0] < |page| && ring[pid][0] in At(lists, Home(page[ring[pid][0]]))
      modifies this
      ensures Snapshot() == DrainOne(old(Snapshot()), pid)
    {
      var p := ring[pid][0];
      ring := ring[pid := ring[pid][1..]];
      var fast := page[p].frame.fast;
      RemoveFromList(Home(page[p]), p);
      page := page[p := Freed(page[p])];
      EnqueuePage(Free(fast), p);
      proc := proc[pid := AddBytes(proc[pid], fast, -PAGE_SIZE)];
    }

    /** handle_free_page_ring */
    method DrainFreeRing(pid: Pid)
      requires Valid() && pid in ring
      modifies this
      ensures Valid() && Snapshot() == DrainAll(old(Snapshot()), frames, pid)
    {
      while ring[pid] != []
        invariant Valid() && pid in ring
        invariant DrainAll(Snapshot(), frames, pid) == DrainAll(old(Snapshot()), frames, pid)
        decreases |ring[pid]|
      {
        DrainReady(Snapshot(), frames, pid);
        DrainKeeps(Snapshot(), frames, pid);
        FreeNext(pid);
      }
    }

    // -------------------------------------------------------------------------
    // Telemetry

    method MakeHot(p: PageId, level: nat)
      requires p < |page| && p in At(lists, Home(page[p]))
      modifies `page, `lists
      ensures Snapshot() == Rehot(old(Snapshot()), p, level)
    {
      if page[p].hot == level { return; }
      RemoveFromList(Home(page[p]), p);
      page := page[p := WithHot(page[p], level)];
      EnqueuePage(Home(page[p]), p);
    }

    /** One request of the hot or the cold ring: a freed page is skipped, any other is moved to
        the level its counters give now. */
    method HandleRequest(p: PageId, level: nat)
      requires Valid() && p < |page| && level < LEVELS
      modifies this
      ensures Valid() && Snapshot() == TelemetryStep(old(Snapshot()), frames, p, level)
      ensures AtLevel(old(Snapshot()), Snapshot(), p, level)
    {
      RequestEffect(Snapshot(), frames, p, level);
      if page[p].present {
        RehotKeeps(Snapshot(), frames, p, level);
        MakeHot(p, level);
      }
    }

    // -------------------------------------------------------------------------
    // Candidates

    method FirstEligibleOn(id: ListId) returns (k: nat)
      ensures k == FirstEligible(page, At(lists, id), epoch)
    {
      var list := At(lists, id);
      k := 0;
      while k < |list|
        invariant k <= |list| && k + FirstEligible(page, list[k..], epoch) == FirstEligible(page, list, epoch)
      {
        if list[k] < |page| && Eligible(page[list[k]], epoch) { return; }
        k := k + 1;
      }
    }

    /** find_hottest_slowmem_page, without the unlinking. */
    method FindHottestSlow(pid: Pid) returns (r: Option<Pick>)
      ensures r == HottestSlow(Snapshot(), pid, LEVELS)
      ensures Valid() && r.None? ==> forall p: PageId :: !MayMove(Snapshot(), pid, false, p)
      ensures Valid() && r.Some? ==>
        var p := At(lists, Hot(pid, false, r.value.level))[r.value.k];
        MayMove(Snapshot(), pid, false, p)
          && forall q: PageId | MayMove(Snapshot(), pid, false, q) :: page[q].hot <= page[p].hot
    {
      if Valid() { PromotionCandidate(Snapshot(), frames, pid); }
      var i: nat := LEVELS;
      while i > 0
        invariant i <= LEVELS && HottestSlow(Snapshot(), pid, i) == HottestSlow(Snapshot(), pid, LEVELS)
      {
        var k := FirstEligibleOn(Hot(pid, false, i - 1));
        if k < |At(lists, Hot(pid, false, i - 1))| { return Some(Pick(i - 1, k)); }
        i := i - 1;
      }
      r := None;
    }

    /** find_coldest_fastmem_page, without the unlinking. */
    method FindColdestFast(pid: Pid) returns (r: Option<Pick>)
      ensures r == ColdestFast(Snapshot(), pid, 0, MAX_DEMOTION_TIER)
      ensures Valid() && r.None? ==> forall p: PageId | MayMove(Snapshot(), pid, true, p) :: page[p].hot >= 10
      ensures Valid() && r.Some? ==>
        var p := At(lists, Hot(pid, true, r.value.level))[r.value.k];
        MayMove(Snapshot(), pid, true, p) && page[p].hot < 10
          && forall q: PageId | MayMove(Snapshot(), pid, true, q) :: page[p].hot <= page[q].hot
    {
      if Valid() { DemotionCandidate(Snapshot(), frames, pid); }
      var i: nat := 0;
      while i < MAX_DEMOTION_TIER
        invariant i <= MAX_DEMOTION_TIER
        invariant ColdestFast(Snapshot(), pid, i, MAX_DEMOTION_TIER)
          == ColdestFast(Snapshot(), pid, 0, MAX_DEMOTION_TIER)
      {
        var k := FirstEligibleOn(Hot(pid, true, i));
        if k < |At(lists, Hot(pid, true, i))| { return Some(Pick(i, k)); }
        i := i + 1;
      }
      r := None;
    }

    // -------------------------------------------------------------------------
    // Migration

    /** promote_one_page and demote_one_page, as far as the manager's state goes. */
    method MigratePage(pid: Pid, p: PageId, f: Frame)
      requires p < |page| && pid in proc
      modifies this
      ensures Snapshot() == Migrate(old(Snapshot()), pid, p, f)
    {
      page := page[p := page[p].(lastMigrated := epoch)];
      log := log + [(p, epoch)];
      page := page[p := page[p].(frame := f)];
      assert page == old(page)[p := old(page)[p].(frame := f, lastMigrated := epoch)];
      proc := proc[pid := AddBytes(AddBytes(proc[pid], f.fast, PAGE_SIZE), !f.fast, -PAGE_SIZE)];
      if f.fast {
        cxl := DeleteEntry(cxl, p);
        RemovePaEntry(p);
      } else {
        AddPageToCxl(pid, p);
      }
    }

    /** The candidate's new frame is the free page's, and the free page takes the candidate's
        old one; both go on their new lists. */
    method Exchange(pid: Pid, up: bool, p: PageId, q: PageId, hot: nat)
      requires p < |page| && q < |page| && pid in proc
      modifies this
      ensures Snapshot() == Exchanged(old(Snapshot()), pid, up, p, q, hot)
    {
      var was, dest := page[p].frame, page[q].frame;
      MigratePage(pid, p, dest);
      page := page[q := page[q].(frame := was, present := false)];
      owner := owner[dest := p][was := q];
      page := page[p := WithHot(page[p], hot)];
      EnqueuePage(Hot(pid, up, hot), p);
      EnqueuePage(Free(!up), q);
    }

    method PutBack(p: PageId, id: ListId, hot: nat)
      requires p < |page|
      modifies `page, `lists
      ensures page == old(page)[p := WithHot(old(page)[p], hot)] && lists == Enqueue(old(lists), id, p)
    {
      page := page[p := WithHot(page[p], hot)];
      EnqueuePage(id, p);
    }

    /** Pairing the candidate in hand with a free page of the other tier. */
    method PairWithFree(pid: Pid, up: bool, p: PageId, hot: nat) returns (moved: bool)
      requires p < |page| && pid in proc
      requires At(lists, Free(up)) != [] ==> Oldest(Snapshot(), up) < |page|
      modifies this
      ensures Snapshot() == Paired(old(Snapshot()), pid, up, p, hot)
      ensures moved == (old(At(lists, Free(up))) != [] && (up || (pid, old(page)[p].va) in old(va)))
    {
      var r := DequeuePage(Free(up));
      if r.None? {
        PutBack(p, Hot(pid, !up, hot), hot);
        return false;
      }
      if !up && (pid, page[p].va) !in va { return false; }
      Exchange(pid, up, p, r.value, hot);
      moved := true;
    }

    /** The body of both migration loops. */
    method MigrateWith(pid: Pid, up: bool, pick: Pick, level: nat) returns (moved: bool)
      requires pid in proc && Candidate(Snapshot(), pid, up) == Some(pick) && ListsInRange(Snapshot())
      modifies this
      ensures Snapshot() == MigrateOne(old(Snapshot()), pid, up, level)
      ensures var p := Picked(old(Snapshot()), pid, up);
        p < |old(page)| && moved == (old(At(lists, Free(up))) != [] && (up || (pid, old(page)[p].va) in old(va)))
    {
      var from := Hot(pid, !up, pick.level);
      var p := At(lists, from)[pick.k];
      InRange(Snapshot(), from, pick.k);
      OtherList(lists, from, pick.k, Free(up));
      LastInRange(Snapshot(), Free(up));
      UnlinkAt(from, pick.k);
      moved := PairWithFree(pid, up, p, if up then level else page[p].hot);
    }

    method UnlinkAt(id: ListId, k: nat)
      requires k < |At(lists, id)|
      modifies `lists
      ensures lists == Unlink(old(lists), id, k)
    {
      var s := At(lists, id);
      lists := lists[id := s[..k] + s[k + 1..]];
    }

    method FindCandidate(pid: Pid, up: bool) returns (r: Option<Pick>)
      ensures r == Candidate(Snapshot(), pid, up)
    {
      if up { r := FindHottestSlow(pid); } else { r := FindColdestFast(pid); }
    }

    /** One turn; returns whether there was a candidate and whether a page moved. */
    method MigrateTurn(pid: Pid, up: bool, heat: seq<nat>) returns (found: bool, moved: bool)
      requires Ready(Snapshot(), frames, pid, heat)
      modifies this
      ensures Snapshot() == Turn(old(Snapshot()), frames, pid, up, heat)
      ensures found == old(Candidate(Snapshot(), pid, up)).Some?
      ensures moved == old(Moves(Snapshot(), pid, up))
      ensures found ==>
        Turned(old(Snapshot()), Snapshot(), pid, up, heat, old(Candidate(Snapshot(), pid, up)).value)
    {
      if Candidate(Snapshot(), pid, up).Some? { TurnEffect(Snapshot(), frames, pid, up, heat); }
      found, moved := FindAndMigrate(pid, up, heat);
    }

    method FindAndMigrate(pid: Pid, up: bool, heat: seq<nat>) returns (found: bool, moved: bool)
      requires Ready(Snapshot(), frames, pid, heat)
      modifies this
      ensures Snapshot() == Turn(old(Snapshot()), frames, pid, up, heat)
      ensures found == old(Candidate(Snapshot(), pid, up)).Some?
      ensures moved == old(Moves(Snapshot(), pid, up))
    {
      var r := FindCandidate(pid, up);
      if r.None? { return false, false; }
      found := true;
      PickedIs(Snapshot(), frames, pid, up, 0);
      var level := heat[At(lists, Hot(pid, !up, r.value.level))[r.value.k]];
      DrainedPicksAreLive(Snapshot(), frames, pid, up, level);
      moved := MigrateWith(pid, up, r.value, level);
    }

    /** What a turn means for the loop around it, which started in a given state and has moved
        some bytes since. */
    method MigrateNext(pid: Pid, up: bool, heat: seq<nat>, ghost start: State, ghost done: nat) returns (moved: bool)
      requires Ready(Snapshot(), frames, pid, heat) && SoFar(start, Snapshot(), pid, up, done)
      modifies this
      ensures Ready(Snapshot(), frames, pid, heat)
      ensures moved ==> SoFar(start, Snapshot(), pid, up, done + PAGE_SIZE)
      ensures moved ==> |At(lists, Free(up))| < |old(At(lists, Free(up)))|
      ensures !moved ==> SoFar(start, Snapshot(), pid, up, done) && Stuck(Snapshot(), pid, up)
    {
      ghost var s := Snapshot();
      var found;
      found, moved := MigrateTurn(pid, up, heat);
      if moved {
        TurnMoves(s, frames, pid, up, heat);
        SoFarStep(start, s, Snapshot(), pid, up, done);
      } else if found {
        TurnWithoutRoom(s, frames, pid, up, heat);
      }
    }

    /** process_migrate_up_bytes and process_migrate_down_bytes.  What is reported is one page
        per migration, and exactly that much moves from one counter of the process to the
        other; the loop stops within a page of its budget, and short of it only when no page
        is eligible any more or the other tier is full. */
    method MigrateBytes(pid: Pid, up: bool, bytes: nat, heat: seq<nat>) returns (migrated: nat)
      requires Ready(Snapshot(), frames, pid, heat)
      modifies this
      ensures Ready(Snapshot(), frames, pid, heat)
      ensures SoFar(old(Snapshot()), Snapshot(), pid, up, migrated)
      ensures migrated < bytes + 2097152 && migrated <= 268435456
      ensures migrated < bytes && migrated < 268435456 ==> Stuck(Snapshot(), pid, up)
    {
      migrated := 0;
      ghost var turns, start := 0, Snapshot();
      SoFarStart(Snapshot(), pid, up);
      while migrated < bytes && migrated < PEBS_MIGRATE_RATE
        invariant Ready(Snapshot(), frames, pid, heat)
        invariant SoFar(start, Snapshot(), pid, up, migrated)
        invariant migrated < bytes + PAGE_SIZE && migrated == PAGE_SIZE * turns && turns <= 128
        decreases |At(lists, Free(up))|
      {
        var moved := MigrateNext(pid, up, heat, start, migrated);
        if !moved { return; }
        migrated, turns := migrated + PAGE_SIZE, turns + 1;
      }
    }
  }

  /** How many page boundaries a loop over length bytes visits. */
  function PagesIn(length: nat): nat { (length + PAGE_SIZE - 1) / PAGE_SIZE }

  /** start & ~(HUGEPAGE_SIZE - 1) */
  function BoundaryBelow(start: nat): (first: nat)
    ensures first <= start < first + 2097152 && first % 2097152 == 0
  {
    start - start % PAGE_SIZE
  }

  /** Every page boundary a range of bytes touches. */
  function BoundariesOf(start: nat, length: nat): seq<nat> {
    Boundaries(BoundaryBelow(start), PagesIn(start + length - BoundaryBelow(start)))
  }

  /** Every 2 MiB from the start while in the range. */
  predicate EveryPage(start: nat, length: nat, a: nat) {
    start <= a < start + length && (a - start) % 2097152 == 0
  }

  /** The addresses an allocation loop visits. */
  lemma BoundariesAre(start: nat, length: nat, a: nat)
    ensures a in Boundaries(start, PagesIn(length)) <==> EveryPage(start, length, a)
  {
    var vas := Boundaries(start, PagesIn(length));
    if a in vas {
      var i :| 0 <= i < |vas| && vas[i] == a;
      Visiting(start, length, i);
    }
    if EveryPage(start, length, a) {
      var i := (a - start) / 2097152;
      BoundaryAt(start, PagesIn(length), i);
    }
  }

  /** A 2 MiB page at a that shares a byte with the range, or holds the start of an empty one. */
  predicate Touches(start: nat, length: nat, a: nat) {
    a % 2097152 == 0 && start < a + 2097152 && a < start + length
  }

  /** Exactly the page boundaries of the pages the range touches. */
  lemma BoundariesTouch(start: nat, length: nat, a: nat)
    ensures a in BoundariesOf(start, length) <==> Touches(start, length, a)
  {
    var first := BoundaryBelow(start);
    BoundariesAre(first, start + length - first, a);
  }

  lemma GainedAre(m: map<(Pid, nat), PageId>, m': map<(Pid, nat), PageId>, pid: Pid, start: nat, length: nat)
    requires Gained(m, m', pid, Boundaries(start, PagesIn(length)))
    ensures forall a: nat :: (pid, a) in m' <==> (pid, a) in m || EveryPage(start, length, a)
  {
    forall a: nat ensures (pid, a) in m' <==> (pid, a) in m || EveryPage(start, length, a) {
      BoundariesAre(start, length, a);
    }
  }

  lemma LostAre(m: map<(Pid, nat), PageId>, m': map<(Pid, nat), PageId>, pid: Pid, start: nat, length: nat)
    requires Lost(m, m', pid, BoundariesOf(start, length))
    ensures forall a: nat :: (pid, a) in m' <==> (pid, a) in m && !Touches(start, length, a)
  {
    forall a: nat ensures (pid, a) in m' <==> (pid, a) in m && !Touches(start, length, a) {
      BoundariesTouch(start, length, a);
    }
  }

  lemma BoundaryAt(start: nat, n: nat, i: nat)
    requires i < n
    ensures Boundaries(start, n)[i] == start + i * PAGE_SIZE
  {}

  /** The removal loops, one turn at a time. */
  lemma RemoveRangeStep(s: State, frames: set<Frame>, pid: Pid, vas: seq<nat>, i: nat)
    requires Inv(s, frames) && i < |vas|
    ensures RemoveRange(DeallocateStep(s, frames, pid, vas[i]), frames, pid, vas[i + 1..])
      == RemoveRange(s, frames, pid, vas[i..])
  {
    assert vas[i..][1..] == vas[i + 1..];
  }

  /** How many of the addresses are indexed. */
  ghost function IndexedIn(m: map<(Pid, nat), PageId>, pid: Pid, vas: seq<nat>): nat {
    if vas == [] then 0 else (if (pid, vas[0]) in m then 1 else 0) + IndexedIn(m, pid, vas[1..])
  }

  lemma {:induction false} SameIndexed(m: map<(Pid, nat), PageId>, m': map<(Pid, nat), PageId>, pid: Pid, vas: seq<nat>)
    requires forall a | a in vas :: (pid, a) in m <==> (pid, a) in m'
    ensures IndexedIn(m, pid, vas) == IndexedIn(m', pid, vas)
  {
    if vas != [] { SameIndexed(m, m', pid, vas[1..]); }
  }

  /** Removing the page at an address takes no other address out of the index. */
  lemma OnlyThatAddress(s: State, frames: set<Frame>, pid: Pid, a: nat, b: nat)
    requires Inv(s, frames) && a != b
    ensures (pid, b) in DeallocateStep(s, frames, pid, a).va <==> (pid, b) in s.va
  {
    LostOne(s, frames, pid, a);
  }

  /** The count, one turn at a time. */
  lemma IndexedStep(s: State, frames: set<Frame>, pid: Pid, vas: seq<nat>, i: nat)
    requires Inv(s, frames) && i < |vas| && forall j, k | 0 <= j < k < |vas| :: vas[j] != vas[k]
    ensures IndexedIn(s.va, pid, vas[i..])
         == (if (pid, vas[i]) in s.va then 1 else 0)
           + IndexedIn(DeallocateStep(s, frames, pid, vas[i]).va, pid, vas[i + 1..])
  {
    var m' := DeallocateStep(s, frames, pid, vas[i]).va;
    forall a | a in vas[i + 1..] ensures (pid, a) in s.va <==> (pid, a) in m' {
      OnlyThatAddress(s, frames, pid, vas[i], a);
    }
    SameIndexed(s.va, m', pid, vas[i + 1..]);
    assert vas[i..][1..] == vas[i + 1..];
  }

  /** Where a loop over page boundaries is after i turns. */
  ghost predicate Visit(first: nat, length: nat, i: nat, boundary: nat, vas: seq<nat>) {
    && i <= |vas| == PagesIn(length) && boundary == first + i * PAGE_SIZE
    && (boundary < first + length <==> i < |vas|)
    && (i < |vas| ==> vas[i] == boundary)
  }

  /** A boundary is inside the range exactly while there are boundaries left to visit. */
  lemma Visiting(first: nat, length: nat, i: nat)
    requires i <= PagesIn(length)
    ensures Visit(first, length, i, first + i * PAGE_SIZE, Boundaries(first, PagesIn(length)))
  {}

  lemma BoundariesPrefix(start: nat, n: nat, i: nat)
    requires i <= n
    ensures Boundaries(start, n)[..i] == Boundaries(start, i)
  {}

  /** The allocation loop, one turn at a time. */
  lemma AllocateRangeStep(s: State, frames: set<Frame>, pid: Pid, vas: seq<nat>, i: nat, pref: Preference)
    requires Inv(s, frames) && pid in s.proc && i < |vas| && Clear(s.va, pid, vas[i..])
    ensures (pid, vas[i]) !in s.va
    ensures var r := AllocateRange(s, frames, pid, vas[i..], pref);
      var s1 := AllocateStep(s, frames, pid, vas[i], pref);
      if ChooseTier(s, pid, pref).None? then s1 == s && r == Allocation(s, 0)
      else
        && pid in s1.proc && Clear(s1.va, pid, vas[i + 1..])
        && AllocateRange(s1, frames, pid, vas[i + 1..], pref).state == r.state
        && AllocateRange(s1, frames, pid, vas[i + 1..], pref).pages + 1 == r.pages
  {
    assert vas[i..][1..] == vas[i + 1..] && vas[i..][0] == vas[i];
    if ChooseTier(s, pid, pref).Some? {
      assert AllocateHere(s, frames, pid, vas[i..], pref) == AllocateStep(s, frames, pid, vas[i], pref);
    }
  }

  /** The allocation loop has i pages behind it and will end as r says. */
  ghost predicate GoingTo(s: State, frames: set<Frame>, pid: Pid, vas: seq<nat>, i: nat, pref: Preference,
    r: Allocation) {
    && Inv(s, frames) && pid in s.proc && i <= |vas| && i <= r.pages && Clear(s.va, pid, vas[i..])
    && AllocateRange(s, frames, pid, vas[i..], pref) == Allocation(r.state, r.pages - i)
  }

  /** GoingTo, folded. */
  ghost predicate Going(s: State, frames: set<Frame>, pid: Pid, vas: seq<nat>, i: nat, pref: Preference, r: Allocation,
                        depth: nat := 3) {
    if depth == 0 then GoingTo(s, frames, pid, vas, i, pref, r) else Going(s, frames, pid, vas, i, pref, r, depth - 1)
  }

  lemma UnfoldGoing(s: State, frames: set<Frame>, pid: Pid, vas: seq<nat>, i: nat, pref: Preference, r: Allocation)
    ensures Going(s, frames, pid, vas, i, pref, r) <==> GoingTo(s, frames, pid, vas, i, pref, r)
  {
    assert Going(s, frames, pid, vas, i, pref, r, 3) == Going(s, frames, pid, vas, i, pref, r, 2);
    assert Going(s, frames, pid, vas, i, pref, r, 1) == Going(s, frames, pid, vas, i, pref, r, 0);
  }

  lemma GoingStarts(s: State, frames: set<Frame>, pid: Pid, vas: seq<nat>, pref: Preference)
    requires Inv(s, frames) && pid in s.proc && Clear(s.va, pid, vas)
    ensures Going(s, frames, pid, vas, 0, pref, AllocateRange(s, frames, pid, vas, pref))
  {
    assert vas[0..] == vas;
    UnfoldGoing(s, frames, pid, vas, 0, pref, AllocateRange(s, frames, pid, vas, pref));
  }

  /** One turn: either memory has run out and this is the end, or the loop goes on. */
  lemma GoingOn(s: State, frames: set<Frame>, pid: Pid, vas: seq<nat>, i: nat, pref: Preference, r: Allocation)
    requires Going(s, frames, pid, vas, i, pref, r) && i < |vas|
    ensures Inv(s, frames) && pid in s.proc && (pid, vas[i]) !in s.va
    ensures var s1 := AllocateStep(s, frames, pid, vas[i], pref);
      if ChooseTier(s, pid, pref).None? then s1 == s && r == Allocation(s, i)
      else Going(s1, frames, pid, vas, i + 1, pref, r)
  {
    UnfoldGoing(s, frames, pid, vas, i, pref, r);
    AllocateRangeStep(s, frames, pid, vas, i, pref);
    if ChooseTier(s, pid, pref).Some? {
      UnfoldGoing(AllocateStep(s, frames, pid, vas[i], pref), frames, pid, vas, i + 1, pref, r);
    }
  }

  lemma GoingEnds(s: State, frames: set<Frame>, pid: Pid, vas: seq<nat>, i: nat, pref: Preference, r: Allocation)
    requires Going(s, frames, pid, vas, i, pref, r) && i == |vas|
    ensures Inv(s, frames) && r == Allocation(s, i)
  {
    UnfoldGoing(s, frames, pid, vas, i, pref, r);
    assert vas[i..] == [];
  }

  function FreeLists(fast: seq<PageId>, slow: seq<PageId>): map<ListId, seq<PageId>> {
    map[Free(true) := fast, Free(false) := slow]
  }

  lemma FreeListsGrow(fast: seq<PageId>, slow: seq<PageId>, p: PageId)
    ensures Enqueue(FreeLists(fast, slow), Free(true), p) == FreeLists([p] + fast, slow)
    ensures Enqueue(FreeLists(fast, slow), Free(false), p) == FreeLists(fast, [p] + slow)
  {}

  lemma FreshPagesGrow(fast: bool, n: nat)
    ensures FreshPages(fast, n + 1) == FreshPages(fast, n) + [FreshPage(Frame(fast, n * PAGE_SIZE))]
  {}

  ghost predicate Claimed(s: State, s': State, pid: Pid, fast: bool) {
    && pid in s.proc && At(s.lists, Free(fast)) != [] && Oldest(s, fast) < |s.page|
    && var p := Oldest(s, fast);
      s' == s.(lists := Unlink(s.lists, Free(fast), |At(s.lists, Free(fast))| - 1),
               page := s.page[p := s.page[p].(present := true, pid := pid)],
               proc := s.proc[pid := AddBytes(s.proc[pid], fast, PAGE_SIZE)])
  }

  ghost function AddedPage(s: State, pid: Pid, p: PageId): State
    requires p < |s.page|
  {
    var g := s.page[p];
    var s1 := s.(va := if (pid, g.va) in s.va then s.va else s.va[(pid, g.va) := p]);
    if g.frame.fast then s1 else AddSlow(s1, pid, p)
  }

  ghost function PagePlaced(s: State, pid: Pid, p: PageId, va: nat): State
    requires p < |s.page|
  {
    var s1 := AddedPage(s.(page := s.page[p := s.page[p].(va := va)]), pid, p);
    s1.(lists := Enqueue(s1.lists, Hot(pid, s.page[p].frame.fast, Hotness.COLD), p))
  }

  /** Claiming and placing add up to TakePage. */
  lemma TakeInSteps(s: State, s1: State, pid: Pid, va: nat, fast: bool)
    requires Claimed(s, s1, pid, fast) && s.page[Oldest(s, fast)].frame.fast == fast
    ensures PagePlaced(s1, pid, Oldest(s, fast), va) == TakePage(s, pid, va, fast)
  {
    var p := Oldest(s, fast);
    var g := s.page[p].(present := true, pid := pid, va := va);
    assert s.page[p := s.page[p].(present := true, pid := pid)][p := g] == s.page[p := g];
  }
}
