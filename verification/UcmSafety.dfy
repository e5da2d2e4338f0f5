/** Every operation keeps the invariant, so it holds in every reachable state. */
module UcmSafety {
  import Hotness
  import opened UcmState
  import opened UcmInvariant

  lemma HasRing(s: State, frames: set<Frame>, pid: Pid)
    requires Inv(s, frames)
    ensures pid in s.ring <==> pid in s.proc
  {
    UnfoldInv(s, frames);
  }

  // ---------------------------------------------------------------------------
  // Allocation

  lemma SameFrame(page: seq<Page>, owner: map<Frame, PageId>, p: PageId, q: PageId)
    requires IndexInv(page, owner, FrameKey) && p < |page| && q < |page| && page[p].frame == page[q].frame
    ensures p == q
  {
    assert FrameKey(page[p]) == FrameKey(page[q]) == Some(page[p].frame);
  }

  lemma NotInCxl(page: seq<Page>, owner: map<Frame, PageId>, cxl: map<(Pid, nat), PageId>, p: PageId, pid: Pid)
    requires IndexInv(page, owner, FrameKey) && IndexInv(page, cxl, CxlKey)
    requires p < |page| && !page[p].frame.fast && !Tracked(page[p])
    ensures (pid, page[p].frame.offset) !in cxl
  {
    var k := (pid, page[p].frame.offset);
    if k in cxl {
      assert CxlKey(page[cxl[k]]) == Some(k);
      SameFrame(page, owner, p, cxl[k]);
    }
  }

  lemma NotInPa(page: seq<Page>, owner: map<Frame, PageId>, pa: map<nat, PageId>, p: PageId)
    requires IndexInv(page, owner, FrameKey) && IndexInv(page, pa, PaKey)
    requires p < |page| && !page[p].frame.fast && !Tracked(page[p])
    ensures page[p].frame.offset !in pa
  {
    var k := page[p].frame.offset;
    if k in pa {
      assert PaKey(page[pa[k]]) == Some(k);
      SameFrame(page, owner, p, pa[k]);
    }
  }

  /** The offset of a slow frame that no tracked page has is in neither offset index, so
      adding it there finds no earlier entry. */
  lemma OffsetUnused(s: State, frames: set<Frame>, p: PageId, pid: Pid)
    requires Inv(s, frames) && p < |s.page| && !s.page[p].frame.fast && !Tracked(s.page[p])
    ensures (pid, s.page[p].frame.offset) !in s.cxl && s.page[p].frame.offset !in s.pa
  {
    UnfoldInv(s, frames);
    NotInCxl(s.page, s.owner, s.cxl, p, pid);
    NotInPa(s.page, s.owner, s.pa, p);
  }

  function Taken(g: Page, pid: Pid, va: nat): Page {
    g.(present := true, pid := pid, va := va, entry := if g.frame.fast then None else Some(pid))
  }

  ghost predicate CanTake(s: State, frames: set<Frame>, pid: Pid, va: nat, fast: bool) {
    && Inv(s, frames) && pid in s.proc && (pid, va) !in s.va
    && At(s.lists, Free(fast)) != []
  }

  ghost function Oldest(s: State, fast: bool): PageId
    requires At(s.lists, Free(fast)) != []
  {
    var free := At(s.lists, Free(fast));
    free[|free| - 1]
  }

  lemma OldestIsFree(s: State, frames: set<Frame>, fast: bool)
    requires Inv(s, frames) && At(s.lists, Free(fast)) != []
    ensures var p := Oldest(s, fast);
      p < |s.page| && !s.page[p].present && s.page[p].frame.fast == fast && PageOk(s.page[p], s.proc.Keys)
  {
    UnfoldInv(s, frames);
    ListEntry(s.page, s.lists, Free(fast), |At(s.lists, Free(fast))| - 1);
  }

  lemma TakeEffect(s: State, frames: set<Frame>, pid: Pid, va: nat, fast: bool)
    requires CanTake(s, frames, pid, va, fast)
    ensures Oldest(s, fast) < |s.page|
    ensures var p := Oldest(s, fast); var g := s.page[p]; var offset := g.frame.offset;
      var s' := TakePage(s, pid, va, fast);
      && s'.page == s.page[p := Taken(g, pid, va)]
      && s'.lists
        == Enqueue(Unlink(s.lists, Free(fast), |At(s.lists, Free(fast))| - 1), Hot(pid, fast, Hotness.COLD), p)
      && s'.va == s.va[(pid, va) := p]
      && s'.cxl == (if fast then s.cxl else s.cxl[(pid, offset) := p])
      && s'.pa == (if fast then s.pa else s.pa[offset := p])
      && s'.proc == s.proc[pid := AddBytes(s.proc[pid], fast, PAGE_SIZE)]
      && s' == s.(page := s'.page, lists := s'.lists, va := s'.va, cxl := s'.cxl, pa := s'.pa, proc := s'.proc)
  {
    OldestIsFree(s, frames, fast);
    var p := Oldest(s, fast);
    if !fast { OffsetUnused(s, frames, p, pid); }
    TakeIs(s, pid, va, fast);
  }

  /** TakePage, field by field, when neither the address nor the offset is indexed yet. */
  lemma TakeIs(s: State, pid: Pid, va: nat, fast: bool)
    requires pid in s.proc && (pid, va) !in s.va && At(s.lists, Free(fast)) != [] && Oldest(s, fast) < |s.page|
    requires !fast ==> (pid, s.page[Oldest(s, fast)].frame.offset) !in s.cxl
    requires var g := s.page[Oldest(s, fast)]; g.frame.fast == fast && (fast ==> g.entry == None)
    ensures var p := Oldest(s, fast); var g := s.page[p]; var offset := g.frame.offset;
      var s' := TakePage(s, pid, va, fast);
      && s'.page == s.page[p := Taken(g, pid, va)]
      && s'.lists
        == Enqueue(Unlink(s.lists, Free(fast), |At(s.lists, Free(fast))| - 1), Hot(pid, fast, Hotness.COLD), p)
      && s'.va == s.va[(pid, va) := p]
      && s'.cxl == (if fast then s.cxl else s.cxl[(pid, offset) := p])
      && s'.pa == (if fast then s.pa else s.pa[offset := p])
      && s'.proc == s.proc[pid := AddBytes(s.proc[pid], fast, PAGE_SIZE)]
      && s' == s.(page := s'.page, lists := s'.lists, va := s'.va, cxl := s'.cxl, pa := s'.pa, proc := s'.proc)
  {}

  lemma TakeKeepsLists(s: State, frames: set<Frame>, pid: Pid, va: nat, fast: bool)
    requires CanTake(s, frames, pid, va, fast)
    ensures Oldest(s, fast) < |s.page|
    ensures var s' := TakePage(s, pid, va, fast); ListInv(s'.page, s'.lists, {})
  {
    UnfoldInv(s, frames);
    TakeEffect(s, frames, pid, va, fast);
    OldestIsFree(s, frames, fast);
    var p := Oldest(s, fast);
    var g := Taken(s.page[p], pid, va);
    var k := |At(s.lists, Free(fast))| - 1;
    UnlinkOk(s.page, s.lists, {}, Free(fast), k);
    var l := Unlink(s.lists, Free(fast), k);
    assert {} + {p} == {p};
    HandChange(s.page, l, {p}, p, g);
    EnqueueOk(s.page[p := g], l, {p}, p);
    assert {p} - {p} == {};
  }

  lemma TakeKeepsIndexes(s: State, frames: set<Frame>, pid: Pid, va: nat, fast: bool)
    requires CanTake(s, frames, pid, va, fast)
    ensures Oldest(s, fast) < |s.page|
    ensures IndexesInv(TakePage(s, pid, va, fast))
  {
    UnfoldInv(s, frames);
    TakeEffect(s, frames, pid, va, fast);
    OldestIsFree(s, frames, fast);
    var p := Oldest(s, fast);
    var g := Taken(s.page[p], pid, va);
    IndexKeep(s.page, s.owner, FrameKey, p, g);
    IndexAdd(s.page, s.va, VaKey, p, g, (pid, va));
    if fast {
      IndexKeep(s.page, s.cxl, CxlKey, p, g);
      IndexKeep(s.page, s.pa, PaKey, p, g);
    } else {
      OffsetUnused(s, frames, p, pid);
      IndexAdd(s.page, s.cxl, CxlKey, p, g, (pid, g.frame.offset));
      IndexAdd(s.page, s.pa, PaKey, p, g, g.frame.offset);
    }
  }

  lemma TakeKeepsRest(s: State, frames: set<Frame>, pid: Pid, va: nat, fast: bool)
    requires CanTake(s, frames, pid, va, fast)
    ensures Oldest(s, fast) < |s.page|
    ensures RestInv(TakePage(s, pid, va, fast))
  {
    UnfoldInv(s, frames);
    TakeEffect(s, frames, pid, va, fast);
    OldestIsFree(s, frames, fast);
    var p := Oldest(s, fast);
    var g := Taken(s.page[p], pid, va);
    var r := AddBytes(s.proc[pid], fast, PAGE_SIZE);
    FieldKeep(s.page, s.proc.Keys, p, g);
    BytesStep(s.page, s.proc, p, g, pid, r);
    RingKeep(s.page, s.ring, p, g);
    LogKeep(s.page, s.log, s.epoch, p, g);
    assert s.proc[pid := r].Keys == s.proc.Keys;
  }

  lemma TakeKeeps(s: State, frames: set<Frame>, pid: Pid, va: nat, fast: bool)
    requires CanTake(s, frames, pid, va, fast)
    ensures Oldest(s, fast) < |s.page|
    ensures Inv(TakePage(s, pid, va, fast), frames)
  {
    UnfoldInv(s, frames);
    TakeEffect(s, frames, pid, va, fast);
    TakeKeepsLists(s, frames, pid, va, fast);
    TakeKeepsIndexes(s, frames, pid, va, fast);
    TakeKeepsRest(s, frames, pid, va, fast);
    UnfoldInv(TakePage(s, pid, va, fast), frames);
  }

  // ---------------------------------------------------------------------------
  // Freeing

  ghost predicate CanRemove(s: State, frames: set<Frame>, pid: Pid, p: PageId) {
    Inv(s, frames) && p < |s.page| && Live(s.page[p]) && s.page[p].pid == pid
  }

  function Removed(g: Page): Page { g.(inFreeRing := true, entry := None) }

  lemma RemoveReady(s: State, frames: set<Frame>, pid: Pid, p: PageId)
    requires CanRemove(s, frames, pid, p)
    ensures pid in s.ring && PageOk(s.page[p], s.proc.Keys)
    ensures s.page[p].frame.fast ==> DeleteEntry(s.cxl, p) == s.cxl && DeleteEntry(s.pa, p) == s.pa
  {
    UnfoldInv(s, frames);
    assert PageOk(s.page[p], s.proc.Keys);
    if s.page[p].frame.fast {
      DeleteMissing(s.page, s.cxl, CxlKey, p);
      DeleteMissing(s.page, s.pa, PaKey, p);
    }
  }

  lemma RemoveEffect(s: State, pid: Pid, p: PageId)
    requires p < |s.page| && pid in s.ring && Live(s.page[p]) && PageOk(s.page[p], s.proc.Keys)
    requires s.page[p].frame.fast ==> DeleteEntry(s.cxl, p) == s.cxl && DeleteEntry(s.pa, p) == s.pa
    ensures var s' := RemovePage(s, pid, p);
      && s'.page == s.page[p := Removed(s.page[p])]
      && s'.va == DeleteEntry(s.va, p) && s'.cxl == DeleteEntry(s.cxl, p) && s'.pa == DeleteEntry(s.pa, p)
      && s'.ring == s.ring[pid := s.ring[pid] + [p]]
      && s' == s.(page := s'.page, va := s'.va, cxl := s'.cxl, pa := s'.pa, ring := s'.ring)
  {}

  lemma RemoveKeepsIndexes(s: State, frames: set<Frame>, pid: Pid, p: PageId)
    requires CanRemove(s, frames, pid, p)
    ensures pid in s.ring
    ensures IndexesInv(RemovePage(s, pid, p))
  {
    UnfoldInv(s, frames);
    RemoveReady(s, frames, pid, p);
    RemoveEffect(s, pid, p);
    var g := Removed(s.page[p]);
    IndexKeep(s.page, s.owner, FrameKey, p, g);
    IndexDrop(s.page, s.va, VaKey, p, g);
    IndexDrop(s.page, s.cxl, CxlKey, p, g);
    IndexDrop(s.page, s.pa, PaKey, p, g);
  }

  lemma RemoveKeepsRest(s: State, frames: set<Frame>, pid: Pid, p: PageId)
    requires CanRemove(s, frames, pid, p)
    ensures pid in s.ring
    ensures RestInv(RemovePage(s, pid, p))
  {
    UnfoldInv(s, frames);
    RemoveReady(s, frames, pid, p);
    RemoveEffect(s, pid, p);
    var g := Removed(s.page[p]);
    FieldKeep(s.page, s.proc.Keys, p, g);
    BytesKeep(s.page, s.proc, p, g);
    RingPut(s.page, s.ring, p, g);
    LogKeep(s.page, s.log, s.epoch, p, g);
    SameRings(s.ring, s.proc, pid, s.ring[pid] + [p]);
  }

  lemma SameRings(ring: map<Pid, seq<PageId>>, proc: map<Pid, Proc>, pid: Pid, queue: seq<PageId>)
    requires RingEach(ring, proc) && pid in ring
    ensures RingEach(ring[pid := queue], proc)
  {}

  lemma RemoveKeeps(s: State, frames: set<Frame>, pid: Pid, p: PageId)
    requires CanRemove(s, frames, pid, p)
    ensures pid in s.ring
    ensures Inv(RemovePage(s, pid, p), frames)
  {
    UnfoldInv(s, frames);
    RemoveReady(s, frames, pid, p);
    RemoveEffect(s, pid, p);
    RemoveKeepsIndexes(s, frames, pid, p);
    RemoveKeepsRest(s, frames, pid, p);
    HandChange(s.page, s.lists, {}, p, Removed(s.page[p]));
    UnfoldInv(RemovePage(s, pid, p), frames);
  }

  ghost predicate CanDrain(s: State, frames: set<Frame>, pid: Pid) {
    Inv(s, frames) && pid in s.ring && s.ring[pid] != []
  }

  /** The assertions of handle_free_page_ring: the page belongs to the process and is on the
      list its tier and hotness say. */
  lemma DrainReady(s: State, frames: set<Frame>, pid: Pid)
    requires CanDrain(s, frames, pid)
    ensures pid in s.proc
    ensures var p := s.ring[pid][0];
      && p < |s.page| && s.page[p].inFreeRing && s.page[p].present && s.page[p].pid == pid
      && Home(s.page[p]) == Hot(pid, s.page[p].frame.fast, s.page[p].hot)
      && p in At(s.lists, Home(s.page[p]))
  {
    UnfoldInv(s, frames);
    RingHead(s.page, s.ring, pid);
    var p := s.ring[pid][0];
    assert PageOk(s.page[p], s.proc.Keys);
    OnItsList(s.page, s.lists, p);
  }

  lemma DrainKeepsLists(s: State, frames: set<Frame>, pid: Pid)
    requires CanDrain(s, frames, pid)
    ensures (DrainReady(s, frames, pid); var s' := DrainOne(s, pid); ListInv(s'.page, s'.lists, {}))
  {
    UnfoldInv(s, frames);
    DrainReady(s, frames, pid);
    var p := s.ring[pid][0];
    var g := s.page[p];
    var k := IndexOf(At(s.lists, Home(g)), p);
    UnlinkOk(s.page, s.lists, {}, Home(g), k);
    var l := Unlink(s.lists, Home(g), k);
    assert {} + {p} == {p};
    HandChange(s.page, l, {p}, p, Freed(g));
    EnqueueOk(s.page[p := Freed(g)], l, {p}, p);
    assert {p} - {p} == {};
  }

  lemma DrainKeeps(s: State, frames: set<Frame>, pid: Pid)
    requires CanDrain(s, frames, pid)
    ensures (DrainReady(s, frames, pid); Inv(DrainOne(s, pid), frames))
  {
    UnfoldInv(s, frames);
    DrainReady(s, frames, pid);
    DrainKeepsLists(s, frames, pid);
    var p := s.ring[pid][0];
    var g := s.page[p];
    assert PageOk(g, s.proc.Keys);
    IndexKeep(s.page, s.owner, FrameKey, p, Freed(g));
    IndexKeep(s.page, s.va, VaKey, p, Freed(g));
    IndexKeep(s.page, s.cxl, CxlKey, p, Freed(g));
    IndexKeep(s.page, s.pa, PaKey, p, Freed(g));
    DrainKeepsRest(s, frames, pid);
    UnfoldInv(DrainOne(s, pid), frames);
  }

  lemma DrainKeepsRest(s: State, frames: set<Frame>, pid: Pid)
    requires CanDrain(s, frames, pid)
    ensures (DrainReady(s, frames, pid); RestInv(DrainOne(s, pid)))
  {
    UnfoldInv(s, frames);
    DrainReady(s, frames, pid);
    var p := s.ring[pid][0];
    var g := s.page[p];
    assert PageOk(g, s.proc.Keys);
    var r := AddBytes(s.proc[pid], g.frame.fast, -PAGE_SIZE);
    FieldKeep(s.page, s.proc.Keys, p, Freed(g));
    BytesStep(s.page, s.proc, p, Freed(g), pid, r);
    RingGet(s.page, s.ring, pid, Freed(g));
    LogKeep(s.page, s.log, s.epoch, p, Freed(g));
    assert s.proc[pid := r].Keys == s.proc.Keys && s.ring[pid := s.ring[pid][1..]].Keys == s.ring.Keys;
  }

  // ---------------------------------------------------------------------------
  // Telemetry

  lemma RehotKeeps(s: State, frames: set<Frame>, p: PageId, level: nat)
    requires Inv(s, frames) && p < |s.page| && s.page[p].present && level < LEVELS
    ensures p in At(s.lists, Home(s.page[p]))
    ensures Inv(Rehot(s, p, level), frames)
  {
    OnHomeList(s, frames, p);
    if s.page[p].hot != level { RehotMoves(s, frames, p, level); }
  }

  lemma OnHomeList(s: State, frames: set<Frame>, p: PageId)
    requires Inv(s, frames) && p < |s.page|
    ensures p in At(s.lists, Home(s.page[p]))
  {
    UnfoldInv(s, frames);
    OnItsList(s.page, s.lists, p);
  }

  lemma RehotMoves(s: State, frames: set<Frame>, p: PageId, level: nat)
    requires Inv(s, frames) && p < |s.page| && s.page[p].present && s.page[p].hot != level && level < LEVELS
    requires p in At(s.lists, Home(s.page[p]))
    ensures Inv(Rehot(s, p, level), frames)
  {
    FieldsOk(s, frames, p);
    RehotKeepsLists(s, frames, p, level);
    FieldChangeKeeps(s, frames, p, WithHot(s.page[p], level));
    KeepsFrames(s, frames);
    UnfoldInv(Rehot(s, p, level), frames);
  }

  lemma KeepsFrames(s: State, frames: set<Frame>)
    requires Inv(s, frames)
    ensures s.owner.Keys == frames
  {
    UnfoldInv(s, frames);
  }

  lemma RehotKeepsLists(s: State, frames: set<Frame>, p: PageId, level: nat)
    requires Inv(s, frames) && p < |s.page| && s.page[p].present && s.page[p].hot != level
    requires p in At(s.lists, Home(s.page[p]))
    ensures var s' := Rehot(s, p, level); ListInv(s'.page, s'.lists, {})
  {
    UnfoldInv(s, frames);
    var g := s.page[p];
    var g1 := WithHot(g, level);
    var k := IndexOf(At(s.lists, Home(g)), p);
    UnlinkOk(s.page, s.lists, {}, Home(g), k);
    var l := Unlink(s.lists, Home(g), k);
    assert {} + {p} == {p};
    HandChange(s.page, l, {p}, p, g1);
    EnqueueOk(s.page[p := g1], l, {p}, p);
    assert {p} - {p} == {};
  }

  /** Hotness and sample counts appear in no index, counter or ring. */
  lemma FieldChangeKeeps(s: State, frames: set<Frame>, p: PageId, g: Page)
    requires Inv(s, frames) && p < |s.page| && PageOk(g, s.proc.Keys)
    requires g == s.page[p].(hot := g.hot, samples := g.samples)
    ensures var s' := s.(page := s.page[p := g]); IndexesInv(s') && RestInv(s')
  {
    UnfoldInv(s, frames);
    IndexKeep(s.page, s.owner, FrameKey, p, g);
    IndexKeep(s.page, s.va, VaKey, p, g);
    IndexKeep(s.page, s.cxl, CxlKey, p, g);
    IndexKeep(s.page, s.pa, PaKey, p, g);
    FieldKeep(s.page, s.proc.Keys, p, g);
    BytesKeep(s.page, s.proc, p, g);
    RingKeep(s.page, s.ring, p, g);
    LogKeep(s.page, s.log, s.epoch, p, g);
  }

  lemma FieldsOk(s: State, frames: set<Frame>, p: PageId)
    requires Inv(s, frames) && p < |s.page|
    ensures PageOk(s.page[p], s.proc.Keys)
  {
    UnfoldInv(s, frames);
  }

  lemma SampleLists(s: State, p: PageId)
    requires p < |s.page| && ListInv(s.page, s.lists, {})
    ensures ListInv(Sample(s, p).page, Sample(s, p).lists, {})
  {
    HandChange(s.page, s.lists, {}, p, Sampled(s.page[p]));
  }

  lemma SampleKeeps(s: State, frames: set<Frame>, p: PageId)
    requires Inv(s, frames) && p < |s.page| && s.page[p].present
    ensures Inv(Sample(s, p), frames)
  {
    UnfoldInv(s, frames);
    FieldsOk(s, frames, p);
    var g := Sampled(s.page[p]);
    FieldChangeKeeps(s, frames, p, g);
    SampleLists(s, p);
    UnfoldInv(Sample(s, p), frames);
  }

  // ---------------------------------------------------------------------------
  // Processes and epochs

  lemma {:induction false} NothingOwned(page: seq<Page>, pid: Pid, fast: bool)
    requires forall p | 0 <= p < |page| :: page[p].pid != pid
    ensures Count(page, pid, fast) == 0
  {
    if page != [] { NothingOwned(page[..|page| - 1], pid, fast); }
  }

  lemma NewRing(page: seq<Page>, ring: map<Pid, seq<PageId>>, pid: Pid)
    requires RingInv(page, ring) && forall p | 0 <= p < |page| :: page[p].pid != pid
    ensures RingInv(page, ring[pid := []])
  {
    var ring' := ring[pid := []];
    forall i, p: PageId | i in ring' ensures multiset(ring'[i])[p] == Waiting(page, i, p) {
      if i != pid { assert multiset(ring[i])[p] == Waiting(page, i, p); }
    }
  }

  lemma NewCounters(page: seq<Page>, proc: map<Pid, Proc>, pid: Pid, maxFast: nat)
    requires BytesInv(page, proc) && forall p | 0 <= p < |page| :: page[p].pid != pid
    ensures BytesInv(page, proc[pid := Proc(0, 0, maxFast)])
  {
    NothingOwned(page, pid, true);
    NothingOwned(page, pid, false);
  }

  lemma NewPid(page: seq<Page>, pids: set<Pid>, pid: Pid)
    requires FieldInv(page, pids) && pid >= 0 && pid !in pids
    ensures FieldInv(page, pids + {pid}) && forall p | 0 <= p < |page| :: page[p].pid != pid
  {
    forall p | 0 <= p < |page| ensures page[p].pid != pid && PageOk(page[p], pids + {pid}) {
      assert PageOk(page[p], pids);
    }
  }

  lemma AddProcessKeeps(s: State, frames: set<Frame>, pid: Pid, maxFast: nat)
    requires Inv(s, frames) && pid >= 0 && pid !in s.proc
    ensures Inv(AddProcess(s, pid, maxFast), frames)
  {
    UnfoldInv(s, frames);
    var s' := AddProcess(s, pid, maxFast);
    NewPid(s.page, s.proc.Keys, pid);
    assert s'.proc.Keys == s.proc.Keys + {pid};
    NewRing(s.page, s.ring, pid);
    NewCounters(s.page, s.proc, pid, maxFast);
    UnfoldInv(AddProcess(s, pid, maxFast), frames);
  }

  function NextEpoch(s: State): State { s.(epoch := s.epoch + 1) }

  lemma NextEpochKeeps(s: State, frames: set<Frame>)
    requires Inv(s, frames)
    ensures Inv(NextEpoch(s), frames)
  {
    UnfoldInv(s, frames);
    UnfoldInv(NextEpoch(s), frames);
  }
}
