/** Promotion and demotion: which page is picked, what the swap of frames keeps, and when the
    lookups in the migration loops can fail. */
module UcmMigration {
  import opened UcmState
  import opened UcmInvariant
  import opened UcmSafety

  // ---------------------------------------------------------------------------
  // The candidate finders

  ghost predicate EligibleAt(s: State, id: ListId, k: nat) {
    k < |At(s.lists, id)| && At(s.lists, id)[k] < |s.page| && Eligible(s.page[At(s.lists, id)[k]], s.epoch)
  }

  lemma {:induction false} FirstEligibleIsFirst(page: seq<Page>, list: seq<PageId>, epoch: nat)
    ensures var k := FirstEligible(page, list, epoch);
      && (k < |list| ==> list[k] < |page| && Eligible(page[list[k]], epoch))
      && (forall j | 0 <= j < k :: !(list[j] < |page| && Eligible(page[list[j]], epoch)))
  {
    if list != [] && !(list[0] < |page| && Eligible(page[list[0]], epoch)) {
      FirstEligibleIsFirst(page, list[1..], epoch);
      var k := FirstEligible(page, list, epoch);
      forall j | 0 <= j < k ensures !(list[j] < |page| && Eligible(page[list[j]], epoch)) {
        if j > 0 { assert list[j] == list[1..][j - 1]; }
      }
    }
  }

  /** The pick for promotion: eligible, no eligible page on a hotter slow list, none nearer the
      front of its own; there is none only if no slow page is eligible. */
  lemma {:induction false} HottestSlowIsHottest(s: State, pid: Pid, level: nat)
    ensures var r := HottestSlow(s, pid, level);
      && (r.None? ==> forall l: nat, j: nat | l < level :: !EligibleAt(s, Hot(pid, false, l), j))
      && (r.Some? ==>
            && r.value.level < level
            && EligibleAt(s, Hot(pid, false, r.value.level), r.value.k)
            && (forall l: nat, j: nat | r.value.level < l < level :: !EligibleAt(s, Hot(pid, false, l), j))
            && (forall j: nat | j < r.value.k :: !EligibleAt(s, Hot(pid, false, r.value.level), j)))
  {
    if level > 0 {
      FirstEligibleIsFirst(s.page, At(s.lists, Hot(pid, false, level - 1)), s.epoch);
      HottestSlowIsHottest(s, pid, level - 1);
    }
  }

  /** The pick for demotion: the coldest eligible level below the limit. */
  lemma {:induction false} ColdestFastIsColdest(s: State, pid: Pid, level: nat, limit: nat)
    requires level <= limit
    ensures var r := ColdestFast(s, pid, level, limit);
      && (r.None? ==> forall l: nat, j: nat | level <= l < limit :: !EligibleAt(s, Hot(pid, true, l), j))
      && (r.Some? ==>
            && level <= r.value.level < limit
            && EligibleAt(s, Hot(pid, true, r.value.level), r.value.k)
            && (forall l: nat, j: nat | level <= l < r.value.level :: !EligibleAt(s, Hot(pid, true, l), j))
            && (forall j: nat | j < r.value.k :: !EligibleAt(s, Hot(pid, true, r.value.level), j)))
    decreases limit - level
  {
    if level < limit {
      FirstEligibleIsFirst(s.page, At(s.lists, Hot(pid, true, level)), s.epoch);
      ColdestFastIsColdest(s, pid, level + 1, limit);
    }
  }

  /** The picked page. */
  ghost function Picked(s: State, pid: Pid, up: bool): PageId
    requires Candidate(s, pid, up).Some?
  {
    var pick := Candidate(s, pid, up).value;
    At(s.lists, Hot(pid, !up, pick.level))[pick.k]
  }

  ghost predicate CanMigrate(s: State, frames: set<Frame>, pid: Pid, up: bool, level: nat) {
    Inv(s, frames) && pid in s.proc && level < LEVELS && Candidate(s, pid, up).Some?
  }

  lemma PickedIs(s: State, frames: set<Frame>, pid: Pid, up: bool, level: nat)
    requires CanMigrate(s, frames, pid, up, level)
    ensures ListsInRange(s)
    ensures var p := Picked(s, pid, up);
      && p < |s.page| && s.page[p].present && s.page[p].pid == pid && s.page[p].frame.fast == !up
      && s.page[p].hot == Candidate(s, pid, up).value.level && Eligible(s.page[p], s.epoch)
      && PageOk(s.page[p], s.proc.Keys)
  {
    UnfoldInv(s, frames);
    AllInRange(s);
    if up { HottestSlowIsHottest(s, pid, LEVELS); } else { ColdestFastIsColdest(s, pid, 0, MAX_DEMOTION_TIER); }
    var pick := Candidate(s, pid, up).value;
    ListEntry(s.page, s.lists, Hot(pid, !up, pick.level), pick.k);
  }

  // ---------------------------------------------------------------------------
  // The swap

  /** The migrated descriptor after the swap. */
  function Arrived(g: Page, f: Frame, hot: nat, epoch: nat): Page {
    g.(frame := f, hot := hot, lastMigrated := epoch, entry := if f.fast then None else Some(g.pid))
  }

  function Moved(r: Proc, up: bool): Proc {
    AddBytes(AddBytes(r, up, PAGE_SIZE), !up, -PAGE_SIZE)
  }

  /** Two descriptors a swap can work on: p in use on the source tier, q free on the other. */
  ghost predicate CanSwap(s: State, frames: set<Frame>, pid: Pid, up: bool, p: PageId, q: PageId, hot: nat) {
    && Inv(s, frames) && pid in s.proc && hot < LEVELS
    && p < |s.page| && s.page[p].present && s.page[p].pid == pid && s.page[p].frame.fast == !up
    && q < |s.page| && !s.page[q].present && s.page[q].frame.fast == up
    && Eligible(s.page[p], s.epoch)
    && !s.page[p].inFreeRing
  }

  /** What MigrateOne does to everything but the lists. */
  ghost function Swap(s: State, pid: Pid, up: bool, p: PageId, q: PageId, hot: nat): State
    requires p < |s.page| && q < |s.page| && pid in s.proc
  {
    var was, dest := s.page[p].frame, s.page[q].frame;
    s.(page := s.page[p := Arrived(s.page[p], dest, hot, s.epoch)][q := s.page[q].(frame := was)],
       cxl := if up then DeleteEntry(s.cxl, p) else s.cxl[(pid, dest.offset) := p],
       pa := if up then DeleteEntry(s.pa, p) else s.pa[dest.offset := p],
       proc := s.proc[pid := Moved(s.proc[pid], up)],
       owner := s.owner[dest := p][was := q],
       log := s.log + [(p, s.epoch)])
  }

  lemma SwapKeepsIndexes(s: State, frames: set<Frame>, pid: Pid, up: bool, p: PageId, q: PageId, hot: nat)
    requires CanSwap(s, frames, pid, up, p, q, hot)
    ensures IndexesInv(Swap(s, pid, up, p, q, hot))
  {
    UnfoldInv(s, frames);
    var was, dest := s.page[p].frame, s.page[q].frame;
    var g, h := Arrived(s.page[p], dest, hot, s.epoch), s.page[q].(frame := was);
    var page1 := s.page[p := g];
    IndexSwap(s.page, s.owner, FrameKey, p, g, q, h, was, dest);
    IndexKeep(s.page, s.va, VaKey, p, g);
    IndexKeep(page1, s.va, VaKey, q, h);
    if up {
      IndexDrop(s.page, s.cxl, CxlKey, p, g);
      IndexKeep(page1, DeleteEntry(s.cxl, p), CxlKey, q, h);
      IndexDrop(s.page, s.pa, PaKey, p, g);
      IndexKeep(page1, DeleteEntry(s.pa, p), PaKey, q, h);
    } else {
      OffsetUnused(s, frames, q, pid);
      IndexAdd(s.page, s.cxl, CxlKey, p, g, (pid, dest.offset));
      IndexKeep(page1, s.cxl[(pid, dest.offset) := p], CxlKey, q, h);
      IndexAdd(s.page, s.pa, PaKey, p, g, dest.offset);
      IndexKeep(page1, s.pa[dest.offset := p], PaKey, q, h);
    }
  }

  lemma SwapKeepsRest(s: State, frames: set<Frame>, pid: Pid, up: bool, p: PageId, q: PageId, hot: nat)
    requires CanSwap(s, frames, pid, up, p, q, hot)
    ensures RestInv(Swap(s, pid, up, p, q, hot))
  {
    UnfoldInv(s, frames);
    var was, dest := s.page[p].frame, s.page[q].frame;
    var g, h := Arrived(s.page[p], dest, hot, s.epoch), s.page[q].(frame := was);
    var page1 := s.page[p := g];
    var r := Moved(s.proc[pid], up);
    assert s.proc[pid := r].Keys == s.proc.Keys;
    assert PageOk(s.page[p], s.proc.Keys) && PageOk(s.page[q], s.proc.Keys);
    FieldKeep(s.page, s.proc.Keys, p, g);
    FieldKeep(page1, s.proc.Keys, q, h);
    BytesStep(s.page, s.proc, p, g, pid, r);
    BytesKeep(page1, s.proc[pid := r], q, h);
    RingKeep(s.page, s.ring, p, g);
    RingKeep(page1, s.ring, q, h);
    LogAdd(s.page, s.log, s.epoch, p, g);
    LogKeep(page1, s.log + [(p, s.epoch)], s.epoch, q, h);
  }

  // ---------------------------------------------------------------------------
  // One turn of the migration loops

  ghost function HotAfter(s: State, pid: Pid, up: bool, level: nat): nat
    requires Candidate(s, pid, up).Some?
  {
    if up then level else Candidate(s, pid, up).value.level
  }

  /** The candidate list without the candidate. */
  ghost function Picking(s: State, pid: Pid, up: bool): map<ListId, seq<PageId>>
    requires Candidate(s, pid, up).Some?
  {
    var pick := Candidate(s, pid, up).value;
    Unlink(s.lists, Hot(pid, !up, pick.level), pick.k)
  }

  lemma PickingOk(s: State, frames: set<Frame>, pid: Pid, up: bool, level: nat)
    requires CanMigrate(s, frames, pid, up, level)
    ensures ListInv(s.page, Picking(s, pid, up), {Picked(s, pid, up)})
    ensures At(Picking(s, pid, up), Free(up)) == At(s.lists, Free(up))
  {
    UnfoldInv(s, frames);
    var pick := Candidate(s, pid, up).value;
    UnlinkOk(s.page, s.lists, {}, Hot(pid, !up, pick.level), pick.k);
    assert {} + {Picked(s, pid, up)} == {Picked(s, pid, up)};
  }

  /** No free page on the other tier: the candidate goes back, with its level brought up to
      date when it was to be promoted. */
  lemma NoRoomKeeps(s: State, frames: set<Frame>, pid: Pid, up: bool, level: nat)
    requires CanMigrate(s, frames, pid, up, level) && At(s.lists, Free(up)) == []
    ensures ListsInRange(s)
    ensures Inv(MigrateOne(s, pid, up, level), frames)
  {
    UnfoldInv(s, frames);
    PickedIs(s, frames, pid, up, level);
    PickingOk(s, frames, pid, up, level);
    var p := Picked(s, pid, up);
    var g := WithHot(s.page[p], HotAfter(s, pid, up, level));
    HandChange(s.page, Picking(s, pid, up), {p}, p, g);
    EnqueueOk(s.page[p := g], Picking(s, pid, up), {p}, p);
    assert {p} - {p} == {};
    FieldChangeKeeps(s, frames, p, g);
    UnfoldInv(MigrateOne(s, pid, up, level), frames);
  }

  ghost function ListsAfter(s: State, pid: Pid, up: bool, level: nat): map<ListId, seq<PageId>>
    requires Candidate(s, pid, up).Some? && At(Picking(s, pid, up), Free(up)) != []
  {
    var l1 := Picking(s, pid, up);
    var free := At(l1, Free(up));
    var l2 := Unlink(l1, Free(up), |free| - 1);
    Enqueue(Enqueue(l2, Hot(pid, up, HotAfter(s, pid, up, level)), Picked(s, pid, up)), Free(!up), free[|free| - 1])
  }

  lemma ListsAfterOk(s: State, frames: set<Frame>, pid: Pid, up: bool, level: nat)
    requires CanMigrate(s, frames, pid, up, level) && At(s.lists, Free(up)) != []
    ensures Picked(s, pid, up) < |s.page| && Oldest(s, up) < |s.page|
    ensures At(Picking(s, pid, up), Free(up)) == At(s.lists, Free(up))
    ensures ListInv(Swap(s, pid, up, Picked(s, pid, up), Oldest(s, up), HotAfter(s, pid, up, level)).page,
                    ListsAfter(s, pid, up, level), {})
  {
    PickedIs(s, frames, pid, up, level);
    PickingOk(s, frames, pid, up, level);
    OldestIsFree(s, frames, up);
    var p, q := Picked(s, pid, up), Oldest(s, up);
    BothBack(s.page, Picking(s, pid, up), pid, up, p, q, HotAfter(s, pid, up, level), s.epoch);
  }

  /** The two pages of an exchange on their new lists. */
  lemma BothBack(page: seq<Page>, lists: map<ListId, seq<PageId>>, pid: Pid, up: bool, p: PageId, q: PageId,
                 hot: nat, epoch: nat)
    requires ListInv(page, lists, {p}) && p < |page| && q < |page|
    requires var free := At(lists, Free(up)); free != [] && q == free[|free| - 1]
    requires page[p].present && page[p].pid == pid && page[p].frame.fast == !up
    requires !page[q].present && page[q].frame.fast == up
    ensures var l2 := Unlink(lists, Free(up), |At(lists, Free(up))| - 1);
      ListInv(page[p := Arrived(page[p], page[q].frame, hot, epoch)][q := page[q].(frame := page[p].frame)],
              Enqueue(Enqueue(l2, Hot(pid, up, hot), p), Free(!up), q), {})
  {
    var g, h := Arrived(page[p], page[q].frame, hot, epoch), page[q].(frame := page[p].frame);
    assert Home(g) == Hot(pid, up, hot) && Home(h) == Free(!up);
    TwoMoves(page, lists, up, p, g, q, h);
  }

  /** With p in hand: take q off the end of its free list, change both, put both back. */
  lemma TwoMoves(page: seq<Page>, lists: map<ListId, seq<PageId>>, up: bool, p: PageId, g: Page, q: PageId, h: Page)
    requires ListInv(page, lists, {p}) && p < |page|
    requires var free := At(lists, Free(up)); free != [] && q == free[|free| - 1]
    ensures q < |page|
    ensures var free := At(lists, Free(up));
      ListInv(page[p := g][q := h], Enqueue(Enqueue(Unlink(lists, Free(up), |free| - 1), Home(g), p), Home(h), q), {})
  {
    var k := |At(lists, Free(up))| - 1;
    UnlinkOk(page, lists, {p}, Free(up), k);
    var l2 := Unlink(lists, Free(up), k);
    var hand := {p} + {q};
    HandChange(page, l2, hand, p, g);
    HandChange(page[p := g], l2, hand, q, h);
    var page' := page[p := g][q := h];
    assert p != q && page'[p] == g && page'[q] == h;
    EnqueueOk(page', l2, hand, p);
    assert hand - {p} == {q} && {q} - {q} == {};
    EnqueueOk(page', Enqueue(l2, Home(g), p), {q}, q);
  }

  lemma MigrateUpEffect(s: State, pid: Pid, level: nat)
    requires pid in s.proc && Candidate(s, pid, true).Some? && ListsInRange(s)
    requires At(Picking(s, pid, true), Free(true)) == At(s.lists, Free(true)) != []
    requires var p, q := Picked(s, pid, true), Oldest(s, true);
      && p < |s.page| && q < |s.page| && p != q && s.page[q].frame.fast && !s.page[q].present
      && (s.page[p].entry.None? ==> DeleteEntry(s.pa, p) == s.pa)
    ensures MigrateOne(s, pid, true, level)
         == Swap(s, pid, true, Picked(s, pid, true), Oldest(s, true), level).(lists := ListsAfter(s, pid, true, level))
  {
    var p, q := Picked(s, pid, true), Oldest(s, true);
    var s' := MigrateOne(s, pid, true, level);
    var g, h := Arrived(s.page[p], s.page[q].frame, level, s.epoch), s.page[q].(frame := s.page[p].frame);
    assert s'.page == s.page[p := g][q := h];
  }

  lemma MigrateDownEffect(s: State, pid: Pid, level: nat)
    requires pid in s.proc && Candidate(s, pid, false).Some? && ListsInRange(s)
    requires At(Picking(s, pid, false), Free(false)) == At(s.lists, Free(false)) != []
    requires var p, q := Picked(s, pid, false), Oldest(s, false);
      && p < |s.page| && q < |s.page| && p != q && !s.page[q].frame.fast && !s.page[q].present
      && s.page[p].hot == Candidate(s, pid, false).value.level && s.page[p].pid == pid
      && (pid, s.page[q].frame.offset) !in s.cxl && (pid, s.page[p].va) in s.va
    ensures MigrateOne(s, pid, false, level)
         == Swap(s, pid, false, Picked(s, pid, false), Oldest(s, false), HotAfter(s, pid, false, level))
            .(lists := ListsAfter(s, pid, false, level))
  {
    var p, q := Picked(s, pid, false), Oldest(s, false);
    var s' := MigrateOne(s, pid, false, level);
    var g, h := Arrived(s.page[p], s.page[q].frame, s.page[p].hot, s.epoch), s.page[q].(frame := s.page[p].frame);
    assert s'.page == s.page[p := g][q := h];
  }

  /** Looking a live page up by its address finds that page. */
  lemma LookupFinds(s: State, frames: set<Frame>, p: PageId)
    requires Inv(s, frames) && p < |s.page| && Live(s.page[p])
    ensures (s.page[p].pid, s.page[p].va) in s.va && s.va[(s.page[p].pid, s.page[p].va)] == p
  {
    UnfoldInv(s, frames);
    assert VaKey(s.page[p]) == Some((s.page[p].pid, s.page[p].va));
  }

  lemma MigrateEffect(s: State, frames: set<Frame>, pid: Pid, up: bool, level: nat)
    requires CanMigrate(s, frames, pid, up, level) && At(s.lists, Free(up)) != []
    requires Picked(s, pid, up) < |s.page| && !s.page[Picked(s, pid, up)].inFreeRing
    ensures ListsInRange(s) && Oldest(s, up) < |s.page|
    ensures At(Picking(s, pid, up), Free(up)) == At(s.lists, Free(up))
    ensures MigrateOne(s, pid, up, level)
         == Swap(s, pid, up, Picked(s, pid, up), Oldest(s, up), HotAfter(s, pid, up, level))
            .(lists := ListsAfter(s, pid, up, level))
  {
    UnfoldInv(s, frames);
    PickedIs(s, frames, pid, up, level);
    PickingOk(s, frames, pid, up, level);
    OldestIsFree(s, frames, up);
    var p := Picked(s, pid, up);
    if up {
      if s.page[p].entry.None? { DeleteMissing(s.page, s.pa, PaKey, p); }
      MigrateUpEffect(s, pid, level);
    } else {
      OffsetUnused(s, frames, Oldest(s, up), pid);
      LookupFinds(s, frames, p);
      MigrateDownEffect(s, pid, level);
    }
  }

  /** One turn of either loop keeps the invariant, provided the page about to move is not waiting
      to be freed. */
  lemma MigrateKeeps(s: State, frames: set<Frame>, pid: Pid, up: bool, level: nat)
    requires CanMigrate(s, frames, pid, up, level)
    requires Picked(s, pid, up) < |s.page|
    requires At(s.lists, Free(up)) == [] || !s.page[Picked(s, pid, up)].inFreeRing
    ensures ListsInRange(s)
    ensures Inv(MigrateOne(s, pid, up, level), frames)
  {
    if At(s.lists, Free(up)) == [] {
      NoRoomKeeps(s, frames, pid, up, level);
    } else {
      PickedIs(s, frames, pid, up, level);
      OldestIsFree(s, frames, up);
      MigrateEffect(s, frames, pid, up, level);
      ListsAfterOk(s, frames, pid, up, level);
      var p, q, hot := Picked(s, pid, up), Oldest(s, up), HotAfter(s, pid, up, level);
      SwapKeepsIndexes(s, frames, pid, up, p, q, hot);
      SwapKeepsRest(s, frames, pid, up, p, q, hot);
      SwapKeepsFrames(s, frames, pid, up, p, q, hot);
      UnfoldInv(MigrateOne(s, pid, up, level), frames);
    }
  }

  lemma SwapKeepsFrames(s: State, frames: set<Frame>, pid: Pid, up: bool, p: PageId, q: PageId, hot: nat)
    requires CanSwap(s, frames, pid, up, p, q, hot)
    ensures Swap(s, pid, up, p, q, hot).owner.Keys == frames
  {
    OwnersInOrder(s, frames);
    assert FrameKey(s.page[p]) == Some(s.page[p].frame) && FrameKey(s.page[q]) == Some(s.page[q].frame);
  }

  lemma OwnersInOrder(s: State, frames: set<Frame>)
    requires Inv(s, frames)
    ensures IndexInv(s.page, s.owner, FrameKey) && s.owner.Keys == frames
  {
    UnfoldInv(s, frames);
  }

  // ---------------------------------------------------------------------------
  // Promoting a page that waits to be freed

  /** Some key leads to the page.  Deleting a page that no key leads to is undefined: the table
      relinks through handles that are no longer its own, or frees itself. */
  ghost predicate HasEntry<K(!new)>(m: map<K, PageId>, p: PageId) { exists k :: k in m && m[k] == p }

  lemma EntryExactlyWhen<K(!new)>(page: seq<Page>, m: map<K, PageId>, key: Page -> Option<K>, p: PageId)
    requires IndexInv(page, m, key) && p < |page|
    ensures HasEntry(m, p) <==> key(page[p]).Some?
  {}

  lemma OffsetsInOrder(s: State, frames: set<Frame>)
    requires Inv(s, frames)
    ensures IndexInv(s.page, s.cxl, CxlKey)
  {
    UnfoldInv(s, frames);
  }

  /** A promotion deletes the page from the offset index without looking.  The entry is there
      exactly when the candidate is not waiting to be freed. */
  lemma PromotionIsDefinedExactlyWhen(s: State, frames: set<Frame>, pid: Pid, level: nat)
    requires CanMigrate(s, frames, pid, true, level)
    ensures Picked(s, pid, true) < |s.page|
    ensures HasEntry(s.cxl, Picked(s, pid, true)) <==> !s.page[Picked(s, pid, true)].inFreeRing
  {
    PickedIs(s, frames, pid, true, level);
    OffsetsInOrder(s, frames);
    EntryExactlyWhen(s.page, s.cxl, CxlKey, Picked(s, pid, true));
  }

  // ---------------------------------------------------------------------------
  // Demoting a page that waits to be freed

  /** If the candidate's address is no longer indexed, the candidate and the free page it was
      paired with end up on no list. */
  lemma LostPages(s: State, frames: set<Frame>, pid: Pid, level: nat)
    requires CanMigrate(s, frames, pid, false, level) && At(s.lists, Free(false)) != []
    requires Picked(s, pid, false) < |s.page| && (pid, s.page[Picked(s, pid, false)].va) !in s.va
    ensures ListsInRange(s)
    ensures forall id :: Picked(s, pid, false) !in At(MigrateOne(s, pid, false, level).lists, id)
    ensures forall id :: Oldest(s, false) !in At(MigrateOne(s, pid, false, level).lists, id)
  {
    UnfoldInv(s, frames);
    PickedIs(s, frames, pid, false, level);
    PickingOk(s, frames, pid, false, level);
    var l1 := Picking(s, pid, false);
    var k := |At(l1, Free(false))| - 1;
    UnlinkOk(s.page, l1, {Picked(s, pid, false)}, Free(false), k);
    var l2 := Unlink(l1, Free(false), k);
    assert MigrateOne(s, pid, false, level).lists == l2;
    var hand := {Picked(s, pid, false)} + {Oldest(s, false)};
    forall id, p | p in hand ensures p !in At(l2, id) {
      assert multiset(At(l2, id))[p] == Placed(s.page, hand, id, p) == 0;
    }
  }

  /** If the address has been allocated again, the waiting page is entered in the offset
      index under its new frame although it is not live. */
  lemma WaitingPageIndexed(s: State, frames: set<Frame>, pid: Pid, level: nat)
    requires CanMigrate(s, frames, pid, false, level) && At(s.lists, Free(false)) != []
    requires Picked(s, pid, false) < |s.page| && (pid, s.page[Picked(s, pid, false)].va) in s.va
    requires s.page[Picked(s, pid, false)].inFreeRing
    ensures ListsInRange(s) && Oldest(s, false) < |s.page|
    ensures var s' := MigrateOne(s, pid, false, level); var k := (pid, s.page[Oldest(s, false)].frame.offset);
      k in s'.cxl && s'.cxl[k] == Picked(s, pid, false)
      && |s'.page| == |s.page| && s'.page[Picked(s, pid, false)].inFreeRing
  {
    UnfoldInv(s, frames);
    PickedIs(s, frames, pid, false, level);
    PickingOk(s, frames, pid, false, level);
    OldestIsFree(s, frames, false);
    OffsetUnused(s, frames, Oldest(s, false), pid);
    MigrateDownEffect(s, pid, level);
    SwapFields(s, pid, Picked(s, pid, false), Oldest(s, false), HotAfter(s, pid, false, level));
  }

  lemma SwapFields(s: State, pid: Pid, p: PageId, q: PageId, hot: nat)
    requires p < |s.page| && q < |s.page| && p != q && pid in s.proc
    ensures var s' := Swap(s, pid, false, p, q, hot);
      && s'.cxl == s.cxl[(pid, s.page[q].frame.offset) := p]
      && |s'.page| == |s.page| && s'.page[p].inFreeRing == s.page[p].inFreeRing
  {}

  /** Demotion keeps the invariant exactly when there is no free slow page to pair the
      candidate with or the candidate is not waiting to be freed. */
  lemma DemotionIsSafeExactlyWhen(s: State, frames: set<Frame>, pid: Pid, level: nat)
    requires CanMigrate(s, frames, pid, false, level)
    ensures ListsInRange(s) && Picked(s, pid, false) < |s.page|
    ensures Inv(MigrateOne(s, pid, false, level), frames)
       <==> At(s.lists, Free(false)) == [] || !s.page[Picked(s, pid, false)].inFreeRing
  {
    UnfoldInv(s, frames);
    PickedIs(s, frames, pid, false, level);
    var p := Picked(s, pid, false);
    if At(s.lists, Free(false)) == [] || !s.page[p].inFreeRing {
      MigrateKeeps(s, frames, pid, false, level);
    } else if (pid, s.page[p].va) in s.va {
      WaitingPageIndexed(s, frames, pid, level);
      var s' := MigrateOne(s, pid, false, level);
      var k := (pid, s.page[Oldest(s, false)].frame.offset);
      assert CxlKey(s'.page[s'.cxl[k]]) == None;
    } else {
      LostPages(s, frames, pid, level);
      var s' := MigrateOne(s, pid, false, level);
      assert s'.page == s.page;
      var id := Home(s'.page[p]);
      assert p !in At(s'.lists, id);
      assert multiset(At(s'.lists, id))[p] == 0 && Placed(s'.page, {}, id, p) == 1;
    }
    UnfoldInv(MigrateOne(s, pid, false, level), frames);
  }

  /** After a drain nothing waits, so every page the finders can return is live and the
      lookups before a promotion or a demotion find the page itself. */
  lemma DrainedPicksAreLive(s: State, frames: set<Frame>, pid: Pid, up: bool, level: nat)
    requires CanMigrate(s, frames, pid, up, level) && pid in s.ring && s.ring[pid] == []
    ensures Picked(s, pid, up) < |s.page|
    ensures var p := Picked(s, pid, up);
      Live(s.page[p]) && (pid, s.page[p].va) in s.va && s.va[(pid, s.page[p].va)] == p
  {
    UnfoldInv(s, frames);
    PickedIs(s, frames, pid, up, level);
    var p := Picked(s, pid, up);
    assert multiset(s.ring[pid])[p] == Waiting(s.page, pid, p);
    LookupFinds(s, frames, p);
  }
}
