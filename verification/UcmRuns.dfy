/** Whole runs of the manager, from initialisation on. */
module UcmRuns {
  import opened UcmState
  import opened UcmInvariant
  import opened UcmSafety
  import opened UcmMigration

  // ---------------------------------------------------------------------------
  // Initialisation

  lemma {:induction false} DescendingCounts(lo: nat, hi: nat, p: PageId)
    requires lo <= hi
    ensures multiset(Descending(lo, hi))[p] == (if lo <= p < hi then 1 else 0)
    decreases hi
  {
    if lo < hi { DescendingCounts(lo, hi - 1, p); }
  }

  /** A fresh free list ends with the lowest page, which is the first to be taken. */
  lemma {:induction false} DescendingAt(lo: nat, hi: nat, k: nat)
    requires lo <= hi && k < hi - lo
    ensures |Descending(lo, hi)| == hi - lo && Descending(lo, hi)[k] == hi - 1 - k
    decreases hi
  {
    if lo < hi - 1 { DescendingAt(lo, hi - 1, if k > 0 then k - 1 else 0); }
  }

  lemma InitPage(nFast: nat, nSlow: nat, p: PageId)
    requires p < nFast + nSlow
    ensures var page := Init(nFast, nSlow).page;
      && |page| == nFast + nSlow
      && page[p] == FreshPage(if p < nFast then Frame(true, p * PAGE_SIZE) else Frame(false, (p - nFast) * PAGE_SIZE))
  {}

  lemma InitLists(nFast: nat, nSlow: nat)
    ensures var s := Init(nFast, nSlow); ListInv(s.page, s.lists, {})
  {
    var s := Init(nFast, nSlow);
    forall id, p: PageId ensures multiset(At(s.lists, id))[p] == Placed(s.page, {}, id, p) {
      InitListed(nFast, nSlow, id, p);
    }
  }

  lemma InitListed(nFast: nat, nSlow: nat, id: ListId, p: PageId)
    ensures var s := Init(nFast, nSlow); multiset(At(s.lists, id))[p] == Placed(s.page, {}, id, p)
  {
    DescendingCounts(0, nFast, p);
    DescendingCounts(nFast, nFast + nSlow, p);
    if p < nFast + nSlow { InitPage(nFast, nSlow, p); }
  }

  lemma InitOwners(nFast: nat, nSlow: nat)
    ensures var s := Init(nFast, nSlow); IndexInv(s.page, s.owner, FrameKey)
  {
    var s := Init(nFast, nSlow);
    forall f | f in s.owner ensures s.owner[f] < |s.page| && FrameKey(s.page[s.owner[f]]) == Some(f) {
      if f.fast {
        var i :| 0 <= i < nFast && f == Frame(true, i * PAGE_SIZE);
        InitPage(nFast, nSlow, i);
      } else {
        var i :| 0 <= i < nSlow && f == Frame(false, i * PAGE_SIZE);
        InitPage(nFast, nSlow, nFast + i);
      }
    }
    forall p | 0 <= p < |s.page| ensures s.page[p].frame in s.owner && s.owner[s.page[p].frame] == p {
      InitPage(nFast, nSlow, p);
    }
  }

  lemma InitIsGood(nFast: nat, nSlow: nat)
    ensures Inv(Init(nFast, nSlow), Frames(nFast, nSlow))
  {
    var s := Init(nFast, nSlow);
    InitLists(nFast, nSlow);
    InitOwners(nFast, nSlow);
    forall p | 0 <= p < |s.page| ensures s.page[p] == FreshPage(s.page[p].frame) {
      InitPage(nFast, nSlow, p);
    }
    UnfoldInv(s, Frames(nFast, nSlow));
  }

  // ---------------------------------------------------------------------------
  // Operations

  datatype Op =
    | Start(pid: Pid, maxFast: nat)
    | Allocate(pid: Pid, va: nat, pref: Preference)
    | Deallocate(pid: Pid, va: nat)
    | Drain(pid: Pid)
    | Telemetry(page: PageId, level: nat)
    | Access(page: PageId)
    | MigrateTo(pid: Pid, up: bool, level: nat)
    | Epoch

  /** What callers owe: a fresh pid, an address not yet allocated, a level that is one, and
      a free ring drained before candidates are picked. */
  ghost predicate Allowed(s: State, op: Op) {
    match op
    case Start(pid, _) => pid >= 0 && pid !in s.proc
    case Allocate(pid, va, _) => pid in s.proc && (pid, va) !in s.va
    case Deallocate(pid, _) => true
    case Drain(pid) => true
    case Telemetry(p, level) => p < |s.page| && level < LEVELS
    case Access(p) => p < |s.page| && s.page[p].present
    case MigrateTo(pid, up, level) => pid in s.ring && s.ring[pid] == [] && level < LEVELS
    case Epoch => true
  }

  lemma Indexed(s: State, frames: set<Frame>, pid: Pid, va: nat)
    requires Inv(s, frames) && (pid, va) in s.va
    ensures CanRemove(s, frames, pid, s.va[(pid, va)])
  {
    UnfoldInv(s, frames);
    assert VaKey(s.page[s.va[(pid, va)]]) == Some((pid, va));
  }

  ghost function AllocateStep(s: State, frames: set<Frame>, pid: Pid, va: nat, pref: Preference): (s': State)
    requires Inv(s, frames) && pid in s.proc && (pid, va) !in s.va
    ensures Inv(s', frames)
  {
    var tier := ChooseTier(s, pid, pref);
    if tier.None? then s else TakeKeeps(s, frames, pid, va, tier.value); TakePage(s, pid, va, tier.value)
  }

  ghost function DeallocateStep(s: State, frames: set<Frame>, pid: Pid, va: nat): (s': State)
    requires Inv(s, frames)
    ensures Inv(s', frames)
  {
    if (pid, va) !in s.va then s
    else
      Indexed(s, frames, pid, va);
      RemoveKeeps(s, frames, pid, s.va[(pid, va)]);
      RemovePage(s, pid, s.va[(pid, va)])
  }

  ghost function DrainStep(s: State, frames: set<Frame>, pid: Pid): (s': State)
    requires Inv(s, frames)
    ensures Inv(s', frames)
  {
    if pid !in s.ring || s.ring[pid] == [] then s
    else DrainReady(s, frames, pid); DrainKeeps(s, frames, pid); DrainOne(s, pid)
  }

  ghost function TelemetryStep(s: State, frames: set<Frame>, p: PageId, level: nat): (s': State)
    requires Inv(s, frames) && p < |s.page| && level < LEVELS
    ensures Inv(s', frames)
  {
    if !s.page[p].present then s else RehotKeeps(s, frames, p, level); Rehot(s, p, level)
  }

  ghost function MigrateStep(s: State, frames: set<Frame>, pid: Pid, up: bool, level: nat): (s': State)
    requires Inv(s, frames) && pid in s.ring && s.ring[pid] == [] && level < LEVELS
    ensures Inv(s', frames)
  {
    if Candidate(s, pid, up).None? then s
    else
      HasRing(s, frames, pid);
      DrainedPicksAreLive(s, frames, pid, up, level);
      MigrateKeeps(s, frames, pid, up, level);
      MigrateOne(s, pid, up, level)
  }

  ghost function Next(s: State, frames: set<Frame>, op: Op): (s': State)
    requires Inv(s, frames) && Allowed(s, op)
    ensures Inv(s', frames)
  {
    match op
    case Start(pid, maxFast) => AddProcessKeeps(s, frames, pid, maxFast); AddProcess(s, pid, maxFast)
    case Allocate(pid, va, pref) => AllocateStep(s, frames, pid, va, pref)
    case Deallocate(pid, va) => DeallocateStep(s, frames, pid, va)
    case Drain(pid) => DrainStep(s, frames, pid)
    case Telemetry(p, level) => TelemetryStep(s, frames, p, level)
    case Access(p) => SampleKeeps(s, frames, p); Sample(s, p)
    case MigrateTo(pid, up, level) => MigrateStep(s, frames, pid, up, level)
    case Epoch => NextEpochKeeps(s, frames); NextEpoch(s)
  }

  ghost predicate Possible(s: State, frames: set<Frame>, run: seq<Op>)
    requires Inv(s, frames)
    decreases |run|
  {
    run == [] || (Allowed(s, run[0]) && Possible(Next(s, frames, run[0]), frames, run[1..]))
  }

  ghost function After(s: State, frames: set<Frame>, run: seq<Op>): (s': State)
    requires Inv(s, frames) && Possible(s, frames, run)
    ensures Inv(s', frames)
    decreases |run|
  {
    if run == [] then s else After(Next(s, frames, run[0]), frames, run[1..])
  }

  // ---------------------------------------------------------------------------
  // What the invariant says, in the program's terms

  /** Descriptors and the frames created at initialisation correspond one to one. */
  ghost predicate OneToOne(page: seq<Page>, frames: set<Frame>) {
    && (forall p, q | 0 <= p < |page| && 0 <= q < |page| && page[p].frame == page[q].frame :: p == q)
    && (forall p | 0 <= p < |page| :: page[p].frame in frames)
    && (forall f | f in frames :: exists p :: 0 <= p < |page| && page[p].frame == f)
  }

  /** Each descriptor is on one list, the one for its tier, owner and hotness, and once. */
  ghost predicate OneListEach(s: State) {
    && (forall id, p: PageId :: p in At(s.lists, id) <==> p < |s.page| && Home(s.page[p]) == id)
    && (forall id, j, k | 0 <= j < |At(s.lists, id)| && 0 <= k < |At(s.lists, id)|
      && At(s.lists, id)[j] == At(s.lists, id)[k] :: j == k)
  }

  /** The address index holds exactly the live pages. */
  ghost predicate VaExact(page: seq<Page>, va: map<(Pid, nat), PageId>) {
    forall pid, addr: nat, p | 0 <= p < |page| ::
      (pid, addr) in va && va[(pid, addr)] == p <==> Live(page[p]) && page[p].pid == pid && page[p].va == addr
  }

  /** The offset index of a process holds exactly its live slow pages. */
  ghost predicate CxlExact(page: seq<Page>, cxl: map<(Pid, nat), PageId>) {
    forall pid, offset: nat, p | 0 <= p < |page| ::
      (pid, offset) in cxl && cxl[(pid, offset)] == p
      <==> Live(page[p]) && page[p].frame == Frame(false, offset) && page[p].pid == pid
  }

  /** The global offset index holds exactly the live slow pages, each entry with its owner. */
  ghost predicate PaExact(page: seq<Page>, pa: map<nat, PageId>) {
    forall offset: nat, p | 0 <= p < |page| ::
      && (offset in pa && pa[offset] == p <==> Live(page[p]) && page[p].frame == Frame(false, offset))
      && (offset in pa && pa[offset] == p ==> page[p].entry == Some(page[p].pid))
  }

  lemma InvGivesOneToOne(s: State, frames: set<Frame>)
    requires Inv(s, frames)
    ensures OneToOne(s.page, frames)
  {
    UnfoldInv(s, frames);
    forall p, q | 0 <= p < |s.page| && 0 <= q < |s.page| && s.page[p].frame == s.page[q].frame ensures p == q {
      SameFrame(s.page, s.owner, p, q);
    }
    forall p | 0 <= p < |s.page| ensures s.page[p].frame in frames {
      assert FrameKey(s.page[p]) == Some(s.page[p].frame);
    }
    forall f | f in frames ensures exists p :: 0 <= p < |s.page| && s.page[p].frame == f {
      assert FrameKey(s.page[s.owner[f]]) == Some(f);
    }
  }

  lemma Twice(list: seq<PageId>, j: nat, k: nat)
    requires j < k < |list| && list[j] == list[k]
    ensures multiset(list)[list[j]] >= 2
  {
    assert list == list[..k] + list[k..];
    assert list[..k][j] == list[j] && list[k..][0] == list[j];
    assert multiset(list[..k])[list[j]] >= 1 && multiset(list[k..])[list[j]] >= 1;
  }

  lemma InvGivesOneList(s: State, frames: set<Frame>)
    requires Inv(s, frames)
    ensures OneListEach(s)
  {
    UnfoldInv(s, frames);
    forall id, p: PageId ensures p in At(s.lists, id) <==> p < |s.page| && Home(s.page[p]) == id {
      assert multiset(At(s.lists, id))[p] == Placed(s.page, {}, id, p);
    }
    forall id, j, k | 0 <= j < |At(s.lists, id)| && 0 <= k < |At(s.lists, id)|
      && At(s.lists, id)[j] == At(s.lists, id)[k]
      ensures j == k
    {
      var p := At(s.lists, id)[j];
      assert multiset(At(s.lists, id))[p] == Placed(s.page, {}, id, p);
      if j < k { Twice(At(s.lists, id), j, k); }
      if k < j { Twice(At(s.lists, id), k, j); }
    }
  }

  lemma KeyedExactly<K(!new)>(page: seq<Page>, m: map<K, PageId>, key: Page -> Option<K>, k: K, p: PageId)
    requires IndexInv(page, m, key) && p < |page|
    ensures k in m && m[k] == p <==> key(page[p]) == Some(k)
  {}

  lemma InvGivesVaExact(s: State, frames: set<Frame>)
    requires Inv(s, frames)
    ensures VaExact(s.page, s.va)
  {
    UnfoldInv(s, frames);
    forall pid, addr: nat, p | 0 <= p < |s.page|
      ensures (pid, addr) in s.va && s.va[(pid, addr)] == p
        <==> Live(s.page[p]) && s.page[p].pid == pid && s.page[p].va == addr
    {
      KeyedExactly(s.page, s.va, VaKey, (pid, addr), p);
    }
  }

  lemma InvGivesCxlExact(s: State, frames: set<Frame>)
    requires Inv(s, frames)
    ensures CxlExact(s.page, s.cxl)
  {
    UnfoldInv(s, frames);
    forall pid, offset: nat, p | 0 <= p < |s.page|
      ensures (pid, offset) in s.cxl && s.cxl[(pid, offset)] == p
         <==> Live(s.page[p]) && s.page[p].frame == Frame(false, offset) && s.page[p].pid == pid
    {
      KeyedExactly(s.page, s.cxl, CxlKey, (pid, offset), p);
    }
  }

  lemma InvGivesPaExact(s: State, frames: set<Frame>)
    requires Inv(s, frames)
    ensures PaExact(s.page, s.pa)
  {
    UnfoldInv(s, frames);
    forall offset: nat, p | 0 <= p < |s.page|
      ensures offset in s.pa && s.pa[offset] == p <==> Live(s.page[p]) && s.page[p].frame == Frame(false, offset)
      ensures offset in s.pa && s.pa[offset] == p ==> s.page[p].entry == Some(s.page[p].pid)
    {
      KeyedExactly(s.page, s.pa, PaKey, offset, p);
      assert PageOk(s.page[p], s.proc.Keys);
    }
  }

  ghost predicate PossibleFromStart(nFast: nat, nSlow: nat, run: seq<Op>) {
    InitIsGood(nFast, nSlow);
    Possible(Init(nFast, nSlow), Frames(nFast, nSlow), run)
  }

  ghost function Reached(nFast: nat, nSlow: nat, run: seq<Op>): (s: State)
    requires PossibleFromStart(nFast, nSlow, run)
    ensures Inv(s, Frames(nFast, nSlow))
  {
    InitIsGood(nFast, nSlow);
    After(Init(nFast, nSlow), Frames(nFast, nSlow), run)
  }

  /** In every state the manager can reach, whatever the operations and their order. */
  lemma EveryReachableState(nFast: nat, nSlow: nat, run: seq<Op>)
    requires PossibleFromStart(nFast, nSlow, run)
    ensures var s := Reached(nFast, nSlow, run);
      && OneToOne(s.page, Frames(nFast, nSlow))
      && OneListEach(s)
      && VaExact(s.page, s.va) && CxlExact(s.page, s.cxl) && PaExact(s.page, s.pa)
      && BytesInv(s.page, s.proc)
  {
    var s := Reached(nFast, nSlow, run);
    InvGivesOneToOne(s, Frames(nFast, nSlow));
    InvGivesOneList(s, Frames(nFast, nSlow));
    InvGivesVaExact(s, Frames(nFast, nSlow));
    InvGivesCxlExact(s, Frames(nFast, nSlow));
    InvGivesPaExact(s, Frames(nFast, nSlow));
    UnfoldInv(s, Frames(nFast, nSlow));
  }

  /** Over every run, two migrations of one page are at least five epochs apart unless the
      earlier one was in epoch 0. */
  lemma MigrationsAreSpaced(nFast: nat, nSlow: nat, run: seq<Op>, i: nat, j: nat)
    requires PossibleFromStart(nFast, nSlow, run)
    requires var log := Reached(nFast, nSlow, run).log;
      i < j < |log| && log[i].0 == log[j].0 && log[i].1 > 0
    ensures var log := Reached(nFast, nSlow, run).log; log[j].1 >= log[i].1 + 5
  {
    var s := Reached(nFast, nSlow, run);
    UnfoldInv(s, Frames(nFast, nSlow));
    assert LogInv(s.page, s.log, s.epoch);
  }

  /** The two branches marked as suspected bugs: an offset to be added is never there already,
      and a slow page to be removed is always indexed. */
  lemma SuspectedBugsUnreachable(s: State, frames: set<Frame>, pid: Pid)
    requires Inv(s, frames)
    ensures forall p | 0 <= p < |s.page| && !s.page[p].present && !s.page[p].frame.fast ::
      (pid, s.page[p].frame.offset) !in s.cxl && s.page[p].entry == None
    ensures forall p | 0 <= p < |s.page| && Live(s.page[p]) && !s.page[p].frame.fast ::
      (s.page[p].pid, s.page[p].frame.offset) in s.cxl
  {
    UnfoldInv(s, frames);
    forall p | 0 <= p < |s.page| && !s.page[p].present && !s.page[p].frame.fast
      ensures (pid, s.page[p].frame.offset) !in s.cxl && s.page[p].entry == None
    {
      OffsetUnused(s, frames, p, pid);
      assert PageOk(s.page[p], s.proc.Keys);
    }
    InvGivesCxlExact(s, frames);
  }

  // ---------------------------------------------------------------------------
  // Why the ring has to be drained first

  predicate SameTimes(page: seq<Page>, page': seq<Page>) {
    |page| == |page'| && forall p | 0 <= p < |page| :: page[p].lastMigrated == page'[p].lastMigrated
  }

  lemma {:induction false} SameFirst(page: seq<Page>, page': seq<Page>, list: seq<PageId>, epoch: nat)
    requires SameTimes(page, page')
    ensures FirstEligible(page, list, epoch) == FirstEligible(page', list, epoch)
  {
    if list != [] { SameFirst(page, page', list[1..], epoch); }
  }

  lemma {:induction false} SameColdest(s: State, t: State, pid: Pid, level: nat, limit: nat)
    requires SameTimes(s.page, t.page) && s.lists == t.lists && s.epoch == t.epoch && level <= limit
    ensures ColdestFast(s, pid, level, limit) == ColdestFast(t, pid, level, limit)
    decreases limit - level
  {
    if level < limit {
      SameFirst(s.page, t.page, At(s.lists, Hot(pid, true, level)), s.epoch);
      SameColdest(s, t, pid, level + 1, limit);
    }
  }

  lemma {:induction false} SameHottest(s: State, t: State, pid: Pid, level: nat)
    requires SameTimes(s.page, t.page) && s.lists == t.lists && s.epoch == t.epoch
    ensures HottestSlow(s, pid, level) == HottestSlow(t, pid, level)
  {
    if level > 0 {
      SameFirst(s.page, t.page, At(s.lists, Hot(pid, false, level - 1)), s.epoch);
      SameHottest(s, t, pid, level - 1);
    }
  }

  /** Asking for the candidate to be freed leaves it the candidate, now waiting. */
  lemma StillPicked(s: State, frames: set<Frame>, pid: Pid, up: bool, level: nat)
    requires CanMigrate(s, frames, pid, up, level)
    requires Picked(s, pid, up) < |s.page| && Live(s.page[Picked(s, pid, up)])
    ensures var p := Picked(s, pid, up); var s' := DeallocateStep(s, frames, pid, s.page[p].va);
      && CanMigrate(s', frames, pid, up, level) && s'.lists == s.lists
      && Picked(s', pid, up) == p && |s'.page| == |s.page| && s'.page[p].inFreeRing
  {
    PickedIs(s, frames, pid, up, level);
    var p := Picked(s, pid, up);
    LookupFinds(s, frames, p);
    RemoveReady(s, frames, pid, p);
    RemoveEffect(s, pid, p);
    SameColdest(s, DeallocateStep(s, frames, pid, s.page[p].va), pid, 0, MAX_DEMOTION_TIER);
    SameHottest(s, DeallocateStep(s, frames, pid, s.page[p].va), pid, LEVELS);
  }

  /** A free request for the page that would be demoted next does not change the pick, and
      demoting it then breaks the invariant: from every state with a live candidate and a
      free slow page. */
  lemma FreeRequestBeforeDemotion(s: State, frames: set<Frame>, pid: Pid, level: nat)
    requires CanMigrate(s, frames, pid, false, level) && At(s.lists, Free(false)) != []
    requires Picked(s, pid, false) < |s.page| && Live(s.page[Picked(s, pid, false)])
    ensures var p := Picked(s, pid, false); var s' := DeallocateStep(s, frames, pid, s.page[p].va);
      && CanMigrate(s', frames, pid, false, level) && ListsInRange(s')
      && !Inv(MigrateOne(s', pid, false, level), frames)
  {
    StillPicked(s, frames, pid, false, level);
    DemotionIsSafeExactlyWhen(DeallocateStep(s, frames, pid, s.page[Picked(s, pid, false)].va), frames, pid, level);
  }

  /** Nor does one for the page that would be promoted next, and promoting it then deletes an
      entry that is not there: from every state with a live candidate. */
  lemma FreeRequestBeforePromotion(s: State, frames: set<Frame>, pid: Pid, level: nat)
    requires CanMigrate(s, frames, pid, true, level)
    requires Picked(s, pid, true) < |s.page| && Live(s.page[Picked(s, pid, true)])
    ensures var p := Picked(s, pid, true); var s' := DeallocateStep(s, frames, pid, s.page[p].va);
      && CanMigrate(s', frames, pid, true, level) && Picked(s', pid, true) == p
      && HasEntry(s.cxl, p) && !HasEntry(s'.cxl, p)
  {
    StillPicked(s, frames, pid, true, level);
    PromotionIsDefinedExactlyWhen(s, frames, pid, level);
    PromotionIsDefinedExactlyWhen(DeallocateStep(s, frames, pid, s.page[Picked(s, pid, true)].va), frames, pid, level);
  }

  // ---------------------------------------------------------------------------
  // Epoch 0 counts as never

  /** p is the one page in use: of the process, on the given tier, with a record of its last
      migration, and with nothing waiting to be freed. */
  ghost predicate Lone(s: State, pid: Pid, p: PageId, fast: bool, last: nat, epoch: nat) {
    && p < |s.page| && s.page[p].present && s.page[p].pid == pid && s.page[p].frame.fast == fast
    && s.page[p].lastMigrated == last && s.page[p].hot < MAX_DEMOTION_TIER && !s.page[p].inFreeRing
    && (forall q | 0 <= q < |s.page| && q != p :: !s.page[q].present)
    && s.epoch == epoch && pid in s.proc && pid in s.ring && s.ring[pid] == []
  }

  /** Then p is the candidate, if its last migration is no record or five epochs ago. */
  lemma LoneIsPicked(s: State, frames: set<Frame>, pid: Pid, p: PageId, up: bool, last: nat, epoch: nat)
    requires Inv(s, frames) && Lone(s, pid, p, !up, last, epoch) && (last == 0 || epoch >= last + 5)
    ensures CanMigrate(s, frames, pid, up, 0) && Picked(s, pid, up) == p
  {
    OnHomeList(s, frames, p);
    var id := Hot(pid, !up, s.page[p].hot);
    var k :| 0 <= k < |At(s.lists, id)| && At(s.lists, id)[k] == p;
    assert EligibleAt(s, id, k);
    if up { HottestSlowIsHottest(s, pid, LEVELS); } else { ColdestFastIsColdest(s, pid, 0, MAX_DEMOTION_TIER); }
    PickedIs(s, frames, pid, up, 0);
  }

  lemma FreedIsListed(s: State, pid: Pid, up: bool, level: nat)
    requires Candidate(s, pid, up).Some? && At(Picking(s, pid, up), Free(up)) != []
    ensures At(ListsAfter(s, pid, up, level), Free(!up)) != []
  {}

  /** A turn migrates it, records the epoch, and leaves it the one page in use. */
  lemma LoneTurn(s: State, frames: set<Frame>, pid: Pid, p: PageId, up: bool, last: nat, epoch: nat)
    requires Inv(s, frames) && Lone(s, pid, p, !up, last, epoch) && (last == 0 || epoch >= last + 5)
    requires At(s.lists, Free(up)) != []
    ensures var s' := MigrateStep(s, frames, pid, up, 0);
      s'.log == s.log + [(p, epoch)] && Lone(s', pid, p, up, epoch, epoch) && At(s'.lists, Free(!up)) != []
  {
    LoneIsPicked(s, frames, pid, p, up, last, epoch);
    PickedIs(s, frames, pid, up, 0);
    OldestIsFree(s, frames, up);
    MigrateEffect(s, frames, pid, up, 0);
    FreedIsListed(s, pid, up, 0);
  }

  /** No page is in use, and the process has just started. */
  ghost predicate Unused(s: State, pid: Pid) {
    && (forall q | 0 <= q < |s.page| :: s.page[q] == FreshPage(s.page[q].frame))
    && s.va == map[] && s.log == [] && s.epoch == 0 && pid in s.proc && pid in s.ring && s.ring[pid] == []
    && At(s.lists, Free(true)) != [] && At(s.lists, Free(false)) != []
  }

  lemma JustStarted(nFast: nat, nSlow: nat, pid: Pid)
    requires nFast > 0 && nSlow > 0 && pid >= 0 && Inv(Init(nFast, nSlow), Frames(nFast, nSlow))
    ensures Unused(Next(Init(nFast, nSlow), Frames(nFast, nSlow), Start(pid, 0)), pid)
  {
    var s := Init(nFast, nSlow);
    forall q | 0 <= q < |s.page| ensures s.page[q] == FreshPage(s.page[q].frame) { InitPage(nFast, nSlow, q); }
  }

  /** The first page taken is the one in use. */
  lemma FirstTaken(s: State, frames: set<Frame>, pid: Pid, va: nat)
    requires Inv(s, frames) && Unused(s, pid)
    ensures Oldest(s, false) < |s.page|
    ensures var t := TakePage(s, pid, va, false);
      Lone(t, pid, Oldest(s, false), false, 0, 0) && t.log == [] && At(t.lists, Free(true)) != []
  {
    TakeEffect(s, frames, pid, va, false);
    OldestIsFree(s, frames, false);
  }

  /** Init, one process, one page on the slow tier. */
  lemma FirstPage(nFast: nat, nSlow: nat, pid: Pid, va: nat) returns (s: State, p: PageId)
    requires nFast > 0 && nSlow > 0 && pid >= 0
    ensures var run := [Start(pid, 0), Allocate(pid, va, SlowPreferred)];
      PossibleFromStart(nFast, nSlow, run) && Reached(nFast, nSlow, run) == s
    ensures Inv(s, Frames(nFast, nSlow)) && Lone(s, pid, p, false, 0, 0) && s.log == [] && At(s.lists, Free(true)) != []
  {
    var frames := Frames(nFast, nSlow);
    var s0 := Init(nFast, nSlow);
    InitIsGood(nFast, nSlow);
    var s1 := Next(s0, frames, Start(pid, 0));
    JustStarted(nFast, nSlow, pid);
    p := Oldest(s1, false);
    FirstTaken(s1, frames, pid, va);
    s := Next(s1, frames, Allocate(pid, va, SlowPreferred));
    RunOfTwo(s0, frames, Start(pid, 0), Allocate(pid, va, SlowPreferred));
  }

  /** Up and down again. */
  lemma TwoTurns(s: State, frames: set<Frame>, pid: Pid, p: PageId)
    requires Inv(s, frames) && Lone(s, pid, p, false, 0, 0) && s.log == [] && At(s.lists, Free(true)) != []
    ensures var run := [MigrateTo(pid, true, 0), MigrateTo(pid, false, 0)];
      Possible(s, frames, run) && After(s, frames, run).log == [(p, 0), (p, 0)]
  {
    LoneTurn(s, frames, pid, p, true, 0, 0);
    LoneTurn(MigrateStep(s, frames, pid, true, 0), frames, pid, p, false, 0, 0);
    RunOfTwo(s, frames, MigrateTo(pid, true, 0), MigrateTo(pid, false, 0));
  }

  lemma RunOfTwo(s: State, frames: set<Frame>, a: Op, b: Op)
    requires Inv(s, frames) && Allowed(s, a) && Allowed(Next(s, frames, a), b)
    ensures Possible(s, frames, [a, b]) && After(s, frames, [a, b]) == Next(Next(s, frames, a), frames, b)
  {
    var s1 := Next(s, frames, a);
    assert [a, b][1..] == [b] && [b][1..] == [];
    assert After(s1, frames, [b]) == After(Next(s1, frames, b), frames, []);
  }

  lemma {:induction false} RunsJoin(s: State, frames: set<Frame>, run: seq<Op>, more: seq<Op>)
    requires Inv(s, frames) && Possible(s, frames, run) && Possible(After(s, frames, run), frames, more)
    ensures Possible(s, frames, run + more)
    ensures After(s, frames, run + more) == After(After(s, frames, run), frames, more)
    decreases |run|
  {
    if run == [] {
      assert run + more == more;
    } else {
      RunsJoin(Next(s, frames, run[0]), frames, run[1..], more);
      assert (run + more)[1..] == run[1..] + more && (run + more)[0] == run[0];
    }
  }

  /** The spacing does not hold from epoch 0 on: whatever the number of huge pages, there is a run
      that migrates a page twice in epoch 0. */
  lemma MigratedTwiceInEpochZero(nFast: nat, nSlow: nat, pid: Pid, va: nat) returns (run: seq<Op>, p: PageId)
    requires nFast > 0 && nSlow > 0 && pid >= 0
    ensures PossibleFromStart(nFast, nSlow, run) && Reached(nFast, nSlow, run).log == [(p, 0), (p, 0)]
  {
    var frames := Frames(nFast, nSlow);
    InitIsGood(nFast, nSlow);
    var s;
    s, p := FirstPage(nFast, nSlow, pid, va);
    TwoTurns(s, frames, pid, p);
    var first := [Start(pid, 0), Allocate(pid, va, SlowPreferred)];
    var more := [MigrateTo(pid, true, 0), MigrateTo(pid, false, 0)];
    RunsJoin(Init(nFast, nSlow), frames, first, more);
    run := first + more;
  }

  // ---------------------------------------------------------------------------
  // Five epochs are enough

  lemma {:induction false} EpochsPass(s: State, frames: set<Frame>, n: nat) returns (run: seq<Op>)
    requires Inv(s, frames)
    ensures Possible(s, frames, run) && After(s, frames, run) == s.(epoch := s.epoch + n)
    decreases n
  {
    run := [];
    if n > 0 {
      var later := EpochsPass(Next(s, frames, Epoch), frames, n - 1);
      run := [Epoch] + later;
      assert run[1..] == later;
    }
  }

  /** The one page in use has migrated in the given epoch. */
  ghost predicate HasMigrated(s: State, s': State, pid: Pid, p: PageId, up: bool, epoch: nat) {
    s'.log == s.log + [(p, epoch)] && Lone(s', pid, p, up, epoch, epoch) && At(s'.lists, Free(!up)) != []
  }

  lemma MigratesNow(s: State, frames: set<Frame>, pid: Pid, p: PageId, up: bool, last: nat, epoch: nat)
    returns (run: seq<Op>)
    requires Inv(s, frames) && Lone(s, pid, p, !up, last, epoch) && (last == 0 || epoch >= last + 5)
    requires At(s.lists, Free(up)) != []
    ensures Possible(s, frames, run) && HasMigrated(s, After(s, frames, run), pid, p, up, epoch)
  {
    LoneTurn(s, frames, pid, p, up, last, epoch);
    RunOfOne(s, frames, MigrateTo(pid, up, 0));
    run := [MigrateTo(pid, up, 0)];
  }

  lemma RunOfOne(s: State, frames: set<Frame>, op: Op)
    requires Inv(s, frames) && Allowed(s, op)
    ensures Possible(s, frames, [op]) && After(s, frames, [op]) == Next(s, frames, op)
  {
    assert [op][1..] == [];
    assert After(Next(s, frames, op), frames, []) == Next(s, frames, op);
  }

  /** Some epochs, then a migration. */
  lemma MigratesLater(s: State, frames: set<Frame>, pid: Pid, p: PageId, up: bool, last: nat, epoch: nat, n: nat)
    returns (run: seq<Op>)
    requires Inv(s, frames) && Lone(s, pid, p, !up, last, epoch) && (last == 0 || epoch + n >= last + 5)
    requires At(s.lists, Free(up)) != []
    ensures Possible(s, frames, run) && HasMigrated(s, After(s, frames, run), pid, p, up, epoch + n)
  {
    var wait := EpochsPass(s, frames, n);
    var move := MigratesNow(After(s, frames, wait), frames, pid, p, up, last, epoch + n);
    RunsJoin(s, frames, wait, move);
    run := wait + move;
  }

  /** Up in epoch e and down five epochs later. */
  lemma UpAndDown(s: State, frames: set<Frame>, pid: Pid, p: PageId, e: nat) returns (run: seq<Op>)
    requires Inv(s, frames) && Lone(s, pid, p, false, 0, 0) && s.log == [] && At(s.lists, Free(true)) != []
    ensures Possible(s, frames, run) && After(s, frames, run).log == [(p, e), (p, e + 5)]
  {
    var up := MigratesLater(s, frames, pid, p, true, 0, 0, e);
    var down := MigratesLater(After(s, frames, up), frames, pid, p, false, e, e, 5);
    RunsJoin(s, frames, up, down);
    run := up + down;
  }

  /** The spacing is no larger than five: whatever the epoch of its first migration, there is a run
      that migrates a page again five epochs later. */
  lemma MigratedAgainAfterFive(nFast: nat, nSlow: nat, pid: Pid, va: nat, e: nat) returns (run: seq<Op>, p: PageId)
    requires nFast > 0 && nSlow > 0 && pid >= 0
    ensures PossibleFromStart(nFast, nSlow, run) && Reached(nFast, nSlow, run).log == [(p, e), (p, e + 5)]
  {
    var frames := Frames(nFast, nSlow);
    InitIsGood(nFast, nSlow);
    var s;
    s, p := FirstPage(nFast, nSlow, pid, va);
    var first := [Start(pid, 0), Allocate(pid, va, SlowPreferred)];
    var more := UpAndDown(s, frames, pid, p, e);
    RunsJoin(Init(nFast, nSlow), frames, first, more);
    run := first + more;
  }
}
