/** What each operation of the manager does, in terms of fields, list order and numbers. */
module UcmEffects {
  import opened UcmState
  import opened UcmInvariant
  import opened UcmSafety
  import opened UcmMigration
  import opened UcmRuns
  import opened UcmEpoch

  /** One entry has gone from position k of one list to the front of another, and nothing else has
      changed place. */
  ghost predicate Relinked(l: map<ListId, seq<PageId>>, l': map<ListId, seq<PageId>>, from: ListId, k: nat,
    to: ListId) {
    && k < |At(l, from)| && from != to
    && At(l', from) == At(l, from)[..k] + At(l, from)[k + 1..]
    && At(l', to) == [At(l, from)[k]] + At(l, to)
    && (forall id | id != from && id != to :: At(l', id) == At(l, id))
  }

  lemma RelinkedBy(l: map<ListId, seq<PageId>>, from: ListId, k: nat, to: ListId)
    requires k < |At(l, from)| && from != to
    ensures Relinked(l, Enqueue(Unlink(l, from, k), to, At(l, from)[k]), from, k, to)
  {}

  // ---------------------------------------------------------------------------
  // Allocation

  /** The fast tier is taken: preferred and below the limit, or for want of a slow page. */
  ghost predicate GoesFast(s: State, pid: Pid, pref: Preference)
    requires pid in s.proc
  {
    && At(s.lists, Free(true)) != []
    && (pref == FastPreferred ==> s.proc[pid].fastBytes < s.proc[pid].maxFast)
    && (pref == SlowPreferred ==> At(s.lists, Free(false)) == [])
  }

  /** The free page that has waited longest on the tier becomes the page at va, in front of the
      coldest list. */
  ghost predicate TookOldest(s: State, s': State, pid: Pid, va: nat, fast: bool)
    requires pid in s.proc
  {
    var k := |At(s.lists, Free(fast))| - 1;
    && k >= 0 && At(s.lists, Free(fast))[k] < |s.page|
    && var p := At(s.lists, Free(fast))[k];
       && !s.page[p].present && s.page[p].frame.fast == fast
       && s'.page == s.page[p := s.page[p].(present := true, pid := pid, va := va,
                                            entry := if fast then None else Some(pid))]
       && Relinked(s.lists, s'.lists, Free(fast), k, Hot(pid, fast, 0))
       && s'.va == s.va[(pid, va) := p]
       && pid in s'.proc && s'.proc[pid].maxFast == s.proc[pid].maxFast
       && s'.proc[pid].fastBytes == s.proc[pid].fastBytes + (if fast then 2097152 else 0)
       && s'.proc[pid].slowBytes == s.proc[pid].slowBytes + (if fast then 0 else 2097152)
       && (forall other | other in s.proc && other != pid :: other in s'.proc && s'.proc[other] == s.proc[other])
       && s'.proc.Keys == s.proc.Keys
  }

  lemma TakeTakesOldest(s: State, frames: set<Frame>, pid: Pid, va: nat, fast: bool)
    requires CanTake(s, frames, pid, va, fast)
    ensures Oldest(s, fast) < |s.page| && TookOldest(s, TakePage(s, pid, va, fast), pid, va, fast)
  {
    OldestIsFree(s, frames, fast);
    TakeEffect(s, frames, pid, va, fast);
    RelinkedBy(s.lists, Free(fast), |At(s.lists, Free(fast))| - 1, Hot(pid, fast, 0));
  }

  /** One page of an allocation: the tier it comes from, or no page at all. */
  lemma AllocationEffect(s: State, frames: set<Frame>, pid: Pid, va: nat, pref: Preference)
    requires Inv(s, frames) && pid in s.proc && (pid, va) !in s.va
    ensures var s' := AllocateStep(s, frames, pid, va, pref);
      if GoesFast(s, pid, pref) then TookOldest(s, s', pid, va, true)
      else if At(s.lists, Free(false)) != [] then TookOldest(s, s', pid, va, false)
      else s' == s
  {
    if GoesFast(s, pid, pref) {
      TakeTakesOldest(s, frames, pid, va, true);
    } else if At(s.lists, Free(false)) != [] {
      TakeTakesOldest(s, frames, pid, va, false);
    }
  }

  // ---------------------------------------------------------------------------
  // Hot and cold requests

  /** A page in use is at the level asked for, in front of its list if it had to move; a freed one
      is left alone. */
  ghost predicate AtLevel(s: State, s': State, p: PageId, level: nat)
    requires p < |s.page|
  {
    if !s.page[p].present then s' == s
    else
      var g := s.page[p];
      var from, to := Hot(g.pid, g.frame.fast, g.hot), Hot(g.pid, g.frame.fast, level);
      && s' == s.(page := s.page[p := g.(hot := level)], lists := s'.lists)
      && p in At(s'.lists, to)
      && (g.hot == level ==> s'.lists == s.lists)
      && (g.hot != level ==>
            exists k: nat :: k < |At(s.lists, from)| && At(s.lists, from)[k] == p
                             && Relinked(s.lists, s'.lists, from, k, to))
  }

  lemma RequestEffect(s: State, frames: set<Frame>, p: PageId, level: nat)
    requires Inv(s, frames) && p < |s.page| && level < LEVELS
    ensures AtLevel(s, TelemetryStep(s, frames, p, level), p, level)
  {
    var g := s.page[p];
    if g.present {
      OnHomeList(s, frames, p);
      var from, to := Hot(g.pid, g.frame.fast, g.hot), Hot(g.pid, g.frame.fast, level);
      if g.hot != level {
        var k := IndexOf(At(s.lists, from), p);
        RelinkedBy(s.lists, from, k, to);
      } else {
        assert s.page[p := g.(hot := level)] == s.page;
      }
    }
  }

  // ---------------------------------------------------------------------------
  // Freeing

  /** A page that is freed leaves the indexes, keeps its place and its bytes, and waits behind the
      others of its process. */
  lemma DeallocationEffect(s: State, frames: set<Frame>, pid: Pid, va: nat)
    requires Inv(s, frames)
    ensures var s' := DeallocateStep(s, frames, pid, va);
      if (pid, va) !in s.va then s' == s
      else
        var p := s.va[(pid, va)];
        && p < |s.page| && pid in s.ring && s.page[p].present && s.page[p].pid == pid && s.page[p].va == va
        && s'.page == s.page[p := s.page[p].(inFreeRing := true, entry := None)]
        && s'.ring == s.ring[pid := s.ring[pid] + [p]]
        && (forall k :: k in s'.va <==> k in s.va && k != (pid, va))
        && (forall k :: k in s'.cxl <==> k in s.cxl && s.cxl[k] != p)
        && s'.lists == s.lists && s'.proc == s.proc
  {
    if (pid, va) in s.va {
      Indexed(s, frames, pid, va);
      var p := s.va[(pid, va)];
      RemovalIs(s, frames, pid, p);
      OneKey(s, frames, pid, va);
    }
  }

  lemma RemovalIs(s: State, frames: set<Frame>, pid: Pid, p: PageId)
    requires CanRemove(s, frames, pid, p)
    ensures pid in s.ring
    ensures var s' := RemovePage(s, pid, p);
      && s'.page == s.page[p := s.page[p].(inFreeRing := true, entry := None)]
      && s'.va == DeleteEntry(s.va, p) && s'.cxl == DeleteEntry(s.cxl, p)
      && s'.ring == s.ring[pid := s.ring[pid] + [p]] && s'.lists == s.lists && s'.proc == s.proc
  {
    RemoveReady(s, frames, pid, p);
    RemoveEffect(s, pid, p);
  }

  /** Only one address leads to a page. */
  lemma OneKey(s: State, frames: set<Frame>, pid: Pid, va: nat)
    requires Inv(s, frames) && (pid, va) in s.va
    ensures s.va[(pid, va)] < |s.page| && s.page[s.va[(pid, va)]].va == va
    ensures forall k | k in s.va && s.va[k] == s.va[(pid, va)] :: k == (pid, va)
  {
    UnfoldInv(s, frames);
    assert VaKey(s.page[s.va[(pid, va)]]) == Some((pid, va));
  }

  // ---------------------------------------------------------------------------
  // Draining

  /** The page that has waited longest is free again, in front of the free list of its tier. */
  lemma DrainEffect(s: State, frames: set<Frame>, pid: Pid)
    requires Inv(s, frames) && pid in s.ring && s.ring[pid] != []
    ensures pid in s.proc && s.ring[pid][0] < |s.page|
    ensures var p := s.ring[pid][0]; var g := s.page[p]; var s' := DrainStep(s, frames, pid);
      && s'.ring == s.ring[pid := s.ring[pid][1..]]
      && s'.page == s.page[p := g.(present := false, pid := -1, hot := 0, samples := 0, inFreeRing := false)]
      && (exists k: nat :: k < |At(s.lists, Hot(pid, g.frame.fast, g.hot))|
            && At(s.lists, Hot(pid, g.frame.fast, g.hot))[k] == p
            && Relinked(s.lists, s'.lists, Hot(pid, g.frame.fast, g.hot), k, Free(g.frame.fast)))
      && s'.va == s.va && s'.cxl == s.cxl && s'.pa == s.pa && s'.epoch == s.epoch
      && pid in s'.proc
      && s'.proc[pid].fastBytes == s.proc[pid].fastBytes - (if g.frame.fast then 2097152 else 0)
      && s'.proc[pid].slowBytes == s.proc[pid].slowBytes - (if g.frame.fast then 0 else 2097152)
  {
    DrainReady(s, frames, pid);
    var p := s.ring[pid][0];
    var g := s.page[p];
    var k := IndexOf(At(s.lists, Home(g)), p);
    RelinkedBy(s.lists, Home(g), k, Free(g.frame.fast));
  }

  // ---------------------------------------------------------------------------
  // Candidates

  /** A page in use by the process on the tier, never migrated or not for five epochs. */
  ghost predicate MayMove(s: State, pid: Pid, fast: bool, p: PageId) {
    && p < |s.page| && s.page[p].present && s.page[p].pid == pid && s.page[p].frame.fast == fast
    && (s.page[p].lastMigrated == 0 || s.epoch >= s.page[p].lastMigrated + 5)
  }

  /** Such a page is on its list, where the finders look. */
  lemma Findable(s: State, frames: set<Frame>, pid: Pid, fast: bool, p: PageId) returns (k: nat)
    requires Inv(s, frames) && MayMove(s, pid, fast, p)
    ensures EligibleAt(s, Hot(pid, fast, s.page[p].hot), k) && s.page[p].hot < 12
  {
    OnHomeList(s, frames, p);
    InUse(s, frames, p);
    k := IndexOf(At(s.lists, Hot(pid, fast, s.page[p].hot)), p);
  }

  lemma InUse(s: State, frames: set<Frame>, p: PageId)
    requires Inv(s, frames) && p < |s.page| && s.page[p].present
    ensures s.page[p].hot < 12
  {
    UnfoldInv(s, frames);
    assert PageOk(s.page[p], s.proc.Keys);
  }

  /** What the finders find is such a page at its level. */
  lemma Found(s: State, frames: set<Frame>, pid: Pid, fast: bool, level: nat, k: nat)
    requires Inv(s, frames) && EligibleAt(s, Hot(pid, fast, level), k)
    ensures var p := At(s.lists, Hot(pid, fast, level))[k]; MayMove(s, pid, fast, p) && s.page[p].hot == level
  {
    UnfoldInv(s, frames);
    ListEntry(s.page, s.lists, Hot(pid, fast, level), k);
  }

  /** The candidate for promotion may move, and no page that may move is hotter; there is none if
      and only if every slow page of the process has migrated less than five epochs ago. */
  lemma PromotionCandidate(s: State, frames: set<Frame>, pid: Pid)
    requires Inv(s, frames)
    ensures var r := HottestSlow(s, pid, LEVELS);
      && (r.None? <==>
            forall p | 0 <= p < |s.page| && s.page[p].present && s.page[p].pid == pid && !s.page[p].frame.fast ::
              s.page[p].lastMigrated > 0 && s.epoch < s.page[p].lastMigrated + 5)
      && (r.Some? ==>
            var p := At(s.lists, Hot(pid, false, r.value.level))[r.value.k];
            MayMove(s, pid, false, p) && forall q: PageId | MayMove(s, pid, false, q) :: s.page[q].hot <= s.page[p].hot)
  {
    HottestSlowIsHottest(s, pid, LEVELS);
    var r := HottestSlow(s, pid, LEVELS);
    forall q: PageId | MayMove(s, pid, false, q) ensures r.Some? && s.page[q].hot <= r.value.level {
      var k := Findable(s, frames, pid, false, q);
    }
    if r.Some? {
      Found(s, frames, pid, false, r.value.level, r.value.k);
    } else {
      forall p | 0 <= p < |s.page| && s.page[p].present && s.page[p].pid == pid && !s.page[p].frame.fast
        ensures s.page[p].lastMigrated > 0 && s.epoch < s.page[p].lastMigrated + 5
      {
        assert !MayMove(s, pid, false, p);
      }
    }
  }

  /** The candidate for demotion is below level 10 and may move, and no page that may move is
      colder; there is none if and only if every fast page of the process below level 10 has
      migrated less than five epochs ago. */
  lemma DemotionCandidate(s: State, frames: set<Frame>, pid: Pid)
    requires Inv(s, frames)
    ensures var r := ColdestFast(s, pid, 0, MAX_DEMOTION_TIER);
      && (r.None? <==>
            forall p | 0 <= p < |s.page| && s.page[p].present && s.page[p].pid == pid && s.page[p].frame.fast
              && s.page[p].hot < 10 ::
              s.page[p].lastMigrated > 0 && s.epoch < s.page[p].lastMigrated + 5)
      && (r.Some? ==>
            var p := At(s.lists, Hot(pid, true, r.value.level))[r.value.k];
            && MayMove(s, pid, true, p) && s.page[p].hot < 10
            && forall q: PageId | MayMove(s, pid, true, q) :: s.page[p].hot <= s.page[q].hot)
  {
    ColdestFastIsColdest(s, pid, 0, MAX_DEMOTION_TIER);
    var r := ColdestFast(s, pid, 0, MAX_DEMOTION_TIER);
    forall q: PageId | MayMove(s, pid, true, q) && s.page[q].hot < 10
      ensures r.Some? && r.value.level <= s.page[q].hot {
      var k := Findable(s, frames, pid, true, q);
    }
    if r.Some? {
      Found(s, frames, pid, true, r.value.level, r.value.k);
    } else {
      forall p | 0 <= p < |s.page| && s.page[p].present && s.page[p].pid == pid && s.page[p].frame.fast
        && s.page[p].hot < 10
        ensures s.page[p].lastMigrated > 0 && s.epoch < s.page[p].lastMigrated + 5
      {
        assert !MayMove(s, pid, true, p);
      }
    }
  }

  // ---------------------------------------------------------------------------
  // A turn of a migration loop

  /** p and the longest free page of the other tier have traded frames; p has gone from its place
      to the front of the list for its level on the other tier, the other page to the front of the
      free list it now belongs on. */
  ghost predicate TradedFrames(s: State, s': State, pid: Pid, up: bool, k: nat, p: PageId, level: nat)
    requires pid in s.proc && p < |s.page|
  {
    var n := |At(s.lists, Free(up))| - 1;
    && n >= 0 && At(s.lists, Free(up))[n] < |s.page|
    && var q, g := At(s.lists, Free(up))[n], s.page[p];
       var from, to := Hot(pid, !up, g.hot), Hot(pid, up, level);
       && s.page[q].frame.fast == up && !s.page[q].present
       && s'.page == s.page[p := g.(frame := s.page[q].frame, hot := level, lastMigrated := s.epoch,
                                    entry := if up then None else Some(pid))][q := s.page[q].(frame := g.frame)]
       && k < |At(s.lists, from)| && At(s.lists, from)[k] == p
       && At(s'.lists, from) == At(s.lists, from)[..k] + At(s.lists, from)[k + 1..]
       && At(s'.lists, to) == [p] + At(s.lists, to)
       && At(s'.lists, Free(up)) == At(s.lists, Free(up))[..n]
       && At(s'.lists, Free(!up)) == [q] + At(s.lists, Free(!up))
       && (forall id | id != from && id != to && !id.Free? :: At(s'.lists, id) == At(s.lists, id))
       && s'.proc.Keys == s.proc.Keys
       && s'.proc[pid].fastBytes == s.proc[pid].fastBytes + (if up then 2097152 else -2097152)
       && s'.proc[pid].slowBytes == s.proc[pid].slowBytes - (if up then 2097152 else -2097152)
       && s'.proc[pid].maxFast == s.proc[pid].maxFast
       && (forall other | other in s.proc && other != pid :: s'.proc[other] == s.proc[other])
       && s'.va == s.va && s'.ring == s.ring && s'.epoch == s.epoch && s'.log == s.log + [(p, s.epoch)]
  }

  /** With no free page on the other tier p goes back in front of the list for its level. */
  ghost predicate WentBack(s: State, s': State, pid: Pid, up: bool, k: nat, p: PageId, level: nat)
    requires p < |s.page|
  {
    var g := s.page[p];
    var from, to := Hot(pid, !up, g.hot), Hot(pid, !up, level);
    && s' == s.(page := s.page[p := g.(hot := level)], lists := s'.lists)
    && k < |At(s.lists, from)| && At(s.lists, from)[k] == p
    && var rest := At(s.lists, from)[..k] + At(s.lists, from)[k + 1..];
       && (from != to ==> At(s'.lists, from) == rest)
       && At(s'.lists, to) == [p] + (if from == to then rest else At(s.lists, to))
       && (forall id | id != from && id != to :: At(s'.lists, id) == At(s.lists, id))
  }

  lemma TradedLists(s: State, pid: Pid, up: bool, level: nat)
    requires Candidate(s, pid, up).Some? && At(Picking(s, pid, up), Free(up)) == At(s.lists, Free(up)) != []
    ensures var pick := Candidate(s, pid, up).value; var l, l' := s.lists, ListsAfter(s, pid, up, level);
      var from, to := Hot(pid, !up, pick.level), Hot(pid, up, HotAfter(s, pid, up, level));
      var n := |At(l, Free(up))| - 1;
      && At(l', from) == At(l, from)[..pick.k] + At(l, from)[pick.k + 1..]
      && At(l', to) == [Picked(s, pid, up)] + At(l, to)
      && At(l', Free(up)) == At(l, Free(up))[..n]
      && At(l', Free(!up)) == [At(l, Free(up))[n]] + At(l, Free(!up))
      && (forall id | id != from && id != to && !id.Free? :: At(l', id) == At(l, id))
  {
    var free := At(s.lists, Free(up));
    assert free[|free|..] == [];
  }

  lemma SwapTrades(s: State, pid: Pid, up: bool, k: nat, p: PageId, level: nat, lists: map<ListId, seq<PageId>>)
    requires pid in s.proc && p < |s.page| && At(s.lists, Free(up)) != [] && Oldest(s, up) < |s.page|
    requires var q := Oldest(s, up); p != q && s.page[q].frame.fast == up && !s.page[q].present
    requires s.page[p].pid == pid
    requires var l, l', from, to, n := s.lists, lists, Hot(pid, !up, s.page[p].hot), Hot(pid, up, level),
                                       |At(s.lists, Free(up))| - 1;
      && k < |At(l, from)| && At(l, from)[k] == p && At(l', from) == At(l, from)[..k] + At(l, from)[k + 1..]
      && At(l', to) == [p] + At(l, to) && At(l', Free(up)) == At(l, Free(up))[..n]
      && At(l', Free(!up)) == [At(l, Free(up))[n]] + At(l, Free(!up))
      && (forall id | id != from && id != to && !id.Free? :: At(l', id) == At(l, id))
    ensures TradedFrames(s, Swap(s, pid, up, p, Oldest(s, up), level).(lists := lists), pid, up, k, p, level)
  {}

  lemma TurnTrades(s: State, frames: set<Frame>, pid: Pid, up: bool, heat: seq<nat>)
    requires Ready(s, frames, pid, heat) && Moves(s, pid, up)
    ensures Picked(s, pid, up) < |s.page|
    ensures TradedFrames(s, Turn(s, frames, pid, up, heat), pid, up, Candidate(s, pid, up).value.k, Picked(s, pid, up),
                         HotAfter(s, pid, up, LevelNow(s, frames, pid, up, heat)))
  {
    var level := LevelNow(s, frames, pid, up, heat);
    PickedIs(s, frames, pid, up, level);
    TurnIs(s, frames, pid, up, heat);
    OldestIsFree(s, frames, up);
    TradedLists(s, pid, up, level);
    SwapTrades(s, pid, up, Candidate(s, pid, up).value.k, Picked(s, pid, up), HotAfter(s, pid, up, level),
               ListsAfter(s, pid, up, level));
  }

  lemma TurnGoesBack(s: State, frames: set<Frame>, pid: Pid, up: bool, heat: seq<nat>)
    requires Ready(s, frames, pid, heat) && Candidate(s, pid, up).Some? && At(s.lists, Free(up)) == []
    ensures Picked(s, pid, up) < |s.page|
    ensures WentBack(s, Turn(s, frames, pid, up, heat), pid, up, Candidate(s, pid, up).value.k, Picked(s, pid, up),
                     HotAfter(s, pid, up, LevelNow(s, frames, pid, up, heat)))
  {
    PickedIs(s, frames, pid, up, 0);
    NoRoomIs(s, frames, pid, up, heat);
  }

  /** The candidate found at a place has traded frames or gone back.  A promoted page gets the
      level its counters give now; a demoted one keeps its level. */
  ghost predicate Turned(s: State, s': State, pid: Pid, up: bool, heat: seq<nat>, pick: Pick) {
    && pid in s.proc && pick.k < |At(s.lists, Hot(pid, !up, pick.level))|
    && var p := At(s.lists, Hot(pid, !up, pick.level))[pick.k];
       && p < |s.page| && p < |heat|
       && var level := if up then heat[p] else s.page[p].hot;
          if At(s.lists, Free(up)) != [] then TradedFrames(s, s', pid, up, pick.k, p, level)
          else WentBack(s, s', pid, up, pick.k, p, level)
  }

  lemma TurnEffect(s: State, frames: set<Frame>, pid: Pid, up: bool, heat: seq<nat>)
    requires Ready(s, frames, pid, heat) && Candidate(s, pid, up).Some?
    ensures Turned(s, Turn(s, frames, pid, up, heat), pid, up, heat, Candidate(s, pid, up).value)
  {
    PickedIs(s, frames, pid, up, 0);
    if At(s.lists, Free(up)) != [] {
      TurnTrades(s, frames, pid, up, heat);
    } else {
      TurnGoesBack(s, frames, pid, up, heat);
    }
  }

  // ---------------------------------------------------------------------------
  // The limit on fast memory

  /** Every process is less than a page above its limit. */
  ghost predicate WithinLimits(s: State) {
    forall pid | pid in s.proc :: s.proc[pid].fastBytes < s.proc[pid].maxFast + 2097152
  }

  /** Not an allocation that ignores the limit, and not a promotion. */
  predicate Heeds(op: Op) {
    !(op.Allocate? && op.pref == SlowPreferred) && !(op.MigrateTo? && op.up)
  }

  lemma DemotionHeeds(s: State, frames: set<Frame>, pid: Pid, level: nat)
    requires Inv(s, frames) && Allowed(s, MigrateTo(pid, false, level)) && WithinLimits(s)
    ensures WithinLimits(MigrateStep(s, frames, pid, false, level))
  {
    if Candidate(s, pid, false).Some? {
      HasRing(s, frames, pid);
      DrainedPicksAreLive(s, frames, pid, false, level);
      if At(s.lists, Free(false)) != [] {
        MigrateEffect(s, frames, pid, false, level);
      } else {
        PickingOk(s, frames, pid, false, level);
      }
    }
  }

  lemma AllocationHeeds(s: State, frames: set<Frame>, pid: Pid, va: nat)
    requires Inv(s, frames) && Allowed(s, Allocate(pid, va, FastPreferred)) && WithinLimits(s)
    ensures WithinLimits(AllocateStep(s, frames, pid, va, FastPreferred))
  {
    AllocationEffect(s, frames, pid, va, FastPreferred);
  }

  lemma RequestHeeds(s: State, frames: set<Frame>, p: PageId, level: nat)
    requires Inv(s, frames) && p < |s.page| && level < LEVELS && WithinLimits(s)
    ensures WithinLimits(TelemetryStep(s, frames, p, level))
  {
    RequestEffect(s, frames, p, level);
  }

  lemma DrainHeeds(s: State, frames: set<Frame>, pid: Pid)
    requires Inv(s, frames) && WithinLimits(s)
    ensures WithinLimits(DrainStep(s, frames, pid))
  {
    if pid in s.ring && s.ring[pid] != [] { DrainReady(s, frames, pid); }
  }

  lemma StepHeeds(s: State, frames: set<Frame>, op: Op)
    requires Inv(s, frames) && Allowed(s, op) && WithinLimits(s) && Heeds(op)
    ensures WithinLimits(Next(s, frames, op))
  {
    match op
    case Allocate(pid, va, pref) => AllocationHeeds(s, frames, pid, va);
    case MigrateTo(pid, up, level) => DemotionHeeds(s, frames, pid, level);
    case Telemetry(p, level) => RequestHeeds(s, frames, p, level);
    case Drain(pid) => DrainHeeds(s, frames, pid);
    case _ =>
  }

  /** Only an allocation that prefers slow memory, or a promotion, can take a process a page or
      more above its limit. */
  lemma {:induction false} LimitsHold(s: State, frames: set<Frame>, run: seq<Op>)
    requires Inv(s, frames) && Possible(s, frames, run) && WithinLimits(s)
    requires forall i | 0 <= i < |run| :: Heeds(run[i])
    ensures WithinLimits(After(s, frames, run))
    decreases |run|
  {
    if run != [] {
      StepHeeds(s, frames, run[0]);
      LimitsHold(Next(s, frames, run[0]), frames, run[1..]);
    }
  }
}
