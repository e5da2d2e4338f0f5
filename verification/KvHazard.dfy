/** The hazard of ialloc_maintenance is reached from an empty store, and leads the scan astray. */
module KvHazard {
  import opened KvState
  import opened KvStore
  import opened KvAlloc
  import opened KvMaintain
  import opened KvSteady
  import opened KvProgram

  // Segments of ten headers and a queue of one.
  const SIZE: nat := 10 * HEADER
  const MOST: nat := 9 * HEADER

  predicate Holds(s: State, p: Ptr, total: nat, refs: nat) {
    p in s.item && TotalSize(s.item[p]) == total && s.item[p].refs == refs
  }

  predicate SegIs(s: State, g: nat, offset: nat, freed: nat, filled: bool) {
    g < |s.seg| && s.seg[g].size == SIZE && s.seg[g].offset == offset && s.seg[g].freed == freed
    && s.seg[g].filled == filled
  }

  /** What of the arena the run depends on. */
  predicate ArenaIs(a: Arena, segs: seq<nat>, free: seq<nat>) {
    segs != [] && a.cur == segs[|segs| - 1] && a.segs == segs && a.free == free && a.reserved.Some?
    && a.segsize == SIZE && a.segmax >= 4
  }

  // ---------------------------------------------------------------------------
  // Allocation, case by case

  ghost predicate CanAttempt(s: State, a: Arena) {
    && CurrentOk(s.seg, a.cur) && (forall i | 0 <= i < |a.free| :: a.free[i] < |s.seg|)
    && a.reserved.Some? && a.cur < |s.seg| && s.seg[a.cur].size == a.segsize
  }

  lemma AllocHere(s: State, a: Arena, hv: nat, key: Bytes, val: Bytes, p: Ptr, t: State, b: Arena)
    requires CanAttempt(s, a) && Fits(s.seg, a.cur, HEADER + |key| + |val|)
    requires Placed(Attempts(s, a, HEADER + |key| + |val|, false), hv, key, val, p, t, b)
    ensures b == a && p == NextAddress(s, a.cur) && t == Alloc(s, a.cur, hv, key, val)
  {}

  lemma AllocInNew(s: State, a: Arena, hv: nat, key: Bytes, val: Bytes, p: Ptr, t: State, b: Arena)
    requires CanAttempt(s, a) && !Fits(s.seg, a.cur, HEADER + |key| + |val|) && a.free == [] && |s.seg| < a.segmax
    requires HEADER + |key| + |val| < a.segsize
    requires Placed(Attempts(s, a, HEADER + |key| + |val|, false), hv, key, val, p, t, b)
    ensures b == Switched(Unmarked(a, |s.seg|), |s.seg|) && p == At(|s.seg|, 0)
    ensures t == Alloc(AddSegment(GiveUp(s, a.cur), a.segsize), |s.seg|, hv, key, val)
  {}

  lemma AllocInFreed(s: State, a: Arena, hv: nat, key: Bytes, val: Bytes, p: Ptr, t: State, b: Arena)
    requires CanAttempt(s, a) && !Fits(s.seg, a.cur, HEADER + |key| + |val|) && a.free != [] && a.free[0] != a.cur
    requires HEADER + |key| + |val| < a.segsize == s.seg[a.free[0]].size
    requires Placed(Attempts(s, a, HEADER + |key| + |val|, false), hv, key, val, p, t, b)
    ensures b == Switched(Unmarked(a.(free := a.free[1..]), a.free[0]), a.free[0]) && p == At(a.free[0], 0)
    ensures t == Alloc(Recycle(GiveUp(s, a.cur), a.free[0]), a.free[0], hv, key, val)
  {}

  function Zeros(n: nat): (v: Bytes)
    ensures |v| == n
  {
    seq(n, i => 0)
  }

  /** ialloc_alloc for an item of n bytes without a key. */
  method Allocate(store: Store, n: nat) returns (p: Ptr)
    requires store.Sane() && store.segsize == SIZE && HEADER <= n < SIZE
    modifies store`item, store`seg, store`held, store`free, store`inactive, store`cleaned, store`cur, store`segs,
             store`reserved
    ensures store.Sane() && (old(store.Orderly()) ==> store.Orderly())
    ensures CurrentOk(old(store.seg), old(store.cur)) && forall i | 0 <= i < |old(store.free)| ::
      old(store.free)[i] < |old(store.seg)|
    ensures Placed(Attempts(old(store.Snapshot()), old(store.Space()), n, false), 0, [], Zeros(n - HEADER), p,
                   store.Snapshot(), store.Space())
  {
    ghost var s, a := store.Snapshot(), store.Space();
    SteadyIsReady(s, a, Loose(a, store.Progress()));
    AllocationCan(s, a, n, false);
    p := store.AllocOrderly(0, [], Zeros(n - HEADER), false);
  }

  // ---------------------------------------------------------------------------
  // Four items in three segments: a small one behind a large one that leaves just room for it, a
  // small one alone, and a larger one that did not fit behind it

  predicate Start(s: State, a: Arena) {
    && |s.seg| == 2 && SegIs(s, 0, 0, 0, false) && s.queue == []
    && ArenaIs(a, [0], []) && a.cleaned == {}
  }

  predicate One(s: State, a: Arena) {
    && |s.seg| == 2 && SegIs(s, 0, MOST, 0, false) && s.queue == []
    && Holds(s, At(0, 0), MOST, 1) && s.held[At(0, 0)] > 0
    && ArenaIs(a, [0], []) && a.cleaned == {}
  }

  predicate FirstFull(s: State) {
    && SegIs(s, 0, SIZE, 0, false) && Holds(s, At(0, 0), MOST, 1) && s.held[At(0, 0)] > 0
    && Holds(s, At(0, MOST), HEADER, 1) && s.held[At(0, MOST)] > 0
  }

  predicate Two(s: State, a: Arena) {
    && |s.seg| == 2 && FirstFull(s) && s.queue == []
    && ArenaIs(a, [0], []) && a.cleaned == {}
  }

  predicate Three(s: State, a: Arena) {
    && |s.seg| == 3 && FirstFull(s) && s.queue == []
    && SegIs(s, 2, HEADER, 0, false) && Holds(s, At(2, 0), HEADER, 1) && s.held[At(2, 0)] > 0
    && ArenaIs(a, [0, 2], []) && a.cleaned == {}
  }

  predicate Four(s: State, a: Arena) {
    && |s.seg| == 4 && FirstFull(s) && s.queue == []
    && SegIs(s, 2, SIZE, MOST, true) && Holds(s, At(2, 0), HEADER, 1) && s.held[At(2, 0)] > 0
    && SegIs(s, 3, MOST + 1, 0, false)
    && ArenaIs(a, [0, 2, 3], []) && a.cleaned == {}
  }

  method EmptyStore(buckets: nat, segmax: nat, cleanRatio: real) returns (store: Store)
    requires buckets > 0 && segmax >= 4
    ensures fresh(store) && store.Orderly() && store.Sane() && Start(store.Snapshot(), store.Space())
    ensures store.cleaning == None && store.cleanRatio == cleanRatio && store.cqsize == 1
  {
    store := new Store(buckets, SIZE, segmax, 1, cleanRatio);
  }

  method PlaceTwo(store: Store)
    requires store.Orderly() && store.Sane() && Start(store.Snapshot(), store.Space())
    modifies store`item, store`seg, store`held, store`free, store`inactive, store`cleaned, store`cur, store`segs,
             store`reserved
    ensures store.Orderly() && store.Sane() && Two(store.Snapshot(), store.Space())
  {
    ghost var s, a := store.Snapshot(), store.Space();
    var p := Allocate(store, MOST);
    AllocHere(s, a, 0, [], Zeros(MOST - HEADER), p, store.Snapshot(), store.Space());
    assert One(store.Snapshot(), store.Space());
    s, a := store.Snapshot(), store.Space();
    p := Allocate(store, HEADER);
    AllocHere(s, a, 0, [], Zeros(0), p, store.Snapshot(), store.Space());
  }

  method PlaceThird(store: Store)
    requires store.Orderly() && store.Sane() && Two(store.Snapshot(), store.Space())
    modifies store`item, store`seg, store`held, store`free, store`inactive, store`cleaned, store`cur, store`segs,
             store`reserved
    ensures store.Orderly() && store.Sane() && Three(store.Snapshot(), store.Space())
  {
    ghost var s, a := store.Snapshot(), store.Space();
    var p := Allocate(store, HEADER);
    AllocInNew(s, a, 0, [], Zeros(0), p, store.Snapshot(), store.Space());
  }

  method PlaceFourth(store: Store)
    requires store.Orderly() && store.Sane() && Three(store.Snapshot(), store.Space())
    modifies store`item, store`seg, store`held, store`free, store`inactive, store`cleaned, store`cur, store`segs,
             store`reserved
    ensures store.Orderly() && store.Sane() && Four(store.Snapshot(), store.Space())
  {
    ghost var s, a := store.Snapshot(), store.Space();
    var p := Allocate(store, MOST + 1);
    AllocInNew(s, a, 0, [], Zeros(MOST + 1 - HEADER), p, store.Snapshot(), store.Space());
  }

  ghost predicate HasFour(store: Store)
    reads store
  {
    && store.Orderly() && store.Sane() && Four(store.Snapshot(), store.Space())
    && store.cleaning == None && store.cleanRatio <= 0.9 && store.cqsize == 1
  }

  method FillSegments(buckets: nat, segmax: nat, cleanRatio: real) returns (store: Store)
    requires buckets > 0 && segmax >= 4 && cleanRatio <= 0.9
    ensures fresh(store) && HasFour(store)
  {
    store := EmptyStore(buckets, segmax, cleanRatio);
    PlaceTwo(store);
    PlaceThird(store);
    PlaceFourth(store);
  }

  // ---------------------------------------------------------------------------
  // Three rounds: the first segment is chosen, scanned through so that the queue is full, and the
  // second is chosen

  /** The second segment and the current one. */
  predicate Behind(s: State) {
    && |s.seg| == 4 && SegIs(s, 2, SIZE, MOST, true) && Holds(s, At(2, 0), HEADER, 1) && s.held[At(2, 0)] > 0
    && SegIs(s, 3, MOST + 1, 0, false)
  }

  /** The large item has died; the small one behind it has refs references. */
  predicate Worn(s: State, refs: nat) {
    && SegIs(s, 0, SIZE, MOST, false) && Holds(s, At(0, 0), MOST, 0)
    && Holds(s, At(0, MOST), HEADER, refs) && s.held[At(0, MOST)] > 0
  }

  lemma NineTenths(h: Seg)
    requires h.size == SIZE && h.freed == MOST
    ensures Ratio(h) == 0.9
  {}

  function DeadOnes(seg: seq<Seg>, g: nat): seq<nat> { if Dead(seg, g) then [g] else [] }

  lemma SweptOne(seg: seq<Seg>, g: nat)
    ensures Survivors(seg, [g]) == (if Dead(seg, g) then [] else [g]) && Casualties(seg, [g]) == DeadOnes(seg, g)
  {
    assert [g][1..] == [] && Survivors(seg, []) == [] && Casualties(seg, []) == [];
  }

  /** The sweep over two segments. */
  lemma SweptTwo(seg: seq<Seg>, g: nat, h: nat)
    ensures Survivors(seg, [g, h]) == (if Dead(seg, g) then [] else [g]) + (if Dead(seg, h) then [] else [h])
    ensures Casualties(seg, [g, h]) == DeadOnes(seg, h) + DeadOnes(seg, g)
  {
    assert [g, h][1..] == [h];
    SweptOne(seg, h);
  }

  /** Neither of the two full segments is dead, and of those not yet cleaned the older is the
      candidate. */
  lemma TwoLive(s: State, cleaned: set<nat>, least: real)
    requires Behind(s) && SegIs(s, 0, SIZE, MOST, false) && least <= 0.9 && 2 !in cleaned
    ensures Older([0, 2, 3]) == [0, 2] && Survivors(s.seg, [0, 2]) == [0, 2] && Casualties(s.seg, [0, 2]) == []
    ensures Best(s.seg, cleaned, least, [0, 2]) == Some(if 0 in cleaned then 2 else 0)
  {
    NineTenths(s.seg[0]);
    NineTenths(s.seg[2]);
    SweptTwo(s.seg, 0, 2);
    assert [0, 2][..1] == [0] && [0][..0] == [];
    assert Best(s.seg, cleaned, least, [0]) == if 0 in cleaned then None else Some(0);
  }

  /** Between the rounds. */
  ghost predicate Between(store: Store, refs: nat, queue: seq<Ptr>, cleaning: Option<nat>, off: nat)
    reads store
  {
    && store.Orderly() && store.Sane() && Behind(store.Snapshot()) && Worn(store.Snapshot(), refs)
    && ArenaIs(store.Space(), [0, 2, 3], []) && store.queue == queue
    && (0 in store.cleaned <==> cleaning.Some?) && (2 in store.cleaned <==> cleaning == Some(2))
    && store.cleaning == cleaning && (cleaning.Some? ==> store.cleanOff == off)
    && store.cleanRatio <= 0.9 && store.cqsize == 1
  }

  method LetFirstGo(store: Store)
    requires HasFour(store)
    modifies store`item, store`seg, store`held
    ensures Between(store, 1, [], None, 0)
  {
    store.LetGoOrderly(At(0, 0));
  }

  method FirstRound(store: Store)
    requires Between(store, 1, [], None, 0)
    modifies store`segs, store`free, store`cleaning, store`cleanOff, store`passed, store`cleaned, store`item,
             store`queue
    ensures Between(store, 1, [], Some(0), 0)
  {
    TwoLive(store.Snapshot(), store.cleaned, store.cleanRatio);
    var cand, astray := store.Maintain();
  }

  /** Over the dead item and the live one behind it. */
  lemma ScanFirst(s: State)
    requires Worn(s, 1) && s.queue == []
    ensures var t := Enqueue(s, At(0, MOST)); ScanRun(s, 0, 0, SIZE, 1) == Scanned(t, SIZE, false)
  {
    assert Enqueue(s, At(0, 0)) == s;
    ScanRunItem(s, 0, 0, SIZE, 1);
    ScanRunItem(s, 0, MOST, SIZE, 1);
  }

  method SecondRound(store: Store)
    requires Between(store, 1, [], Some(0), 0)
    modifies store`segs, store`free, store`cleaning, store`cleanOff, store`passed, store`cleaned, store`item,
             store`queue
    ensures Between(store, 2, [At(0, MOST)], Some(0), SIZE)
  {
    TwoLive(store.Snapshot(), store.cleaned, store.cleanRatio);
    ScanFirst(store.Snapshot());
    var cand, astray := store.Maintain();
  }

  method ThirdRound(store: Store)
    requires Between(store, 2, [At(0, MOST)], Some(0), SIZE)
    modifies store`segs, store`free, store`cleaning, store`cleanOff, store`passed, store`cleaned, store`item,
             store`queue
    ensures Between(store, 2, [At(0, MOST)], Some(2), 0)
  {
    TwoLive(store.Snapshot(), store.cleaned, store.cleanRatio);
    var cand, astray := store.Maintain();
  }

  // ---------------------------------------------------------------------------
  // The hazard, and what follows

  /** The store is in order; the second segment has been chosen and is dead, and the queue is
      full. */
  ghost predicate AtHazard(store: Store)
    reads store
  {
    var s := store.Snapshot();
    && store.Orderly() && store.Sane() && Hazard(s, store.Progress(), store.cqsize)
    && |s.seg| == 4 && Worn(s, 2) && s.queue == [At(0, MOST)]
    && SegIs(s, 2, SIZE, SIZE, true) && SegIs(s, 3, MOST + 1, 0, false)
    && ArenaIs(store.Space(), [0, 2, 3], []) && store.cleaning == Some(2) && store.cleanOff == 0 && store.cqsize == 1
  }

  method LetSecondGo(store: Store)
    requires Between(store, 2, [At(0, MOST)], Some(2), 0)
    modifies store`item, store`seg, store`held
    ensures AtHazard(store)
  {
    store.LetGoOrderly(At(2, 0));
  }

  /** The hazard is reached from an empty store: four items, one let go, three rounds, and
      another let go. */
  method ReachHazard(buckets: nat, segmax: nat, cleanRatio: real) returns (store: Store)
    requires buckets > 0 && segmax >= 4 && cleanRatio <= 0.9
    ensures fresh(store) && AtHazard(store)
  {
    store := FillSegments(buckets, segmax, cleanRatio);
    LetFirstGo(store);
    FirstRound(store);
    SecondRound(store);
    ThirdRound(store);
    LetSecondGo(store);
  }

  /** The first segment stays and the second is freed. */
  lemma OneDead(s: State)
    requires |s.seg| == 4 && SegIs(s, 0, SIZE, MOST, false) && SegIs(s, 2, SIZE, SIZE, true)
    ensures Older([0, 2, 3]) == [0, 2] && Survivors(s.seg, [0, 2]) == [0] && Casualties(s.seg, [0, 2]) == [2]
  {
    SweptTwo(s.seg, 0, 2);
  }

  /** The scan is at the start of a segment that has been freed, in a store otherwise in order. */
  ghost predicate Freed(store: Store)
    reads store
  {
    var s := store.Snapshot();
    && store.Sane() && !store.Orderly()
    && |s.seg| == 4 && Worn(s, 2) && s.queue == [At(0, MOST)]
    && SegIs(s, 2, SIZE, SIZE, true) && SegIs(s, 3, MOST + 1, 0, false)
    && ArenaIs(store.Space(), [0, 3], [2]) && store.cleaning == Some(2) && store.cleanOff == 0 && store.cqsize == 1
  }

  method FreeingRound(store: Store)
    requires AtHazard(store)
    modifies store`segs, store`free, store`cleaning, store`cleanOff, store`passed, store`cleaned, store`item,
             store`queue
    ensures Freed(store)
  {
    OneDead(store.Snapshot());
    var cand, astray := store.Maintain();
  }

  /** The segment being scanned is the one items are written to; its one item has refs references,
      and the queued one last. */
  ghost predicate Reused(store: Store, refs: nat, last: nat)
    reads store
  {
    var s := store.Snapshot();
    && store.Sane() && |s.seg| == 4 && s.queue == [At(0, MOST)]
    && Holds(s, At(0, MOST), HEADER, last) && (last == 2 ==> s.held[At(0, MOST)] > 0)
    && SegIs(s, 2, HEADER, if refs == 0 then HEADER else 0, false) && Holds(s, At(2, 0), HEADER, refs)
    && At(2, HEADER) !in s.item && (refs > 0 ==> s.held[At(2, 0)] > 0)
    && ArenaIs(store.Space(), [0, 3, 2], []) && store.cleaning == Some(2) && store.cleanOff == 0 && store.cqsize == 1
  }

  method Reuse(store: Store)
    requires Freed(store)
    modifies store`item, store`seg, store`held, store`free, store`inactive, store`cleaned, store`cur, store`segs,
             store`reserved
    ensures Reused(store, 1, 2)
  {
    ghost var s, a := store.Snapshot(), store.Space();
    var p := Allocate(store, HEADER);
    AllocInFreed(s, a, 0, [], Zeros(0), p, store.Snapshot(), store.Space());
  }

  /** Cleaning a queue of one item that nobody else refers to. */
  lemma CleanOneDead(s: State, a: Arena, p: Ptr)
    requires Ready(s, a) && a.reserved.Some? && s.queue == [p] && p in s.item && s.item[p].refs == 1
    ensures CleanLog(s, a, None) == Cleaned(Release(Dequeue(s), p), a, false, 1)
  {
    DequeueReady(s, a);
    UnfoldTurn(s, a);
    var t := Release(Dequeue(s), p);
    assert CleanTurn(s, a) == Turn(t, a, false);
    assert t.queue == [];
    assert CleanLog(t, a, None) == Cleaned(t, a, false, 0);
  }

  /** Everything let go and the queue cleaned. */
  ghost predicate Drained(store: Store)
    reads store
  {
    var s := store.Snapshot();
    && store.Sane() && |s.seg| == 4 && s.queue == []
    && SegIs(s, 2, HEADER, HEADER, false) && Holds(s, At(2, 0), HEADER, 0) && At(2, HEADER) !in s.item
    && store.cleaning == Some(2) && store.cleanOff == 0 && store.cqsize == 1
  }

  method LetThirdGo(store: Store)
    requires Reused(store, 1, 2)
    modifies store`item, store`seg, store`held
    ensures Reused(store, 0, 2)
  {
    store.LetGoOrderly(At(2, 0));
  }

  method LetLastGo(store: Store)
    requires Reused(store, 0, 2)
    modifies store`item, store`seg, store`held
    ensures Reused(store, 0, 1)
  {
    store.LetGoOrderly(At(0, MOST));
  }

  method Drain(store: Store)
    requires Reused(store, 0, 1)
    modifies store`queue, store`item, store`bucket, store`seg, store`chain, store`tbl, store`held, store`free,
             store`inactive, store`cleaned, store`cur, store`segs, store`reserved, store`cleanupCount
    ensures Drained(store)
  {
    ghost var s, a := store.Snapshot(), store.Space();
    SteadyIsReady(s, a, Loose(a, store.Progress()));
    CleanOneDead(s, a, At(0, MOST));
    var n, stopped := store.CleanOrderly(true);
  }

  /** Over the dead item to bytes nobody has written. */
  lemma ScanPastTheItem(s: State)
    requires SegIs(s, 2, HEADER, HEADER, false) && Holds(s, At(2, 0), HEADER, 0) && At(2, HEADER) !in s.item
    requires s.queue == []
    ensures ScanRun(s, 2, 0, SIZE, 1) == Scanned(s, HEADER, true)
  {
    assert Enqueue(s, At(2, 0)) == s;
    ScanRunItem(s, 2, 0, SIZE, 1);
  }

  method LastRound(store: Store) returns (astray: bool)
    requires Drained(store)
    modifies store`segs, store`free, store`cleaning, store`cleanOff, store`passed, store`cleaned, store`item,
             store`queue
    ensures store.Sane() && astray && Lost(store.Snapshot(), store.Progress())
  {
    ScanPastTheItem(store.Snapshot());
    var cand;
    cand, astray := store.Maintain();
  }

  /** From the empty store to the hazard, and from there through the round that frees the segment,
      the allocation that takes it again and the cleaning of the queue to a round that reads bytes
      nobody has written. */
  method HazardLeadsAstray(buckets: nat, segmax: nat, cleanRatio: real)
    returns (store: Store, ghost s: State, ghost a: Arena, ghost c: Scan, astray: bool)
    requires buckets > 0 && segmax >= 4 && cleanRatio <= 0.9
    ensures Steady(s, a, c) && Hazard(s, c, 1)
    ensures fresh(store) && store.Sane() && astray && Lost(store.Snapshot(), store.Progress())
  {
    store := ReachHazard(buckets, segmax, cleanRatio);
    s, a, c := store.Snapshot(), store.Space(), store.Progress();
    FreeingRound(store);
    Reuse(store);
    LetThirdGo(store);
    LetLastGo(store);
    Drain(store);
    astray := LastRound(store);
  }
}
