/** What the scan of a segment relies on between two rounds of maintenance, and that every
    operation of the store keeps it. */
module KvSteady {
  import opened KvState
  import opened KvTable
  import opened KvLog
  import opened KvStore
  import opened KvClean
  import opened KvAlloc
  import opened KvScan
  import opened KvMaintain

  // ---------------------------------------------------------------------------
  // The scan under way

  /** `cleaning` and `clean_offset`, and how many items are behind the scan. */
  datatype Scan = Scan(cleaning: Option<nat>, off: nat, passed: nat)

  /** The queue is empty or what was queued last lies in segment g. */
  predicate LastIn(queue: seq<Ptr>, g: nat) {
    queue == [] || (queue[|queue| - 1].At? && queue[|queue| - 1].seg == g)
  }

  /** The scan of g has a way to go: it is at an item boundary of a full segment of this worker,
      and once it has started, what was queued last came from it. */
  ghost predicate UnderWay(s: State, a: Arena, g: nat, c: Scan) {
    && Scanning(s, g, c.passed, c.off) && c.off < s.seg[g].size
    && g in a.segs && g != a.cur && (c.off > 0 ==> LastIn(s.queue, g))
  }

  /** A scan that is through asks for nothing: its segment may have been handed out again. */
  ghost predicate ScanOk(s: State, a: Arena, c: Scan) {
    c.cleaning.Some? ==>
      var g := c.cleaning.value;
      g < |s.seg| && (c.off == s.seg[g].size || UnderWay(s, a, g, c))
  }

  // ---------------------------------------------------------------------------
  // Fillers that fit

  /** The largest item whose failure to fit leaves a tail that a filler can span. */
  const ITEM_LIMIT: nat := HEADER + KEYLEN_LIMIT

  ghost predicate TailsFit(item: map<Ptr, Item>, seg: seq<Seg>) {
    forall g | 0 <= g < |seg| && seg[g].filled :: seg[g].size - Allocated(item, seg[g].log) < ITEM_LIMIT
  }

  predicate Modest(item: map<Ptr, Item>) {
    forall p | p in item :: TotalSize(item[p]) <= ITEM_LIMIT
  }

  /** Every filler spans its tail, and will after any copy. */
  ghost predicate Fillable(s: State) { TailsFit(s.item, s.seg) && Modest(s.item) }

  // ---------------------------------------------------------------------------
  // What leaves a scan alone

  /** Segment g holds the same items in the same places. */
  ghost predicate SameLog(s: State, t: State, g: nat)
    requires g < |s.seg| && g < |t.seg|
  {
    var h, h' := s.seg[g], t.seg[g];
    && h'.log == h.log && h'.offset == h.offset && h'.size == h.size
    && (forall k | 0 <= k < |h.log| ::
          h.log[k] in s.item && h.log[k] in t.item && TotalSize(t.item[h.log[k]]) == TotalSize(s.item[h.log[k]]))
  }

  /** The full segments of the worker stay its own and keep their items, and the queue only
      loses what is in front. */
  ghost predicate Leaves(s: State, a: Arena, t: State, b: Arena) {
    && |s.seg| <= |t.seg| && (forall g | 0 <= g < |s.seg| :: t.seg[g].size == s.seg[g].size)
    && |t.queue| <= |s.queue| && t.queue == s.queue[|s.queue| - |t.queue|..]
    && (forall g | g in a.segs && g != a.cur :: g in b.segs && g != b.cur && g < |s.seg| && SameLog(s, t, g))
  }

  lemma LeavesScanning(s: State, t: State, g: nat, k: nat, off: nat)
    requires Scanning(s, g, k, off) && g < |t.seg| && SameLog(s, t, g) && SegInv(t.item, t.seg)
    ensures Scanning(t, g, k, off)
  {
    var h, h' := s.seg[g], t.seg[g];
    UnfoldFull(s.item, h, g);
    SameAllocated(s.item, t.item, h.log);
    SameAllocated(s.item, t.item, h.log[..k]);
    assert SegOk(t.item, h', g);
    forall p | p in t.item && p.At? && p.seg == g ensures p in h'.log { assert LoggedIn(t.seg, p); }
    UnfoldFull(t.item, h', g);
  }

  lemma LeavesScanOk(s: State, a: Arena, t: State, b: Arena, c: Scan)
    requires ScanOk(s, a, c) && Leaves(s, a, t, b) && SegInv(t.item, t.seg)
    ensures ScanOk(t, b, c)
  {
    if c.cleaning.Some? && c.off != s.seg[c.cleaning.value].size {
      LeavesScanning(s, t, c.cleaning.value, c.passed, c.off);
    }
  }

  /** Segments with the same items in them, as far as places and sizes go. */
  predicate SameShape(seg: seq<Seg>, seg': seq<Seg>) {
    |seg'| == |seg| &&
    forall g | 0 <= g < |seg| ::
      seg'[g].log == seg[g].log && seg'[g].offset == seg[g].offset && seg'[g].size == seg[g].size
      && seg'[g].filled == seg[g].filled
  }

  lemma ShapeFillable(s: State, t: State)
    requires Fillable(s) && SameContents(s.item, t.item) && SameShape(s.seg, t.seg)
    ensures Fillable(t)
  {
    forall g | 0 <= g < |t.seg| && t.seg[g].filled
      ensures t.seg[g].size - Allocated(t.item, t.seg[g].log) < ITEM_LIMIT
    {
      SameAllocated(s.item, t.item, s.seg[g].log);
    }
  }

  lemma ShapeLeaves(s: State, a: Arena, t: State)
    requires SegInv(s.item, s.seg) && ChainOk(s.seg, a) && SameContents(s.item, t.item) && SameShape(s.seg, t.seg)
    requires |t.queue| <= |s.queue| && t.queue == s.queue[|s.queue| - |t.queue|..]
    ensures Leaves(s, a, t, a)
  {
    forall g | g in a.segs && g != a.cur ensures g < |s.seg| && SameLog(s, t, g) {
      assert SegOk(s.item, s.seg[g], g);
    }
  }

  // ---------------------------------------------------------------------------
  // The invariant between rounds

  ghost predicate Settled(s: State, a: Arena, c: Scan) {
    Ready(s, a) && ScanOk(s, a, c) && Fillable(s)
  }

  /** Settled, folded. */
  ghost predicate Steady(s: State, a: Arena, c: Scan, depth: nat := 3) {
    if depth == 0 then Settled(s, a, c) else Steady(s, a, c, depth - 1)
  }

  lemma UnfoldSteady(s: State, a: Arena, c: Scan)
    ensures Steady(s, a, c) <==> Settled(s, a, c)
  {
    assert Steady(s, a, c, 3) == Steady(s, a, c, 2);
    assert Steady(s, a, c, 1) == Steady(s, a, c, 0);
  }

  lemma SteadyIsReady(s: State, a: Arena, c: Scan)
    requires Steady(s, a, c)
    ensures Ready(s, a)
  {
    UnfoldSteady(s, a, c);
  }

  lemma SteadyIsValid(s: State, a: Arena, c: Scan)
    requires Steady(s, a, c)
    ensures Inv(s)
  {
    UnfoldSteady(s, a, c);
    UnfoldReady(s, a);
  }

  lemma StepSteady(s: State, a: Arena, t: State, b: Arena, c: Scan)
    requires Steady(s, a, c) && Leaves(s, a, t, b) && Ready(t, b) && Fillable(t)
    ensures Steady(t, b, c)
  {
    UnfoldSteady(s, a, c);
    UnfoldReady(t, b);
    LeavesScanOk(s, a, t, b, c);
    UnfoldSteady(t, b, c);
  }

  /** Keys, values and places stay; only counts, links and what is freed change. */
  lemma ShapeSteady(s: State, a: Arena, t: State, c: Scan)
    requires Steady(s, a, c) && Ready(t, a) && SameContents(s.item, t.item) && SameShape(s.seg, t.seg)
    requires |t.queue| <= |s.queue| && t.queue == s.queue[|s.queue| - |t.queue|..]
    ensures Steady(t, a, c)
  {
    UnfoldSteady(s, a, c);
    UnfoldReady(s, a);
    ShapeFillable(s, t);
    ShapeLeaves(s, a, t);
    StepSteady(s, a, t, a, c);
  }

  // ---------------------------------------------------------------------------
  // Table and references

  lemma AddRefContents(item: map<Ptr, Item>, p: Ptr)
    requires p in item
    ensures SameContents(item, AddRef(item, p))
  {}

  lemma GetShape(s: State, hv: nat, key: Bytes)
    requires WellShaped(s)
    ensures var t := Get(s, hv, key); SameContents(s.item, t.item) && t.seg == s.seg && t.queue == s.queue
  {
    if Find(s, hv, key) in s.item { AddRefContents(s.item, Find(s, hv, key)); }
  }

  lemma GetReady(s: State, a: Arena, hv: nat, key: Bytes)
    requires Sound(s, a)
    ensures Ready(Get(s, hv, key), a)
  {
    GetKeeps(s, hv, key);
    GetShape(s, hv, key);
    SmallContents(s.item, Get(s, hv, key).item, a.segsize);
    UnfoldReady(Get(s, hv, key), a);
  }

  lemma GetSteady(s: State, a: Arena, c: Scan, hv: nat, key: Bytes)
    requires Inv(s) && Steady(s, a, c)
    ensures Steady(Get(s, hv, key), a, c)
  {
    UnfoldSteady(s, a, c);
    UnfoldReady(s, a);
    GetReady(s, a, hv, key);
    GetShape(s, hv, key);
    ShapeSteady(s, a, Get(s, hv, key), c);
  }

  lemma UnrefShape(s: State, p: Ptr)
    ensures SameContents(s.item, Unref(s, p).item) && SameShape(s.seg, Unref(s, p).seg)
  {}

  lemma ReleaseSteady(s: State, a: Arena, c: Scan, p: Ptr)
    requires Steady(s, a, c) && s.held[p] > 0
    ensures Steady(Release(s, p), a, c)
  {
    UnfoldSteady(s, a, c);
    ReleaseReady(s, a, p);
    UnrefShape(s, p);
    ShapeSteady(s, a, Release(s, p), c);
  }

  lemma PutShape(s: State, nit: Ptr, cas: Ptr)
    requires CanPut(s, nit)
    ensures SameContents(s.item, Put(s, nit, cas).item) && SameShape(s.seg, Put(s, nit, cas).seg)
  {
    PutIs(s, nit, cas);
    PutBareContents(s, nit);
    PutRefinesMap(s, nit, cas);
    if KeyOf(s.item[nit]) in s.tbl { UnrefShape(PutBare(s, nit), s.tbl[KeyOf(s.item[nit])]); }
  }

  lemma PutSteady(s: State, a: Arena, c: Scan, nit: Ptr, cas: Ptr)
    requires Steady(s, a, c) && Inv(s) && CanPut(s, nit) && s.item[nit].refs > 0
    ensures Steady(Put(s, nit, cas), a, c)
  {
    UnfoldSteady(s, a, c);
    UnfoldReady(s, a);
    PutKeeps(s, nit, cas);
    PutArena(s, a, nit, cas);
    UnfoldReady(Put(s, nit, cas), a);
    PutShape(s, nit, cas);
    PutHeld(s, nit, cas);
    ShapeSteady(s, a, Put(s, nit, cas), c);
  }

  lemma DequeueSteady(s: State, a: Arena, c: Scan)
    requires Steady(s, a, c) && s.queue != []
    ensures Steady(Dequeue(s), a, c)
  {
    UnfoldSteady(s, a, c);
    DequeueReady(s, a);
    ShapeSteady(s, a, Dequeue(s), c);
  }

  // ---------------------------------------------------------------------------
  // The allocator

  lemma LeavesTransitive(s: State, a: Arena, t: State, b: Arena, u: State, d: Arena)
    requires Leaves(s, a, t, b) && Leaves(t, b, u, d)
    ensures Leaves(s, a, u, d)
  {}

  /** The items of a segment lie in it. */
  lemma LogIsLocal(s: State, g: nat, k: nat)
    requires SegInv(s.item, s.seg) && g < |s.seg| && k < |s.seg[g].log|
    ensures s.seg[g].log[k] in s.item && s.seg[g].log[k].At? && s.seg[g].log[k].seg == g
  {
    assert SegOk(s.item, s.seg[g], g);
  }

  /** Only the current segment changes. */
  lemma CurrentLeaves(s: State, a: Arena, h: Seg)
    requires Leaves(s, a, s, a) && a.cur < |s.seg| && h.size == s.seg[a.cur].size
    ensures Leaves(s, a, s.(seg := s.seg[a.cur := h]), a)
  {}

  lemma GiveUpLeaves(s: State, a: Arena)
    requires Sound(s, a)
    ensures s.seg[a.cur].offset <= s.seg[a.cur].size && Leaves(s, a, GiveUp(s, a.cur), a)
  {
    assert SegOk(s.item, s.seg[a.cur], a.cur);
    SameLeaves(s, a);
    if s.seg[a.cur].offset != s.seg[a.cur].size { CurrentLeaves(s, a, Filled(s.seg[a.cur])); }
  }

  /** A tail is given up only for an item that is larger. */
  lemma GiveUpFillable(s: State, a: Arena, total: nat)
    requires Sound(s, a) && Fillable(s) && !Fits(s.seg, a.cur, total) && total <= ITEM_LIMIT
    ensures s.seg[a.cur].offset <= s.seg[a.cur].size && Fillable(GiveUp(s, a.cur))
  {
    assert SegOk(s.item, s.seg[a.cur], a.cur);
  }

  lemma RecycleLeaves(s: State, a: Arena)
    requires Sound(s, a) && a.free != []
    ensures Leaves(s, a, Recycle(s, a.free[0]), Unmarked(a.(free := a.free[1..]), a.free[0]))
  {
    var g0, t := a.free[0], Recycle(s, a.free[0]);
    forall g | g in a.segs && g != a.cur ensures g < |s.seg| && SameLog(s, t, g) {
      assert !Spare(a, g) && g != g0;
      forall k | 0 <= k < |s.seg[g].log| ensures s.seg[g].log[k] in s.item && s.seg[g].log[k] in t.item {
        LogIsLocal(s, g, k);
      }
    }
  }

  lemma RecycleFillable(s: State, g0: nat)
    requires SegInv(s.item, s.seg) && Fillable(s) && g0 < |s.seg|
    ensures Fillable(Recycle(s, g0))
  {
    var t := Recycle(s, g0);
    forall g | 0 <= g < |t.seg| && t.seg[g].filled
      ensures t.seg[g].size - Allocated(t.item, t.seg[g].log) < ITEM_LIMIT
    {
      forall k | 0 <= k < |s.seg[g].log| ensures SizeAt(s.item, s.seg[g].log[k]) == SizeAt(t.item, s.seg[g].log[k]) {
        LogIsLocal(s, g, k);
      }
      SameAllocated(s.item, t.item, s.seg[g].log);
    }
  }

  lemma AddSegmentLeaves(s: State, a: Arena)
    requires Sound(s, a)
    ensures Leaves(s, a, AddSegment(s, a.segsize), Unmarked(a, |s.seg|))
  {
    forall g | g in a.segs ensures g < |s.seg| && SegOk(s.item, s.seg[g], g) {}
  }

  lemma SegmentForLeaves(s: State, a: Arena)
    requires Sound(s, a)
    ensures Leaves(s, a, SegmentFor(s, a).state, SegmentFor(s, a).arena)
  {
    if a.free != [] {
      RecycleLeaves(s, a);
    } else if |s.seg| < a.segmax {
      AddSegmentLeaves(s, a);
    } else {
      SameLeaves(s, a);
    }
  }

  lemma SameLeaves(s: State, a: Arena)
    requires Sound(s, a)
    ensures Leaves(s, a, s, a)
  {
    forall g | g in a.segs ensures g < |s.seg| && SegOk(s.item, s.seg[g], g) {}
  }

  lemma SegmentForFillable(s: State, a: Arena)
    requires Sound(s, a) && Fillable(s)
    ensures Fillable(SegmentFor(s, a).state)
  {
    if a.free != [] { RecycleFillable(s, a.free[0]); }
  }

  lemma SwitchLeaves(s: State, a: Arena, t: State, b: Arena, d: Arena, g: nat)
    requires Leaves(s, a, t, b) && g !in b.segs && d.segs == b.segs + [g] && d.cur == g
    ensures Leaves(s, a, t, d)
  {}

  lemma MoveOnLeaves(s: State, a: Arena, cleanup: bool)
    requires Sound(s, a)
    ensures Leaves(s, a, MoveOn(s, a, cleanup).state, MoveOn(s, a, cleanup).arena)
  {
    SegmentForLeaves(s, a);
    SegmentForIs(s, a);
    var r, m := SegmentFor(s, a), MoveOn(s, a, cleanup);
    if r.to.Some? {
      SwitchLeaves(s, a, r.state, r.arena, m.arena, r.to.value);
    } else if cleanup && a.reserved.Some? {
      assert forall i | 0 <= i < |a.segs| :: !Spare(a, a.segs[i]);
      SwitchLeaves(s, a, s, a, m.arena, a.reserved.value);
    }
  }

  lemma NewRoomLeaves(s: State, a: Arena, cleanup: bool)
    requires Sound(s, a)
    ensures Leaves(s, a, NewRoom(s, a, cleanup).state, NewRoom(s, a, cleanup).arena)
  {
    GiveUpLeaves(s, a);
    GiveUpKept(s, a);
    var s1 := GiveUp(s, a.cur);
    MoveOnLeaves(s1, a, cleanup);
    LeavesTransitive(s, a, s1, a, MoveOn(s1, a, cleanup).state, MoveOn(s1, a, cleanup).arena);
  }

  lemma NewRoomFillable(s: State, a: Arena, total: nat, cleanup: bool)
    requires Sound(s, a) && Fillable(s) && !Fits(s.seg, a.cur, total) && total <= ITEM_LIMIT
    ensures Fillable(NewRoom(s, a, cleanup).state)
  {
    GiveUpFillable(s, a, total);
    GiveUpKept(s, a);
    SegmentForFillable(GiveUp(s, a.cur), a);
  }

  lemma RoomSteady(s: State, a: Arena, c: Scan, total: nat, cleanup: bool)
    requires Steady(s, a, c) && Ready(s, a) && total < a.segsize && total <= ITEM_LIMIT
    ensures Steady(Room(s, a, total, cleanup).state, Room(s, a, total, cleanup).arena, c)
  {
    UnfoldSteady(s, a, c);
    UnfoldReady(s, a);
    UnfoldRoom(s, a, total, cleanup);
    var r := Room(s, a, total, cleanup);
    if !(a.reserved.None? && !cleanup) && !Fits(s.seg, a.cur, total) {
      NewRoomLeaves(s, a, cleanup);
      NewRoomFillable(s, a, total, cleanup);
      StepSteady(s, a, r.state, r.arena, c);
    }
  }

  lemma AllocLeaves(s: State, a: Arena, hv: nat, key: Bytes, val: Bytes)
    requires Sound(s, a) && Fits(s.seg, a.cur, HEADER + |key| + |val|)
    ensures Leaves(s, a, Alloc(s, a.cur, hv, key, val), a)
  {
    AllocIs(s, a.cur, hv, key, val);
    FreshAddress(s, a.cur);
    forall g | g in a.segs ensures g < |s.seg| && SegOk(s.item, s.seg[g], g) {}
  }

  lemma AllocFillable(s: State, a: Arena, hv: nat, key: Bytes, val: Bytes)
    requires Sound(s, a) && Fillable(s)
    requires Fits(s.seg, a.cur, HEADER + |key| + |val|) && HEADER + |key| + |val| <= ITEM_LIMIT
    ensures Fillable(Alloc(s, a.cur, hv, key, val))
  {
    AllocIs(s, a.cur, hv, key, val);
    FreshAddress(s, a.cur);
    var t := Alloc(s, a.cur, hv, key, val);
    forall g | 0 <= g < |t.seg| && t.seg[g].filled
      ensures t.seg[g].size - Allocated(t.item, t.seg[g].log) < ITEM_LIMIT
    {
      forall k | 0 <= k < |s.seg[g].log| ensures SizeAt(s.item, s.seg[g].log[k]) == SizeAt(t.item, s.seg[g].log[k]) {
        LogIsLocal(s, g, k);
      }
      SameAllocated(s.item, t.item, s.seg[g].log);
    }
  }

  lemma AllocSteady(s: State, a: Arena, c: Scan, hv: nat, key: Bytes, val: Bytes)
    requires Steady(s, a, c) && Fits(s.seg, a.cur, HEADER + |key| + |val|)
    requires HEADER + |key| + |val| < a.segsize && HEADER + |key| + |val| <= ITEM_LIMIT
    ensures Steady(Alloc(s, a.cur, hv, key, val), a, c)
  {
    UnfoldSteady(s, a, c);
    AllocReady(s, a, hv, key, val);
    UnfoldReady(s, a);
    AllocLeaves(s, a, hv, key, val);
    AllocFillable(s, a, hv, key, val);
    StepSteady(s, a, Alloc(s, a.cur, hv, key, val), a, c);
  }

  lemma RefillSteady(s: State, a: Arena, c: Scan)
    requires Steady(s, a, c) && Ready(s, a)
    ensures Steady(Refill(s, a).state, Refill(s, a).arena, c)
  {
    if a.reserved.None? {
      UnfoldSteady(s, a, c);
      UnfoldReady(s, a);
      SegmentForLeaves(s, a);
      SegmentForFillable(s, a);
      StepSteady(s, a, Refill(s, a).state, Refill(s, a).arena, c);
    }
  }

  // ---------------------------------------------------------------------------
  // The cleaner

  lemma MovedSteady(s: State, a: Arena, c: Scan, p: Ptr)
    requires Steady(s, a, c) && Ready(s, a) && s.held[p] > 0 && p in s.item && Fits(s.seg, a.cur, TotalSize(s.item[p]))
    ensures Steady(Moved(s, a, p), a, c)
  {
    UnfoldSteady(s, a, c);
    UnfoldReady(s, a);
    var it, nit := s.item[p], NextAddress(s, a.cur);
    AllocSteady(s, a, c, it.hv, it.key, it.val);
    AllocKeeps(s, a.cur, it.hv, it.key, it.val);
    var t := Alloc(s, a.cur, it.hv, it.key, it.val);
    PutSteady(t, a, c, nit, p);
    PutHeld(t, nit, p);
    ReleaseSteady(Put(t, nit, p), a, c, nit);
  }

  lemma ModestHeld(s: State, a: Arena, c: Scan, p: Ptr)
    requires Steady(s, a, c) && p in s.item
    ensures TotalSize(s.item[p]) <= ITEM_LIMIT
  {
    UnfoldSteady(s, a, c);
  }

  lemma HandleSteady(s: State, a: Arena, c: Scan, p: Ptr)
    requires Steady(s, a, c) && Ready(s, a) && s.held[p] > 0 && p in s.item
    ensures Steady(Handle(s, a, p).state, Handle(s, a, p).arena, c)
  {
    if s.item[p].refs == 1 {
      ReleaseSteady(s, a, c, p);
    } else {
      HeldIsSmall(s, a, p);
      ModestHeld(s, a, c, p);
      var r := Room(s, a, TotalSize(s.item[p]), true);
      RoomSteady(s, a, c, TotalSize(s.item[p]), true);
      if r.to.Some? {
        MovedSteady(r.state, r.arena, c, p);
        ReleaseSteady(Moved(r.state, r.arena, p), r.arena, c, p);
      }
    }
  }

  lemma TurnSteady(s: State, a: Arena, c: Scan)
    requires Steady(s, a, c) && Ready(s, a) && s.queue != []
    ensures Steady(CleanTurn(s, a).state, CleanTurn(s, a).arena, c)
  {
    UnfoldTurn(s, a);
    DequeueReady(s, a);
    DequeueSteady(s, a, c);
    RefillSteady(Dequeue(s), a, c);
    var r := Refill(Dequeue(s), a);
    HandleSteady(r.state, r.arena, c, s.queue[0]);
  }

  /** Cleaning leaves the scan of a segment where it was. */
  lemma {:induction false} CleanLogSteady(s: State, a: Arena, c: Scan, limit: Option<nat>)
    requires Steady(s, a, c) && Ready(s, a)
    ensures Steady(CleanLog(s, a, limit).state, CleanLog(s, a, limit).arena, c)
    decreases |s.queue|
  {
    if limit != Some(0) {
      if s.queue == [] {
        RefillSteady(s, a, c);
      } else {
        var t := CleanTurn(s, a);
        TurnSteady(s, a, c);
        if !t.stopped { CleanLogSteady(t.state, t.arena, c, if limit.None? then None else Some(limit.value - 1)); }
      }
    }
  }

  // ---------------------------------------------------------------------------
  // A round of maintenance

  lemma {:induction false} SurvivorsAre(seg: seq<Seg>, list: seq<nat>, g: nat)
    ensures g in Survivors(seg, list) <==> g in list && !Dead(seg, g)
  {
    if list != [] { SurvivorsAre(seg, list[1..], g); }
  }

  lemma {:induction false} LiveOfIs(item: map<Ptr, Item>, ps: seq<Ptr>)
    ensures forall p | p in LiveOf(item, ps) :: p in ps && Refs(item, p) > 0
  {
    if ps != [] { LiveOfIs(item, ps[..|ps| - 1]); }
  }

  /** A full segment of a worker can be scanned from its start. */
  lemma FullCanBeScanned(s: State, a: Arena, g: nat)
    requires Sound(s, a) && Fillable(s) && g in a.segs && g != a.cur
    ensures g < |s.seg| && Scanning(s, g, 0, 0)
  {
    assert SegOk(s.item, s.seg[g], g);
    ScanStarts(s, g);
  }

  /** The candidate is a full segment, so its scan can start. */
  lemma BestCanBeScanned(s: State, a: Arena, segs: seq<nat>, least: real)
    requires Ready(s, a) && Fillable(s) && a.segs != [] && segs == Survivors(s.seg, Older(a.segs)) + [a.cur]
    ensures var cand := Best(s.seg, a.cleaned, least, Older(segs));
      cand.Some? ==> Scanning(s, cand.value, 0, 0) && cand.value in segs && cand.value != a.cur
  {
    UnfoldReady(s, a);
    assert Older(segs) == Survivors(s.seg, Older(a.segs));
    BestIs(s.seg, a.cleaned, least, Older(segs));
    var cand := Best(s.seg, a.cleaned, least, Older(segs));
    if cand.Some? {
      SurvivorsAre(s.seg, Older(a.segs), cand.value);
      assert cand.value in Older(a.segs);
      FullCanBeScanned(s, a, cand.value);
    }
  }

  /** The scan of g went from c to c', taking the store from s to t: it stopped at the end or
      because the queue was full, and did nothing if it was full to begin with. */
  ghost predicate ScanWent(s: State, g: nat, c: Scan, t: State, c': Scan, cqsize: nat) {
    && g < |s.seg| && Scanning(s, g, c.passed, c.off) && Scanning(t, g, c'.passed, c'.off)
    && c.passed <= c'.passed <= |s.seg[g].log| && t == QueueAll(s, s.seg[g].log[c.passed..c'.passed]) && t.seg == s.seg
    && (|t.queue| >= cqsize || c'.off == s.seg[g].size)
    && (|s.queue| >= cqsize ==> t == s && c'.off == c.off && c'.passed == c.passed)
  }

  lemma ScanStops(a: Arena, s: State, g: nat, c: Scan, t: State, c': Scan, cqsize: nat)
    requires Scanning(s, g, c.passed, c.off) && Scans(a, s, g, c.passed, t, c'.passed, c'.off)
    ensures Ready(t, a) && t.seg == s.seg
    ensures c'.off == s.seg[g].size ==> c'.passed == |s.seg[g].log|
    ensures
      (&& (|t.queue| >= cqsize || c'.off == s.seg[g].size)
       && (|s.queue| >= cqsize ==> t == s && c'.off == c.off && c'.passed == c.passed))
      ==> ScanWent(s, g, c, t, c', cqsize)
  {
    ScanEnds(a, s, g, c.passed, t, c'.passed, c'.off);
  }

  lemma WholeLogIsLocal(s: State, g: nat)
    requires SegInv(s.item, s.seg) && g < |s.seg|
    ensures forall p | p in s.seg[g].log :: p in s.item && p.At? && p.seg == g
  {
    forall k | 0 <= k < |s.seg[g].log| ensures s.seg[g].log[k] in s.item && s.seg[g].log[k].At?
      && s.seg[g].log[k].seg == g
    {
      LogIsLocal(s, g, k);
    }
  }

  /** What a scan of g queues is live and lies in g. */
  lemma QueuedIsLocal(s: State, g: nat, lo: nat, hi: nat)
    requires SegInv(s.item, s.seg) && g < |s.seg| && lo <= hi <= |s.seg[g].log|
    ensures forall p | p in LiveOf(s.item, s.seg[g].log[lo..hi]) ::
      p in s.item && s.item[p].refs > 0 && p.At? && p.seg == g
  {
    LiveOfIs(s.item, s.seg[g].log[lo..hi]);
    WholeLogIsLocal(s, g);
  }

  lemma LastOfMore(queue: seq<Ptr>, more: seq<Ptr>, g: nat)
    requires more != [] && forall p | p in more :: p.At? && p.seg == g
    ensures LastIn(queue + more, g)
  {
    assert more[|more| - 1] in more;
  }

  /** A scan that stops before the end after some progress has just queued an item of g. */
  lemma LastQueuedIn(s: State, g: nat, c: Scan, t: State, c': Scan, cqsize: nat)
    requires Inv(s) && ScanWent(s, g, c, t, c', cqsize) && c'.off < s.seg[g].size
    requires c.off > 0 ==> LastIn(s.queue, g)
    ensures c'.off > 0 ==> LastIn(t.queue, g)
  {
    if |s.queue| < cqsize {
      QueueAllIs(s, s.seg[g].log[c.passed..c'.passed]);
      QueuedIsLocal(s, g, c.passed, c'.passed);
      LastOfMore(s.queue, LiveOf(s.item, s.seg[g].log[c.passed..c'.passed]), g);
    }
  }

  lemma FirstIsMember(ps: seq<Ptr>)
    ensures ps != [] ==> ps[0] in ps
  {}

  /** A dead segment has nothing to queue, so its scan gets through unless it cannot start. */
  lemma DeadIsScannedThrough(s: State, g: nat, c: Scan, t: State, c': Scan, cqsize: nat)
    requires Inv(s) && ScanWent(s, g, c, t, c', cqsize) && Dead(s.seg, g) && |s.queue| < cqsize
    ensures c'.off == s.seg[g].size
  {
    var more := LiveOf(s.item, s.seg[g].log[c.passed..c'.passed]);
    QueueAllIs(s, s.seg[g].log[c.passed..c'.passed]);
    QueuedIsLocal(s, g, c.passed, c'.passed);
    NothingLive(s, g);
    FirstIsMember(more);
  }

  /** Once a scan has started, its segment is dead only when the queue is empty. */
  lemma DeadHasNothingQueued(s: State, g: nat)
    requires Inv(s) && LastIn(s.queue, g) && Dead(s.seg, g)
    ensures s.queue == []
  {
    if s.queue != [] {
      var p := s.queue[|s.queue| - 1];
      HeldIsLive(s, p);
      NothingLive(s, g);
    }
  }

  /** A segment has been chosen, its scan has not begun, nothing in it is live any more, and the
      queue is full. */
  predicate Hazard(s: State, c: Scan, cqsize: nat) {
    && c.cleaning.Some? && c.cleaning.value < |s.seg| && c.off == 0 < s.seg[c.cleaning.value].size
    && Dead(s.seg, c.cleaning.value) && |s.queue| >= cqsize
  }

  /** A round that goes on with the scan under way: it leaves a scan that can go on, or one that
      is through, except in the hazard, where it frees the segment and leaves the scan at its
      start. */
  lemma RoundEnds(s: State, a: Arena, g: nat, c: Scan, t: State, b: Arena, c': Scan, cqsize: nat)
    requires Inv(s) && ChainOk(s.seg, a) && UnderWay(s, a, g, c) && ScanWent(s, g, c, t, c', cqsize) && cqsize > 0
    requires c.cleaning == c'.cleaning == Some(g) && b.cur == a.cur
    requires b.segs == Survivors(s.seg, Older(a.segs)) + [a.cur]
    ensures ScanOk(t, b, c') <==> !Hazard(s, c, cqsize)
  {
    SurvivorsAre(s.seg, Older(a.segs), g);
    assert g in Older(a.segs);
    if Dead(s.seg, g) {
      if c.off > 0 { DeadHasNothingQueued(s, g); }
      if |s.queue| < cqsize { DeadIsScannedThrough(s, g, c, t, c', cqsize); }
    } else if c'.off < s.seg[g].size {
      LastQueuedIn(s, g, c, t, c', cqsize);
    }
  }

  /** A round that begins with a new segment leaves its scan in order. */
  lemma RoundBegins(s: State, g: nat, t: State, b: Arena, c: Scan, c': Scan, cqsize: nat)
    requires Inv(s) && ScanWent(s, g, c, t, c', cqsize) && c.off == 0
    requires c'.cleaning == Some(g) && g in b.segs && g != b.cur
    ensures ScanOk(t, b, c')
  {
    if c'.off < s.seg[g].size { LastQueuedIn(s, g, c, t, c', cqsize); }
  }

  /** A segment whose scan may start. */
  ghost predicate CanStart(s: State, b: Arena, cand: Option<nat>) {
    cand.Some? ==> Scanning(s, cand.value, 0, 0) && cand.value in b.segs && cand.value != b.cur
  }

  lemma StartIsOk(s: State, b: Arena, cand: Option<nat>)
    requires CanStart(s, b, cand)
    ensures ScanOk(s, b, Scan(cand, 0, 0))
  {}

  /** The length of the scan: that of the segment scanned before. */
  function ScanSize(s: State, c: Scan): nat {
    if c.cleaning.None? || c.cleaning.value >= |s.seg| then 0 else s.seg[c.cleaning.value].size
  }

  /** Where the scan of a round starts: where the last one stopped, or with the candidate. */
  function ScanFrom(s: State, c: Scan, cand: Option<nat>): Scan {
    if c.cleaning.Some? && c.off != ScanSize(s, c) then c else Scan(cand, 0, 0)
  }

  /** What a round did after the sweep. */
  ghost predicate RoundWent(s: State, c: Scan, cand: Option<nat>, t: State, c': Scan, cqsize: nat) {
    var c1 := ScanFrom(s, c, cand);
    && c'.cleaning == c1.cleaning
    && (c1.cleaning.None? || ScanSize(s, c) == 0 ==> t == s && c' == c1)
    && (c1.cleaning.Some? && ScanSize(s, c) != 0 ==> ScanWent(s, c1.cleaning.value, c1, t, c', cqsize))
  }

  lemma RoundScanOk(s: State, a: Arena, c: Scan, cand: Option<nat>, t: State, b: Arena, c': Scan, cqsize: nat)
    requires SegInv(s.item, s.seg) && Inv(s) && ChainOk(s.seg, a) && ScanOk(s, a, c) && cqsize > 0
    requires b.cur == a.cur && b.segs == Survivors(s.seg, Older(a.segs)) + [a.cur]
    requires CanStart(s, b, cand) && RoundWent(s, c, cand, t, c', cqsize)
    ensures ScanOk(t, b, c') <==> !Hazard(s, c, cqsize)
  {
    var c1 := ScanFrom(s, c, cand);
    if c1.cleaning.None? {
    } else if ScanSize(s, c) == 0 {
      StartIsOk(s, b, cand);
    } else if c.off != ScanSize(s, c) {
      RoundEnds(s, a, c.cleaning.value, c, t, b, c', cqsize);
    } else {
      RoundBegins(s, cand.value, t, b, c1, c', cqsize);
    }
  }

  lemma RoundQueued(s: State, c: Scan, cand: Option<nat>, t: State, c': Scan, cqsize: nat)
    requires Fillable(s) && RoundWent(s, c, cand, t, c', cqsize)
    ensures Fillable(t) && SameStore(s, t)
  {
    var c1 := ScanFrom(s, c, cand);
    if c1.cleaning.Some? && ScanSize(s, c) != 0 {
      QueueAllIs(s, s.seg[c1.cleaning.value].log[c1.passed..c'.passed]);
      ShapeFillable(s, t);
    }
  }

  /** After a round the scan is in order exactly when the round did not start at the hazard. */
  lemma RoundSteady(s: State, a: Arena, c: Scan, cand: Option<nat>, t: State, b: Arena, c': Scan, cqsize: nat)
    requires Steady(s, a, c) && Ready(t, b) && cqsize > 0 && a.segs != []
    requires b.cur == a.cur && b.segs == Survivors(s.seg, Older(a.segs)) + [a.cur]
    requires CanStart(s, b, cand) && RoundWent(s, c, cand, t, c', cqsize)
    ensures Fillable(t) && SameStore(s, t) && (Steady(t, b, c') <==> !Hazard(s, c, cqsize))
  {
    UnfoldSteady(s, a, c);
    UnfoldReady(s, a);
    RoundQueued(s, c, cand, t, c', cqsize);
    RoundScanOk(s, a, c, cand, t, b, c', cqsize);
    UnfoldSteady(t, b, c');
  }

  // ---------------------------------------------------------------------------
  // A round wherever the scan is

  /** Forgetting how far the scan has come. */
  function Loose(a: Arena, c: Scan): Scan { Scan(c.cleaning, a.segsize, 0) }

  lemma SteadyIsLoose(s: State, a: Arena, c: Scan)
    requires Steady(s, a, c)
    ensures Steady(s, a, Loose(a, c)) && (c.cleaning.Some? ==> c.off <= a.segsize)
  {
    UnfoldSteady(s, a, c);
    UnfoldReady(s, a);
    UnfoldSteady(s, a, Loose(a, c));
  }

  /** The scan of a round, whatever it comes to. */
  ghost predicate RoundRan(s: State, c: Scan, cand: Option<nat>, t: State, c': Scan, astray: bool, cqsize: nat) {
    var c1 := ScanFrom(s, c, cand);
    && c'.cleaning == c1.cleaning
    && if c1.cleaning.None? then t == s && c' == c1 && !astray
       else c1.cleaning.value < |s.seg|
            && Scanned(t, c'.off, astray) == ScanRun(s, c1.cleaning.value, c1.off, ScanSize(s, c), cqsize)
  }

  /** The scan is at bytes of its segment that nobody has written since it was handed out. */
  ghost predicate Lost(s: State, c: Scan) {
    && c.cleaning.Some? && c.cleaning.value < |s.seg| && c.off < s.seg[c.cleaning.value].size
    && At(c.cleaning.value, c.off) !in s.item && !IsFiller(s, c.cleaning.value, c.off)
  }

  lemma RoundRanInside(s: State, a: Arena, c: Scan, cand: Option<nat>, t: State, c': Scan, astray: bool, cqsize: nat)
    requires Ready(s, a) && RoundRan(s, c, cand, t, c', astray, cqsize)
    requires c.cleaning.Some? ==> c.cleaning.value < |s.seg| && c.off <= a.segsize
    ensures t.seg == s.seg && (c'.cleaning.Some? ==> c'.cleaning.value < |s.seg| && c'.off <= a.segsize)
    ensures astray ==> Lost(t, c')
  {
    var c1 := ScanFrom(s, c, cand);
    if c1.cleaning.Some? && c.cleaning.Some? {
      var g := c1.cleaning.value;
      ItemsEndInside(s, a, g);
      UnfoldReady(s, a);
      ScanRunStops(s, g, c1.off, s.seg[g].size, cqsize);
    }
  }

  lemma RoundRanKeeps(s: State, a: Arena, c: Scan, cand: Option<nat>, t: State, c': Scan, astray: bool, cqsize: nat)
    requires Ready(s, a) && RoundRan(s, c, cand, t, c', astray, cqsize)
    ensures Undisturbed(s, t)
  {
    var c1 := ScanFrom(s, c, cand);
    if c1.cleaning.Some? { ScanRunKeeps(s, a, c1.cleaning.value, c1.off, ScanSize(s, c), cqsize, t); }
  }

  /** Wherever the scan was, a round changes no value, keeps the fillers in order and leaves the
      scan inside its segment. */
  lemma RoundIsLoose(s: State, a: Arena, c: Scan, cand: Option<nat>, t: State, b: Arena, c': Scan, astray: bool,
    cqsize: nat)
    requires Steady(s, a, Loose(a, c)) && Ready(t, b) && b.segsize == a.segsize
    requires RoundRan(s, c, cand, t, c', astray, cqsize) && (c.cleaning.Some? ==> c.off <= a.segsize)
    ensures Steady(t, b, Loose(b, c')) && (c'.cleaning.Some? ==> c'.off <= b.segsize)
    ensures Fillable(t) && SameStore(s, t) && (astray ==> Lost(t, c'))
  {
    UnfoldSteady(s, a, Loose(a, c));
    RoundRanInside(s, a, c, cand, t, c', astray, cqsize);
    RoundRanKeeps(s, a, c, cand, t, c', astray, cqsize);
    ShapeFillable(s, t);
    UnfoldReady(t, b);
    UnfoldSteady(t, b, Loose(b, c'));
  }

  // ---------------------------------------------------------------------------
  // What the hazard leads to

  lemma FreshIsNotFull(item: map<Ptr, Item>, size: nat, g: nat)
    requires size > 0
    ensures !Full(item, FreshSeg(size), g)
  {
    UnfoldFull(item, FreshSeg(size), g);
  }

  /** Handing out the segment that `cleaning` names leaves the scan in order exactly when the scan
      was through. */
  lemma ReuseKeepsScanExactlyWhen(s: State, a: Arena, c: Scan)
    requires Sound(s, a) && a.segsize > 0 && a.free != [] && c.cleaning == Some(a.free[0])
    ensures ScanOk(SegmentFor(s, a).state, SegmentFor(s, a).arena, c) <==> c.off == a.segsize
  {
    SegmentForIs(s, a);
    FreshIsNotFull(SegmentFor(s, a).state.item, a.segsize, a.free[0]);
  }

  /** After that the scan starts again in a segment still being filled: behind the items it comes
      to bytes that nobody has written since, neither an item nor a filler. */
  lemma ScanRunsPastTheItems(s: State, a: Arena, hv: nat, key: Bytes, val: Bytes)
    requires Sound(s, a) && a.free != [] && HEADER + |key| + |val| < a.segsize
    ensures var g, r, total := a.free[0], SegmentFor(s, a), HEADER + |key| + |val|;
      && Fits(r.state.seg, g, total)
      && var t := Alloc(r.state, g, hv, key, val);
         && At(g, 0) in t.item && TotalSize(t.item[At(g, 0)]) == total
         && At(g, total) !in t.item && t.seg[g].offset == total < t.seg[g].size && !t.seg[g].filled
  {
    SegmentForIs(s, a);
  }
}
