/** The allocator of a worker, and the log cleaner that allocates from it. */
module KvAlloc {
  import opened KvState
  import opened KvTable
  import opened KvLog
  import opened KvStore
  import opened KvClean

  datatype Option<T> = None | Some(value: T)

  /** The segment a worker allocates from, the one it keeps in reserve for cleaning, the
      segments it has used from the oldest to the current one, the segments free for all, and
      the two flags of a segment header. */
  datatype Arena = Arena(cur: nat, reserved: Option<nat>, segs: seq<nat>, free: seq<nat>,
                         inactive: set<nat>, cleaned: set<nat>, segsize: nat, segmax: nat)

  /** Segments with nothing live in them. */
  predicate Spare(a: Arena, g: nat) { g in a.free || a.reserved == Some(g) }

  /** The segments of a worker are its own, and all but the current one are full and marked
      inactive. */
  ghost predicate ChainOk(seg: seq<Seg>, a: Arena) {
    && a.segs != [] && a.segs[|a.segs| - 1] == a.cur && a.cur !in a.inactive
    && (forall i | 0 <= i < |a.segs| :: a.segs[i] < |seg| && !Spare(a, a.segs[i]))
    && (forall i, j | 0 <= i < j < |a.segs| :: a.segs[i] != a.segs[j])
    && (forall i | 0 <= i < |a.segs| - 1 :: a.segs[i] in a.inactive && seg[a.segs[i]].offset == a.segsize)
  }

  ghost predicate ArenaOk(seg: seq<Seg>, a: Arena) {
    && a.cur < |seg| <= a.segmax && !Spare(a, a.cur) && ChainOk(seg, a)
    && (forall g | 0 <= g < |seg| :: seg[g].size == a.segsize)
    && (forall i | 0 <= i < |a.free| :: a.free[i] < |seg| && seg[a.free[i]].freed == a.segsize)
    && (forall i, j | 0 <= i < j < |a.free| :: a.free[i] != a.free[j])
    && (a.reserved.Some? ==>
          a.reserved.value < |seg| && a.reserved.value !in a.free && a.reserved.value !in a.inactive
          && seg[a.reserved.value] == FreshSeg(a.segsize))
  }

  /** Every item is smaller than a segment, as ialloc_alloc asserts of what it is asked for. */
  ghost predicate Small(item: map<Ptr, Item>, segsize: nat) {
    forall p | p in item :: TotalSize(item[p]) < segsize
  }

  ghost predicate Sound(s: State, a: Arena) {
    Inv(s) && ArenaOk(s.seg, a) && Small(s.item, a.segsize)
  }

  /** Sound, folded. */
  ghost predicate Ready(s: State, a: Arena, depth: nat := 3) {
    if depth == 0 then Sound(s, a) else Ready(s, a, depth - 1)
  }

  lemma UnfoldReady(s: State, a: Arena)
    ensures Ready(s, a) <==> Sound(s, a)
  {
    assert Ready(s, a, 3) == Ready(s, a, 2);
    assert Ready(s, a, 1) == Ready(s, a, 0);
  }

  // ---------------------------------------------------------------------------
  // Segments for the allocator

  /** A state, an arena and the segment found, if any. */
  datatype Grant = Grant(state: State, arena: Arena, to: Option<nat>)

  /** A segment handed out starts with its flags cleared. */
  function Unmarked(a: Arena, g: nat): Arena {
    a.(inactive := a.inactive - {g}, cleaned := a.cleaned - {g})
  }

  /** The current segment becomes inactive and g follows it. */
  function Switched(a: Arena, g: nat): Arena {
    a.(cur := g, segs := a.segs + [g], inactive := a.inactive + {a.cur})
  }

  /** segment_alloc: from the free list, or one never used. */
  function SegmentFor(s: State, a: Arena): Grant
    requires forall i | 0 <= i < |a.free| :: a.free[i] < |s.seg|
  {
    if a.free != [] then Grant(Recycle(s, a.free[0]), Unmarked(a.(free := a.free[1..]), a.free[0]), Some(a.free[0]))
    else if |s.seg| < a.segmax then Grant(AddSegment(s, a.segsize), Unmarked(a, |s.seg|), Some(|s.seg|))
    else Grant(s, a, None)
  }

  /** Callers keep their references and every item that has one stays as it is. */
  ghost predicate Kept(s: State, t: State) {
    && t.held == s.held && t.queue == s.queue
    && (forall p | p in s.item && s.item[p].refs > 0 :: p in t.item && t.item[p] == s.item[p])
    && SameStore(s, t)
  }

  lemma KeptTransitive(s: State, t: State, u: State)
    requires Kept(s, t) && Kept(t, u)
    ensures Kept(s, u)
  {
    SameStoreTransitive(s, t, u);
  }

  lemma RecycleKept(s: State, g: nat)
    requires Inv(s) && g < |s.seg| && s.seg[g].freed == s.seg[g].size
    ensures Inv(Recycle(s, g)) && Kept(s, Recycle(s, g))
  {
    RecycleKeeps(s, g);
    RecycleSame(s, g);
    NothingLive(s, g);
  }

  lemma AddSegmentKept(s: State, size: nat)
    requires Inv(s)
    ensures Inv(AddSegment(s, size)) && Kept(s, AddSegment(s, size))
  {
    AddSegmentKeeps(s, size);
    SegmentsSame(s, AddSegment(s, size).seg);
  }

  lemma RecycleArena(seg: seq<Seg>, a: Arena)
    requires ArenaOk(seg, a) && a.free != []
    ensures var a' := Unmarked(a.(free := a.free[1..]), a.free[0]);
      ArenaOk(seg[a.free[0] := FreshSeg(seg[a.free[0]].size)], a') && NewTo(a', a.free[0])
  {
    var a' := Unmarked(a.(free := a.free[1..]), a.free[0]);
    assert forall i | 0 <= i < |a'.free| :: a'.free[i] == a.free[i + 1];
    assert forall i | 0 <= i < |a.segs| :: !Spare(a, a.segs[i]) && a.segs[i] != a.free[0];
  }

  /** g is in nobody's hands. */
  ghost predicate NewTo(a: Arena, g: nat) {
    !Spare(a, g) && g !in a.segs && g !in a.inactive
  }

  /** A segment found is empty and belongs to nobody else; there is none exactly when the free
      list is empty and every segment has been handed out. */
  lemma SegmentForIs(s: State, a: Arena)
    requires Sound(s, a)
    ensures var r := SegmentFor(s, a);
      && Sound(r.state, r.arena) && Kept(s, r.state)
      && (r.to.None? <==> a.free == [] && |s.seg| == a.segmax) && (r.to.None? ==> r.state == s && r.arena == a)
      && (r.to.Some? ==> r.to.value == if a.free != [] then a.free[0] else |s.seg|)
      && r.arena.reserved == a.reserved && r.arena.segsize == a.segsize && r.arena.cur == a.cur
      && |r.state.seg| >= |s.seg| && r.state.seg[a.cur] == s.seg[a.cur]
      && (r.to.Some? ==>
            r.to.value < |r.state.seg| && r.state.seg[r.to.value] == FreshSeg(a.segsize) && NewTo(r.arena, r.to.value))
  {
    if a.free != [] {
      RecycledIs(s, a);
    } else if |s.seg| < a.segmax {
      AddSegmentKept(s, a.segsize);
      AddSegmentArena(s.seg, a);
    }
  }

  lemma RecycledIs(s: State, a: Arena)
    requires Sound(s, a) && a.free != []
    ensures var t, g := Recycle(s, a.free[0]), a.free[0]; var a' := Unmarked(a.(free := a.free[1..]), g);
      && Sound(t, a') && Kept(s, t) && t.seg[a.cur] == s.seg[a.cur]
      && g < |t.seg| && t.seg[g] == FreshSeg(a.segsize) && NewTo(a', g)
  {
    RecycleKept(s, a.free[0]);
    RecycleArena(s.seg, a);
  }

  lemma AddSegmentArena(seg: seq<Seg>, a: Arena)
    requires ArenaOk(seg, a) && |seg| < a.segmax
    ensures ArenaOk(seg + [FreshSeg(a.segsize)], Unmarked(a, |seg|)) && NewTo(Unmarked(a, |seg|), |seg|)
  {}

  /** The allocator moves on to a new segment once the current one is full. */
  lemma SwitchArena(seg: seq<Seg>, a: Arena, g: nat)
    requires ArenaOk(seg, a) && g < |seg| && NewTo(a, g) && seg[a.cur].offset == a.segsize
    ensures ArenaOk(seg, Switched(a, g))
  {}

  /** segment_item_alloc without room. */
  function GiveUp(s: State, g: nat): State
    requires g < |s.seg| && s.seg[g].offset <= s.seg[g].size
  {
    if s.seg[g].offset == s.seg[g].size then s else Fill(s, g)
  }

  lemma GiveUpKept(s: State, a: Arena)
    requires Sound(s, a)
    ensures s.seg[a.cur].offset <= s.seg[a.cur].size
    ensures var t := GiveUp(s, a.cur);
      Sound(t, a) && Kept(s, t) && |t.seg| == |s.seg| && t.seg[a.cur].offset == a.segsize
  {
    assert SegOk(s.item, s.seg[a.cur], a.cur);
    if s.seg[a.cur].offset != s.seg[a.cur].size {
      FillKeeps(s, a.cur);
      SegmentsSame(s, Fill(s, a.cur).seg);
      CurrentArena(s.seg, a, Filled(s.seg[a.cur]));
    }
  }

  /** Nothing but its size matters about the current segment. */
  lemma CurrentArena(seg: seq<Seg>, a: Arena, h: Seg)
    requires ArenaOk(seg, a) && h.size == seg[a.cur].size
    ensures ArenaOk(seg[a.cur := h], a)
  {
    assert forall i | 0 <= i < |a.segs| - 1 :: a.segs[i] != a.segs[|a.segs| - 1];
  }

  /** With the current segment full: on to a new one or, for cleaning, to the reserved one. */
  function MoveOn(s: State, a: Arena, cleanup: bool): Grant
    requires forall i | 0 <= i < |a.free| :: a.free[i] < |s.seg|
  {
    var r := SegmentFor(s, a);
    if r.to.Some? then r.(arena := Switched(r.arena, r.to.value))
    else if cleanup && a.reserved.Some? then Grant(s, Switched(a.(reserved := None), a.reserved.value), a.reserved)
    else Grant(s, a, None)
  }

  lemma MoveOnIs(s: State, a: Arena, cleanup: bool)
    requires Sound(s, a) && s.seg[a.cur].offset == a.segsize
    ensures var r := MoveOn(s, a, cleanup);
      && Sound(r.state, r.arena) && Kept(s, r.state) && r.arena.segsize == a.segsize
      && (r.to.None? <==> a.free == [] && |s.seg| == a.segmax && !(cleanup && a.reserved.Some?))
      && (r.to.Some? ==> r.to.value == r.arena.cur && r.state.seg[r.arena.cur] == FreshSeg(a.segsize))
  {
    SegmentForIs(s, a);
    var r := SegmentFor(s, a);
    if r.to.Some? {
      SwitchArena(r.state.seg, r.arena, r.to.value);
    } else if cleanup && a.reserved.Some? {
      TakeReserve(s.seg, a);
    }
  }

  /** Giving up the rest of the current segment and moving on. */
  ghost function NewRoom(s: State, a: Arena, cleanup: bool): (r: Grant)
    requires Sound(s, a)
    ensures Sound(r.state, r.arena) && Kept(s, r.state) && r.arena.segsize == a.segsize
    ensures r.to.None? <==> a.free == [] && |s.seg| == a.segmax && !(cleanup && a.reserved.Some?)
    ensures r.to.Some? ==> r.to.value == r.arena.cur && r.state.seg[r.arena.cur] == FreshSeg(a.segsize)
  {
    GiveUpKept(s, a);
    var s1 := GiveUp(s, a.cur);
    MoveOnIs(s1, a, cleanup);
    KeptTransitive(s, s1, MoveOn(s1, a, cleanup).state);
    MoveOn(s1, a, cleanup)
  }

  /** When ialloc_alloc fails. */
  predicate NoRoom(s: State, a: Arena, total: nat, cleanup: bool) {
    || (a.reserved.None? && !cleanup)
    || (!Fits(s.seg, a.cur, total) && a.free == [] && |s.seg| == a.segmax && !(cleanup && a.reserved.Some?))
  }

  ghost function FindRoom(s: State, a: Arena, total: nat, cleanup: bool): (r: Grant)
    requires Sound(s, a) && total < a.segsize
    ensures Sound(r.state, r.arena) && Kept(s, r.state) && r.arena.segsize == a.segsize
    ensures r.to.None? <==> NoRoom(s, a, total, cleanup)
    ensures r.to.Some? ==> r.to.value == r.arena.cur && Fits(r.state.seg, r.arena.cur, total)
  {
    if a.reserved.None? && !cleanup then Grant(s, a, None)
    else if Fits(s.seg, a.cur, total) then Grant(s, a, Some(a.cur))
    else NewRoom(s, a, cleanup)
  }

  /** Where ialloc_alloc puts an item of a given size.  It fails exactly when an allocation is
      not allowed or every segment is in use; otherwise the segment it is at then has room, and
      nothing anyone refers to has changed.  FindRoom, folded. */
  ghost function Room(s: State, a: Arena, total: nat, cleanup: bool, depth: nat := 3): (r: Grant)
    requires Ready(s, a) && total < a.segsize
    ensures Ready(r.state, r.arena) && Kept(s, r.state) && r.arena.segsize == a.segsize
    ensures r.to.None? <==> NoRoom(s, a, total, cleanup)
    ensures r.to.Some? ==> r.to.value == r.arena.cur && Fits(r.state.seg, r.arena.cur, total)
  {
    if depth > 0 then Room(s, a, total, cleanup, depth - 1)
    else
      UnfoldReady(s, a);
      var r := FindRoom(s, a, total, cleanup);
      UnfoldReady(r.state, r.arena);
      r
  }

  lemma UnfoldRoom(s: State, a: Arena, total: nat, cleanup: bool)
    requires Sound(s, a) && Ready(s, a) && total < a.segsize
    ensures Room(s, a, total, cleanup) == FindRoom(s, a, total, cleanup)
  {
    assert Room(s, a, total, cleanup, 3) == Room(s, a, total, cleanup, 2);
    assert Room(s, a, total, cleanup, 1) == Room(s, a, total, cleanup, 0);
  }

  predicate CurrentOk(seg: seq<Seg>, cur: nat) {
    cur < |seg| && seg[cur].offset <= seg[cur].size && (seg[cur].filled ==> seg[cur].offset == seg[cur].size)
  }

  /** What ialloc_alloc leaves, attempt by attempt. */
  ghost function Attempts(s: State, a: Arena, total: nat, cleanup: bool): Grant
    requires CurrentOk(s.seg, a.cur) && forall i | 0 <= i < |a.free| :: a.free[i] < |s.seg|
  {
    if a.reserved.None? && !cleanup then Grant(s, a, None)
    else if Fits(s.seg, a.cur, total) then Grant(s, a, Some(a.cur))
    else MoveOn(GiveUp(s, a.cur), a, cleanup)
  }

  /** What ialloc_alloc can rely on. */
  lemma AttemptCan(s: State, a: Arena, cleanup: bool)
    requires Sound(s, a)
    ensures CurrentOk(s.seg, a.cur) && forall i | 0 <= i < |a.free| :: a.free[i] < |s.seg|
    ensures var r := MoveOn(GiveUp(s, a.cur), a, cleanup);
      r.to.Some? ==> r.arena.cur < |r.state.seg| && r.state.seg[r.arena.cur] == FreshSeg(a.segsize)
  {
    assert SegOk(s.item, s.seg[a.cur], a.cur);
    GiveUpKept(s, a);
    MoveOnIs(GiveUp(s, a.cur), a, cleanup);
  }

  lemma AllocationCan(s: State, a: Arena, total: nat, cleanup: bool)
    requires Ready(s, a) && total < a.segsize
    ensures CurrentOk(s.seg, a.cur) && forall i | 0 <= i < |a.free| :: a.free[i] < |s.seg|
    ensures var r := MoveOn(GiveUp(s, a.cur), a, cleanup);
      r.to.Some? ==> r.arena.cur < |r.state.seg| && r.state.seg[r.arena.cur] == FreshSeg(a.segsize)
    ensures Room(s, a, total, cleanup) == Attempts(s, a, total, cleanup)
  {
    UnfoldReady(s, a);
    AttemptCan(s, a, cleanup);
    UnfoldRoom(s, a, total, cleanup);
  }

  lemma TakeReserve(seg: seq<Seg>, a: Arena)
    requires ArenaOk(seg, a) && a.reserved.Some? && seg[a.cur].offset == a.segsize
    ensures ArenaOk(seg, Switched(a.(reserved := None), a.reserved.value))
  {
    assert forall i | 0 <= i < |a.segs| :: !Spare(a, a.segs[i]);
    SwitchArena(seg, a.(reserved := None), a.reserved.value);
  }

  // ---------------------------------------------------------------------------
  // References and the arena

  /** An item with a reference lies in no spare segment. */
  lemma LiveElsewhere(s: State, a: Arena, p: Ptr)
    requires Sound(s, a) && p in s.item && s.item[p].refs > 0
    ensures p.At? && p.seg < |s.seg| && !Spare(a, p.seg)
  {
    assert LoggedIn(s.seg, p);
    if p.seg in a.free {
      var i :| 0 <= i < |a.free| && a.free[i] == p.seg;
      NothingLive(s, a.free[i]);
    }
  }

  lemma UnrefArena(s: State, a: Arena, p: Ptr)
    requires ArenaOk(s.seg, a) && Small(s.item, a.segsize) && p.At? && !Spare(a, p.seg)
    ensures ArenaOk(Unref(s, p).seg, a) && Small(Unref(s, p).item, a.segsize)
  {}

  lemma ReleaseReady(s: State, a: Arena, p: Ptr)
    requires Ready(s, a) && s.held[p] > 0
    ensures Ready(Release(s, p), a) && SameStore(s, Release(s, p)) && Release(s, p).queue == s.queue
  {
    UnfoldReady(s, a);
    HeldIsLive(s, p);
    LiveElsewhere(s, a, p);
    ReleaseSame(s, p);
    SameTable(s, Release(s, p));
    UnrefArena(s, a, p);
    UnrefElse(s, p);
    UnfoldReady(Release(s, p), a);
  }

  lemma SmallContents(item: map<Ptr, Item>, item': map<Ptr, Item>, segsize: nat)
    requires Small(item, segsize) && SameContents(item, item')
    ensures Small(item', segsize)
  {}

  lemma PutArena(s: State, a: Arena, nit: Ptr, cas: Ptr)
    requires Sound(s, a) && CanPut(s, nit)
    ensures ArenaOk(Put(s, nit, cas).seg, a) && Small(Put(s, nit, cas).item, a.segsize)
  {
    PutIs(s, nit, cas);
    PutBareContents(s, nit);
    PutRefinesMap(s, nit, cas);
    SmallContents(s.item, Put(s, nit, cas).item, a.segsize);
    var k, bare := KeyOf(s.item[nit]), PutBare(s, nit);
    if TakesEffect(s, nit, cas) && k in s.tbl {
      assert Mapped(s.item, s.tbl, s.tbl[k]);
      MappedIsLive(s, s.tbl[k]);
      LiveElsewhere(s, a, s.tbl[k]);
      assert OneMoreRef(s.item, bare.item, nit);
      SmallContents(s.item, bare.item, a.segsize);
      UnrefArena(bare, a, s.tbl[k]);
    }
  }

  lemma AllocArena(s: State, a: Arena, hv: nat, key: Bytes, val: Bytes)
    requires ArenaOk(s.seg, a) && Small(s.item, a.segsize)
    requires Fits(s.seg, a.cur, HEADER + |key| + |val|) && HEADER + |key| + |val| < a.segsize
    ensures var t := Alloc(s, a.cur, hv, key, val); ArenaOk(t.seg, a) && Small(t.item, a.segsize)
  {
    AllocIs(s, a.cur, hv, key, val);
    CurrentArena(s.seg, a, Alloc(s, a.cur, hv, key, val).seg[a.cur]);
  }

  lemma AllocReady(s: State, a: Arena, hv: nat, key: Bytes, val: Bytes)
    requires Ready(s, a) && Fits(s.seg, a.cur, HEADER + |key| + |val|) && HEADER + |key| + |val| < a.segsize
    ensures Ready(Alloc(s, a.cur, hv, key, val), a)
  {
    UnfoldReady(s, a);
    AllocArena(s, a, hv, key, val);
    AllocKeeps(s, a.cur, hv, key, val);
    UnfoldReady(Alloc(s, a.cur, hv, key, val), a);
  }

  lemma RelocateReady(s: State, a: Arena, p: Ptr)
    requires Sound(s, a) && s.held[p] > 0 && p in s.item && Fits(s.seg, a.cur, TotalSize(s.item[p]))
    ensures var t := Relocate(s, p, a.cur);
      Ready(t, a) && SameStore(s, t) && t.held[p] > 0 && t.queue == s.queue
  {
    UnfoldReady(s, a);
    RelocateKeeps(s, p, a.cur);
    var it, nit := s.item[p], NextAddress(s, a.cur);
    AllocReady(s, a, it.hv, it.key, it.val);
    AllocKeeps(s, a.cur, it.hv, it.key, it.val);
    var t := Alloc(s, a.cur, it.hv, it.key, it.val);
    UnfoldReady(t, a);
    PutKeeps(t, nit, p);
    PutArena(t, a, nit, p);
    PutHeld(t, nit, p);
    UnfoldReady(Put(t, nit, p), a);
    ReleaseReady(Put(t, nit, p), a, nit);
  }

  /** Moving an item keeps allocator and store in order and every value in place. */
  ghost function Moved(s: State, a: Arena, p: Ptr): (t: State)
    requires Ready(s, a) && s.held[p] > 0 && p in s.item && Fits(s.seg, a.cur, TotalSize(s.item[p]))
    ensures Ready(t, a) && SameStore(s, t) && t.held[p] > 0 && t.queue == s.queue
  {
    UnfoldReady(s, a);
    RelocateReady(s, a, p);
    Relocate(s, p, a.cur)
  }

  // ---------------------------------------------------------------------------
  // clean_log

  /** The reserved segment is replaced as soon as there is another one. */
  function Refilled(s: State, a: Arena): Grant
    requires forall i | 0 <= i < |a.free| :: a.free[i] < |s.seg|
  {
    if a.reserved.Some? then Grant(s, a, a.reserved)
    else
      var r := SegmentFor(s, a);
      r.(arena := r.arena.(reserved := r.to))
  }

  ghost function Refill(s: State, a: Arena): (r: Grant)
    requires Ready(s, a)
    ensures Ready(r.state, r.arena) && Kept(s, r.state) && r.arena.segsize == a.segsize
  {
    UnfoldReady(s, a);
    RefillIs(s, a);
    Refilled(s, a)
  }

  lemma RefillIs(s: State, a: Arena)
    requires Sound(s, a)
    ensures var r := Refilled(s, a);
      Ready(r.state, r.arena) && Kept(s, r.state) && r.arena.segsize == a.segsize
  {
    var r := SegmentFor(s, a);
    if a.reserved.None? {
      SegmentForIs(s, a);
      if r.to.Some? { KeepReserve(r.state.seg, r.arena, r.to.value); }
    }
    UnfoldReady(Refilled(s, a).state, Refilled(s, a).arena);
  }

  lemma KeepReserve(seg: seq<Seg>, a: Arena, g: nat)
    requires ArenaOk(seg, a) && g < |seg| && NewTo(a, g) && seg[g] == FreshSeg(a.segsize) && a.reserved.None?
    ensures ArenaOk(seg, a.(reserved := Some(g)))
  {}

  /** After a turn, or where the program stopped because it found no room for a copy. */
  datatype Turn = Turn(state: State, arena: Arena, stopped: bool)

  lemma DequeueReady(s: State, a: Arena)
    requires Ready(s, a) && s.queue != []
    ensures Ready(Dequeue(s), a) && SameStore(s, Dequeue(s))
    ensures s.queue[0] in s.item && s.item[s.queue[0]].refs > 0 && Dequeue(s).held[s.queue[0]] > 0
  {
    UnfoldReady(s, a);
    DequeueKeeps(s);
    HeldIsLive(s, s.queue[0]);
    SameTable(s, Dequeue(s));
    UnfoldReady(Dequeue(s), a);
  }

  lemma HeldIsSmall(s: State, a: Arena, p: Ptr)
    requires Ready(s, a) && s.held[p] > 0
    ensures p in s.item && s.item[p].refs > 0 && TotalSize(s.item[p]) < a.segsize
  {
    UnfoldReady(s, a);
    HeldIsLive(s, p);
  }

  /** With the item in hand: a copy unless the queue had the only reference. */
  ghost function Handle(s: State, a: Arena, p: Ptr): (r: Turn)
    requires Ready(s, a) && s.held[p] > 0 && p in s.item
    ensures Ready(r.state, r.arena) && SameStore(s, r.state) && r.state.queue == s.queue
    ensures r.stopped <==> s.item[p].refs != 1 && NoRoom(s, a, TotalSize(s.item[p]), true)
  {
    if s.item[p].refs == 1 then
      ReleaseReady(s, a, p);
      Turn(Release(s, p), a, false)
    else
      HandleCopy(s, a, p)
  }

  ghost function HandleCopy(s: State, a: Arena, p: Ptr): (r: Turn)
    requires Ready(s, a) && s.held[p] > 0 && p in s.item
    ensures Ready(r.state, r.arena) && SameStore(s, r.state) && r.state.queue == s.queue
    ensures r.stopped <==> NoRoom(s, a, TotalSize(s.item[p]), true)
  {
    HeldIsSmall(s, a, p);
    var r := Room(s, a, TotalSize(s.item[p]), true);
    if r.to.None? then Turn(r.state, r.arena, true)
    else
      var t := Moved(r.state, r.arena, p);
      ReleaseReady(t, r.arena, p);
      SameStoreTransitive(s, r.state, t);
      SameStoreTransitive(s, t, Release(t, p));
      Turn(Release(t, p), r.arena, false)
  }

  /** ialloc_cleanup_item and the body of the loop: TakeNext, folded. */
  ghost function CleanTurn(s: State, a: Arena, depth: nat := 3): (r: Turn)
    requires Ready(s, a) && s.queue != []
    ensures Ready(r.state, r.arena) && SameStore(s, r.state) && r.state.queue == s.queue[1..]
  {
    if depth == 0 then TakeNext(s, a) else CleanTurn(s, a, depth - 1)
  }

  lemma UnfoldTurn(s: State, a: Arena)
    requires Ready(s, a) && s.queue != []
    ensures CleanTurn(s, a) == TakeNext(s, a)
  {
    assert CleanTurn(s, a, 3) == CleanTurn(s, a, 2) == CleanTurn(s, a, 1) == CleanTurn(s, a, 0);
  }

  ghost function TakeNext(s: State, a: Arena): (r: Turn)
    requires Ready(s, a) && s.queue != []
    ensures Ready(r.state, r.arena) && SameStore(s, r.state) && r.state.queue == s.queue[1..]
  {
    DequeueReady(s, a);
    var s1 := Dequeue(s);
    var r := Refill(s1, a);
    SameStoreTransitive(s, s1, r.state);
    SameStoreTransitive(s, r.state, Handle(r.state, r.arena, s.queue[0]).state);
    Handle(r.state, r.arena, s.queue[0])
  }

  /** What clean_log leaves: where it stopped, and how many items it took off the queue. */
  datatype Cleaned = Cleaned(state: State, arena: Arena, stopped: bool, n: nat)

  /** clean_log with at most `limit` items, or no limit when idle. */
  ghost function CleanLog(s: State, a: Arena, limit: Option<nat>): (r: Cleaned)
    requires Ready(s, a)
    ensures Ready(r.state, r.arena)
    decreases |s.queue|
  {
    if limit == Some(0) then Cleaned(s, a, false, 0)
    else if s.queue == [] then
      Cleaned(Refill(s, a).state, Refill(s, a).arena, false, 0)
    else
      var t := CleanTurn(s, a);
      if t.stopped then Cleaned(t.state, t.arena, true, 1)
      else
        var r := CleanLog(t.state, t.arena, if limit.None? then None else Some(limit.value - 1));
        r.(n := r.n + 1)
  }

  /** Cleaning any queue leaves every key with its value, whether each copy takes the place of
      its item, loses to a newer one or meets a chained one, and even if the cleaner stops for
      want of room.  Otherwise it takes off the queue what it was allowed to. */
  lemma {:induction false} CleanLogKeepsContent(s: State, a: Arena, limit: Option<nat>)
    requires Ready(s, a)
    ensures var r := CleanLog(s, a, limit);
      && SameStore(s, r.state) && r.n <= |s.queue| && r.state.queue == s.queue[r.n..]
      && (!r.stopped ==> r.n == if limit.Some? && limit.value < |s.queue| then limit.value else |s.queue|)
    decreases |s.queue|
  {
    if limit == Some(0) {
    } else if s.queue != [] {
      var t := CleanTurn(s, a);
      if !t.stopped {
        var rest := if limit.None? then None else Some(limit.value - 1);
        CleanLogKeepsContent(t.state, t.arena, rest);
        SameStoreTransitive(s, t.state, CleanLog(t.state, t.arena, rest).state);
      }
    }
  }
}
