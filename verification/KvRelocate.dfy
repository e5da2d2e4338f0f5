/** What the cleaner does to an item, and to a segment whose items it has been given. */
module KvRelocate {
  import opened KvState
  import opened KvTable
  import opened KvLog
  import opened KvStore
  import opened KvClean
  import opened KvAlloc
  import opened KvMaintain
  import opened KvSteady

  /** p is the item the table holds for its key, in a slot rather than on a chain. */
  ghost predicate InSlot(s: State, p: Ptr) {
    && Mapped(s.item, s.tbl, p) && |s.bucket| > 0
    && p in s.bucket[s.item[p].hv % |s.bucket|].items
  }

  // ---------------------------------------------------------------------------
  // Segments come and go

  /** The table is as before, and no item is new or changed. */
  ghost predicate Idle(s: State, t: State) {
    && t.tbl == s.tbl && t.bucket == s.bucket && t.chain == s.chain
    && (forall q | q in t.item :: q in s.item && t.item[q] == s.item[q])
  }

  /** Segment g is neither current nor spare, before and after, and has not changed. */
  ghost predicate Spared(s: State, a: Arena, t: State, b: Arena, g: nat) {
    g < |s.seg| && g != a.cur && !Spare(a, g) ==> g < |t.seg| && t.seg[g] == s.seg[g] && g != b.cur && !Spare(b, g)
  }

  lemma SegmentForShape(s: State, a: Arena, g: nat)
    requires forall i | 0 <= i < |a.free| :: a.free[i] < |s.seg|
    ensures Idle(s, SegmentFor(s, a).state) && Spared(s, a, SegmentFor(s, a).state, SegmentFor(s, a).arena, g)
    ensures var r := SegmentFor(s, a); g < |s.seg| && !Spare(a, g) ==> r.to != Some(g)
  {}

  lemma RefillShape(s: State, a: Arena, g: nat)
    requires forall i | 0 <= i < |a.free| :: a.free[i] < |s.seg|
    ensures Idle(s, Refilled(s, a).state) && Spared(s, a, Refilled(s, a).state, Refilled(s, a).arena, g)
  {
    if a.reserved.None? { SegmentForShape(s, a, g); }
  }

  lemma MoveOnShape(s: State, a: Arena, cleanup: bool, g: nat)
    requires forall i | 0 <= i < |a.free| :: a.free[i] < |s.seg|
    ensures Idle(s, MoveOn(s, a, cleanup).state)
    ensures Spared(s, a, MoveOn(s, a, cleanup).state, MoveOn(s, a, cleanup).arena, g)
  {
    SegmentForShape(s, a, g);
  }

  lemma RoomShape(s: State, a: Arena, total: nat, cleanup: bool, g: nat)
    requires Ready(s, a) && total < a.segsize
    ensures Idle(s, Room(s, a, total, cleanup).state)
    ensures Spared(s, a, Room(s, a, total, cleanup).state, Room(s, a, total, cleanup).arena, g)
  {
    AllocationCan(s, a, total, cleanup);
    AttemptsShape(s, a, total, cleanup, g);
  }

  lemma AttemptsShape(s: State, a: Arena, total: nat, cleanup: bool, g: nat)
    requires CurrentOk(s.seg, a.cur) && forall i | 0 <= i < |a.free| :: a.free[i] < |s.seg|
    ensures Idle(s, Attempts(s, a, total, cleanup).state)
    ensures Spared(s, a, Attempts(s, a, total, cleanup).state, Attempts(s, a, total, cleanup).arena, g)
  {
    if !(a.reserved.None? && !cleanup) && !Fits(s.seg, a.cur, total) {
      MoveOnShape(GiveUp(s, a.cur), a, cleanup, g);
    }
  }

  // ---------------------------------------------------------------------------
  // One copy

  /** A compare-and-set put leaves every item in its slot but the one it replaces. */
  lemma PutSlots(s: State, nit: Ptr, cas: Ptr, b: nat, q: Ptr)
    requires WellShaped(s) && nit in s.item && cas != Null && b < |s.bucket| && q != cas
    ensures var t := Put(s, nit, cas);
      |t.bucket| == |s.bucket| && (q in s.bucket[b].items ==> q in t.bucket[b].items)
  {
    var hv, key := s.item[nit].hv, s.item[nit].key;
    var c := BucketOf(s, hv);
    var i := FindDirect(s.item, s.bucket[c], hv, key, 0);
    if i < BUCKET_NITEMS && s.bucket[c].items[i] == cas {
      UnrefElse(ReplaceDirect(s, c, i, nit), cas);
      if b == c && q in s.bucket[b].items { StaysIn(s.bucket[b].items, i, nit, q); }
    }
  }

  lemma StaysIn(items: seq<Ptr>, i: nat, nit: Ptr, q: Ptr)
    requires i < |items| && q in items && q != items[i]
    ensures q in items[i := nit]
  {
    var k :| 0 <= k < |items| && items[k] == q;
    assert items[i := nit][k] == q;
  }

  /** The other items, keys and values as before. */
  ghost predicate OneCopy(s: State, t: State, p: Ptr, nit: Ptr) {
    && p in s.item && nit !in s.item && t.item.Keys == s.item.Keys + {nit}
    && KeyOf(t.item[nit]) == KeyOf(s.item[p]) && t.item[nit].val == s.item[p].val
    && (forall q | q in s.item :: KeyOf(t.item[q]) == KeyOf(s.item[q]) && t.item[q].val == s.item[q].val)
    && t.held == s.held && t.queue == s.queue
  }

  /** The copy has taken over the key of p if p was in a slot. */
  ghost predicate Redirected(s: State, t: State, p: Ptr, nit: Ptr) {
    && p in s.item && t.tbl == (if InSlot(s, p) then s.tbl[KeyOf(s.item[p]) := nit] else s.tbl)
    && (forall q | q != p && InSlot(s, q) :: InSlot(t, q))
  }

  lemma AllocSlots(s: State, g: nat, hv: nat, key: Bytes, val: Bytes)
    requires Fits(s.seg, g, HEADER + |key| + |val|) && NextAddress(s, g) !in s.item
    ensures var t := Alloc(s, g, hv, key, val);
      && t.bucket == s.bucket && t.queue == s.queue && t.held == s.held + multiset{NextAddress(s, g)}
      && forall q | q in s.item :: InSlot(t, q) <==> InSlot(s, q)
  {
    AllocIs(s, g, hv, key, val);
  }

  /** The put of the copy. */
  lemma PutRedirects(s: State, p: Ptr, nit: Ptr)
    requires CanPut(s, nit) && p in s.item && p != nit && KeyOf(s.item[nit]) == KeyOf(s.item[p])
    ensures Redirected(s, Put(s, nit, p), p, nit)
  {
    PutRefinesMap(s, nit, p);
    var t := Put(s, nit, p);
    forall q | q != p && InSlot(s, q) ensures InSlot(t, q) {
      PutSlots(s, nit, p, s.item[q].hv % |s.bucket|, q);
      assert KeyOf(t.item[q]) == KeyOf(s.item[q]);
    }
  }

  lemma ReleaseSlots(s: State, p: Ptr)
    ensures var t := Release(s, p);
      && t.tbl == s.tbl && SameContents(s.item, t.item) && t.queue == s.queue && t.held == s.held - multiset{p}
      && forall q | InSlot(s, q) :: InSlot(t, q)
  {
    UnrefElse(s, p);
    if CanUnref(s, p) { UnrefChanges(s, p); }
    var t := Release(s, p);
    forall q | InSlot(s, q) ensures InSlot(t, q) { assert KeyOf(t.item[q]) == KeyOf(s.item[q]); }
  }

  /** The copy before it is put. */
  function CopyOf(s: State, p: Ptr, g: nat): State
    requires p in s.item && Fits(s.seg, g, TotalSize(s.item[p]))
  {
    Alloc(s, g, s.item[p].hv, s.item[p].key, s.item[p].val)
  }

  lemma CopyAllocated(s: State, p: Ptr, g: nat)
    requires Inv(s) && p in s.item && Fits(s.seg, g, TotalSize(s.item[p]))
    ensures var u, nit := CopyOf(s, p, g), NextAddress(s, g);
      && nit !in s.item && u.item == s.item[nit := Item(Null, s.item[p].hv, s.item[p].key, s.item[p].val, 1)]
      && u.tbl == s.tbl && u.queue == s.queue && u.held == s.held + multiset{nit}
      && forall q | q in s.item :: InSlot(u, q) <==> InSlot(s, q)
  {
    FreshAddress(s, g);
    AllocSlots(s, g, s.item[p].hv, s.item[p].key, s.item[p].val);
  }

  lemma CopyCanPut(s: State, p: Ptr, g: nat)
    requires Inv(s) && p in s.item && Fits(s.seg, g, TotalSize(s.item[p]))
    ensures CanPut(CopyOf(s, p, g), NextAddress(s, g))
  {
    AllocKeeps(s, g, s.item[p].hv, s.item[p].key, s.item[p].val);
  }

  lemma PutOfCopy(s: State, p: Ptr, nit: Ptr)
    requires CanPut(s, nit) && p in s.item && p != nit && KeyOf(s.item[nit]) == KeyOf(s.item[p])
    ensures var t := Put(s, nit, p);
      Redirected(s, t, p, nit) && SameContents(s.item, t.item) && t.queue == s.queue && t.held == s.held
  {
    PutRedirects(s, p, nit);
    PutRefinesMap(s, nit, p);
    PutHeld(s, nit, p);
  }

  /** Copying an item: the table leads to the copy if it led to the item by a slot, and every other
      item, key and value is as before. */
  lemma RelocateRedirects(s: State, p: Ptr, g: nat)
    requires Inv(s) && p in s.item && Fits(s.seg, g, TotalSize(s.item[p]))
    ensures var nit, t := NextAddress(s, g), Relocate(s, p, g);
      OneCopy(s, t, p, nit) && Redirected(s, t, p, nit)
  {
    var u, nit := CopyOf(s, p, g), NextAddress(s, g);
    CopyAllocated(s, p, g);
    CopyCanPut(s, p, g);
    PutOfCopy(u, p, nit);
    var v := Put(u, nit, p);
    ReleaseSlots(v, nit);
    CopyComposed(s, u, v, Release(v, nit), p, nit);
    RedirectComposed(s, u, v, Release(v, nit), p, nit);
  }

  lemma CopyComposed(s: State, u: State, v: State, t: State, p: Ptr, nit: Ptr)
    requires p in s.item && nit !in s.item
    requires u.item == s.item[nit := Item(Null, s.item[p].hv, s.item[p].key, s.item[p].val, 1)]
    requires u.queue == s.queue && u.held == s.held + multiset{nit}
    requires SameContents(u.item, v.item) && v.queue == u.queue && v.held == u.held
    requires SameContents(v.item, t.item) && t.queue == v.queue && t.held == v.held - multiset{nit}
    ensures OneCopy(s, t, p, nit)
  {
    forall q | q in s.item ensures KeyOf(t.item[q]) == KeyOf(s.item[q]) && t.item[q].val == s.item[q].val {
      assert KeyOf(v.item[q]) == KeyOf(u.item[q]);
    }
  }

  lemma RedirectComposed(s: State, u: State, v: State, t: State, p: Ptr, nit: Ptr)
    requires p in s.item && p in u.item && KeyOf(u.item[p]) == KeyOf(s.item[p]) && u.tbl == s.tbl
    requires forall q | q in s.item :: InSlot(u, q) <==> InSlot(s, q)
    requires Redirected(u, v, p, nit) && t.tbl == v.tbl && forall q | InSlot(v, q) :: InSlot(t, q)
    ensures Redirected(s, t, p, nit)
  {
    forall q | q != p && InSlot(s, q) ensures InSlot(t, q) {
      assert InSlot(u, q) && InSlot(v, q);
    }
  }

  /** Then counts follow: the item has lost the table's reference to the copy. */
  lemma RelocateCounts(s: State, p: Ptr, g: nat)
    requires Inv(s) && s.held[p] > 0 && p in s.item && Fits(s.seg, g, TotalSize(s.item[p]))
    ensures var nit, t := NextAddress(s, g), Relocate(s, p, g);
      && Refs(t.item, nit) == (if InSlot(s, p) then 1 else 0)
      && forall q | q in s.item :: Refs(t.item, q) == Refs(s.item, q) - (if q == p && InSlot(s, p) then 1 else 0)
  {
    RelocateRedirects(s, p, g);
    RelocateKeeps(s, p, g);
    CountsFollow(s, Relocate(s, p, g), p, NextAddress(s, g));
  }

  lemma CountsFollow(s: State, t: State, p: Ptr, nit: Ptr)
    requires RefInv(s.item, s.tbl, s.queue, s.held) && RefInv(t.item, t.tbl, t.queue, t.held)
    requires OneCopy(s, t, p, nit) && Redirected(s, t, p, nit) && TblInv(s.item, s.tbl)
    ensures Refs(t.item, nit) == (if InSlot(s, p) then 1 else 0)
    ensures forall q | q in s.item :: Refs(t.item, q) == Refs(s.item, q) - (if q == p && InSlot(s, p) then 1 else 0)
  {
    assert Refs(s.item, nit) == InMap(s.item, s.tbl, nit) + multiset(s.queue)[nit] + s.held[nit];
    assert Refs(t.item, nit) == InMap(t.item, t.tbl, nit) + multiset(t.queue)[nit] + t.held[nit];
    forall q | q in s.item
      ensures Refs(t.item, q) == Refs(s.item, q) - (if q == p && InSlot(s, p) then 1 else 0)
    {
      assert Refs(s.item, q) == InMap(s.item, s.tbl, q) + multiset(s.queue)[q] + s.held[q];
      assert Refs(t.item, q) == InMap(t.item, t.tbl, q) + multiset(t.queue)[q] + t.held[q];
    }
  }

  // ---------------------------------------------------------------------------
  // One turn

  /** p is off the queue and in hand, and at most dead items are gone. */
  ghost predicate InHand(s: State, x: State, p: Ptr) {
    && s.queue != [] && p == s.queue[0] && x.queue == s.queue[1..] && x.held == s.held + multiset{p}
    && x.tbl == s.tbl && x.bucket == s.bucket
    && (forall q | q in x.item :: q in s.item && x.item[q] == s.item[q])
    && (forall q | q in s.item && s.item[q].refs > 0 :: q in x.item)
  }

  lemma TakenInHand(s: State, a: Arena)
    requires Ready(s, a) && s.queue != []
    ensures Ready(Dequeue(s), a) && InHand(s, Refill(Dequeue(s), a).state, s.queue[0])
  {
    DequeueReady(s, a);
    RefillInHand(s, Dequeue(s), a);
  }

  lemma RefillInHand(s: State, x: State, a: Arena)
    requires s.queue != [] && InHand(s, x, s.queue[0]) && Ready(x, a)
    ensures InHand(s, Refill(x, a).state, s.queue[0])
  {
    var r := Refill(x, a);
    RangeOfFree(x, a);
    RefillShape(x, a, 0);
  }

  lemma RangeOfFree(s: State, a: Arena)
    requires Ready(s, a)
    ensures forall i | 0 <= i < |a.free| :: a.free[i] < |s.seg|
  {
    UnfoldReady(s, a);
  }

  lemma RoomInHand(s: State, x: State, a: Arena, total: nat, p: Ptr)
    requires InHand(s, x, p) && Ready(x, a) && total < a.segsize
    ensures InHand(s, Room(x, a, total, true).state, p)
  {
    RoomShape(x, a, total, true, 0);
  }

  /** What a turn leaves of the items that are not its own: the live ones as they were, each in its
      slot, and no dead one revived. */
  ghost predicate OthersKept(s: State, t: State, p: Ptr, made: set<Ptr>) {
    && (forall q | q in s.item && s.item[q].refs > 0 && q != p ::
          && q in t.item && q !in made && t.item[q].refs == s.item[q].refs
          && KeyOf(t.item[q]) == KeyOf(s.item[q]) && t.item[q].val == s.item[q].val)
    && (forall q | InSlot(s, q) && Refs(s.item, q) > 0 && q != p :: InSlot(t, q))
    && (forall q | q in t.item && t.item[q].refs > 0 && q !in made :: q in s.item && s.item[q].refs > 0)
  }

  /** The only reference was the queue's: the item is dead. */
  ghost predicate Buried(s: State, t: State, p: Ptr) {
    && p in s.item && s.item[p].refs == 1 && p in t.item && t.item[p].refs == 0
    && t.tbl == s.tbl && OthersKept(s, t, p, {})
  }

  /** The table led to the item by a slot and now leads to a copy in segment g, with the same key
      and value; the item has lost the references of the table and of the queue. */
  ghost predicate Replanted(s: State, t: State, p: Ptr, g: nat) {
    && InSlot(s, p) && p in t.item && t.item[p].refs == s.item[p].refs - 2
    && var k := KeyOf(s.item[p]);
       && k in t.tbl && t.tbl == s.tbl[k := t.tbl[k]]
       && var nit := t.tbl[k];
          && nit != p && nit.At? && nit.seg == g && nit in t.item && t.item[nit].refs == 1
          && KeyOf(t.item[nit]) == k && t.item[nit].val == s.item[p].val
          && (nit in s.item ==> s.item[nit].refs == 0)
          && OthersKept(s, t, p, {nit})
  }

  /** The table did not lead to the item by a slot: it has lost the reference of the queue, and the
      copy is dead. */
  ghost predicate Missed(s: State, t: State, p: Ptr) {
    && p in s.item && s.item[p].refs > 1 && !InSlot(s, p) && p in t.item && t.item[p].refs == s.item[p].refs - 1
    && t.tbl == s.tbl && OthersKept(s, t, p, {})
  }

  ghost predicate Handled(s: State, t: State, p: Ptr, g: nat) {
    && s.queue != [] && t.queue == s.queue[1..] && t.held == s.held
    && (Buried(s, t, p) || Replanted(s, t, p, g) || Missed(s, t, p))
  }

  lemma ReleaseCounts(s: State, p: Ptr)
    requires CanUnref(s, p)
    ensures forall q :: Refs(Release(s, p).item, q) == Refs(s.item, q) - (if q == p then 1 else 0)
  {
    UnrefChanges(s, p);
  }

  lemma BuriedBy(s: State, x: State, p: Ptr)
    requires InHand(s, x, p) && CanUnref(x, p) && x.item[p].refs == 1
    ensures Buried(s, Release(x, p), p)
  {
    var t := Release(x, p);
    ReleaseSlots(x, p);
    ReleaseCounts(x, p);
    assert forall q | q in x.item :: Refs(t.item, q) == t.item[q].refs && Refs(x.item, q) == x.item[q].refs;
    forall q | InSlot(s, q) && Refs(s.item, q) > 0 && q != p ensures InSlot(t, q) { assert InSlot(x, q); }
  }

  /** The counts of all items before and after a copy. */
  ghost predicate Counted(x: State, y: State, p: Ptr, nit: Ptr) {
    && Refs(y.item, nit) == (if InSlot(x, p) then 1 else 0)
    && forall q | q in x.item :: Refs(y.item, q) == Refs(x.item, q) - (if q == p && InSlot(x, p) then 1 else 0)
  }

  lemma CopyKeepsItems(x: State, y: State, p: Ptr, nit: Ptr)
    requires OneCopy(x, y, p, nit) && Counted(x, y, p, nit) && CanUnref(y, p)
    ensures var t := Release(y, p);
      forall q | q in x.item && q != p ::
        && q in t.item && q != nit && t.item[q].refs == x.item[q].refs
        && KeyOf(t.item[q]) == KeyOf(x.item[q]) && t.item[q].val == x.item[q].val
  {
    var t := Release(y, p);
    ReleaseSlots(y, p);
    ReleaseCounts(y, p);
    forall q | q in x.item && q != p
      ensures q in t.item && q != nit && t.item[q].refs == x.item[q].refs
      ensures KeyOf(t.item[q]) == KeyOf(x.item[q]) && t.item[q].val == x.item[q].val
    {
      assert Refs(t.item, q) == Refs(y.item, q) == Refs(x.item, q);
      assert KeyOf(y.item[q]) == KeyOf(x.item[q]);
    }
  }

  lemma CopyKeepsSlots(s: State, x: State, y: State, p: Ptr, nit: Ptr)
    requires InHand(s, x, p) && Redirected(x, y, p, nit)
    ensures forall q | InSlot(s, q) && Refs(s.item, q) > 0 && q != p :: InSlot(Release(y, p), q)
  {
    ReleaseSlots(y, p);
    forall q | InSlot(s, q) && Refs(s.item, q) > 0 && q != p ensures InSlot(Release(y, p), q) {
      assert InSlot(x, q) && InSlot(y, q);
    }
  }

  lemma CopyRevivesNone(s: State, x: State, y: State, p: Ptr, nit: Ptr, made: set<Ptr>)
    requires InHand(s, x, p) && OneCopy(x, y, p, nit) && Counted(x, y, p, nit)
    requires CanUnref(y, p) && made == (if InSlot(x, p) then {nit} else {})
    ensures forall q | Refs(Release(y, p).item, q) > 0 && q !in made :: Refs(s.item, q) > 0
  {
    ReleaseSlots(y, p);
    ReleaseCounts(y, p);
    forall q | Refs(Release(y, p).item, q) > 0 && q !in made ensures Refs(s.item, q) > 0 {
      assert Refs(y.item, q) > 0;
    }
  }

  /** Handing the item on after the copy. */
  lemma CopyLeavesOthers(s: State, x: State, y: State, p: Ptr, nit: Ptr, made: set<Ptr>)
    requires InHand(s, x, p) && OneCopy(x, y, p, nit) && Redirected(x, y, p, nit) && Counted(x, y, p, nit)
    requires CanUnref(y, p) && made == (if InSlot(x, p) then {nit} else {})
    ensures OthersKept(s, Release(y, p), p, made)
  {
    var t := Release(y, p);
    CopyKeepsItems(x, y, p, nit);
    CopyKeepsSlots(s, x, y, p, nit);
    CopyRevivesNone(s, x, y, p, nit, made);
    forall q | q in t.item && t.item[q].refs > 0 && q !in made ensures q in s.item && s.item[q].refs > 0 {
      assert Refs(t.item, q) > 0;
    }
  }

  lemma ReplantedBy(s: State, x: State, y: State, p: Ptr, nit: Ptr)
    requires InHand(s, x, p) && OneCopy(x, y, p, nit) && Redirected(x, y, p, nit) && Counted(x, y, p, nit)
    requires CanUnref(y, p) && InSlot(x, p) && nit.At?
    ensures Replanted(s, Release(y, p), p, nit.seg)
  {
    ReleaseSlots(y, p);
    ReleaseCounts(y, p);
    CopyLeavesOthers(s, x, y, p, nit, {nit});
    var t := Release(y, p);
    assert Refs(t.item, p) == Refs(x.item, p) - 2 && Refs(t.item, nit) == 1;
    assert KeyOf(y.item[nit]) == KeyOf(x.item[p]);
  }

  lemma MissedBy(s: State, x: State, y: State, p: Ptr, nit: Ptr)
    requires InHand(s, x, p) && OneCopy(x, y, p, nit) && Redirected(x, y, p, nit) && Counted(x, y, p, nit)
    requires CanUnref(y, p) && !InSlot(x, p) && x.item[p].refs > 1
    ensures Missed(s, Release(y, p), p)
  {
    ReleaseSlots(y, p);
    ReleaseCounts(y, p);
    CopyLeavesOthers(s, x, y, p, nit, {});
    assert Refs(Release(y, p).item, p) == Refs(x.item, p) - 1;
  }

  lemma HeldCanUnref(s: State, a: Arena, p: Ptr)
    requires Ready(s, a) && s.held[p] > 0
    ensures CanUnref(s, p)
  {
    UnfoldReady(s, a);
    HeldIsLive(s, p);
    assert LoggedIn(s.seg, p);
  }

  lemma MovedParts(x: State, a: Arena, p: Ptr)
    requires Ready(x, a) && x.held[p] > 0 && p in x.item && Fits(x.seg, a.cur, TotalSize(x.item[p]))
    ensures var y, nit := Moved(x, a, p), NextAddress(x, a.cur);
      OneCopy(x, y, p, nit) && Redirected(x, y, p, nit) && Counted(x, y, p, nit)
  {
    UnfoldReady(x, a);
    RelocateRedirects(x, p, a.cur);
    RelocateCounts(x, p, a.cur);
  }

  lemma CopyHandled(s: State, x: State, a: Arena, p: Ptr)
    requires InHand(s, x, p) && Ready(x, a) && x.held[p] > 0 && p in x.item && x.item[p].refs > 1
    requires Fits(x.seg, a.cur, TotalSize(x.item[p]))
    ensures Handled(s, Release(Moved(x, a, p), p), p, a.cur)
  {
    var y, nit := Moved(x, a, p), NextAddress(x, a.cur);
    MovedParts(x, a, p);
    HeldCanUnref(y, a, p);
    ReleaseSlots(y, p);
    assert Release(y, p).held == s.held;
    if InSlot(x, p) { ReplantedBy(s, x, y, p, nit); } else { MissedBy(s, x, y, p, nit); }
  }

  lemma HandleHandles(s: State, x: State, a: Arena, p: Ptr)
    requires InHand(s, x, p) && Ready(x, a) && x.held[p] > 0 && p in x.item
    ensures var r := Handle(x, a, p); !r.stopped ==> Handled(s, r.state, p, r.arena.cur)
  {
    HeldCanUnref(x, a, p);
    if x.item[p].refs == 1 {
      BuriedBy(s, x, p);
      ReleaseSlots(x, p);
      assert Release(x, p).held == s.held;
    } else {
      HeldIsSmall(x, a, p);
      RoomInHand(s, x, a, TotalSize(x.item[p]), p);
      var r := Room(x, a, TotalSize(x.item[p]), true);
      if r.to.Some? { CopyHandled(s, r.state, r.arena, p); }
    }
  }

  /** A turn of the cleaner that finds room: what becomes of the item it takes off the queue, and
      that nothing else changes. */
  lemma TurnHandles(s: State, a: Arena)
    requires Ready(s, a) && s.queue != []
    ensures var r := CleanTurn(s, a); !r.stopped ==> Handled(s, r.state, s.queue[0], r.arena.cur)
  {
    TakenInHand(s, a);
    UnfoldTurn(s, a);
    DequeueReady(s, a);
    var r := Refill(Dequeue(s), a);
    HandleHandles(s, r.state, r.arena, s.queue[0]);
  }

  // ---------------------------------------------------------------------------
  // What a turn does to a segment

  /** Segment g is neither current nor spare, before and after, and has the same items. */
  ghost predicate SameItems(s: State, a: Arena, t: State, b: Arena, g: nat) {
    g < |s.seg| && g != a.cur && !Spare(a, g) ==>
      && g < |t.seg| && g != b.cur && !Spare(b, g)
      && t.seg[g].log == s.seg[g].log && t.seg[g].offset == s.seg[g].offset && t.seg[g].size == s.seg[g].size
  }

  lemma ReleaseItems(s: State, a: Arena, p: Ptr, g: nat)
    ensures SameItems(s, a, Release(s, p), a, g)
  {
    UnrefShape(s, p);
  }

  lemma PutItems(s: State, a: Arena, nit: Ptr, cas: Ptr, g: nat)
    requires CanPut(s, nit)
    ensures SameItems(s, a, Put(s, nit, cas), a, g)
  {
    PutShape(s, nit, cas);
  }

  lemma RelocateItems(x: State, a: Arena, p: Ptr, g: nat)
    requires Inv(x) && p in x.item && Fits(x.seg, a.cur, TotalSize(x.item[p]))
    ensures SameItems(x, a, Relocate(x, p, a.cur), a, g)
  {
    var u, nit := CopyOf(x, p, a.cur), NextAddress(x, a.cur);
    CopyAllocated(x, p, a.cur);
    CopyCanPut(x, p, a.cur);
    PutItems(u, a, nit, p, g);
    ReleaseItems(Put(u, nit, p), a, nit, g);
  }

  lemma MovedItems(x: State, a: Arena, p: Ptr, g: nat)
    requires Ready(x, a) && x.held[p] > 0 && p in x.item && Fits(x.seg, a.cur, TotalSize(x.item[p]))
    ensures SameItems(x, a, Moved(x, a, p), a, g)
  {
    UnfoldReady(x, a);
    RelocateItems(x, a, p, g);
  }

  lemma HandleItems(x: State, a: Arena, p: Ptr, g: nat)
    requires Ready(x, a) && x.held[p] > 0 && p in x.item
    ensures var r := Handle(x, a, p); SameItems(x, a, r.state, r.arena, g)
  {
    if x.item[p].refs == 1 {
      ReleaseItems(x, a, p, g);
    } else {
      HeldIsSmall(x, a, p);
      RoomShape(x, a, TotalSize(x.item[p]), true, g);
      var r := Room(x, a, TotalSize(x.item[p]), true);
      if r.to.Some? {
        MovedItems(r.state, r.arena, p, g);
        ReleaseItems(Moved(r.state, r.arena, p), r.arena, p, g);
      }
    }
  }

  lemma TurnItems(s: State, a: Arena, g: nat)
    requires Ready(s, a) && s.queue != []
    ensures var r := CleanTurn(s, a); SameItems(s, a, r.state, r.arena, g)
  {
    UnfoldTurn(s, a);
    DequeueReady(s, a);
    var s1 := Dequeue(s);
    RangeOfFree(s1, a);
    RefillShape(s1, a, g);
    var r := Refill(s1, a);
    HandleItems(r.state, r.arena, s.queue[0], g);
  }

  lemma {:induction false} LiveButOne(item: map<Ptr, Item>, item': map<Ptr, Item>, log: seq<Ptr>, p: Ptr)
    requires p in log && (forall j, k | 0 <= j < k < |log| :: log[j] != log[k])
    requires forall k | 0 <= k < |log| && log[k] != p :: LiveAt(item, log[k]) == LiveAt(item', log[k])
    ensures Live(item, log) + LiveAt(item', p) == Live(item', log) + LiveAt(item, p)
  {
    var n := |log| - 1;
    if log[n] == p {
      SameLive(item, item', log[..n]);
    } else {
      LiveButOne(item, item', log[..n], p);
    }
  }

  lemma LivesAlike(s: State, t: State, p: Ptr, made: set<Ptr>, q: Ptr)
    requires OthersKept(s, t, p, made) && q != p && q in s.item && q in t.item && q !in made
    ensures LiveAt(s.item, q) == LiveAt(t.item, q)
  {}

  lemma FreedFollows(s: State, t: State, p: Ptr, made: set<Ptr>, g: nat)
    requires SegsOk(s.item, s.seg) && SegsOk(t.item, t.seg) && OthersKept(s, t, p, made) && p in s.item && p in t.item
    requires g < |s.seg| && g < |t.seg| && t.seg[g].log == s.seg[g].log && t.seg[g].offset == s.seg[g].offset
    requires p in s.seg[g].log && s.item[p].refs > 0 && forall q | q in made :: q.At? && q.seg != g
    ensures t.seg[g].freed == s.seg[g].freed + TotalSize(s.item[p]) - LiveAt(t.item, p)
  {
    var log := s.seg[g].log;
    assert SegOk(s.item, s.seg[g], g) && SegOk(t.item, t.seg[g], g);
    forall k | 0 <= k < |log| && log[k] != p ensures LiveAt(s.item, log[k]) == LiveAt(t.item, log[k]) {
      LivesAlike(s, t, p, made, log[k]);
    }
    LiveButOne(s.item, t.item, log, p);
  }

  ghost function MadeBy(s: State, t: State, p: Ptr): set<Ptr> {
    if InSlot(s, p) && Refs(s.item, p) != 1 && KeyOf(s.item[p]) in t.tbl then {t.tbl[KeyOf(s.item[p])]} else {}
  }

  lemma HandledMade(s: State, t: State, p: Ptr, g: nat)
    requires Handled(s, t, p, g) && p in s.item
    ensures OthersKept(s, t, p, MadeBy(s, t, p)) && forall q | q in MadeBy(s, t, p) :: q.At? && q.seg == g
  {}

  /** With no reference left, its bytes count as freed in its segment. */
  lemma TurnFrees(s: State, a: Arena)
    requires Ready(s, a) && s.queue != []
    ensures var p, r := s.queue[0], CleanTurn(s, a);
      && p in s.item && p.At? && p.seg < |s.seg|
      && (!r.stopped && p.seg != a.cur && Refs(r.state.item, p) == 0 ==>
            p.seg < |r.state.seg| && r.state.seg[p.seg].freed == s.seg[p.seg].freed + TotalSize(s.item[p]))
  {
    var p, r := s.queue[0], CleanTurn(s, a);
    QueuedIsLive(s, a, p);
    if !r.stopped && p.seg != a.cur && Refs(r.state.item, p) == 0 {
      TurnHandles(s, a);
      TurnItems(s, a, p.seg);
      HandledMade(s, r.state, p, r.arena.cur);
      Accounts(s, a);
      Accounts(r.state, r.arena);
      FreedFollows(s, r.state, p, MadeBy(s, r.state, p), p.seg);
    }
  }

  lemma Accounts(s: State, a: Arena)
    requires Ready(s, a)
    ensures SegsOk(s.item, s.seg)
  {
    UnfoldReady(s, a);
  }

  lemma QueuedIsLive(s: State, a: Arena, p: Ptr)
    requires Ready(s, a) && p in s.queue
    ensures p in s.item && s.item[p].refs > 0 && p.At? && p.seg < |s.seg| && p in s.seg[p.seg].log && !Spare(a, p.seg)
  {
    UnfoldReady(s, a);
    HeldIsLive(s, p);
    assert LoggedIn(s.seg, p);
    LiveElsewhere(s, a, p);
  }

  // ---------------------------------------------------------------------------
  // Emptying a segment

  /** Every live item of g is queued once, in nobody's hands, and in a slot if in the table. */
  ghost predicate Clearable(s: State, a: Arena, g: nat) {
    && g < |s.seg| && g != a.cur && !Spare(a, g) && s.seg[g].offset == s.seg[g].size
    && forall p | Refs(s.item, p) > 0 && p.At? && p.seg == g ::
         s.held[p] == 0 && multiset(s.queue)[p] == 1 && (Mapped(s.item, s.tbl, p) ==> InSlot(s, p))
  }

  lemma CountOf(s: State, a: Arena, p: Ptr)
    requires Ready(s, a)
    ensures Refs(s.item, p) == InMap(s.item, s.tbl, p) + multiset(s.queue)[p] + s.held[p]
  {
    UnfoldReady(s, a);
  }

  lemma ClearedDies(s: State, a: Arena, t: State, p: Ptr, g: nat, cur: nat)
    requires Ready(s, a) && Clearable(s, a, g) && Handled(s, t, p, cur) && p == s.queue[0] && p.At? && p.seg == g
    ensures Refs(t.item, p) == 0
  {
    CountOf(s, a, p);
  }

  lemma StaysQueued(queue: seq<Ptr>, q: Ptr)
    requires queue != [] && q != queue[0]
    ensures multiset(queue[1..])[q] == multiset(queue)[q]
  {
    assert queue == [queue[0]] + queue[1..];
  }

  lemma OtherStaysClear(s: State, t: State, p: Ptr, cur: nat, q: Ptr)
    requires Handled(s, t, p, cur) && p == s.queue[0] && q != p && Refs(t.item, q) > 0 && q.At? && q.seg != cur
    requires s.held[q] == 0 && multiset(s.queue)[q] == 1 && (Mapped(s.item, s.tbl, q) ==> InSlot(s, q))
    ensures t.held[q] == 0 && multiset(t.queue)[q] == 1 && (Mapped(t.item, t.tbl, q) ==> InSlot(t, q))
  {
    HandledMade(s, t, p, cur);
    StaysQueued(s.queue, q);
  }

  lemma TurnClears(s: State, a: Arena, g: nat)
    requires Ready(s, a) && s.queue != [] && Clearable(s, a, g) && !CleanTurn(s, a).stopped
    ensures Clearable(CleanTurn(s, a).state, CleanTurn(s, a).arena, g)
  {
    var p, r := s.queue[0], CleanTurn(s, a);
    TurnHandles(s, a);
    TurnItems(s, a, g);
    QueuedIsLive(s, a, p);
    HandledMade(s, r.state, p, r.arena.cur);
    forall q | Refs(r.state.item, q) > 0 && q.At? && q.seg == g
      ensures r.state.held[q] == 0 && multiset(r.state.queue)[q] == 1
      ensures Mapped(r.state.item, r.state.tbl, q) ==> InSlot(r.state, q)
    {
      if q == p { ClearedDies(s, a, r.state, p, g, r.arena.cur); }
      assert Refs(s.item, q) > 0;
      OtherStaysClear(s, r.state, p, r.arena.cur, q);
    }
  }

  lemma RefillClears(s: State, a: Arena, g: nat)
    requires Ready(s, a) && Clearable(s, a, g)
    ensures Clearable(Refill(s, a).state, Refill(s, a).arena, g)
  {
    RangeOfFree(s, a);
    RefillShape(s, a, g);
    var t := Refill(s, a).state;
    forall q | Refs(t.item, q) > 0 && q.At? && q.seg == g
      ensures t.held[q] == 0 && multiset(t.queue)[q] == 1 && (Mapped(t.item, t.tbl, q) ==> InSlot(t, q))
    {
      assert Refs(s.item, q) > 0;
    }
  }

  lemma {:induction false} NoneLive(item: map<Ptr, Item>, log: seq<Ptr>)
    requires forall k | 0 <= k < |log| :: Refs(item, log[k]) == 0
    ensures Live(item, log) == 0
  {
    if log != [] { NoneLive(item, log[..|log| - 1]); }
  }

  /** With the queue empty nothing in such a segment is live. */
  lemma EmptiedIsDead(s: State, a: Arena, g: nat)
    requires Ready(s, a) && Clearable(s, a, g) && s.queue == []
    ensures Dead(s.seg, g)
  {
    Accounts(s, a);
    assert SegOk(s.item, s.seg[g], g);
    NoneLive(s.item, s.seg[g].log);
  }

  /** Cleaning the whole queue, if room is found for every copy, leaves nothing live in a segment
      whose live items are all queued, in nobody's hands, and in slots as far as the table has
      them. */
  lemma {:induction false} CleaningEmpties(s: State, a: Arena, g: nat)
    requires Ready(s, a) && Clearable(s, a, g) && !CleanLog(s, a, None).stopped
    ensures Dead(CleanLog(s, a, None).state.seg, g)
    decreases |s.queue|
  {
    if s.queue == [] {
      RefillClears(s, a, g);
      EmptiedIsDead(Refill(s, a).state, Refill(s, a).arena, g);
    } else {
      TurnClears(s, a, g);
      CleaningEmpties(CleanTurn(s, a).state, CleanTurn(s, a).arena, g);
    }
  }

  // ---------------------------------------------------------------------------
  // From the scan of a segment to its death

  lemma {:induction false} QueueAllTable(s: State, ps: seq<Ptr>)
    ensures var t := QueueAll(s, ps); t.tbl == s.tbl && t.bucket == s.bucket
  {
    if ps != [] { QueueAllTable(s, ps[..|ps| - 1]); }
  }

  lemma InOrLast(ps: seq<Ptr>, p: Ptr)
    requires ps != [] && forall j, k | 0 <= j < k < |ps| :: ps[j] != ps[k]
    ensures var init, last := ps[..|ps| - 1], ps[|ps| - 1]; (p in ps <==> p in init || p == last) && last !in init
  {
    assert ps == ps[..|ps| - 1] + [ps[|ps| - 1]];
  }

  lemma {:induction false} LiveOnce(item: map<Ptr, Item>, ps: seq<Ptr>, p: Ptr)
    requires forall j, k | 0 <= j < k < |ps| :: ps[j] != ps[k]
    ensures multiset(LiveOf(item, ps))[p] == if p in ps && Refs(item, p) > 0 then 1 else 0
  {
    if ps != [] {
      var init, last := ps[..|ps| - 1], ps[|ps| - 1];
      LiveOnce(item, init, p);
      InOrLast(ps, p);
      assert multiset(LiveOf(item, ps))[p]
        == multiset(LiveOf(item, init))[p] + (if p == last && Refs(item, last) > 0 then 1 else 0);
    }
  }

  /** Every live item of the full segment g is in the table, in a slot, and nowhere else. */
  ghost predicate AllInSlots(s: State, g: nat) {
    forall p | Refs(s.item, p) > 0 && p.At? && p.seg == g :: InSlot(s, p) && s.held[p] == 0 && p !in s.queue
  }

  /** A segment scanned through in one go. */
  lemma ScannedClearable(s: State, a: Arena, g: nat, cqsize: nat)
    requires Ready(s, a) && Scanning(s, g, 0, 0) && g in a.segs && g != a.cur && AllInSlots(s, g)
    requires ScanRun(s, g, 0, s.seg[g].size, cqsize).off == s.seg[g].size
    ensures var t := ScanRun(s, g, 0, s.seg[g].size, cqsize).state; Ready(t, a) && Clearable(t, a, g)
  {
    var t := ScanRun(s, g, 0, s.seg[g].size, cqsize).state;
    ScanBegins(a, s, g, 0, 0);
    var k := ScanRunInOrder(a, s, g, 0, s, 0, 0, cqsize);
    ScanEnds(a, s, g, 0, t, k, s.seg[g].size);
    assert s.seg[g].log[0..k] == s.seg[g].log;
    NotSpare(s, a, g);
    QueuedClearable(s, a, g);
  }

  lemma NotSpare(s: State, a: Arena, g: nat)
    requires Ready(s, a) && g in a.segs && g != a.cur
    ensures g < |s.seg| && !Spare(a, g) && s.seg[g].offset == s.seg[g].size
  {
    UnfoldReady(s, a);
  }

  lemma InTheLog(s: State, a: Arena, g: nat, p: Ptr)
    requires Ready(s, a) && p in s.item && p.At? && p.seg == g
    ensures g < |s.seg| && p in s.seg[g].log
  {
    UnfoldReady(s, a);
    assert LoggedIn(s.seg, p);
  }

  lemma LogDistinct(s: State, a: Arena, g: nat)
    requires Ready(s, a) && g < |s.seg|
    ensures forall j, k | 0 <= j < k < |s.seg[g].log| :: s.seg[g].log[j] != s.seg[g].log[k]
  {
    UnfoldReady(s, a);
    assert SegOk(s.item, s.seg[g], g);
  }

  lemma QueuedClearable(s: State, a: Arena, g: nat)
    requires Ready(s, a) && g < |s.seg| && !Spare(a, g) && g != a.cur && s.seg[g].offset == s.seg[g].size
    requires AllInSlots(s, g)
    ensures Clearable(QueueAll(s, s.seg[g].log), a, g)
  {
    var log := s.seg[g].log;
    var t := QueueAll(s, log);
    QueueAllIs(s, log);
    QueueAllTable(s, log);
    LogDistinct(s, a, g);
    forall p | Refs(t.item, p) > 0 && p.At? && p.seg == g
      ensures t.held[p] == 0 && multiset(t.queue)[p] == 1 && InSlot(t, p)
    {
      assert p in s.item && Refs(s.item, p) > 0;
      InTheLog(s, a, g, p);
      LiveOnce(s.item, log, p);
      assert KeyOf(t.item[p]) == KeyOf(s.item[p]);
    }
  }

  /** A segment of live items all in slots and in nobody's hands, scanned through in one go and its
      queue cleaned, is dead, provided the cleaner found room: the next round frees it. */
  lemma ScanAndCleanEmpty(s: State, a: Arena, g: nat, cqsize: nat)
    requires Ready(s, a) && Scanning(s, g, 0, 0) && g in a.segs && g != a.cur && AllInSlots(s, g)
    requires ScanRun(s, g, 0, s.seg[g].size, cqsize).off == s.seg[g].size
    ensures var t := ScanRun(s, g, 0, s.seg[g].size, cqsize).state;
      && Ready(t, a)
      && (!CleanLog(t, a, None).stopped ==> Dead(CleanLog(t, a, None).state.seg, g))
  {
    ScannedClearable(s, a, g, cqsize);
    var t := ScanRun(s, g, 0, s.seg[g].size, cqsize).state;
    if !CleanLog(t, a, None).stopped { CleaningEmpties(t, a, g); }
  }
}
