/** The store as a program: lookups and puts that walk slots and next pointers, the allocator of
    one worker, the cleaner and the maintenance of segments. */
module KvProgram {
  import opened KvState
  import opened KvTable
  import opened KvLog
  import opened KvStore
  import opened KvClean
  import opened KvAlloc
  import opened KvScan
  import opened KvMaintain
  import opened KvSteady
  import opened KvRelocate
  import KvRuns

  // ---------------------------------------------------------------------------
  // Searching

  /** The loop over the direct slots. */
  method SearchSlots(item: map<Ptr, Item>, b: Bucket, hv: nat, key: Bytes) returns (i: nat)
    requires |b.items| == |b.hashes| == BUCKET_NITEMS
    requires forall k | 0 <= k < BUCKET_NITEMS && b.items[k] != Null :: b.items[k] in item
    ensures i == FindDirect(item, b, hv, key, 0)
  {
    i := 0;
    while i < BUCKET_NITEMS
      invariant i <= BUCKET_NITEMS && FindDirect(item, b, hv, key, i) == FindDirect(item, b, hv, key, 0)
    {
      if b.items[i] != Null && b.hashes[i] == hv {
        if item[b.items[i]].key == key { return; }
      }
      i := i + 1;
    }
  }

  lemma ChainedTail(item: map<Ptr, Item>, chain: seq<Ptr>, hv: nat, key: Bytes, j: nat)
    requires j < |chain| && !(chain[j] in item && Matches(item[chain[j]], hv, key))
    ensures FindChained(item, chain[j..], hv, key) == 1 + FindChained(item, chain[j + 1..], hv, key)
  {
    assert chain[j..][1..] == chain[j + 1..];
  }

  /** The walk along the next pointers from the item in the last slot, which is there: prev is
      the item before the one it stopped at. */
  method SearchChain(item: map<Ptr, Item>, b: Bucket, ghost chain: seq<Ptr>, hv: nat, key: Bytes)
    returns (prev: Ptr, it: Ptr, ghost j: nat)
    requires BucketOk(item, b, chain) && b.items[BUCKET_NITEMS - 1] != Null && Null !in item
    ensures j == FindChained(item, chain, hv, key) && it == ChainAt(chain, j) && prev == Before(b, chain, j)
    ensures prev in item
  {
    prev, j := b.items[BUCKET_NITEMS - 1], 0;
    assert NextOf(item, Before(b, chain, 0)) == ChainAt(chain, 0);
    it := item[prev].next;
    while it != Null && !Matches(item[it], hv, key)
      invariant j <= |chain| && it == ChainAt(chain, j) && prev == Before(b, chain, j) && prev in item
      invariant it == Null || it in item
      invariant j + FindChained(item, chain[j..], hv, key) == FindChained(item, chain, hv, key)
      decreases |chain| - j
    {
      ChainedTail(item, chain, hv, key, j);
      assert NextOf(item, Before(b, chain, j + 1)) == ChainAt(chain, j + 1);
      prev, j := it, j + 1;
      it := item[it].next;
    }
  }

  /** The loop of hasht_put: the matching slot, and meanwhile the last empty one. */
  method SearchForPut(item: map<Ptr, Item>, b: Bucket, hv: nat, key: Bytes) returns (i: nat, di: nat)
    requires |b.items| == |b.hashes| == BUCKET_NITEMS
    requires forall k | 0 <= k < BUCKET_NITEMS && b.items[k] != Null :: b.items[k] in item
    ensures i == FindDirect(item, b, hv, key, 0)
    ensures i == BUCKET_NITEMS ==> di == FreeSlot(b.items, BUCKET_NITEMS)
  {
    i, di := 0, BUCKET_NITEMS - 1;
    while i < BUCKET_NITEMS
      invariant i <= BUCKET_NITEMS && FindDirect(item, b, hv, key, i) == FindDirect(item, b, hv, key, 0)
      invariant di == FreeSlot(b.items, i)
    {
      if b.items[i] == Null {
        di := i;
      } else if b.hashes[i] == hv {
        if item[b.items[i]].key == key { return; }
      }
      i := i + 1;
    }
  }

  class Store {
    var item: map<Ptr, Item>
    var bucket: seq<Bucket>
    var seg: seq<Seg>
    var queue: seq<Ptr>
    ghost var chain: seq<seq<Ptr>>
    ghost var tbl: map<Key, Ptr>
    ghost var held: multiset<Ptr>

    // the allocator
    var cur: nat
    var reserved: Option<nat>
    var segs: seq<nat>
    var free: seq<nat>
    var inactive: set<nat>
    var cleaned: set<nat>
    const segsize: nat
    const segmax: nat

    // the cleaner and the maintenance
    var cleanupCount: nat
    var cleaning: Option<nat>
    var cleanOff: nat
    ghost var passed: nat
    const cqsize: nat
    const cleanRatio: real

    ghost function Snapshot(): State
      reads this
    {
      State(item, bucket, chain, tbl, seg, queue, held)
    }

    ghost predicate Valid()
      reads this
    {
      Inv(Snapshot())
    }

    ghost function Space(): Arena
      reads this
    {
      Arena(cur, reserved, segs, free, inactive, cleaned, segsize, segmax)
    }

    /** The store is valid and its segments are in order. */
    ghost predicate InOrder()
      reads this
    {
      Ready(Snapshot(), Space())
    }

    ghost function Progress(): Scan
      reads this
    {
      Scan(cleaning, cleanOff, passed)
    }

    /** In order, every filler spans its tail, and the scan under way can go on. */
    ghost predicate Orderly()
      reads this
    {
      Steady(Snapshot(), Space(), Progress()) && cqsize > 0
    }

    /** In order but for the scan, of which no more is asked than to be inside its segment. */
    ghost predicate Sane()
      reads this
    {
      && Steady(Snapshot(), Space(), Loose(Space(), Progress())) && cqsize > 0
      && (cleaning.Some? ==> cleanOff <= segsize)
    }

    /** hasht_init and ialloc_init_allocator: an empty table, one segment to allocate from and one
        in reserve. */
    constructor (buckets: nat, segsize: nat, segmax: nat, cqsize: nat, cleanRatio: real)
      requires buckets > 0 && segmax >= 2 && cqsize > 0
      ensures InOrder() && Orderly() && Sane() && cleanupCount == 0 && cleaning == None
      ensures Snapshot() == KvRuns.Init(buckets).(seg := [FreshSeg(segsize), FreshSeg(segsize)])
      ensures Space() == Arena(0, Some(1), [0], [], {}, {}, segsize, segmax)
      ensures this.cqsize == cqsize && this.cleanRatio == cleanRatio
    {
      item, queue, seg := map[], [], [FreshSeg(segsize), FreshSeg(segsize)];
      bucket := KvRuns.Init(buckets).bucket;
      chain, tbl, held := KvRuns.Init(buckets).chain, map[], multiset{};
      cur, reserved, segs, free, inactive, cleaned := 0, Some(1), [0], [], {}, {};
      this.segsize, this.segmax, this.cqsize, this.cleanRatio := segsize, segmax, cqsize, cleanRatio;
      cleanupCount, cleaning, cleanOff, passed := 0, None, 0, 0;
      new;
      StartsInOrder(buckets, Snapshot(), Space());
      UnfoldSteady(Snapshot(), Space(), Progress());
      SteadyIsLoose(Snapshot(), Space(), Progress());
    }

    method ItemUnref(p: Ptr)
      requires CanUnref(Snapshot(), p)
      modifies `item, `seg
      ensures Snapshot() == Unref(old(Snapshot()), p)
    {
      item := item[p := item[p].(refs := item[p].refs - 1)];
      if item[p].refs == 0 {
        seg := seg[p.seg := seg[p.seg].(freed := seg[p.seg].freed + TotalSize(item[p]))];
      }
    }

    /** hasht_get, without taking the reference. */
    method Lookup(hv: nat, key: Bytes) returns (p: Ptr)
      requires TableInv(Snapshot())
      ensures p == Find(Snapshot(), hv, key)
    {
      var b := bucket[hv % |bucket|];
      ghost var c := chain[hv % |bucket|];
      assert BucketOk(item, b, c);
      var i := SearchSlots(item, b, hv, key);
      if i < BUCKET_NITEMS { return b.items[i]; }
      p := b.items[BUCKET_NITEMS - 1];
      if p == Null {
        assert NextOf(item, Before(b, c, 0)) == ChainAt(c, 0);
        return;
      }
      ghost var j;
      var prev;
      prev, p, j := SearchChain(item, b, c, hv, key);
    }

    method LookupAndRef(hv: nat, key: Bytes) returns (p: Ptr)
      requires TableInv(Snapshot())
      modifies `item, `held
      ensures p == old(Find(Snapshot(), hv, key)) && Snapshot() == Get(old(Snapshot()), hv, key)
    {
      FindIsLookup(Snapshot(), hv, key);
      p := Lookup(hv, key);
      if p != Null {
        item := item[p := item[p].(refs := item[p].refs + 1)];
        held := held + multiset{p};
      }
    }

    /** hasht_get: what the map holds, with a reference for the caller. */
    method HashtGet(hv: nat, key: Bytes) returns (p: Ptr)
      requires Valid()
      modifies `item, `held
      ensures Valid() && Snapshot() == Get(old(Snapshot()), hv, key)
      ensures p == (if Key(hv, key) in old(tbl) then old(tbl)[Key(hv, key)] else Null)
    {
      FindIsLookup(Snapshot(), hv, key);
      GetKeeps(Snapshot(), hv, key);
      p := LookupAndRef(hv, key);
    }

    /** nit into direct slot i, whose item loses the table's reference. */
    method TakeSlot(b: nat, i: nat, nit: Ptr)
      requires WellShaped(Snapshot()) && b < |bucket| && i < BUCKET_NITEMS && nit in item
      requires bucket[b].items[i] in item && bucket[b].items[i] != nit && CanUnref(Snapshot(), bucket[b].items[i])
      modifies `item, `bucket, `seg, `chain, `tbl
      ensures var s := old(Snapshot()); Snapshot() == Unref(ReplaceDirect(s, b, i, nit), s.bucket[b].items[i])
    {
      var it := bucket[b].items[i];
      tbl := tbl[KeyOf(item[nit]) := nit];
      item := AddRef(item, nit);
      item := SetNext(item, nit, item[it].next);
      bucket := bucket[b := bucket[b].(items := bucket[b].items[i := nit])];
      ItemUnref(it);
    }

    /** nit into the chain in place of it, which follows prev. */
    method TakeLink(b: nat, prev: Ptr, it: Ptr, nit: Ptr, ghost j: nat)
      requires WellShaped(Snapshot()) && b < |bucket| && j < |chain[b]| && nit in item && it == chain[b][j]
      requires it in item && it != nit && CanUnref(Snapshot(), it) && prev == Before(bucket[b], chain[b], j)
      requires prev in item
      modifies `item, `bucket, `seg, `chain, `tbl
      ensures Snapshot() == Unref(ReplaceChained(old(Snapshot()), b, j, nit), it)
    {
      tbl := tbl[KeyOf(item[nit]) := nit];
      item := AddRef(item, nit);
      item := SetNext(item, nit, item[it].next);
      item := SetNext(item, prev, nit);
      chain := chain[b := chain[b][j := nit]];
      ItemUnref(it);
    }

    /** nit into a slot whose item, if any, it pushes onto the chain. */
    method PushSlot(b: nat, i: nat, nit: Ptr)
      requires WellShaped(Snapshot()) && b < |bucket| && i < BUCKET_NITEMS && nit in item
      modifies `item, `bucket, `seg, `chain, `tbl
      ensures Snapshot() == Insert(old(Snapshot()), b, i, nit)
    {
      var was := bucket[b].items[i];
      tbl := tbl[KeyOf(item[nit]) := nit];
      item := AddRef(item, nit);
      item := SetNext(item, nit, was);
      bucket := bucket[b := Bucket(bucket[b].items[i := nit], bucket[b].hashes[i := item[nit].hv])];
      if was != Null { chain := chain[b := [was] + chain[b]]; }
    }

    /** hasht_put; cas is Null for a plain put. */
    method PutItem(nit: Ptr, cas: Ptr)
      requires TableInv(Snapshot()) && nit in item && !Mapped(item, tbl, nit)
      requires forall p | Mapped(item, tbl, p) :: CanUnref(Snapshot(), p)
      modifies `item, `bucket, `seg, `chain, `tbl
      ensures Snapshot() == Put(old(Snapshot()), nit, cas)
    {
      ghost var s := Snapshot();
      var hv, key := item[nit].hv, item[nit].key;
      var b := hv % |bucket|;
      assert BucketOk(item, bucket[b], chain[b]);
      DirectIs(s, hv, key);
      var i, di := SearchForPut(item, bucket[b], hv, key);
      if i < BUCKET_NITEMS {
        var it := bucket[b].items[i];
        if cas != Null && cas != it { return; }
        assert Mapped(item, tbl, it);
        TakeSlot(b, i, nit);
        return;
      }
      if cas != Null { return; }
      if bucket[b].items[BUCKET_NITEMS - 1] != Null {
        ghost var j;
        var prev, it;
        prev, it, j := SearchChain(item, bucket[b], chain[b], hv, key);
        if it != Null {
          ChainedFound(item, chain[b], hv, key);
          ChainedEntry(s, hv, key, j);
          assert Mapped(item, tbl, it);
          TakeLink(b, prev, it, nit, j);
          return;
        }
      }
      PushSlot(b, di, nit);
    }

    /** hasht_put in a store whose counts are right. */
    method PutCounted(nit: Ptr, cas: Ptr)
      requires Valid() && nit in item && !Mapped(item, tbl, nit) && item[nit].refs > 0
      modifies `item, `bucket, `seg, `chain, `tbl
      ensures Valid() && Snapshot() == Put(old(Snapshot()), nit, cas)
    {
      ghost var s := Snapshot();
      forall p | Mapped(item, tbl, p) ensures CanUnref(s, p) {
        MappedIsLive(s, p);
        assert LoggedIn(seg, p);
      }
      PutKeeps(s, nit, cas);
      PutItem(nit, cas);
    }

    /** hasht_put: a plain put overwrites its key, and a compare-and-set one replaces exactly the
        item it names or changes nothing. */
    method HashtPut(nit: Ptr, cas: Ptr)
      requires Valid() && nit in item && !Mapped(item, tbl, nit) && item[nit].refs > 0
      modifies `item, `bucket, `seg, `chain, `tbl
      ensures Valid() && Snapshot() == Put(old(Snapshot()), nit, cas)
      ensures tbl == old(if TakesEffect(Snapshot(), nit, cas) then tbl[KeyOf(item[nit]) := nit] else tbl)
    {
      PutRefinesMap(Snapshot(), nit, cas);
      PutCounted(nit, cas);
    }

    // -------------------------------------------------------------------------
    // The allocator

    /** segment_alloc */
    method SegmentAlloc() returns (g: Option<nat>)
      requires forall i | 0 <= i < |free| :: free[i] < |seg|
      modifies `item, `seg, `free, `inactive, `cleaned
      ensures Grant(Snapshot(), Space(), g) == SegmentFor(old(Snapshot()), old(Space()))
    {
      if free != [] {
        g := Some(free[0]);
        free := free[1..];
        item := Without(item, g.value);
        seg := seg[g.value := FreshSeg(seg[g.value].size)];
      } else if |seg| >= segmax {
        return None;
      } else {
        g := Some(|seg|);
        seg := seg + [FreshSeg(segsize)];
      }
      inactive := inactive - {g.value};
      cleaned := cleaned - {g.value};
    }

    /** segment_item_alloc in the current segment, and the item written: an address, or the rest
        of the segment given up. */
    method SegmentItemAlloc(hv: nat, key: Bytes, val: Bytes) returns (p: Ptr)
      requires CurrentOk(seg, cur)
      modifies `item, `seg, `held
      ensures var s := old(Snapshot());
        if Fits(s.seg, cur, HEADER + |key| + |val|)
        then p == NextAddress(s, cur) && Snapshot() == Alloc(s, cur, hv, key, val)
        else p == Null && Snapshot() == GiveUp(s, cur)
    {
      var total := HEADER + |key| + |val|;
      var avail := seg[cur].size - seg[cur].offset;
      if avail == 0 { return Null; }
      if avail < total {
        var h := seg[cur];
        seg := seg[cur := h.(offset := h.offset + avail, freed := h.freed + avail, filled := true)];
        return Null;
      }
      p := At(cur, seg[cur].offset);
      item := item[p := Item(Null, hv, key, val, 1)];
      seg := seg[cur := Appended(seg[cur], p, total)];
      held := held + multiset{p};
    }

    /** The current segment is full: on to another. */
    method SwitchSegment(cleanup: bool) returns (g: Option<nat>)
      requires forall i | 0 <= i < |free| :: free[i] < |seg|
      modifies `item, `seg, `free, `inactive, `cleaned, `cur, `segs, `reserved
      ensures Grant(Snapshot(), Space(), g) == MoveOn(old(Snapshot()), old(Space()), cleanup)
    {
      g := SegmentAlloc();
      if g.None? {
        if !(cleanup && reserved.Some?) { return; }
        g := reserved;
        reserved := None;
      }
      segs := segs + [g.value];
      inactive := inactive + {cur};
      cur := g.value;
    }

    /** Both attempts of ialloc_alloc. */
    method AllocateItem(hv: nat, key: Bytes, val: Bytes, cleanup: bool) returns (p: Ptr)
      requires CurrentOk(seg, cur) && forall i | 0 <= i < |free| :: free[i] < |seg|
      requires var r := MoveOn(GiveUp(Snapshot(), cur), Space(), cleanup);
        r.to.Some? ==> r.arena.cur < |r.state.seg| && r.state.seg[r.arena.cur] == FreshSeg(segsize)
      requires HEADER + |key| + |val| < segsize
      modifies `item, `seg, `held, `free, `inactive, `cleaned, `cur, `segs, `reserved
      ensures var r := Attempts(old(Snapshot()), old(Space()), HEADER + |key| + |val|, cleanup);
        Placed(r, hv, key, val, p, Snapshot(), Space())
    {
      if reserved.None? && !cleanup { return Null; }
      p := SegmentItemAlloc(hv, key, val);
      if p != Null { return; }
      var g := SwitchSegment(cleanup);
      if g.None? { return Null; }
      p := SegmentItemAlloc(hv, key, val);
    }

    /** ialloc_alloc: Null exactly when an allocation is not allowed or every segment is in use;
        the second attempt cannot fail. */
    method IallocAlloc(hv: nat, key: Bytes, val: Bytes, cleanup: bool) returns (p: Ptr)
      requires InOrder() && HEADER + |key| + |val| < segsize
      modifies `item, `seg, `held, `free, `inactive, `cleaned, `cur, `segs, `reserved
      ensures InOrder() && (p == Null <==> NoRoom(old(Snapshot()), old(Space()), HEADER + |key| + |val|, cleanup))
      ensures var r := Room(old(Snapshot()), old(Space()), HEADER + |key| + |val|, cleanup);
        Placed(r, hv, key, val, p, Snapshot(), Space())
      ensures p != Null ==>
        WhereItWent(old(seg), old(Space()), HEADER + |key| + |val|, cleanup, p, Space())
          && p in item && item[p] == Item(Null, hv, key, val, 1)
    {
      ghost var s, a := Snapshot(), Space();
      AllocationCan(s, a, HEADER + |key| + |val|, cleanup);
      p := AllocateItem(hv, key, val, cleanup);
      PlacedWhere(s, a, hv, key, val, cleanup, p, Snapshot(), Space());
      PlacedIsReady(Room(s, a, HEADER + |key| + |val|, cleanup), hv, key, val, p, Snapshot(), Space());
    }

    // -------------------------------------------------------------------------
    // The cleaner

    method ReleaseItem(p: Ptr)
      requires CanUnref(Snapshot(), p)
      modifies `item, `seg, `held
      ensures Snapshot() == Release(old(Snapshot()), p)
    {
      ItemUnref(p);
      held := held - multiset{p};
    }

    method LetGo(p: Ptr)
      requires Valid() && held[p] > 0
      modifies `item, `seg, `held
      ensures Valid() && Snapshot() == Release(old(Snapshot()), p)
    {
      HeldIsLive(Snapshot(), p);
      assert LoggedIn(seg, p);
      ReleaseKeeps(Snapshot(), p);
      ReleaseItem(p);
    }

    /** Letting go in a store that is in order. */
    method LetGoInOrder(p: Ptr)
      requires InOrder() && held[p] > 0
      modifies `item, `seg, `held
      ensures InOrder() && Snapshot() == Release(old(Snapshot()), p)
    {
      UnfoldReady(Snapshot(), Space());
      ReleaseReady(Snapshot(), Space(), p);
      LetGo(p);
    }

    /** A new item takes the place of p if the table still has p in a slot, and is let go. */
    method PutCopy(nit: Ptr, p: Ptr)
      requires CanReplace(Snapshot(), nit)
      modifies `item, `bucket, `seg, `chain, `tbl, `held
      ensures Snapshot() == Replaced(old(Snapshot()), nit, p)
    {
      UnfoldCanReplace(Snapshot(), nit);
      UnfoldReplaced(Snapshot(), nit, p);
      HeldIsLive(Snapshot(), nit);
      PutHeld(Snapshot(), nit, p);
      PutCounted(nit, p);
      LetGo(nit);
    }

    /** Room for the copy of an item in hand. */
    method AllocCopy(p: Ptr) returns (nit: Ptr)
      requires InOrder() && held[p] > 0
      modifies `item, `seg, `held, `free, `inactive, `cleaned, `cur, `segs, `reserved
      ensures nit == Null ==> Copied(old(Snapshot()), old(Space()), p, Snapshot(), Space(), true)
      ensures nit != Null ==> CanReplace(Snapshot(), nit)
      ensures nit != Null ==> Copied(old(Snapshot()), old(Space()), p, Replaced(Snapshot(), nit, p), Space(), false)
    {
      ghost var s, a := Snapshot(), Space();
      HeldIsSmall(s, a, p);
      var it := item[p];
      nit := IallocAlloc(it.hv, it.key, it.val, true);
      CopyIs(s, a, p, it, nit, Snapshot(), Space());
    }

    /** The copy of an item in hand, or the program stops for want of room. */
    method CopyItem(p: Ptr) returns (stopped: bool)
      requires InOrder() && held[p] > 0
      modifies `item, `bucket, `seg, `chain, `tbl, `held, `free, `inactive, `cleaned, `cur, `segs, `reserved
      ensures Copied(old(Snapshot()), old(Space()), p, Snapshot(), Space(), stopped)
    {
      var nit := AllocCopy(p);
      if nit == Null { return true; }
      PutCopy(nit, p);
      stopped := false;
    }

    /** The body of the loop in clean_log. */
    method HandleItem(p: Ptr) returns (stopped: bool)
      requires InOrder() && held[p] > 0 && p in item
      modifies `item, `bucket, `seg, `chain, `tbl, `held, `free, `inactive, `cleaned, `cur, `segs, `reserved
      ensures Turn(Snapshot(), Space(), stopped) == Handle(old(Snapshot()), old(Space()), p)
    {
      if item[p].refs != 1 {
        ghost var s, a := Snapshot(), Space();
        stopped := CopyItem(p);
        UnfoldCopied(s, a, p, Snapshot(), Space(), stopped);
        if stopped { return; }
      }
      LetGoInOrder(p);
      stopped := false;
    }

    /** The reserve is replaced if it was used up and there is a segment. */
    method RefillReserve()
      requires forall i | 0 <= i < |free| :: free[i] < |seg|
      modifies `item, `seg, `free, `inactive, `cleaned, `reserved
      ensures var r := Refilled(old(Snapshot()), old(Space())); Snapshot() == r.state && Space() == r.arena
      ensures reserved.None? ==> free == [] && |seg| >= segmax
    {
      if reserved.None? { reserved := SegmentAlloc(); }
    }

    /** The next item of the queue, whose reference is now the caller's. */
    method TakeQueued() returns (p: Ptr)
      modifies `queue, `held
      ensures p == (if old(queue) == [] then Null else old(queue[0])) && Snapshot() == Taken(old(Snapshot()))
    {
      p := Null;
      if queue != [] {
        p := queue[0];
        queue := queue[1..];
        held := held + multiset{p};
      }
    }

    /** ialloc_cleanup_item: the next item of the queue, unless there is none or this request has
        done its share. */
    method CleanupItem(idle: bool) returns (p: Ptr)
      requires forall i | 0 <= i < |free| :: free[i] < |seg|
      requires Null !in queue
      modifies `queue, `held, `cleanupCount, `item, `seg, `free, `inactive, `cleaned, `reserved
      ensures var s, a := old(Snapshot()), old(Space()); var left := Share(idle, old(cleanupCount));
        if left == Some(0) then p == Null && Snapshot() == s && Space() == a && cleanupCount == old(cleanupCount)
        else
          && Share(idle, cleanupCount) == Less(left)
          && p == (if s.queue == [] then Null else s.queue[0])
          && (var r := Refilled(Taken(s), a); Snapshot() == r.state && Space() == r.arena)
          && (reserved.None? ==> free == [] && |seg| >= segmax)
    {
      if !idle {
        if cleanupCount >= CLEANUP_LIMIT { return Null; }
        cleanupCount := cleanupCount + 1;
      }
      p := TakeQueued();
      RefillReserve();
    }

    /** One turn of clean_log: whether it goes on, and whether the program stopped. */
    method CleanNext(idle: bool) returns (more: bool, stopped: bool)
      requires InOrder()
      modifies `queue, `item, `bucket, `seg, `chain, `tbl, `held, `free, `inactive, `cleaned, `cur, `segs, `reserved,
               `cleanupCount
      ensures After(old(Snapshot()), old(Space()), Share(idle, old(cleanupCount)),
                    Snapshot(), Space(), Share(idle, cleanupCount), more, stopped)
      ensures more && !stopped ==> old(queue) != [] && Handled(old(Snapshot()), Snapshot(), old(queue)[0], cur)
    {
      ghost var s, a := Snapshot(), Space();
      QueueIsLive(s, a);
      if queue != [] {
        TurnHandles(s, a);
        DequeueReady(s, a);
        UnfoldTurn(s, a);
      }
      var p := CleanupItem(idle);
      more := p != Null;
      if more {
        ghost var r := Refill(Dequeue(s), a);
        stopped := HandleItem(p);
      } else {
        stopped := false;
      }
    }

    /** clean_log: every key keeps its value, whether or not the program stops for want of room,
        and otherwise the queue is cleaned as far as it may be. */
    method RunCleaner(idle: bool) returns (n: nat, stopped: bool)
      requires InOrder()
      modifies `queue, `item, `bucket, `seg, `chain, `tbl, `held, `free, `inactive, `cleaned, `cur, `segs, `reserved,
               `cleanupCount
      ensures InOrder() && SameStore(old(Snapshot()), Snapshot())
      ensures Cleaned(Snapshot(), Space(), stopped, n)
           == CleanLog(old(Snapshot()), old(Space()), Share(idle, if idle then old(cleanupCount) else 0))
      ensures n <= |old(queue)| && queue == old(queue)[n..]
      ensures !stopped ==> n == if !idle && 32 < |old(queue)| then 32 else |old(queue)|
      ensures idle && !stopped ==> forall g | Clearable(old(Snapshot()), old(Space()), g) :: Dead(seg, g)
    {
      ghost var s, a := Snapshot(), Space();
      WhatIsCleared(s, a);
      if !idle { cleanupCount := 0; }
      ghost var target := CleanLog(s, a, Share(idle, cleanupCount));
      CleanLogKeepsContent(s, a, Share(idle, cleanupCount));
      n, stopped := 0, false;
      var more := true;
      while more && !stopped
        invariant InOrder()
        invariant more && !stopped ==> Rest(CleanLog(Snapshot(), Space(), Share(idle, cleanupCount)), n) == target
        invariant !more || stopped ==> Cleaned(Snapshot(), Space(), stopped, n) == target
        decreases more && !stopped, |queue|
      {
        more, stopped := CleanNext(idle);
        if more { n := n + 1; }
      }
    }

    // -------------------------------------------------------------------------
    // Between two rounds of maintenance: whatever is done leaves the scan of a segment as it was,
    // in order or not

    method GetInOrder(hv: nat, key: Bytes) returns (p: Ptr)
      requires InOrder()
      modifies `item, `held
      ensures WellShaped(old(Snapshot())) && Snapshot() == Get(old(Snapshot()), hv, key)
      ensures p == (if Key(hv, key) in old(tbl) then old(tbl)[Key(hv, key)] else Null)
    {
      UnfoldReady(Snapshot(), Space());
      p := HashtGet(hv, key);
    }

    method GetOrderly(hv: nat, key: Bytes) returns (p: Ptr)
      requires Sane()
      modifies `item, `held
      ensures Sane() && (old(Orderly()) ==> Orderly())
      ensures WellShaped(old(Snapshot())) && Snapshot() == Get(old(Snapshot()), hv, key)
      ensures p == (if Key(hv, key) in old(tbl) then old(tbl)[Key(hv, key)] else Null)
    {
      LookupIsSteady(Snapshot(), Space(), Progress(), hv, key);
      p := GetInOrder(hv, key);
    }

    method PutInOrder(nit: Ptr, cas: Ptr)
      requires InOrder() && nit in item && !Mapped(item, tbl, nit) && item[nit].refs > 0
      modifies `item, `bucket, `seg, `chain, `tbl
      ensures WellShaped(old(Snapshot())) && Snapshot() == Put(old(Snapshot()), nit, cas)
    {
      UnfoldReady(Snapshot(), Space());
      PutCounted(nit, cas);
    }

    method PutOrderly(nit: Ptr, cas: Ptr)
      requires Sane() && nit in item && !Mapped(item, tbl, nit) && item[nit].refs > 0
      modifies `item, `bucket, `seg, `chain, `tbl
      ensures Sane() && (old(Orderly()) ==> Orderly())
      ensures WellShaped(old(Snapshot())) && Snapshot() == Put(old(Snapshot()), nit, cas)
    {
      UpdateIsSteady(Snapshot(), Space(), Progress(), nit, cas);
      PutInOrder(nit, cas);
    }

    method LetGoOrderly(p: Ptr)
      requires Sane() && held[p] > 0
      modifies `item, `seg, `held
      ensures Sane() && (old(Orderly()) ==> Orderly()) && Snapshot() == Release(old(Snapshot()), p)
    {
      LettingGoIsSteady(Snapshot(), Space(), Progress(), p);
      LetGoInOrder(p);
    }

    /** Allocation gives up a tail only for an item that is larger, so a filler always fits while
        no request exceeds the limit. */
    method AllocOrderly(hv: nat, key: Bytes, val: Bytes, cleanup: bool) returns (p: Ptr)
      requires Sane() && HEADER + |key| + |val| < segsize && HEADER + |key| + |val| <= ITEM_LIMIT
      modifies `item, `seg, `held, `free, `inactive, `cleaned, `cur, `segs, `reserved
      ensures Sane() && (old(Orderly()) ==> Orderly())
      ensures p == Null <==> NoRoom(old(Snapshot()), old(Space()), HEADER + |key| + |val|, cleanup)
      ensures Ready(old(Snapshot()), old(Space()))
      ensures var r := Room(old(Snapshot()), old(Space()), HEADER + |key| + |val|, cleanup);
        Placed(r, hv, key, val, p, Snapshot(), Space())
    {
      ghost var s, a, c := Snapshot(), Space(), Progress();
      ghost var orderly := Orderly();
      SteadyIsReady(s, a, Loose(a, c));
      p := IallocAlloc(hv, key, val, cleanup);
      PlacedIsSteady(s, a, Loose(a, c), hv, key, val, cleanup, p, Snapshot(), Space());
      if orderly { PlacedIsSteady(s, a, c, hv, key, val, cleanup, p, Snapshot(), Space()); }
    }

    method CleanOrderly(idle: bool) returns (n: nat, stopped: bool)
      requires Sane()
      modifies `queue, `item, `bucket, `seg, `chain, `tbl, `held, `free, `inactive, `cleaned, `cur, `segs, `reserved,
               `cleanupCount
      ensures Sane() && (old(Orderly()) ==> Orderly())
      ensures SameStore(old(Snapshot()), Snapshot()) && n <= |old(queue)| && queue == old(queue)[n..]
      ensures Ready(old(Snapshot()), old(Space()))
      ensures Cleaned(Snapshot(), Space(), stopped, n)
           == CleanLog(old(Snapshot()), old(Space()), Share(idle, if idle then old(cleanupCount) else 0))
    {
      ghost var s, a, c, share := Snapshot(), Space(), Progress(), Share(idle, if idle then cleanupCount else 0);
      SteadyIsReady(s, a, Loose(a, c));
      CleanLogSteady(s, a, Loose(a, c), share);
      if Orderly() { CleanLogSteady(s, a, c, share); }
      n, stopped := RunCleaner(idle);
    }

    // -------------------------------------------------------------------------
    // Maintenance

    /** The first loop of ialloc_maintenance: dead segments older than the current one go to the
        free list, and the best of the others to clean is found. */
    method Sweep() returns (cand: Option<nat>)
      requires Tidy(seg, Space())
      modifies `segs, `free
      ensures Tidy(seg, Space())
      ensures old(segs) != [] && segs == Survivors(seg, Older(old(segs))) + [cur]
      ensures free == Casualties(seg, Older(old(segs))) + old(free)
      ensures cand == Best(seg, cleaned, cleanRatio, Older(segs))
    {
      ghost var a := Space();
      SweepStarts(seg, a, cleanRatio);
      var i, best := 0, 0.0;
      cand := None;
      while i + 1 < |segs| && segs[i] in inactive
        invariant Sweeping(seg, a, Space(), cleanRatio, i, cand)
        invariant cand.Some? ==> cand.value < |seg|
        invariant best == (if cand.Some? then Ratio(seg[cand.value]) else 0.0)
        decreases |segs| - i
      {
        SweepAt(seg, a, Space(), cleanRatio, i, cand);
        var h := segs[i];
        if seg[h].freed == seg[h].size {
          SweepDrops(seg, a, Space(), cleanRatio, i, cand);
          segs := segs[..i] + segs[i + 1..];
          free := [h] + free;
        } else {
          SweepPasses(seg, a, Space(), cleanRatio, i, cand);
          if h !in cleaned && Ratio(seg[h]) >= cleanRatio && Ratio(seg[h]) > best {
            best := Ratio(seg[h]);
            cand := Some(h);
          }
          i := i + 1;
        }
      }
      SweepEnds(seg, a, Space(), cleanRatio, i, cand);
    }

    /** item_tryref and the queue: one item of the scan. */
    method QueueItem(p: Ptr)
      requires p in item
      modifies `item, `queue
      ensures Snapshot() == Enqueue(old(Snapshot()), p)
    {
      if item[p].refs > 0 {
        item := item[p := item[p].(refs := item[p].refs + 1)];
        queue := queue + [p];
      }
    }

    /** One turn of the scan: over an item, over a filler, or astray. */
    method ScanTurn(g: nat, size: nat, off: nat) returns (next: nat, astray: bool)
      requires InOrder() && g < |seg| && off < size && |queue| < cqsize
      modifies `item, `queue
      ensures InOrder() && (astray ==> next == off) && (!astray ==> off < next)
      ensures ScanRun(old(Snapshot()), g, off, size, cqsize)
           == if astray then Scanned(Snapshot(), off, true) else ScanRun(Snapshot(), g, next, size, cqsize)
    {
      var p := At(g, off);
      next, astray := off, false;
      QueueReady(Snapshot(), Space(), p);
      if size - off < HEADER {
        next := size;
      } else if p in item {
        next := off + TotalSize(item[p]);
        QueueItem(p);
      } else if seg[g].filled && off == Allocated(item, seg[g].log) {
        next := off + FillerStep(size - off);
      } else {
        astray := true;
      }
    }

    /** The last loop of ialloc_maintenance, from any offset: the live items it comes to go into
        the queue, until the queue is full, the segment is through, or it reads what nobody has
        written. */
    method ScanLoop(g: nat, size: nat) returns (astray: bool)
      requires InOrder() && g < |seg|
      modifies `item, `queue, `cleanOff
      ensures InOrder()
      ensures Scanned(Snapshot(), cleanOff, astray) == ScanRun(old(Snapshot()), g, old(cleanOff), size, cqsize)
    {
      ghost var target := ScanRun(Snapshot(), g, cleanOff, size, cqsize);
      var off := cleanOff;
      astray := false;
      while off < size && |queue| < cqsize && !astray
        invariant InOrder() && g < |seg| && 0 <= off
        invariant if astray then Scanned(Snapshot(), off, true) == target
                  else ScanRun(Snapshot(), g, off, size, cqsize) == target
        decreases !astray, size - off
      {
        off, astray := ScanTurn(g, size, off);
      }
      cleanOff := off;
    }

    /** The same from an item boundary of a full segment: it does not go astray, and passes the
        items in order.  A size of 0 keeps it from starting. */
    method ScanOn(g: nat, size: nat) returns (astray: bool)
      requires InOrder() && g < |seg| && (size == seg[g].size || size == 0)
      modifies `item, `queue, `cleanOff, `passed
      ensures InOrder()
      ensures Scanned(Snapshot(), cleanOff, astray) == ScanRun(old(Snapshot()), g, old(cleanOff), size, cqsize)
      ensures size != 0 && old(Scanning(Snapshot(), g, passed, cleanOff)) ==>
        && !astray && ScanWent(old(Snapshot()), g, old(Progress()), Snapshot(), Progress(), cqsize)
        && (cleanOff == size ==> passed == |seg[g].log|)
      ensures size == 0 ==> Progress() == old(Progress())
    {
      ghost var s, a, c := Snapshot(), Space(), Progress();
      astray := ScanLoop(g, size);
      if size != 0 && Scanning(s, g, c.passed, c.off) {
        passed := ScanIsOrderly(a, s, g, c, cqsize);
      }
    }

    /** The sweep in a store that is in order: the candidate's scan can start. */
    method FreeDead() returns (cand: Option<nat>)
      requires InOrder() && Fillable(Snapshot())
      modifies `segs, `free
      ensures InOrder()
      ensures cand.Some? ==> Scanning(Snapshot(), cand.value, 0, 0) && cand.value in segs && cand.value != cur
      ensures old(segs) != [] && segs == Survivors(seg, Older(old(segs))) + [cur]
      ensures free == Casualties(seg, Older(old(segs))) + old(free)
      ensures cand == Best(seg, cleaned, cleanRatio, Older(segs))
    {
      ghost var s, a := Snapshot(), Space();
      SegmentsInOrder(s, a);
      cand := Sweep();
      BestCanBeScanned(s, a, segs, cleanRatio);
      SweptIsReady(s, a, Space());
    }

    /** Which segment is scanned: the one under way, or else the candidate from its start. */
    method Choose(cand: Option<nat>, size: nat)
      requires InOrder()
      modifies `cleaning, `cleanOff, `passed, `cleaned
      ensures InOrder()
      ensures if old(cleaning).Some? && old(cleanOff) != size
              then Progress() == old(Progress()) && cleaned == old(cleaned)
              else Progress() == Scan(cand, 0, 0) && cleaned == old(cleaned) + (if cand.Some? then {cand.value} else {})
    {
      ghost var s, a := Snapshot(), Space();
      if cleaning.None? || cleanOff == size {
        cleaning, cleanOff, passed := cand, 0, 0;
        if cand.Some? { cleaned := cleaned + {cand.value}; }
      }
      MarkedIsReady(s, a, Space());
    }

    /** A scan that is through has passed every item. */
    ghost predicate SeenAll()
      reads this
    {
      cleaning.Some? && cleaning.value < |seg| && cleanOff == seg[cleaning.value].size ==>
        passed == |seg[cleaning.value].log|
    }

    /** What follows the sweep.  The length of the scan is taken from the segment scanned before,
        so a round that begins with none only chooses one. */
    method ChooseAndScan(cand: Option<nat>) returns (astray: bool)
      requires InOrder() && (cand.Some? ==> Scanning(Snapshot(), cand.value, 0, 0))
      requires cleaning.Some? ==> cleaning.value < |seg|
      requires forall g | 0 <= g < |seg| :: seg[g].size == segsize
      modifies `cleaning, `cleanOff, `passed, `cleaned, `item, `queue
      ensures InOrder() && RoundRan(old(Snapshot()), old(Progress()), cand, Snapshot(), Progress(), astray, cqsize)
      ensures cleaned == Chosen(old(Snapshot()), old(Progress()), old(cleaned), cand)
      ensures CanGoOn(old(Snapshot()), old(Progress())) ==>
        && !astray && RoundWent(old(Snapshot()), old(Progress()), cand, Snapshot(), Progress(), cqsize)
        && (ScanSize(old(Snapshot()), old(Progress())) != 0 ==> SeenAll())
    {
      var size := if cleaning.None? then 0 else seg[cleaning.value].size;
      Choose(cand, size);
      if cleaning.None? { return false; }
      astray := ScanOn(cleaning.value, size);
    }

    /** The steps of ialloc_maintenance. */
    method SweepAndScan() returns (cand: Option<nat>, astray: bool)
      requires InOrder() && Fillable(Snapshot()) && (cleaning.Some? ==> cleaning.value < |seg|)
      requires forall g | 0 <= g < |seg| :: seg[g].size == segsize
      modifies `segs, `free, `cleaning, `cleanOff, `passed, `cleaned, `item, `queue
      ensures InOrder() && CanStart(old(Snapshot()), Space(), cand)
      ensures old(segs) != [] && segs == Survivors(old(seg), Older(old(segs))) + [cur]
      ensures free == Casualties(old(seg), Older(old(segs))) + old(free)
      ensures cand == Best(old(seg), old(cleaned), cleanRatio, Older(segs))
      ensures cleaned == Chosen(old(Snapshot()), old(Progress()), old(cleaned), cand)
      ensures RoundRan(old(Snapshot()), old(Progress()), cand, Snapshot(), Progress(), astray, cqsize)
      ensures CanGoOn(old(Snapshot()), old(Progress())) ==>
        && !astray && RoundWent(old(Snapshot()), old(Progress()), cand, Snapshot(), Progress(), cqsize)
        && (ScanSize(old(Snapshot()), old(Progress())) != 0 ==> SeenAll())
    {
      cand := FreeDead();
      astray := ChooseAndScan(cand);
    }

    /** ialloc_maintenance: dead segments are freed, and what is live in the segment being scanned
        joins the cleanup queue; no value changes.  A scan in order does not go astray, and the
        next round finds it in order exactly when this one did not start at the hazard. */
    method Maintain() returns (cand: Option<nat>, astray: bool)
      requires Sane()
      modifies `segs, `free, `cleaning, `cleanOff, `passed, `cleaned, `item, `queue
      ensures Sane() && InOrder() && Fillable(Snapshot()) && SameStore(old(Snapshot()), Snapshot())
      ensures old(segs) != [] && segs == Survivors(seg, Older(old(segs))) + [cur]
      ensures free == Casualties(seg, Older(old(segs))) + old(free)
      ensures cand == Best(seg, old(cleaned), cleanRatio, Older(segs))
      ensures cleaned == Chosen(old(Snapshot()), old(Progress()), old(cleaned), cand)
      ensures RoundRan(old(Snapshot()), old(Progress()), cand, Snapshot(), Progress(), astray, cqsize)
      ensures old(cleaning).None? ==> Snapshot() == old(Snapshot()) && Progress() == Scan(cand, 0, 0)
      ensures astray ==> Lost(Snapshot(), Progress())
      ensures CanGoOn(old(Snapshot()), old(Progress())) ==>
        && !astray && RoundWent(old(Snapshot()), old(Progress()), cand, Snapshot(), Progress(), cqsize)
        && (ScanSize(old(Snapshot()), old(Progress())) != 0 ==> SeenAll())
      ensures old(Orderly()) ==>
        CanGoOn(old(Snapshot()), old(Progress())) && (Orderly() <==> !Hazard(old(Snapshot()), old(Progress()), cqsize))
    {
      ghost var s, a, c := Snapshot(), Space(), Progress();
      MaintenanceCan(s, a, c);
      cand, astray := SweepAndScan();
      RoundLeaves(s, a, c, cand, Snapshot(), Space(), Progress(), astray, cqsize);
    }
  }

  const CLEANUP_LIMIT: nat := 32

  function Taken(s: State): State { if s.queue == [] then s else Dequeue(s) }

  lemma WhatIsCleared(s: State, a: Arena)
    requires Ready(s, a)
    ensures !CleanLog(s, a, None).stopped ==> forall g | Clearable(s, a, g) :: Dead(CleanLog(s, a, None).state.seg, g)
  {
    if !CleanLog(s, a, None).stopped {
      forall g | Clearable(s, a, g) ensures Dead(CleanLog(s, a, None).state.seg, g) { CleaningEmpties(s, a, g); }
    }
  }

  /** How many items a request may still clean; no limit when idle. */
  function Share(idle: bool, count: nat): Option<nat> {
    if idle then None else if count >= CLEANUP_LIMIT then Some(0) else Some(CLEANUP_LIMIT - count)
  }

  function Less(left: Option<nat>): Option<nat>
    requires left != Some(0)
  {
    if left.None? then None else Some(left.value - 1)
  }

  /** nit is its caller's and not in the table yet. */
  ghost predicate IsNew(s: State, nit: Ptr) {
    Inv(s) && nit in s.item && !Mapped(s.item, s.tbl, nit) && s.held[nit] > 0
  }

  /** IsNew, folded. */
  ghost predicate CanReplace(s: State, nit: Ptr, depth: nat := 3) {
    if depth == 0 then IsNew(s, nit) else CanReplace(s, nit, depth - 1)
  }

  lemma UnfoldCanReplace(s: State, nit: Ptr)
    ensures CanReplace(s, nit) <==> IsNew(s, nit)
  {
    assert CanReplace(s, nit, 3) == CanReplace(s, nit, 2);
    assert CanReplace(s, nit, 1) == CanReplace(s, nit, 0);
  }

  /** A new item has been put in the place of p if the table had p in a slot, and let go;
      folded. */
  ghost function Replaced(s: State, nit: Ptr, p: Ptr, depth: nat := 3): State
    requires CanReplace(s, nit)
  {
    UnfoldCanReplace(s, nit);
    if depth == 0 then Release(Put(s, nit, p), nit) else Replaced(s, nit, p, depth - 1)
  }

  lemma UnfoldReplaced(s: State, nit: Ptr, p: Ptr)
    requires CanReplace(s, nit) && WellShaped(s) && nit in s.item
    ensures Replaced(s, nit, p) == Release(Put(s, nit, p), nit)
  {
    assert Replaced(s, nit, p, 3) == Replaced(s, nit, p, 2);
    assert Replaced(s, nit, p, 1) == Replaced(s, nit, p, 0);
  }

  /** What the attempt to copy an item leaves. */
  ghost predicate CopiedTo(s: State, a: Arena, p: Ptr, s': State, a': Arena, stopped: bool) {
    Ready(s, a) && p in s.item && s.held[p] > 0 && TotalSize(s.item[p]) < a.segsize &&
    var r := Room(s, a, TotalSize(s.item[p]), true);
    && a' == r.arena && stopped == r.to.None?
    && (if stopped then s' == r.state else CanMove(r.state, r.arena, p) && s' == Moved(r.state, r.arena, p))
  }

  /** CopiedTo, folded. */
  ghost predicate Copied(s: State, a: Arena, p: Ptr, s': State, a': Arena, stopped: bool, depth: nat := 3) {
    if depth == 0 then CopiedTo(s, a, p, s', a', stopped) else Copied(s, a, p, s', a', stopped, depth - 1)
  }

  lemma UnfoldCopied(s: State, a: Arena, p: Ptr, s': State, a': Arena, stopped: bool)
    ensures Copied(s, a, p, s', a', stopped) <==> CopiedTo(s, a, p, s', a', stopped)
  {
    assert Copied(s, a, p, s', a', stopped, 3) == Copied(s, a, p, s', a', stopped, 2);
    assert Copied(s, a, p, s', a', stopped, 1) == Copied(s, a, p, s', a', stopped, 0);
  }

  ghost predicate CanMove(s: State, a: Arena, p: Ptr) {
    Ready(s, a) && s.held[p] > 0 && p in s.item && Fits(s.seg, a.cur, TotalSize(s.item[p]))
  }

  /** A new copy of an item is not in the table yet. */
  lemma CopyCanBePut(r: Grant, p: Ptr, it: Item)
    requires CanMove(r.state, r.arena, p) && r.state.item[p] == it
    ensures var t := Alloc(r.state, r.arena.cur, it.hv, it.key, it.val); var nit := NextAddress(r.state, r.arena.cur);
      && Inv(t) && CanPut(t, nit) && t.held[nit] > 0
      && Moved(r.state, r.arena, p) == Release(Put(t, nit, p), nit)
  {
    UnfoldReady(r.state, r.arena);
    AllocKeeps(r.state, r.arena.cur, it.hv, it.key, it.val);
  }

  /** What comes of the allocation for a copy: nothing, or an item that can be put. */
  lemma CopyIs(s: State, a: Arena, p: Ptr, it: Item, nit: Ptr, s1: State, a1: Arena)
    requires Ready(s, a) && s.held[p] > 0 && p in s.item && s.item[p] == it && it.refs > 0 && TotalSize(it) < a.segsize
    requires Placed(Room(s, a, TotalSize(it), true), it.hv, it.key, it.val, nit, s1, a1)
    ensures nit == Null ==> Copied(s, a, p, s1, a1, true)
    ensures nit != Null ==>
      CanReplace(s1, nit) && Copied(s, a, p, Replaced(s1, nit, p), a1, false)
  {
    var r := Room(s, a, TotalSize(it), true);
    if r.to.Some? {
      CopyCanBePut(r, p, it);
      UnfoldCanReplace(s1, nit);
      UnfoldReplaced(s1, nit, p);
      UnfoldCopied(s, a, p, Release(Put(s1, nit, p), nit), a1, false);
    } else {
      UnfoldCopied(s, a, p, s1, a1, true);
    }
  }

  lemma QueueIsLive(s: State, a: Arena)
    requires Ready(s, a)
    ensures Null !in s.queue && forall i | 0 <= i < |a.free| :: a.free[i] < |s.seg|
  {
    UnfoldReady(s, a);
    if Null in s.queue { HeldIsLive(s, Null); }
  }

  /** What a turn of the cleaner does, in terms of the cleaner's specification. */
  ghost predicate After(s: State, a: Arena, left: Option<nat>, s': State, a': Arena, left': Option<nat>,
                        more: bool, stopped: bool) {
    Ready(s, a) && more == (left != Some(0) && s.queue != []) &&
    if left == Some(0) then s' == s && a' == a && !stopped
    else if s.queue == [] then s' == Refill(s, a).state && a' == Refill(s, a).arena && !stopped
    else left' == Less(left) && Turn(s', a', stopped) == CleanTurn(s, a)
  }

  function Rest(r: Cleaned, n: nat): Cleaned { r.(n := r.n + n) }

  /** An allocation that found a segment wrote its item there; another left no trace but the
      segment given up. */
  ghost predicate Placed(r: Grant, hv: nat, key: Bytes, val: Bytes, p: Ptr, s: State, a: Arena) {
    && a == r.arena
    && if r.to.None? then p == Null && s == r.state
       else Fits(r.state.seg, a.cur, HEADER + |key| + |val|)
            && p == NextAddress(r.state, a.cur) && s == Alloc(r.state, a.cur, hv, key, val)
  }

  /** Behind the last item of the current segment if there is room, and else at the start of another:
      the first free one, or one never used, or for the cleaner, when there is neither, the
      reserve. */
  ghost predicate WhereItWent(seg: seq<Seg>, a: Arena, total: nat, cleanup: bool, p: Ptr, b: Arena) {
    if Fits(seg, a.cur, total) then b == a && p == At(a.cur, seg[a.cur].offset)
    else
      && p == At(b.cur, 0) && b.segs == a.segs + [b.cur]
      && (a.free != [] ==> b.cur == a.free[0] && b.free == a.free[1..] && b.reserved == a.reserved)
      && (a.free == [] && |seg| < a.segmax ==> b.cur == |seg| && b.free == [] && b.reserved == a.reserved)
      && (a.free == [] && |seg| >= a.segmax ==> cleanup && a.reserved == Some(b.cur) && b.reserved == None)
  }

  lemma PlacedWhere(s: State, a: Arena, hv: nat, key: Bytes, val: Bytes, cleanup: bool, p: Ptr, t: State, b: Arena)
    requires CurrentOk(s.seg, a.cur) && forall i | 0 <= i < |a.free| :: a.free[i] < |s.seg|
    requires var r := MoveOn(GiveUp(s, a.cur), a, cleanup);
      r.to.Some? ==> r.arena.cur < |r.state.seg| && r.state.seg[r.arena.cur] == FreshSeg(a.segsize)
    requires Placed(Attempts(s, a, HEADER + |key| + |val|, cleanup), hv, key, val, p, t, b)
    ensures p != Null ==>
      WhereItWent(s.seg, a, HEADER + |key| + |val|, cleanup, p, b) && p in t.item
        && t.item[p] == Item(Null, hv, key, val, 1)
  {}

  lemma StartsInOrder(buckets: nat, s: State, a: Arena)
    requires buckets > 0 && a.segmax >= 2 && a == Arena(0, Some(1), [0], [], {}, {}, a.segsize, a.segmax)
    requires s == KvRuns.Init(buckets).(seg := [FreshSeg(a.segsize), FreshSeg(a.segsize)])
    ensures Ready(s, a)
  {
    var s0 := KvRuns.Init(buckets);
    KvRuns.InitIsGood(buckets);
    AddSegmentKeeps(s0, a.segsize);
    AddSegmentKeeps(AddSegment(s0, a.segsize), a.segsize);
    assert s == AddSegment(AddSegment(s0, a.segsize), a.segsize);
    UnfoldReady(s, a);
  }

  /** The segments marked as cleaned after a round: a segment is marked when its scan is begun. */
  function Chosen(s: State, c: Scan, cleaned: set<nat>, cand: Option<nat>): set<nat> {
    if c.cleaning.Some? && c.off != ScanSize(s, c) then cleaned
    else cleaned + (if cand.Some? then {cand.value} else {})
  }

  /** The scan under way, if any, is through or at an item boundary of a full segment. */
  ghost predicate CanGoOn(s: State, c: Scan) {
    c.cleaning.Some? ==>
      c.cleaning.value < |s.seg|
        && (c.off == s.seg[c.cleaning.value].size || Scanning(s, c.cleaning.value, c.passed, c.off))
  }

  /** What a round of maintenance can rely on. */
  lemma MaintenanceCan(s: State, a: Arena, c: Scan)
    requires Steady(s, a, Loose(a, c))
    ensures Ready(s, a) && Fillable(s) && (c.cleaning.Some? ==> c.cleaning.value < |s.seg|)
    ensures forall g | 0 <= g < |s.seg| :: s.seg[g].size == a.segsize
    ensures Steady(s, a, c) ==> CanGoOn(s, c)
  {
    UnfoldSteady(s, a, Loose(a, c));
    UnfoldReady(s, a);
    UnfoldSteady(s, a, c);
  }

  /** What a round leaves, in order or not. */
  lemma RoundLeaves(s: State, a: Arena, c: Scan, cand: Option<nat>, t: State, b: Arena, c': Scan, astray: bool,
    cqsize: nat)
    requires Steady(s, a, Loose(a, c)) && Ready(t, b) && b.segsize == a.segsize && cqsize > 0 && a.segs != []
    requires RoundRan(s, c, cand, t, c', astray, cqsize) && (c.cleaning.Some? ==> c.off <= a.segsize)
    requires b.cur == a.cur && b.segs == Survivors(s.seg, Older(a.segs)) + [a.cur] && CanStart(s, b, cand)
    requires CanGoOn(s, c) ==> RoundWent(s, c, cand, t, c', cqsize)
    ensures Steady(t, b, Loose(b, c')) && (c'.cleaning.Some? ==> c'.off <= b.segsize)
    ensures Fillable(t) && SameStore(s, t) && (astray ==> Lost(t, c'))
    ensures c.cleaning.None? ==> t == s && c' == Scan(cand, 0, 0)
    ensures Steady(s, a, c) ==> CanGoOn(s, c) && (Steady(t, b, c') <==> !Hazard(s, c, cqsize))
  {
    MaintenanceCan(s, a, c);
    RoundIsLoose(s, a, c, cand, t, b, c', astray, cqsize);
    if Steady(s, a, c) { RoundSteady(s, a, c, cand, t, b, c', cqsize); }
  }

  /** A scan that starts in order goes on to the end or until the queue is full. */
  lemma ScanIsOrderly(a: Arena, s: State, g: nat, c: Scan, cqsize: nat) returns (k: nat)
    requires Ready(s, a) && Scanning(s, g, c.passed, c.off)
    ensures var r := ScanRun(s, g, c.off, s.seg[g].size, cqsize);
      && !r.astray && ScanWent(s, g, c, r.state, Scan(c.cleaning, r.off, k), cqsize)
      && (r.off == s.seg[g].size ==> k == |s.seg[g].log|)
  {
    ScanBegins(a, s, g, c.passed, c.off);
    k := ScanRunInOrder(a, s, g, c.passed, s, c.passed, c.off, cqsize);
    var r := ScanRun(s, g, c.off, s.seg[g].size, cqsize);
    ScanStops(a, s, g, c, r.state, Scan(c.cleaning, r.off, k), cqsize);
  }

  lemma SegmentsInOrder(s: State, a: Arena)
    requires Ready(s, a)
    ensures Tidy(s.seg, a)
  {
    UnfoldReady(s, a);
    UnfoldTidy(s.seg, a);
  }

  lemma SweptIsReady(s: State, a: Arena, a': Arena)
    requires Ready(s, a) && a' == a.(segs := a'.segs, free := a'.free) && Tidy(s.seg, a')
    ensures Ready(s, a')
  {
    UnfoldTidy(s.seg, a');
    UnfoldReady(s, a);
    UnfoldReady(s, a');
  }

  lemma MarkedIsReady(s: State, a: Arena, a': Arena)
    requires Ready(s, a) && a' == a.(cleaned := a'.cleaned)
    ensures Ready(s, a')
  {
    UnfoldReady(s, a);
    UnfoldReady(s, a');
  }

  /** A lookup leaves the scan as it was, in order or not. */
  lemma LookupIsSteady(s: State, a: Arena, c: Scan, hv: nat, key: Bytes)
    requires Steady(s, a, Loose(a, c))
    ensures Ready(s, a) && WellShaped(s) && Steady(Get(s, hv, key), a, Loose(a, c))
    ensures Steady(s, a, c) ==> Steady(Get(s, hv, key), a, c)
  {
    SteadyIsReady(s, a, Loose(a, c));
    SteadyIsValid(s, a, Loose(a, c));
    GetSteady(s, a, Loose(a, c), hv, key);
    if Steady(s, a, c) { GetSteady(s, a, c, hv, key); }
  }

  lemma UpdateIsSteady(s: State, a: Arena, c: Scan, nit: Ptr, cas: Ptr)
    requires Steady(s, a, Loose(a, c)) && nit in s.item && !Mapped(s.item, s.tbl, nit) && s.item[nit].refs > 0
    ensures Ready(s, a) && WellShaped(s) && Steady(Put(s, nit, cas), a, Loose(a, c))
    ensures Steady(s, a, c) ==> Steady(Put(s, nit, cas), a, c)
  {
    SteadyIsReady(s, a, Loose(a, c));
    SteadyIsValid(s, a, Loose(a, c));
    PutSteady(s, a, Loose(a, c), nit, cas);
    if Steady(s, a, c) { PutSteady(s, a, c, nit, cas); }
  }

  lemma LettingGoIsSteady(s: State, a: Arena, c: Scan, p: Ptr)
    requires Steady(s, a, Loose(a, c)) && s.held[p] > 0
    ensures Ready(s, a) && Steady(Release(s, p), a, Loose(a, c)) && (Steady(s, a, c) ==> Steady(Release(s, p), a, c))
  {
    SteadyIsReady(s, a, Loose(a, c));
    ReleaseSteady(s, a, Loose(a, c), p);
    if Steady(s, a, c) { ReleaseSteady(s, a, c, p); }
  }

  lemma PlacedIsSteady(s: State, a: Arena, c: Scan, hv: nat, key: Bytes, val: Bytes, cleanup: bool, p: Ptr, t: State,
    b: Arena)
    requires Steady(s, a, c) && Ready(s, a) && HEADER + |key| + |val| < a.segsize
    requires HEADER + |key| + |val| <= ITEM_LIMIT
    requires Placed(Room(s, a, HEADER + |key| + |val|, cleanup), hv, key, val, p, t, b)
    ensures Steady(t, b, c)
  {
    var r := Room(s, a, HEADER + |key| + |val|, cleanup);
    RoomSteady(s, a, c, HEADER + |key| + |val|, cleanup);
    if r.to.Some? { AllocSteady(r.state, r.arena, c, hv, key, val); }
  }

  lemma PlacedIsReady(r: Grant, hv: nat, key: Bytes, val: Bytes, p: Ptr, s: State, a: Arena)
    requires Ready(r.state, r.arena) && Placed(r, hv, key, val, p, s, a) && HEADER + |key| + |val| < a.segsize
    ensures Ready(s, a)
  {
    if r.to.Some? { AllocReady(r.state, r.arena, hv, key, val); }
  }
}
