/** Allocation, recycling and cleaning: every operation keeps the store's invariant, no live
    item is ever recycled, and the cleaner changes no value. */
module KvStore {
  import opened KvState
  import opened KvTable
  import opened KvLog

  // ---------------------------------------------------------------------------
  // Allocation

  lemma {:induction false} AllocatedPrefix(item: map<Ptr, Item>, log: seq<Ptr>, k: nat)
    requires k < |log|
    ensures Allocated(item, log[..k]) + SizeAt(item, log[k]) <= Allocated(item, log)
  {
    var n := |log| - 1;
    if k < n {
      AllocatedPrefix(item, log[..n], k);
      assert log[..n][..k] == log[..k];
    }
  }

  /** The address a segment hands out next holds no item. */
  lemma FreshAddress(s: State, g: nat)
    requires SegInv(s.item, s.seg) && g < |s.seg| && !s.seg[g].filled
    ensures NextAddress(s, g) !in s.item && NextAddress(s, g) !in s.seg[g].log
  {
    var h, p := s.seg[g], NextAddress(s, g);
    assert SegOk(s.item, h, g);
    forall k | 0 <= k < |h.log| ensures h.log[k] != p {
      AllocatedPrefix(s.item, h.log, k);
    }
    assert p in s.item ==> LoggedIn(s.seg, p);
  }

  lemma AppendedSeg(item: map<Ptr, Item>, h: Seg, g: nat, p: Ptr, it: Item)
    requires SegOk(item, h, g) && !h.filled && p == At(g, h.offset) && p !in item && p !in h.log
    requires h.offset + TotalSize(it) <= h.size && it.refs > 0
    ensures SegOk(item[p := it], Appended(h, p, TotalSize(it)), g)
  {
    var item' := item[p := it];
    SameAllocated(item, item', h.log);
    SameLive(item, item', h.log);
    PlacesKeep(item, item', h.log, g);
    AppendedAccounts(item', h.log, p);
    AppendedPlaces(item', h.log, g, p);
  }

  lemma AppendedAccounts(item: map<Ptr, Item>, log: seq<Ptr>, p: Ptr)
    ensures Allocated(item, log + [p]) == Allocated(item, log) + SizeAt(item, p)
    ensures Live(item, log + [p]) == Live(item, log) + LiveAt(item, p)
  {
    assert (log + [p])[..|log|] == log;
  }

  lemma AppendedPlaces(item: map<Ptr, Item>, log: seq<Ptr>, g: nat, p: Ptr)
    requires forall k | 0 <= k < |log| :: log[k] == At(g, Allocated(item, log[..k]))
    requires p == At(g, Allocated(item, log))
    ensures forall k | 0 <= k < |log + [p]| :: (log + [p])[k] == At(g, Allocated(item, (log + [p])[..k]))
  {
    forall k | 0 <= k < |log + [p]| ensures (log + [p])[k] == At(g, Allocated(item, (log + [p])[..k])) {
      if k < |log| { assert (log + [p])[..k] == log[..k]; } else { assert (log + [p])[..k] == log; }
    }
  }

  lemma AllocSegsOk(item: map<Ptr, Item>, seg: seq<Seg>, g: nat, p: Ptr, it: Item)
    requires SegsOk(item, seg) && Fits(seg, g, TotalSize(it)) && p == At(g, seg[g].offset) && p !in item
    requires p !in seg[g].log
    requires it.refs > 0
    ensures SegsOk(item[p := it], seg[g := Appended(seg[g], p, TotalSize(it))])
  {
    var seg' := seg[g := Appended(seg[g], p, TotalSize(it))];
    forall c | 0 <= c < |seg'| ensures SegOk(item[p := it], seg'[c], c) {
      assert SegOk(item, seg[c], c);
      if c == g {
        AppendedSeg(item, seg[g], g, p, it);
      } else {
        OtherLog(item, seg[c], c, p);
        SegOkKeep(item, item[p := it], seg[c], c);
      }
    }
  }

  lemma AllocLogged(item: map<Ptr, Item>, seg: seq<Seg>, g: nat, p: Ptr, it: Item, h: Seg)
    requires Logged(item, seg) && g < |seg| && p.At? && p.seg == g && h.log == seg[g].log + [p]
    ensures Logged(item[p := it], seg[g := h])
  {
    var item', seg' := item[p := it], seg[g := h];
    forall q | q in item' ensures LoggedIn(seg', q) {
      if q != p { assert LoggedIn(seg, q); }
    }
  }

  /** An item no key maps to is invisible to the table. */
  lemma AllocTableKeeps(s: State, t: State, p: Ptr, it: Item)
    requires TableInv(s) && p.At? && p !in s.item && t.item == s.item[p := it]
    requires t.bucket == s.bucket && t.chain == s.chain && t.tbl == s.tbl
    ensures TableInv(t) && !Mapped(t.item, t.tbl, p)
    ensures forall q :: Mapped(t.item, t.tbl, q) == Mapped(s.item, s.tbl, q)
  {
    forall q ensures Mapped(t.item, t.tbl, q) == Mapped(s.item, s.tbl, q) {}
    forall b, q | 0 <= b < |t.bucket| && q != Null
      ensures multiset(Entries(t.bucket[b], t.chain[b]))[q] == Belongs(t.item, t.tbl, |t.bucket|, b, q)
    {
      assert multiset(Entries(s.bucket[b], s.chain[b]))[q] == Belongs(s.item, s.tbl, |s.bucket|, b, q);
    }
    forall b | 0 <= b < |t.bucket| ensures BucketOk(t.item, t.bucket[b], t.chain[b]) {
      BucketFrame(s.item, t.item, s.bucket[b], s.chain[b]);
    }
  }

  lemma RefAlloc(item: map<Ptr, Item>, tbl: map<Key, Ptr>, queue: seq<Ptr>, held: multiset<Ptr>, p: Ptr, it: Item)
    requires RefInv(item, tbl, queue, held) && p !in item && it.refs == 1
    requires forall q :: Mapped(item[p := it], tbl, q) == Mapped(item, tbl, q)
    ensures RefInv(item[p := it], tbl, queue, held + multiset{p})
  {
    forall q ensures Refs(item[p := it], q)
      == InMap(item[p := it], tbl, q) + multiset(queue)[q] + (held + multiset{p})[q]
    {
      assert Refs(item, q) == InMap(item, tbl, q) + multiset(queue)[q] + held[q];
    }
  }

  lemma AllocIs(s: State, g: nat, hv: nat, key: Bytes, val: Bytes)
    requires Fits(s.seg, g, HEADER + |key| + |val|)
    ensures var t := Alloc(s, g, hv, key, val); var p := NextAddress(s, g); var it := Item(Null, hv, key, val, 1);
      && t.item == s.item[p := it]
      && t.seg == s.seg[g := Appended(s.seg[g], p, TotalSize(it))]
      && t == s.(item := t.item, seg := t.seg, held := s.held + multiset{p})
  {}

  /** A new item belongs to its allocator alone: one reference, and no key maps to it. */
  lemma AllocKeeps(s: State, g: nat, hv: nat, key: Bytes, val: Bytes)
    requires Inv(s) && Fits(s.seg, g, HEADER + |key| + |val|)
    ensures var t := Alloc(s, g, hv, key, val); var p := NextAddress(s, g);
      && Inv(t) && CanPut(t, p) && t.item == s.item[p := Item(Null, hv, key, val, 1)] && p !in s.item && t.tbl == s.tbl
  {
    AllocIs(s, g, hv, key, val);
    AllocSegKeeps(s, g, hv, key, val);
    AllocRefKeeps(s, g, hv, key, val);
  }

  lemma AllocSegKeeps(s: State, g: nat, hv: nat, key: Bytes, val: Bytes)
    requires SegInv(s.item, s.seg) && Fits(s.seg, g, HEADER + |key| + |val|)
    ensures var t := Alloc(s, g, hv, key, val); SegInv(t.item, t.seg) && NextAddress(s, g) !in s.item
  {
    FreshAddress(s, g);
    ItemAppended(s.item, s.seg, g, NextAddress(s, g), Item(Null, hv, key, val, 1));
  }

  lemma ItemAppended(item: map<Ptr, Item>, seg: seq<Seg>, g: nat, p: Ptr, it: Item)
    requires SegInv(item, seg) && Fits(seg, g, TotalSize(it)) && p == At(g, seg[g].offset) && p !in item
    requires p !in seg[g].log
    requires it.refs > 0
    ensures SegInv(item[p := it], seg[g := Appended(seg[g], p, TotalSize(it))])
  {
    AllocSegsOk(item, seg, g, p, it);
    AllocLogged(item, seg, g, p, it, Appended(seg[g], p, TotalSize(it)));
  }

  lemma AllocRefKeeps(s: State, g: nat, hv: nat, key: Bytes, val: Bytes)
    requires TableInv(s) && RefInv(s.item, s.tbl, s.queue, s.held) && Fits(s.seg, g, HEADER + |key| + |val|)
    requires NextAddress(s, g) !in s.item
    ensures var t := Alloc(s, g, hv, key, val);
      TableInv(t) && RefInv(t.item, t.tbl, t.queue, t.held) && !Mapped(t.item, t.tbl, NextAddress(s, g))
  {
    var t, p, it := Alloc(s, g, hv, key, val), NextAddress(s, g), Item(Null, hv, key, val, 1);
    AllocIs(s, g, hv, key, val);
    AllocTableKeeps(s, t, p, it);
    RefAlloc(s.item, s.tbl, s.queue, s.held, p, it);
  }

  /** Giving up the tail of a segment keeps its accounts balanced. */
  lemma FillKeeps(s: State, g: nat)
    requires Inv(s) && g < |s.seg| && !s.seg[g].filled
    ensures s.seg[g].offset <= s.seg[g].size && Inv(Fill(s, g))
  {
    assert SegOk(s.item, s.seg[g], g);
    var t := Fill(s, g);
    forall c | 0 <= c < |t.seg| ensures SegOk(t.item, t.seg[c], c) {
      assert SegOk(s.item, s.seg[c], c);
    }
    LoggedKeep(s.item, t.item, s.seg, t.seg);
    TableKeep(s, t);
  }

  // ---------------------------------------------------------------------------
  // Recycling

  /** A segment whose bytes have all been freed holds no item that anyone still refers to. */
  lemma NothingLive(s: State, g: nat)
    requires Inv(s) && g < |s.seg| && s.seg[g].freed == s.seg[g].size
    ensures forall p | p in s.item && p.seg == g ::
      s.item[p].refs == 0 && !Mapped(s.item, s.tbl, p) && p !in s.queue && s.held[p] == 0
  {
    var h := s.seg[g];
    assert SegOk(s.item, h, g);
    LiveBelow(s.item, h.log);
    assert Live(s.item, h.log) == 0;
    forall p | p in s.item && p.seg == g
      ensures s.item[p].refs == 0 && !Mapped(s.item, s.tbl, p) && p !in s.queue && s.held[p] == 0
    {
      assert LoggedIn(s.seg, p);
      assert LiveAt(s.item, p) == 0;
      assert Refs(s.item, p) == InMap(s.item, s.tbl, p) + multiset(s.queue)[p] + s.held[p];
    }
  }

  function Without(item: map<Ptr, Item>, g: nat): map<Ptr, Item> {
    map p | p in item && !(p.At? && p.seg == g) :: item[p]
  }

  /** Dropping items that are no entries keeps the table. */
  lemma DropTableKeeps(s: State, t: State)
    requires TableInv(s) && t.bucket == s.bucket && t.chain == s.chain && t.tbl == s.tbl
    requires forall p | p in t.item :: p in s.item && t.item[p] == s.item[p]
    requires forall p | Mapped(s.item, s.tbl, p) :: p in t.item
    ensures TableInv(t)
    ensures forall p :: Mapped(t.item, t.tbl, p) == Mapped(s.item, s.tbl, p)
  {
    forall p ensures Mapped(t.item, t.tbl, p) == Mapped(s.item, s.tbl, p) {}
    forall k | k in t.tbl ensures t.tbl[k] in t.item && KeyOf(t.item[t.tbl[k]]) == k {
      assert Mapped(s.item, s.tbl, s.tbl[k]);
    }
    forall b, p | 0 <= b < |t.bucket| && p != Null
      ensures multiset(Entries(t.bucket[b], t.chain[b]))[p] == Belongs(t.item, t.tbl, |t.bucket|, b, p)
    {
      assert multiset(Entries(s.bucket[b], s.chain[b]))[p] == Belongs(s.item, s.tbl, |s.bucket|, b, p);
    }
    forall b | 0 <= b < |t.bucket| ensures BucketOk(t.item, t.bucket[b], t.chain[b]) {
      forall p | p in Entries(s.bucket[b], s.chain[b]) && p != Null ensures p in t.item && t.item[p] == s.item[p] {
        EntryIsMapped(s, b, p);
      }
      BucketShrinks(s.item, t.item, s.bucket[b], s.chain[b]);
    }
  }

  lemma BucketShrinks(item: map<Ptr, Item>, item': map<Ptr, Item>, b: Bucket, chain: seq<Ptr>)
    requires BucketOk(item, b, chain) && Null !in item && Null !in item'
    requires forall p | p in Entries(b, chain) && p != Null :: p in item && p in item' && item'[p] == item[p]
    ensures BucketOk(item', b, chain)
  {
    forall i | 0 <= i < BUCKET_NITEMS
      ensures NextOf(item', b.items[i]) == NextOf(item, b.items[i])
      ensures b.items[i] != Null ==> b.items[i] in item' && item'[b.items[i]] == item[b.items[i]]
    {
      assert Entries(b, chain)[i] == b.items[i];
    }
    forall j | 0 <= j < |chain| ensures chain[j] in item' && NextOf(item', chain[j]) == NextOf(item, chain[j]) {
      assert Entries(b, chain)[BUCKET_NITEMS + j] == chain[j];
    }
  }

  lemma DropSegKeeps(item: map<Ptr, Item>, seg: seq<Seg>, g: nat)
    requires SegInv(item, seg) && g < |seg|
    ensures SegInv(Without(item, g), seg[g := FreshSeg(seg[g].size)])
  {
    var item', seg' := Without(item, g), seg[g := FreshSeg(seg[g].size)];
    forall c | 0 <= c < |seg'| ensures SegOk(item', seg'[c], c) {
      if c != g {
        assert SegOk(item, seg[c], c);
        SegOkKeep(item, item', seg[c], c);
      }
    }
    forall p | p in item' ensures LoggedIn(seg', p) {
      assert LoggedIn(seg, p);
    }
  }

  /** Maintenance recycles a segment only when all of it is freed, and then nothing that the
      table, the queue or a caller refers to is lost. */
  lemma RecycleKeeps(s: State, g: nat)
    requires Inv(s) && g < |s.seg| && s.seg[g].freed == s.seg[g].size
    ensures Inv(Recycle(s, g))
  {
    var t := Recycle(s, g);
    NothingLive(s, g);
    assert t.item == Without(s.item, g);
    forall p | Mapped(s.item, s.tbl, p) ensures p in t.item { assert LoggedIn(s.seg, p); }
    DropTableKeeps(s, t);
    DropSegKeeps(s.item, s.seg, g);
    RefDrop(s, t, g);
  }

  lemma RefDrop(s: State, t: State, g: nat)
    requires RefInv(s.item, s.tbl, s.queue, s.held) && t.item == Without(s.item, g)
    requires t.tbl == s.tbl && t.queue == s.queue && t.held == s.held
    requires forall p | p in s.item && p.At? && p.seg == g :: s.item[p].refs == 0
    requires forall p :: Mapped(t.item, t.tbl, p) == Mapped(s.item, s.tbl, p)
    ensures RefInv(t.item, t.tbl, t.queue, t.held)
  {
    forall p ensures Refs(t.item, p) == InMap(t.item, t.tbl, p) + multiset(t.queue)[p] + t.held[p] {
      assert Refs(s.item, p) == InMap(s.item, s.tbl, p) + multiset(s.queue)[p] + s.held[p];
    }
  }

  /** A segment nobody has used yet. */
  function AddSegment(s: State, size: nat): State { s.(seg := s.seg + [FreshSeg(size)]) }

  lemma AddSegmentKeeps(s: State, size: nat)
    requires Inv(s)
    ensures Inv(AddSegment(s, size))
  {
    var t := AddSegment(s, size);
    forall c | 0 <= c < |t.seg| ensures SegOk(t.item, t.seg[c], c) {
      if c < |s.seg| { assert SegOk(s.item, s.seg[c], c); }
    }
    forall p | p in t.item ensures LoggedIn(t.seg, p) { assert LoggedIn(s.seg, p); }
    TableKeep(s, t);
  }
}
