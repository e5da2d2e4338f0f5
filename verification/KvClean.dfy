/** What clients see of the store, and what the cleaner does to one item. */
module KvClean {
  import opened KvState
  import opened KvTable
  import opened KvLog
  import opened KvStore

  // ---------------------------------------------------------------------------
  // What clients see

  /** The value stored for a key. */
  ghost predicate Stores(item: map<Ptr, Item>, tbl: map<Key, Ptr>, k: Key, val: Bytes) {
    k in tbl && tbl[k] in item && item[tbl[k]].val == val
  }

  ghost predicate SameValues(item: map<Ptr, Item>, tbl: map<Key, Ptr>, item': map<Ptr, Item>, tbl': map<Key, Ptr>) {
    forall k, val :: Stores(item, tbl, k, val) <==> Stores(item', tbl', k, val)
  }

  /** The same keys with the same values. */
  ghost predicate SameStore(s: State, t: State) { SameValues(s.item, s.tbl, t.item, t.tbl) }

  lemma SameTable(s: State, t: State)
    requires s.tbl == t.tbl && SameContents(s.item, t.item)
    ensures SameStore(s, t)
  {}

  /** A copy takes the place of an item with its key and value. */
  lemma CopyTakesOver(item: map<Ptr, Item>, tbl: map<Key, Ptr>, item': map<Ptr, Item>, nit: Ptr, p: Ptr)
    requires SameContents(item, item') && nit in item && p in item
    requires KeyOf(item[nit]) in tbl && tbl[KeyOf(item[nit])] == p && item[nit].val == item[p].val
    ensures SameValues(item, tbl, item', tbl[KeyOf(item[nit]) := nit])
  {
    var tbl' := tbl[KeyOf(item[nit]) := nit];
    forall k, val ensures Stores(item, tbl, k, val) <==> Stores(item', tbl', k, val) {
      if k in tbl && tbl[k] in item { assert item'[tbl[k]].val == item[tbl[k]].val; }
    }
  }

  lemma NewItemUnseen(item: map<Ptr, Item>, tbl: map<Key, Ptr>, p: Ptr, it: Item)
    requires TblInv(item, tbl) && p !in item
    ensures SameValues(item, tbl, item[p := it], tbl)
  {
    forall k, val ensures Stores(item, tbl, k, val) <==> Stores(item[p := it], tbl, k, val) {
      if k in tbl { assert tbl[k] in item; }
    }
  }

  lemma SameStoreTransitive(s: State, t: State, u: State)
    requires SameStore(s, t) && SameStore(t, u)
    ensures SameStore(s, u)
  {
    forall k, val ensures Stores(s.item, s.tbl, k, val) <==> Stores(u.item, u.tbl, k, val) {
      assert Stores(s.item, s.tbl, k, val) <==> Stores(t.item, t.tbl, k, val);
    }
  }

  lemma SegmentsSame(s: State, seg: seq<Seg>)
    ensures SameStore(s, s.(seg := seg))
  {}

  lemma RecycleSame(s: State, g: nat)
    requires Inv(s) && g < |s.seg| && s.seg[g].freed == s.seg[g].size
    ensures SameStore(s, Recycle(s, g))
  {
    NothingLive(s, g);
    var t := Recycle(s, g);
    forall k, val ensures Stores(s.item, s.tbl, k, val) <==> Stores(t.item, t.tbl, k, val) {
      if k in s.tbl {
        assert Mapped(s.item, s.tbl, s.tbl[k]);
        assert LoggedIn(s.seg, s.tbl[k]);
      }
    }
  }

  // ---------------------------------------------------------------------------
  // One item

  lemma Head(queue: seq<Ptr>, held: multiset<Ptr>)
    requires queue != []
    ensures forall p :: multiset(queue[1..])[p] + (held + multiset{queue[0]})[p] == multiset(queue)[p] + held[p]
  {
    assert queue == [queue[0]] + queue[1..];
  }

  lemma DequeueKeeps(s: State)
    requires Inv(s) && s.queue != []
    ensures Inv(Dequeue(s)) && s.queue[0] in s.item && Dequeue(s).held[s.queue[0]] > 0
  {
    HeldIsLive(s, s.queue[0]);
    Head(s.queue, s.held);
    var t := Dequeue(s);
    RefMove(s.item, s.item, s.tbl, s.queue, s.held, t.queue, t.held);
    TableKeep(s, t);
  }

  lemma ReleaseSame(s: State, p: Ptr)
    requires Inv(s) && s.held[p] > 0
    ensures Inv(Release(s, p)) && Release(s, p).tbl == s.tbl && SameContents(s.item, Release(s, p).item)
    ensures Release(s, p).held == s.held - multiset{p}
  {
    ReleaseKeeps(s, p);
    UnrefElse(s, p);
    HeldIsLive(s, p);
    assert LoggedIn(s.seg, p);
    UnrefChanges(s, p);
  }

  /** The put of the copy: held references are untouched, and the table's content is too, since
      the copy has the key and the value of the item it may replace. */
  lemma PutCopy(s: State, nit: Ptr, p: Ptr)
    requires Inv(s) && CanPut(s, nit) && s.item[nit].refs > 0 && p in s.item
    requires KeyOf(s.item[nit]) == KeyOf(s.item[p]) && s.item[nit].val == s.item[p].val
    ensures Inv(Put(s, nit, p)) && SameStore(s, Put(s, nit, p)) && Put(s, nit, p).held == s.held
  {
    PutKeeps(s, nit, p);
    PutRefinesMap(s, nit, p);
    PutHeld(s, nit, p);
    var t := Put(s, nit, p);
    if TakesEffect(s, nit, p) {
      assert p.At?;
      CopyTakesOver(s.item, s.tbl, t.item, nit, p);
    }
  }

  lemma PutHeld(s: State, nit: Ptr, cas: Ptr)
    requires CanPut(s, nit)
    ensures Put(s, nit, cas).held == s.held && Put(s, nit, cas).queue == s.queue
  {
    PutIs(s, nit, cas);
    PutBareContents(s, nit);
    if KeyOf(s.item[nit]) in s.tbl { UnrefElse(PutBare(s, nit), s.tbl[KeyOf(s.item[nit])]); }
  }

  lemma AllocSame(s: State, g: nat, hv: nat, key: Bytes, val: Bytes)
    requires Inv(s) && Fits(s.seg, g, HEADER + |key| + |val|)
    ensures SameStore(s, Alloc(s, g, hv, key, val))
  {
    AllocKeeps(s, g, hv, key, val);
    NewItemUnseen(s.item, s.tbl, NextAddress(s, g), Item(Null, hv, key, val, 1));
  }

  /** Moving an item elsewhere in the log changes nothing a client can see, whether or not the
      table still held it. */
  lemma RelocateKeeps(s: State, p: Ptr, g: nat)
    requires Inv(s) && s.held[p] > 0 && p in s.item && Fits(s.seg, g, TotalSize(s.item[p]))
    ensures Inv(Relocate(s, p, g)) && SameStore(s, Relocate(s, p, g)) && Relocate(s, p, g).held[p] > 0
  {
    var it, nit := s.item[p], NextAddress(s, g);
    AllocKeeps(s, g, it.hv, it.key, it.val);
    AllocSame(s, g, it.hv, it.key, it.val);
    var t := Alloc(s, g, it.hv, it.key, it.val);
    PutCopy(t, nit, p);
    var u := Put(t, nit, p);
    ReleaseSame(u, nit);
    SameTable(u, Release(u, nit));
  }

  /** One turn of the cleaner keeps the invariant and every key's value. */
  lemma CleanOneKeeps(s: State, g: nat)
    requires Inv(s) && s.queue != [] && s.queue[0] in s.item
    requires s.item[s.queue[0]].refs != 1 ==> Fits(s.seg, g, TotalSize(s.item[s.queue[0]]))
    ensures Inv(CleanOne(s, g)) && SameStore(s, CleanOne(s, g))
  {
    var p, s1 := s.queue[0], Dequeue(s);
    DequeueKeeps(s);
    SameTable(s, s1);
    if s.item[p].refs != 1 { RelocateKeeps(s1, p, g); }
    var s2 := if s.item[p].refs != 1 then Relocate(s1, p, g) else s1;
    ReleaseSame(s2, p);
    SameTable(s2, Release(s2, p));
  }
}
