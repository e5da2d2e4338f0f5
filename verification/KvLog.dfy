/** Reference counts and segment accounting. */
module KvLog {
  import opened KvState
  import opened KvTable

  // ---------------------------------------------------------------------------
  // Reference counts

  function Refs(item: map<Ptr, Item>, p: Ptr): nat { if p in item then item[p].refs else 0 }

  function InMap(item: map<Ptr, Item>, tbl: map<Key, Ptr>, p: Ptr): nat { if Mapped(item, tbl, p) then 1 else 0 }

  /** A count is the number of references the table, the queue and callers hold. */
  ghost predicate RefInv(item: map<Ptr, Item>, tbl: map<Key, Ptr>, queue: seq<Ptr>, held: multiset<Ptr>) {
    forall p :: Refs(item, p) == InMap(item, tbl, p) + multiset(queue)[p] + held[p]
  }

  // ---------------------------------------------------------------------------
  // Segments

  function SizeAt(item: map<Ptr, Item>, p: Ptr): nat { if p in item then TotalSize(item[p]) else 0 }

  function LiveAt(item: map<Ptr, Item>, p: Ptr): nat { if Refs(item, p) > 0 then SizeAt(item, p) else 0 }

  /** Bytes allocated to the items of a log. */
  function Allocated(item: map<Ptr, Item>, log: seq<Ptr>): nat {
    if log == [] then 0 else Allocated(item, log[..|log| - 1]) + SizeAt(item, log[|log| - 1])
  }

  /** Bytes of the items still referenced. */
  function Live(item: map<Ptr, Item>, log: seq<Ptr>): nat {
    if log == [] then 0 else Live(item, log[..|log| - 1]) + LiveAt(item, log[|log| - 1])
  }

  /** The items of a segment lie one after the other from its start, and the bytes handed out
      are those freed plus those of live items. */
  ghost predicate SegOk(item: map<Ptr, Item>, h: Seg, g: nat) {
    && Allocated(item, h.log) <= h.size
    && h.offset == (if h.filled then h.size else Allocated(item, h.log))
    && h.offset == h.freed + Live(item, h.log)
    && (forall k | 0 <= k < |h.log| :: h.log[k] in item && h.log[k] == At(g, Allocated(item, h.log[..k])))
    && (forall j, k | 0 <= j < k < |h.log| :: h.log[j] != h.log[k])
  }

  ghost predicate SegsOk(item: map<Ptr, Item>, seg: seq<Seg>) {
    forall g | 0 <= g < |seg| :: SegOk(item, seg[g], g)
  }

  predicate LoggedIn(seg: seq<Seg>, p: Ptr) { p.At? && p.seg < |seg| && p in seg[p.seg].log }

  /** Every item is on the log of its segment. */
  ghost predicate Logged(item: map<Ptr, Item>, seg: seq<Seg>) {
    forall p | p in item :: LoggedIn(seg, p)
  }

  ghost predicate SegInv(item: map<Ptr, Item>, seg: seq<Seg>) { SegsOk(item, seg) && Logged(item, seg) }

  ghost predicate Inv(s: State) {
    TableInv(s) && RefInv(s.item, s.tbl, s.queue, s.held) && SegInv(s.item, s.seg)
  }

  // ---------------------------------------------------------------------------
  // Sums over a log

  lemma {:induction false} SameAllocated(item: map<Ptr, Item>, item': map<Ptr, Item>, log: seq<Ptr>)
    requires forall k | 0 <= k < |log| :: SizeAt(item, log[k]) == SizeAt(item', log[k])
    ensures Allocated(item, log) == Allocated(item', log)
  {
    if log != [] { SameAllocated(item, item', log[..|log| - 1]); }
  }

  lemma {:induction false} SameLive(item: map<Ptr, Item>, item': map<Ptr, Item>, log: seq<Ptr>)
    requires forall k | 0 <= k < |log| :: LiveAt(item, log[k]) == LiveAt(item', log[k])
    ensures Live(item, log) == Live(item', log)
  {
    if log != [] { SameLive(item, item', log[..|log| - 1]); }
  }

  /** One item of the log dies. */
  lemma {:induction false} LiveDrop(item: map<Ptr, Item>, item': map<Ptr, Item>, log: seq<Ptr>, p: Ptr)
    requires p in log && (forall j, k | 0 <= j < k < |log| :: log[j] != log[k])
    requires forall q | q != p :: LiveAt(item, q) == LiveAt(item', q)
    ensures Live(item, log) + LiveAt(item', p) == Live(item', log) + LiveAt(item, p)
  {
    var n := |log| - 1;
    if log[n] == p {
      SameLive(item, item', log[..n]);
    } else {
      LiveDrop(item, item', log[..n], p);
    }
  }

  lemma {:induction false} LiveBelow(item: map<Ptr, Item>, log: seq<Ptr>)
    ensures Live(item, log) <= Allocated(item, log)
    ensures Live(item, log) == 0 ==> forall k | 0 <= k < |log| :: LiveAt(item, log[k]) == 0
  {
    if log != [] { LiveBelow(item, log[..|log| - 1]); }
  }

  // ---------------------------------------------------------------------------
  // Keeping the accounts

  /** Neither sizes nor the set of live items changes. */
  predicate SameLife(item: map<Ptr, Item>, item': map<Ptr, Item>) {
    item.Keys == item'.Keys
    && forall p | p in item :: TotalSize(item'[p]) == TotalSize(item[p]) && (item'[p].refs > 0 <==> item[p].refs > 0)
  }

  lemma SegKeep(item: map<Ptr, Item>, item': map<Ptr, Item>, seg: seq<Seg>)
    requires SegsOk(item, seg) && SameLife(item, item')
    ensures SegsOk(item', seg)
  {
    forall g | 0 <= g < |seg| ensures SegOk(item', seg[g], g) {
      assert SegOk(item, seg[g], g);
      SegOkKeep(item, item', seg[g], g);
    }
  }

  /** Items lie one after the other as long as their sizes stay. */
  lemma PlacesKeep(item: map<Ptr, Item>, item': map<Ptr, Item>, log: seq<Ptr>, g: nat)
    requires forall k | 0 <= k < |log| :: SizeAt(item, log[k]) == SizeAt(item', log[k])
    requires forall k | 0 <= k < |log| :: log[k] == At(g, Allocated(item, log[..k]))
    ensures forall k | 0 <= k < |log| :: log[k] == At(g, Allocated(item', log[..k]))
  {
    forall k | 0 <= k < |log| ensures log[k] == At(g, Allocated(item', log[..k])) {
      SameAllocated(item, item', log[..k]);
    }
  }

  lemma SegOkKeep(item: map<Ptr, Item>, item': map<Ptr, Item>, h: Seg, g: nat)
    requires SegOk(item, h, g) && forall k | 0 <= k < |h.log| :: h.log[k] in item'
    requires forall k | 0 <= k < |h.log| ::
      SizeAt(item, h.log[k]) == SizeAt(item', h.log[k]) && LiveAt(item, h.log[k]) == LiveAt(item', h.log[k])
    ensures SegOk(item', h, g)
  {
    SameAllocated(item, item', h.log);
    SameLive(item, item', h.log);
    PlacesKeep(item, item', h.log, g);
  }

  lemma SegOkDies(item: map<Ptr, Item>, item': map<Ptr, Item>, h: Seg, g: nat, p: Ptr)
    requires SegOk(item, h, g) && p in h.log && p in item && item[p].refs > 0 && item' == item[p := item[p].(refs := 0)]
    ensures SegOk(item', h.(freed := h.freed + TotalSize(item[p])), g)
  {
    SameAllocated(item, item', h.log);
    LiveDrop(item, item', h.log, p);
    PlacesKeep(item, item', h.log, g);
  }

  /** Items of another segment are not on this one's log. */
  lemma OtherLog(item: map<Ptr, Item>, h: Seg, g: nat, p: Ptr)
    requires SegOk(item, h, g) && p.At? && p.seg != g
    ensures p !in h.log
  {}

  /** An item loses its last reference and its bytes count as freed. */
  lemma SegDies(item: map<Ptr, Item>, item': map<Ptr, Item>, seg: seq<Seg>, p: Ptr)
    requires SegsOk(item, seg) && LoggedIn(seg, p) && p in item && item[p].refs > 0
    requires item' == item[p := item[p].(refs := 0)]
    ensures SegsOk(item', FreeBytes(seg, p, TotalSize(item[p])))
  {
    var seg' := FreeBytes(seg, p, TotalSize(item[p]));
    forall g | 0 <= g < |seg'| ensures SegOk(item', seg'[g], g) {
      assert SegOk(item, seg[g], g);
      if g == p.seg {
        SegOkDies(item, item', seg[g], g, p);
      } else {
        OtherLog(item, seg[g], g, p);
        SegOkKeep(item, item', seg[g], g);
      }
    }
  }

  // ---------------------------------------------------------------------------
  // Counting references

  lemma RefSame(item: map<Ptr, Item>, item': map<Ptr, Item>, tbl: map<Key, Ptr>, p: Ptr)
    requires SameContents(item, item')
    ensures InMap(item', tbl, p) == InMap(item, tbl, p)
  {}

  /** Counts move with the references outside the table. */
  lemma RefMove(item: map<Ptr, Item>, item': map<Ptr, Item>, tbl: map<Key, Ptr>, queue: seq<Ptr>, held: multiset<Ptr>,
                queue': seq<Ptr>, held': multiset<Ptr>)
    requires RefInv(item, tbl, queue, held) && SameContents(item, item')
    requires forall p :: Refs(item', p) + multiset(queue)[p] + held[p] == Refs(item, p) + multiset(queue')[p] + held'[p]
    ensures RefInv(item', tbl, queue', held')
  {
    forall p ensures Refs(item', p) == InMap(item', tbl, p) + multiset(queue')[p] + held'[p] {
      RefSame(item, item', tbl, p);
    }
  }

  // ---------------------------------------------------------------------------
  // Operations on one item

  lemma AddRefChanges(item: map<Ptr, Item>, p: Ptr)
    requires p in item && item[p].refs > 0
    ensures SameLinks(item, AddRef(item, p)) && SameContents(item, AddRef(item, p)) && SameLife(item, AddRef(item, p))
    ensures forall q :: Refs(AddRef(item, p), q) == Refs(item, q) + (if q == p then 1 else 0)
  {}

  /** One more reference to a live item, held by a caller or by the queue. */
  lemma AddRefKeeps(s: State, p: Ptr, queue: seq<Ptr>, held: multiset<Ptr>)
    requires Inv(s) && p in s.item && s.item[p].refs > 0
    requires forall q :: multiset(queue)[q] + held[q] == multiset(s.queue)[q] + s.held[q] + (if q == p then 1 else 0)
    ensures Inv(s.(item := AddRef(s.item, p), queue := queue, held := held))
  {
    var t := s.(item := AddRef(s.item, p), queue := queue, held := held);
    AddRefChanges(s.item, p);
    TableKeep(s, t);
    SegKeep(s.item, t.item, s.seg);
    RefMove(s.item, t.item, s.tbl, s.queue, s.held, queue, held);
  }

  lemma UnrefChanges(s: State, p: Ptr)
    requires CanUnref(s, p)
    ensures SameContents(s.item, Unref(s, p).item) && SameLinks(s.item, Unref(s, p).item)
    ensures forall q :: Refs(Unref(s, p).item, q) == Refs(s.item, q) - (if q == p then 1 else 0)
  {}

  lemma UnrefLast(s: State, p: Ptr)
    requires SegsOk(s.item, s.seg) && LoggedIn(s.seg, p) && p in s.item && s.item[p].refs == 1
    ensures SegsOk(Unref(s, p).item, Unref(s, p).seg)
  {
    var it := s.item[p].(refs := 0);
    assert Unref(s, p) == s.(item := s.item[p := it], seg := FreeBytes(s.seg, p, TotalSize(s.item[p])));
    SegDies(s.item, s.item[p := it], s.seg, p);
  }

  lemma UnrefShared(s: State, p: Ptr)
    requires SegsOk(s.item, s.seg) && LoggedIn(s.seg, p) && p in s.item && s.item[p].refs > 1
    ensures SegsOk(Unref(s, p).item, Unref(s, p).seg)
  {
    var item' := s.item[p := s.item[p].(refs := s.item[p].refs - 1)];
    assert Unref(s, p) == s.(item := item');
    SegKeep(s.item, item', s.seg);
  }

  /** The item stays while others hold a reference, and is accounted as freed when none is
      left. */
  lemma UnrefSegKeeps(s: State, p: Ptr)
    requires SegInv(s.item, s.seg) && p in s.item && s.item[p].refs > 0
    ensures CanUnref(s, p) && SegInv(Unref(s, p).item, Unref(s, p).seg)
  {
    var t := Unref(s, p);
    assert LoggedIn(s.seg, p);
    UnrefChanges(s, p);
    UnrefLogs(s, p);
    LoggedKeep(s.item, t.item, s.seg, t.seg);
    if s.item[p].refs == 1 { UnrefLast(s, p); } else { UnrefShared(s, p); }
  }

  lemma UnrefLogs(s: State, p: Ptr)
    ensures var t := Unref(s, p); |t.seg| == |s.seg| && forall g | 0 <= g < |s.seg| :: t.seg[g].log == s.seg[g].log
  {}

  lemma LoggedKeep(item: map<Ptr, Item>, item': map<Ptr, Item>, seg: seq<Seg>, seg': seq<Seg>)
    requires Logged(item, seg) && item'.Keys == item.Keys
    requires |seg'| == |seg| && forall g | 0 <= g < |seg| :: seg'[g].log == seg[g].log
    ensures Logged(item', seg')
  {
    forall p | p in item' ensures LoggedIn(seg', p) {
      assert LoggedIn(seg, p);
    }
  }

  /** Giving up a reference that the queue or a caller holds. */
  lemma GiveUpKeeps(s: State, p: Ptr, queue: seq<Ptr>, held: multiset<Ptr>)
    requires Inv(s) && p in s.item && s.item[p].refs > 0
    requires forall q :: multiset(queue)[q] + held[q] + (if q == p then 1 else 0) == multiset(s.queue)[q] + s.held[q]
    ensures Inv(Unref(s, p).(queue := queue, held := held))
  {
    UnrefSegKeeps(s, p);
    UnrefChanges(s, p);
    UnrefElse(s, p);
    var u := Unref(s, p);
    var t := u.(queue := queue, held := held);
    TableKeep(s, t);
    RefMove(s.item, u.item, s.tbl, s.queue, s.held, queue, held);
  }

  lemma UnrefElse(s: State, p: Ptr)
    ensures var t := Unref(s, p);
      t.bucket == s.bucket && t.chain == s.chain && t.tbl == s.tbl && t.queue == s.queue && t.held == s.held
  {}

  lemma HeldIsLive(s: State, p: Ptr)
    requires Inv(s) && (s.held[p] > 0 || p in s.queue)
    ensures p in s.item && s.item[p].refs > 0
  {
    assert Refs(s.item, p) == InMap(s.item, s.tbl, p) + multiset(s.queue)[p] + s.held[p];
  }

  lemma MappedIsLive(s: State, p: Ptr)
    requires Inv(s) && Mapped(s.item, s.tbl, p)
    ensures p in s.item && s.item[p].refs > 0
  {
    assert Refs(s.item, p) == InMap(s.item, s.tbl, p) + multiset(s.queue)[p] + s.held[p];
  }

  /** A caller lets go. */
  lemma ReleaseKeeps(s: State, p: Ptr)
    requires Inv(s) && s.held[p] > 0
    ensures Inv(Release(s, p))
  {
    HeldIsLive(s, p);
    UnrefElse(s, p);
    GiveUpKeeps(s, p, s.queue, s.held - multiset{p});
  }

  /** A lookup that finds an item gives the caller a reference. */
  lemma GetKeeps(s: State, hv: nat, key: Bytes)
    requires Inv(s)
    ensures Inv(Get(s, hv, key))
  {
    FindIsLookup(s, hv, key);
    var p := Find(s, hv, key);
    if p != Null {
      MappedIsLive(s, p);
      AddRefKeeps(s, p, s.queue, s.held + multiset{p});
    }
  }

  /** The scan takes a reference to every item that still has one. */
  lemma EnqueueKeeps(s: State, p: Ptr)
    requires Inv(s)
    ensures Inv(Enqueue(s, p))
  {
    if p in s.item && s.item[p].refs > 0 {
      OneMoreQueued(s.queue, p, s.held);
      AddRefKeeps(s, p, s.queue + [p], s.held);
    }
  }

  lemma OneMoreQueued(queue: seq<Ptr>, p: Ptr, held: multiset<Ptr>)
    ensures forall q :: multiset(queue + [p])[q] + held[q] == multiset(queue)[q] + held[q] + (if q == p then 1 else 0)
  {}

  // ---------------------------------------------------------------------------
  // Put

  /** How the table's references change when nit takes over its key. */
  function Delta(item: map<Ptr, Item>, tbl: map<Key, Ptr>, nit: Ptr, p: Ptr): int
    requires nit in item
  {
    (if p == nit then 1 else 0) - (if Mapped(item, tbl, p) && KeyOf(item[p]) == KeyOf(item[nit]) then 1 else 0)
  }

  lemma InMapAfter(item: map<Ptr, Item>, tbl: map<Key, Ptr>, item': map<Ptr, Item>, tbl': map<Key, Ptr>, nit: Ptr,
    p: Ptr)
    requires TakenOver(item, tbl, item', tbl', nit) && !Mapped(item, tbl, nit)
    ensures InMap(item', tbl', p) == InMap(item, tbl, p) + Delta(item, tbl, nit, p)
  {
    if p in item { assert KeyOf(item'[p]) == KeyOf(item[p]); }
  }

  ghost predicate RefsFollow(item: map<Ptr, Item>, tbl: map<Key, Ptr>, item': map<Ptr, Item>, nit: Ptr)
    requires nit in item
  {
    forall p :: Refs(item', p) == Refs(item, p) + Delta(item, tbl, nit, p)
  }

  /** The reference of the item that leaves the table goes with it. */
  lemma RefPut(item: map<Ptr, Item>, tbl: map<Key, Ptr>, item': map<Ptr, Item>, tbl': map<Key, Ptr>, nit: Ptr,
               queue: seq<Ptr>, held: multiset<Ptr>)
    requires RefInv(item, tbl, queue, held) && TakenOver(item, tbl, item', tbl', nit) && !Mapped(item, tbl, nit)
    requires RefsFollow(item, tbl, item', nit)
    ensures RefInv(item', tbl', queue, held)
  {
    forall p ensures Refs(item', p) == InMap(item', tbl', p) + multiset(queue)[p] + held[p] {
      InMapAfter(item, tbl, item', tbl', nit, p);
    }
  }

  lemma OneMoreRefLives(item: map<Ptr, Item>, item': map<Ptr, Item>, nit: Ptr)
    requires OneMoreRef(item, item', nit) && nit in item && item[nit].refs > 0
    ensures SameLife(item, item')
  {
    forall p | p in item
      ensures TotalSize(item'[p]) == TotalSize(item[p]) && (item'[p].refs > 0 <==> item[p].refs > 0)
    {
      assert KeyOf(item'[p]) == KeyOf(item[p]);
    }
  }

  lemma PutBareSegKeeps(s: State, nit: Ptr)
    requires Inv(s) && CanPut(s, nit) && s.item[nit].refs > 0
    ensures SegInv(PutBare(s, nit).item, PutBare(s, nit).seg)
  {
    PutBareContents(s, nit);
    OneMoreRefLives(s.item, PutBare(s, nit).item, nit);
    SegKeep(s.item, PutBare(s, nit).item, s.seg);
  }

  /** The state after a put that takes effect. */
  ghost function PutDone(s: State, nit: Ptr): State
    requires TableInv(s) && nit in s.item
  {
    var k := KeyOf(s.item[nit]);
    if k in s.tbl then Unref(PutBare(s, nit), s.tbl[k]) else PutBare(s, nit)
  }

  lemma RefsFollowBare(item: map<Ptr, Item>, tbl: map<Key, Ptr>, item': map<Ptr, Item>, nit: Ptr)
    requires nit in item && OneMoreRef(item, item', nit) && KeyOf(item[nit]) !in tbl
    ensures RefsFollow(item, tbl, item', nit)
  {}

  lemma RefsFollowReplaced(item: map<Ptr, Item>, tbl: map<Key, Ptr>, bare: map<Ptr, Item>, item': map<Ptr, Item>,
    nit: Ptr)
    requires nit in item && OneMoreRef(item, bare, nit) && KeyOf(item[nit]) in tbl
    requires var it := tbl[KeyOf(item[nit])];
      it in item && KeyOf(item[it]) == KeyOf(item[nit]) && forall q ::
        Refs(item', q) == Refs(bare, q) - (if q == it then 1 else 0)
    ensures RefsFollow(item, tbl, item', nit)
  {}

  lemma PutDoneSegKeeps(s: State, nit: Ptr)
    requires Inv(s) && CanPut(s, nit) && s.item[nit].refs > 0
    ensures SegInv(PutDone(s, nit).item, PutDone(s, nit).seg)
  {
    PutBareContents(s, nit);
    PutBareSegKeeps(s, nit);
    var k := KeyOf(s.item[nit]);
    if k in s.tbl {
      MappedIsLive(s, s.tbl[k]);
      UnrefSegKeeps(PutBare(s, nit), s.tbl[k]);
    }
  }

  lemma PutDoneRefs(s: State, nit: Ptr)
    requires Inv(s) && CanPut(s, nit) && s.item[nit].refs > 0
    ensures RefsFollow(s.item, s.tbl, PutDone(s, nit).item, nit)
  {
    var u := PutBare(s, nit);
    PutBareContents(s, nit);
    var k := KeyOf(s.item[nit]);
    if k in s.tbl {
      MappedIsLive(s, s.tbl[k]);
      PutBareSegKeeps(s, nit);
      assert LoggedIn(u.seg, s.tbl[k]);
      UnrefChanges(u, s.tbl[k]);
      RefsFollowReplaced(s.item, s.tbl, u.item, PutDone(s, nit).item, nit);
    } else {
      RefsFollowBare(s.item, s.tbl, u.item, nit);
    }
  }

  /** A put, plain or compare-and-set, keeps every count right. */
  lemma PutKeeps(s: State, nit: Ptr, cas: Ptr)
    requires Inv(s) && CanPut(s, nit) && s.item[nit].refs > 0
    ensures Inv(Put(s, nit, cas))
  {
    PutRefinesMap(s, nit, cas);
    PutIs(s, nit, cas);
    if TakesEffect(s, nit, cas) {
      PutDoneSegKeeps(s, nit);
      PutDoneRefs(s, nit);
      PutBareContents(s, nit);
      if KeyOf(s.item[nit]) in s.tbl { UnrefElse(PutBare(s, nit), s.tbl[KeyOf(s.item[nit])]); }
      var t := PutDone(s, nit);
      RefPut(s.item, s.tbl, t.item, t.tbl, nit, s.queue, s.held);
    }
  }
}
