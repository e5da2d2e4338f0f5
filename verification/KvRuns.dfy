/** Every run of the store behaves as a map from keys to values. */
module KvRuns {
  import opened KvState
  import opened KvTable
  import opened KvLog
  import opened KvStore
  import opened KvClean

  /** Client requests, the maintenance thread and the cleaner.  Which segment an allocation goes
      to is the allocator's business and is left open. */
  datatype Op =
    | Lookup(hv: nat, key: Bytes)
    | Set(hv: nat, key: Bytes, val: Bytes, to: nat)
    | LetGo(p: Ptr)
    | Scan(p: Ptr)
    | Clean(to: nat)
    | GiveUpTail(seg: nat)
    | Reuse(seg: nat)
    | NewSegment(size: nat)

  ghost predicate Allowed(s: State, op: Op) {
    match op
    case Lookup(_, _) => true
    case Set(_, key, val, g) => Fits(s.seg, g, HEADER + |key| + |val|)
    case LetGo(p) => s.held[p] > 0
    case Scan(_) => true
    case Clean(g) =>
      s.queue != [] && s.queue[0] in s.item &&
      (s.item[s.queue[0]].refs != 1 ==> Fits(s.seg, g, TotalSize(s.item[s.queue[0]])))
    case GiveUpTail(g) => g < |s.seg| && !s.seg[g].filled
    case Reuse(g) => g < |s.seg| && s.seg[g].freed == s.seg[g].size
    case NewSegment(_) => true
  }

  /** A set request: a new item, put under its key, and the request's own reference dropped. */
  ghost function SetKey(s: State, hv: nat, key: Bytes, val: Bytes, g: nat): (t: State)
    requires Inv(s) && Fits(s.seg, g, HEADER + |key| + |val|)
    ensures Inv(t)
  {
    AllocKeeps(s, g, hv, key, val);
    var s1, nit := Alloc(s, g, hv, key, val), NextAddress(s, g);
    PutKeeps(s1, nit, Null);
    PutHeld(s1, nit, Null);
    var s2 := Put(s1, nit, Null);
    ReleaseKeeps(s2, nit);
    Release(s2, nit)
  }

  ghost function LookUp(s: State, hv: nat, key: Bytes): (t: State)
    requires Inv(s)
    ensures Inv(t)
  {
    GetKeeps(s, hv, key);
    Get(s, hv, key)
  }

  ghost function GiveBack(s: State, p: Ptr): (t: State)
    requires Inv(s) && s.held[p] > 0
    ensures Inv(t)
  {
    ReleaseKeeps(s, p);
    Release(s, p)
  }

  ghost function CleanNext(s: State, g: nat): (t: State)
    requires Inv(s) && Allowed(s, Clean(g))
    ensures Inv(t)
  {
    CleanOneKeeps(s, g);
    CleanOne(s, g)
  }

  /** What the maintenance thread and the allocator do to segments and to the queue. */
  ghost function Maintained(s: State, op: Op): (t: State)
    requires Inv(s) && Allowed(s, op) && (op.Scan? || op.GiveUpTail? || op.Reuse? || op.NewSegment?)
    ensures Inv(t)
  {
    match op
    case Scan(p) => EnqueueKeeps(s, p); Enqueue(s, p)
    case GiveUpTail(g) => FillKeeps(s, g); Fill(s, g)
    case Reuse(g) => RecycleKeeps(s, g); Recycle(s, g)
    case NewSegment(size) => AddSegmentKeeps(s, size); AddSegment(s, size)
  }

  ghost function Next(s: State, op: Op): (t: State)
    requires Inv(s) && Allowed(s, op)
    ensures Inv(t)
  {
    match op
    case Lookup(hv, key) => LookUp(s, hv, key)
    case Set(hv, key, val, g) => SetKey(s, hv, key, val, g)
    case LetGo(p) => GiveBack(s, p)
    case Clean(g) => CleanNext(s, g)
    case _ => Maintained(s, op)
  }

  // ---------------------------------------------------------------------------
  // The map the store stands for

  ghost function Abstract(s: State): map<Key, Bytes>
    requires TblInv(s.item, s.tbl)
  {
    map k | k in s.tbl :: s.item[s.tbl[k]].val
  }

  /** Only a set request changes the map, and only at its key. */
  function AbstractNext(m: map<Key, Bytes>, op: Op): map<Key, Bytes> {
    if op.Set? then m[Key(op.hv, op.key) := op.val] else m
  }

  lemma SameStoreSameMap(s: State, t: State)
    requires TblInv(s.item, s.tbl) && TblInv(t.item, t.tbl) && SameStore(s, t)
    ensures Abstract(s) == Abstract(t)
  {
    var m, n := Abstract(s), Abstract(t);
    forall k | k in m ensures k in n && n[k] == m[k] {
      assert Stores(s.item, s.tbl, k, m[k]);
      assert Stores(t.item, t.tbl, k, m[k]);
    }
    forall k | k in n ensures k in m {
      assert Stores(t.item, t.tbl, k, n[k]);
      assert Stores(s.item, s.tbl, k, n[k]);
    }
  }

  lemma PutMap(item: map<Ptr, Item>, tbl: map<Key, Ptr>, item': map<Ptr, Item>, nit: Ptr, k: Key, val: Bytes)
    requires TblInv(item, tbl) && SameContents(item, item') && nit in item && item[nit].val == val
    ensures forall j, v ::
      Stores(item', tbl[k := nit], j, v) <==> (if j == k then v == val else Stores(item, tbl, j, v))
  {
    forall j, v ensures Stores(item', tbl[k := nit], j, v) <==> (if j == k then v == val else Stores(item, tbl, j, v)) {
      if j != k && j in tbl { assert item'[tbl[j]].val == item[tbl[j]].val; }
    }
  }

  lemma SetStores(s: State, hv: nat, key: Bytes, val: Bytes, g: nat)
    requires Inv(s) && Fits(s.seg, g, HEADER + |key| + |val|)
    ensures var t := SetKey(s, hv, key, val, g);
      forall j, v ::
        Stores(t.item, t.tbl, j, v) <==> (if j == Key(hv, key) then v == val else Stores(s.item, s.tbl, j, v))
  {
    AllocKeeps(s, g, hv, key, val);
    AllocSame(s, g, hv, key, val);
    var s1, nit := Alloc(s, g, hv, key, val), NextAddress(s, g);
    PutKeeps(s1, nit, Null);
    PutHeld(s1, nit, Null);
    PutRefinesMap(s1, nit, Null);
    var s2 := Put(s1, nit, Null);
    PutMap(s1.item, s1.tbl, s2.item, nit, Key(hv, key), val);
    ReleaseSame(s2, nit);
    SameTable(s2, Release(s2, nit));
    StoresThrough(s, s1, s2, Release(s2, nit), Key(hv, key), val);
  }

  lemma StoresThrough(s: State, s1: State, s2: State, t: State, k: Key, val: Bytes)
    requires SameStore(s, s1) && SameStore(s2, t)
    requires forall j, v ::
      Stores(s2.item, s2.tbl, j, v) <==> (if j == k then v == val else Stores(s1.item, s1.tbl, j, v))
    ensures forall j, v :: Stores(t.item, t.tbl, j, v) <==> (if j == k then v == val else Stores(s.item, s.tbl, j, v))
  {
    forall j, v ensures Stores(t.item, t.tbl, j, v) <==> (if j == k then v == val else Stores(s.item, s.tbl, j, v)) {
      assert Stores(s2.item, s2.tbl, j, v) <==> Stores(t.item, t.tbl, j, v);
      assert Stores(s.item, s.tbl, j, v) <==> Stores(s1.item, s1.tbl, j, v);
    }
  }

  lemma SetRefines(s: State, hv: nat, key: Bytes, val: Bytes, g: nat)
    requires Inv(s) && Fits(s.seg, g, HEADER + |key| + |val|)
    ensures Abstract(SetKey(s, hv, key, val, g)) == Abstract(s)[Key(hv, key) := val]
  {
    SetStores(s, hv, key, val, g);
    var t, k := SetKey(s, hv, key, val, g), Key(hv, key);
    UpdatedMap(s, t, k, val);
  }

  lemma UpdatedMap(s: State, t: State, k: Key, val: Bytes)
    requires TblInv(s.item, s.tbl) && TblInv(t.item, t.tbl)
    requires forall j, v :: Stores(t.item, t.tbl, j, v) <==> (if j == k then v == val else Stores(s.item, s.tbl, j, v))
    ensures Abstract(t) == Abstract(s)[k := val]
  {
    var m, n := Abstract(s)[k := val], Abstract(t);
    forall j | j in m ensures j in n && n[j] == m[j] {
      assert j != k ==> Stores(s.item, s.tbl, j, m[j]);
      assert Stores(t.item, t.tbl, j, m[j]);
    }
    forall j | j in n ensures j in m {
      assert Stores(t.item, t.tbl, j, n[j]);
    }
  }

  // ---------------------------------------------------------------------------
  // Runs

  lemma LookupSame(s: State, hv: nat, key: Bytes)
    requires WellShaped(s)
    ensures SameStore(s, Get(s, hv, key))
  {
    SameTable(s, Get(s, hv, key));
  }

  lemma ScanSame(s: State, p: Ptr)
    ensures SameStore(s, Enqueue(s, p))
  {
    SameTable(s, Enqueue(s, p));
  }

  lemma LetGoSame(s: State, p: Ptr)
    requires Inv(s) && s.held[p] > 0
    ensures SameStore(s, Release(s, p))
  {
    ReleaseSame(s, p);
    SameTable(s, Release(s, p));
  }

  lemma NextSame(s: State, op: Op)
    requires Inv(s) && Allowed(s, op) && !op.Set?
    ensures SameStore(s, Next(s, op))
  {
    match op
    case Lookup(hv, key) => LookupSame(s, hv, key);
    case LetGo(p) => LetGoSame(s, p);
    case Scan(p) => ScanSame(s, p);
    case Clean(g) => CleanOneKeeps(s, g);
    case GiveUpTail(g) => FillKeeps(s, g); SegmentsSame(s, Fill(s, g).seg);
    case Reuse(g) => RecycleSame(s, g);
    case NewSegment(size) => SegmentsSame(s, AddSegment(s, size).seg);
  }

  /** Every operation does to the map what its name says. */
  lemma NextRefines(s: State, op: Op)
    requires Inv(s) && Allowed(s, op)
    ensures Abstract(Next(s, op)) == AbstractNext(Abstract(s), op)
  {
    if op.Set? {
      SetRefines(s, op.hv, op.key, op.val, op.to);
    } else {
      NextSame(s, op);
      SameStoreSameMap(s, Next(s, op));
    }
  }

  /** A lookup returns the item that holds the map's value, or nothing if the map has none. */
  lemma LookupReturns(s: State, hv: nat, key: Bytes)
    requires Inv(s)
    ensures var p := Find(s, hv, key); var k := Key(hv, key);
      if k in Abstract(s) then p in s.item && KeyOf(s.item[p]) == k && s.item[p].val == Abstract(s)[k] else p == Null
  {
    FindIsLookup(s, hv, key);
  }

  /** n empty buckets and no segments. */
  function Init(n: nat): State {
    State(map[], seq(n, i => Bucket([Null, Null, Null, Null, Null], [0, 0, 0, 0, 0])), seq(n, i => []),
          map[], [], [], multiset{})
  }

  lemma InitIsGood(n: nat)
    requires n > 0
    ensures Inv(Init(n)) && Abstract(Init(n)) == map[]
  {
    var s := Init(n);
    forall b, p | 0 <= b < n && p != Null
      ensures multiset(Entries(s.bucket[b], s.chain[b]))[p] == Belongs(s.item, s.tbl, n, b, p)
    {
      assert Entries(s.bucket[b], s.chain[b]) == [Null, Null, Null, Null, Null];
    }
  }

  ghost predicate Possible(s: State, run: seq<Op>)
    requires Inv(s)
    decreases |run|
  {
    run == [] || (Allowed(s, run[0]) && Possible(Next(s, run[0]), run[1..]))
  }

  ghost function After(s: State, run: seq<Op>): (t: State)
    requires Inv(s) && Possible(s, run)
    ensures Inv(t)
    decreases |run|
  {
    if run == [] then s else After(Next(s, run[0]), run[1..])
  }

  function AbstractAfter(m: map<Key, Bytes>, run: seq<Op>): map<Key, Bytes>
    decreases |run|
  {
    if run == [] then m else AbstractAfter(AbstractNext(m, run[0]), run[1..])
  }

  /** After any run, whatever the segments, the cleaner and the maintenance thread did in
      between, the store holds what the set requests of the run say. */
  lemma {:induction false} RunRefinesMap(s: State, run: seq<Op>)
    requires Inv(s) && Possible(s, run)
    ensures Abstract(After(s, run)) == AbstractAfter(Abstract(s), run)
    decreases |run|
  {
    if run != [] {
      NextRefines(s, run[0]);
      RunRefinesMap(Next(s, run[0]), run[1..]);
    }
  }
}
