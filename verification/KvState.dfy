/** The key-value store: items in a segmented log, a bucketed hash table with overflow chains,
    reference counts and a cleanup queue, and each operation as a function on the whole. */
module KvState {

  type Byte = x: int | 0 <= x < 0x100
  type Bytes = seq<Byte>

  /** sizeof(struct item) */
  const HEADER: nat := 24
  const BUCKET_NITEMS: nat := 5

  /** An address inside the segments: which segment and how far into it. */
  datatype Ptr = Null | At(seg: nat, off: nat)

  datatype Item = Item(next: Ptr, hv: nat, key: Bytes, val: Bytes, refs: nat)

  datatype Key = Key(hv: nat, key: Bytes)

  datatype Bucket = Bucket(items: seq<Ptr>, hashes: seq<nat>)

  /** A segment; `log` lists what was allocated in it, in order, and `filled` says that its
      tail was given up.  Neither is in the program. */
  datatype Seg = Seg(size: nat, offset: nat, freed: nat, filled: bool, log: seq<Ptr>)

  /** `chain` (what hangs off the last slot of each bucket), `tbl` (what the table means) and
      `held` (references in the hands of callers) are not in the program either. */
  datatype State = State(
    item: map<Ptr, Item>,
    bucket: seq<Bucket>,
    chain: seq<seq<Ptr>>,
    tbl: map<Key, Ptr>,
    seg: seq<Seg>,
    queue: seq<Ptr>,
    held: multiset<Ptr>)

  function TotalSize(it: Item): nat { HEADER + |it.key| + |it.val| }

  function KeyOf(it: Item): Key { Key(it.hv, it.key) }

  predicate Matches(it: Item, hv: nat, key: Bytes) { it.hv == hv && it.key == key }

  // ---------------------------------------------------------------------------
  // References

  function AddRef(item: map<Ptr, Item>, p: Ptr): map<Ptr, Item>
    requires p in item
  {
    item[p := item[p].(refs := item[p].refs + 1)]
  }

  /** ialloc_free: the bytes of a dead item count as freed. */
  function FreeBytes(seg: seq<Seg>, p: Ptr, bytes: nat): seq<Seg>
    requires p.At? && p.seg < |seg|
  {
    seg[p.seg := seg[p.seg].(freed := seg[p.seg].freed + bytes)]
  }

  /** What item_unref asserts, and that the item lies in a segment. */
  predicate CanUnref(s: State, p: Ptr) {
    p in s.item && s.item[p].refs > 0 && p.At? && p.seg < |s.seg|
  }

  /** item_unref */
  function Unref(s: State, p: Ptr): State {
    if !CanUnref(s, p) then s
    else
      var it := s.item[p].(refs := s.item[p].refs - 1);
      var s1 := s.(item := s.item[p := it]);
      if it.refs == 0 then s1.(seg := FreeBytes(s.seg, p, TotalSize(it))) else s1
  }

  // ---------------------------------------------------------------------------
  // Segments

  function FreshSeg(size: nat): Seg { Seg(size, 0, 0, false, []) }

  predicate Fits(seg: seq<Seg>, g: nat, total: nat) {
    g < |seg| && !seg[g].filled && seg[g].offset + total <= seg[g].size
  }

  /** segment_item_alloc with room, and the caller writing the item: one reference, its own. */
  function Alloc(s: State, g: nat, hv: nat, key: Bytes, val: Bytes): State
    requires Fits(s.seg, g, HEADER + |key| + |val|)
  {
    var p, it := At(g, s.seg[g].offset), Item(Null, hv, key, val, 1);
    s.(item := s.item[p := it],
       seg := s.seg[g := Appended(s.seg[g], p, TotalSize(it))],
       held := s.held + multiset{p})
  }

  function Appended(h: Seg, p: Ptr, total: nat): Seg {
    h.(offset := h.offset + total, log := h.log + [p])
  }

  /** segment_item_alloc without room: the tail is given up and counts as freed. */
  function Fill(s: State, g: nat): State
    requires g < |s.seg| && s.seg[g].offset <= s.seg[g].size
  {
    s.(seg := s.seg[g := Filled(s.seg[g])])
  }

  function Filled(h: Seg): Seg
    requires h.offset <= h.size
  {
    h.(offset := h.size, freed := h.freed + (h.size - h.offset), filled := true)
  }

  /** ialloc_maintenance finding every byte freed, and the segment being handed out again. */
  function Recycle(s: State, g: nat): State
    requires g < |s.seg|
  {
    s.(seg := s.seg[g := FreshSeg(s.seg[g].size)],
       item := map p | p in s.item && !(p.At? && p.seg == g) :: s.item[p])
  }

  // ---------------------------------------------------------------------------
  // The table

  /** The first direct slot from i on that holds the key, or BUCKET_NITEMS. */
  function FindDirect(item: map<Ptr, Item>, b: Bucket, hv: nat, key: Bytes, i: nat): (r: nat)
    requires i <= |b.items| == |b.hashes|
    ensures r <= |b.items|
    decreases |b.items| - i
  {
    if i == |b.items| then i
    else if b.items[i] != Null && b.hashes[i] == hv && b.items[i] in item && item[b.items[i]].key == key then i
    else FindDirect(item, b, hv, key, i + 1)
  }

  /** The first chained item with the key, or the length of the chain. */
  function FindChained(item: map<Ptr, Item>, chain: seq<Ptr>, hv: nat, key: Bytes): (r: nat)
    ensures r <= |chain|
  {
    if chain == [] then 0
    else if chain[0] in item && Matches(item[chain[0]], hv, key) then 0
    else 1 + FindChained(item, chain[1..], hv, key)
  }

  /** The last empty slot, or the last slot if none is empty. */
  function FreeSlot(items: seq<Ptr>, n: nat): (r: nat)
    requires n <= |items|
    ensures |items| > 0 ==> r < |items|
  {
    if n == 0 then (if |items| > 0 then |items| - 1 else 0)
    else if items[n - 1] == Null then n - 1
    else FreeSlot(items, n - 1)
  }

  predicate WellShaped(s: State) {
    && |s.bucket| > 0 && |s.chain| == |s.bucket|
    && forall b | 0 <= b < |s.bucket| :: |s.bucket[b].items| == |s.bucket[b].hashes| == BUCKET_NITEMS
  }

  function BucketOf(s: State, hv: nat): nat
    requires |s.bucket| > 0
  {
    hv % |s.bucket|
  }

  /** hasht_get */
  function Find(s: State, hv: nat, key: Bytes): Ptr
    requires WellShaped(s)
  {
    var b := BucketOf(s, hv);
    var i := FindDirect(s.item, s.bucket[b], hv, key, 0);
    if i < BUCKET_NITEMS then s.bucket[b].items[i]
    else
      var j := FindChained(s.item, s.chain[b], hv, key);
      if j < |s.chain[b]| then s.chain[b][j] else Null
  }

  function Get(s: State, hv: nat, key: Bytes): State
    requires WellShaped(s)
  {
    var p := Find(s, hv, key);
    if p == Null || p !in s.item then s
    else s.(item := AddRef(s.item, p), held := s.held + multiset{p})
  }

  function NextOf(item: map<Ptr, Item>, p: Ptr): Ptr { if p in item then item[p].next else Null }

  function SetNext(item: map<Ptr, Item>, p: Ptr, q: Ptr): map<Ptr, Item> {
    if p in item then item[p := item[p].(next := q)] else item
  }

  /** nit takes the place of the item in direct slot i. */
  function ReplaceDirect(s: State, b: nat, i: nat, nit: Ptr): State
    requires WellShaped(s) && b < |s.bucket| && i < BUCKET_NITEMS && nit in s.item
  {
    var next := NextOf(s.item, s.bucket[b].items[i]);
    s.(item := SetNext(AddRef(s.item, nit), nit, next),
       bucket := s.bucket[b := s.bucket[b].(items := s.bucket[b].items[i := nit])],
       tbl := s.tbl[KeyOf(s.item[nit]) := nit])
  }

  /** The item whose next pointer leads to position j of the chain. */
  function Before(b: Bucket, chain: seq<Ptr>, j: nat): Ptr
    requires |b.items| == BUCKET_NITEMS && j <= |chain|
  {
    if j == 0 then b.items[BUCKET_NITEMS - 1] else chain[j - 1]
  }

  /** nit takes the place of the chained item at position j. */
  function ReplaceChained(s: State, b: nat, j: nat, nit: Ptr): State
    requires WellShaped(s) && b < |s.bucket| && j < |s.chain[b]| && nit in s.item
  {
    var next := NextOf(s.item, s.chain[b][j]);
    s.(item := SetNext(SetNext(AddRef(s.item, nit), nit, next), Before(s.bucket[b], s.chain[b], j), nit),
       chain := s.chain[b := s.chain[b][j := nit]],
       tbl := s.tbl[KeyOf(s.item[nit]) := nit])
  }

  /** nit goes into slot i; what was there, if anything, becomes the head of the chain. */
  function Insert(s: State, b: nat, i: nat, nit: Ptr): State
    requires WellShaped(s) && b < |s.bucket| && i < BUCKET_NITEMS && nit in s.item
  {
    var was := s.bucket[b].items[i];
    s.(item := SetNext(AddRef(s.item, nit), nit, was),
       bucket := s.bucket[b := Bucket(s.bucket[b].items[i := nit], s.bucket[b].hashes[i := s.item[nit].hv])],
       chain := if was == Null then s.chain else s.chain[b := [was] + s.chain[b]],
       tbl := s.tbl[KeyOf(s.item[nit]) := nit])
  }

  /** hasht_put; cas is Null for a plain put. */
  function Put(s: State, nit: Ptr, cas: Ptr): State
    requires WellShaped(s) && nit in s.item
  {
    var hv, key := s.item[nit].hv, s.item[nit].key;
    var b := BucketOf(s, hv);
    var i := FindDirect(s.item, s.bucket[b], hv, key, 0);
    if i < BUCKET_NITEMS then
      var it := s.bucket[b].items[i];
      if cas != Null && cas != it then s
      else Unref(ReplaceDirect(s, b, i, nit), it)
    else if cas != Null then s
    else
      var j := FindChained(s.item, s.chain[b], hv, key);
      if j < |s.chain[b]| then Unref(ReplaceChained(s, b, j, nit), s.chain[b][j])
      else Insert(s, b, FreeSlot(s.bucket[b].items, BUCKET_NITEMS), nit)
  }

  // ---------------------------------------------------------------------------
  // Callers and the cleaner

  /** A caller lets go of a reference. */
  function Release(s: State, p: Ptr): State {
    Unref(s, p).(held := s.held - multiset{p})
  }

  /** One item of the scan in ialloc_maintenance: item_tryref, then the cleanup queue. */
  function Enqueue(s: State, p: Ptr): State {
    if p !in s.item || s.item[p].refs == 0 then s
    else s.(item := AddRef(s.item, p), queue := s.queue + [p])
  }

  /** Where a new item of segment g goes. */
  function NextAddress(s: State, g: nat): Ptr
    requires g < |s.seg|
  {
    At(g, s.seg[g].offset)
  }

  /** ialloc_cleanup_item: the queue's reference to its first item is now the cleaner's. */
  function Dequeue(s: State): State
    requires s.queue != []
  {
    s.(queue := s.queue[1..], held := s.held + multiset{s.queue[0]})
  }

  /** Copying item p into segment g and putting the copy in its place if it is still there. */
  function Relocate(s: State, p: Ptr, g: nat): State
    requires WellShaped(s) && p in s.item && Fits(s.seg, g, TotalSize(s.item[p]))
  {
    var it := s.item[p];
    var nit := NextAddress(s, g);
    Release(Put(Alloc(s, g, it.hv, it.key, it.val), nit, p), nit)
  }

  /** One turn of clean_log: unless the queue had the only reference, relocate the item. */
  function CleanOne(s: State, g: nat): State
    requires WellShaped(s) && s.queue != [] && s.queue[0] in s.item
    requires s.item[s.queue[0]].refs != 1 ==> Fits(s.seg, g, TotalSize(s.item[s.queue[0]]))
  {
    var p := s.queue[0];
    var s1 := Dequeue(s);
    Release(if s.item[p].refs != 1 then Relocate(s1, p, g) else s1, p)
  }
}
