/** The bucketed table refines a map from keys to items. */
module KvTable {
  import opened KvState

  // ---------------------------------------------------------------------------
  // The invariant of the table

  /** p is the item the table holds for its key. */
  predicate Mapped(item: map<Ptr, Item>, tbl: map<Key, Ptr>, p: Ptr) {
    p in item && KeyOf(item[p]) in tbl && tbl[KeyOf(item[p])] == p
  }

  function Belongs(item: map<Ptr, Item>, tbl: map<Key, Ptr>, n: nat, b: nat, p: Ptr): nat
    requires n > 0
  {
    if Mapped(item, tbl, p) && item[p].hv % n == b then 1 else 0
  }

  function Entries(b: Bucket, chain: seq<Ptr>): seq<Ptr> { b.items + chain }

  ghost predicate TblInv(item: map<Ptr, Item>, tbl: map<Key, Ptr>) {
    && (forall p | p in item :: p.At?)
    && (forall k | k in tbl :: tbl[k] in item && KeyOf(item[tbl[k]]) == k)
  }

  /** Slots and chain of a bucket hold, once each, the items of the map that hash to it. */
  ghost predicate MemberInv(item: map<Ptr, Item>, bucket: seq<Bucket>, chain: seq<seq<Ptr>>, tbl: map<Key, Ptr>)
    requires |bucket| == |chain| > 0
  {
    forall b, p | 0 <= b < |bucket| && p != Null ::
      multiset(Entries(bucket[b], chain[b]))[p] == Belongs(item, tbl, |bucket|, b, p)
  }

  /** The hash kept beside a slot is the item's, and only the last slot has a chain: the next
      pointers from it spell the chain out. */
  ghost predicate BucketOk(item: map<Ptr, Item>, b: Bucket, chain: seq<Ptr>) {
    && |b.items| == |b.hashes| == BUCKET_NITEMS
    && (forall i | 0 <= i < BUCKET_NITEMS && b.items[i] != Null ::
      b.items[i] in item && b.hashes[i] == item[b.items[i]].hv)
    && (forall i | 0 <= i < BUCKET_NITEMS - 1 :: NextOf(item, b.items[i]) == Null)
    && (forall j | 0 <= j < |chain| :: chain[j] in item)
    && (forall j | 0 <= j <= |chain| :: NextOf(item, Before(b, chain, j)) == ChainAt(chain, j))
    && (chain != [] ==> forall i | 0 <= i < BUCKET_NITEMS :: b.items[i] != Null)
  }

  function ChainAt(chain: seq<Ptr>, j: nat): Ptr { if j < |chain| then chain[j] else Null }

  ghost predicate TableInv(s: State) {
    && WellShaped(s)
    && TblInv(s.item, s.tbl)
    && MemberInv(s.item, s.bucket, s.chain, s.tbl)
    && (forall b | 0 <= b < |s.bucket| :: BucketOk(s.item, s.bucket[b], s.chain[b]))
  }

  // ---------------------------------------------------------------------------
  // Finding

  lemma {:induction false} DirectFound(item: map<Ptr, Item>, b: Bucket, hv: nat, key: Bytes, i: nat)
    requires i <= |b.items| == |b.hashes|
    ensures var r := FindDirect(item, b, hv, key, i);
      && i <= r
      && (r < |b.items| ==>
            b.items[r] != Null && b.hashes[r] == hv && b.items[r] in item && item[b.items[r]].key == key)
      && (forall k | i <= k < r ::
        !(b.items[k] != Null && b.hashes[k] == hv && b.items[k] in item && item[b.items[k]].key == key))
    decreases |b.items| - i
  {
    if i < |b.items| { DirectFound(item, b, hv, key, i + 1); }
  }

  lemma {:induction false} ChainedFound(item: map<Ptr, Item>, chain: seq<Ptr>, hv: nat, key: Bytes)
    ensures var r := FindChained(item, chain, hv, key);
      && (r < |chain| ==> chain[r] in item && Matches(item[chain[r]], hv, key))
      && (forall k | 0 <= k < r :: !(chain[k] in item && Matches(item[chain[k]], hv, key)))
  {
    if chain != [] {
      ChainedFound(item, chain[1..], hv, key);
      var r := FindChained(item, chain, hv, key);
      forall k | 0 <= k < r ensures !(chain[k] in item && Matches(item[chain[k]], hv, key)) {
        if k > 0 { assert chain[k] == chain[1..][k - 1]; }
      }
    }
  }

  /** An entry of a bucket is the item of the map for its key. */
  lemma EntryIsMapped(s: State, b: nat, p: Ptr)
    requires TableInv(s) && b < |s.bucket| && p != Null && p in Entries(s.bucket[b], s.chain[b])
    ensures Mapped(s.item, s.tbl, p) && BucketOf(s, s.item[p].hv) == b
  {
    assert multiset(Entries(s.bucket[b], s.chain[b]))[p] == Belongs(s.item, s.tbl, |s.bucket|, b, p);
  }

  lemma MappedIsEntry(s: State, p: Ptr)
    requires TableInv(s) && Mapped(s.item, s.tbl, p)
    ensures var b := BucketOf(s, s.item[p].hv); p in Entries(s.bucket[b], s.chain[b])
  {
    var b := BucketOf(s, s.item[p].hv);
    assert multiset(Entries(s.bucket[b], s.chain[b]))[p] == Belongs(s.item, s.tbl, |s.bucket|, b, p);
  }

  lemma DirectEntry(s: State, hv: nat, key: Bytes, i: nat)
    requires TableInv(s) && i < BUCKET_NITEMS
    requires var b := s.bucket[BucketOf(s, hv)];
      b.items[i] != Null && b.hashes[i] == hv && s.item[b.items[i]].key == key
    ensures Key(hv, key) in s.tbl && s.tbl[Key(hv, key)] == s.bucket[BucketOf(s, hv)].items[i]
  {
    var b := BucketOf(s, hv);
    var p := s.bucket[b].items[i];
    assert Entries(s.bucket[b], s.chain[b])[i] == p;
    EntryIsMapped(s, b, p);
    assert KeyOf(s.item[p]) == Key(hv, key);
  }

  lemma ChainedEntry(s: State, hv: nat, key: Bytes, j: nat)
    requires TableInv(s) && j < |s.chain[BucketOf(s, hv)]|
    requires var p := s.chain[BucketOf(s, hv)][j]; p in s.item && Matches(s.item[p], hv, key)
    ensures Key(hv, key) in s.tbl && s.tbl[Key(hv, key)] == s.chain[BucketOf(s, hv)][j]
  {
    var b := BucketOf(s, hv);
    var p := s.chain[b][j];
    assert Entries(s.bucket[b], s.chain[b])[BUCKET_NITEMS + j] == p;
    EntryIsMapped(s, b, p);
    assert KeyOf(s.item[p]) == Key(hv, key);
  }

  /** If neither search finds the key, the map has no item for it. */
  lemma NotFound(s: State, hv: nat, key: Bytes)
    requires TableInv(s)
    requires var b := BucketOf(s, hv);
      FindDirect(s.item, s.bucket[b], hv, key, 0) == BUCKET_NITEMS
        && FindChained(s.item, s.chain[b], hv, key) == |s.chain[b]|
    ensures Key(hv, key) !in s.tbl
  {
    var b := BucketOf(s, hv);
    var all := Entries(s.bucket[b], s.chain[b]);
    DirectFound(s.item, s.bucket[b], hv, key, 0);
    ChainedFound(s.item, s.chain[b], hv, key);
    assert BucketOk(s.item, s.bucket[b], s.chain[b]);
    forall k | 0 <= k < |all| && all[k] in s.item ensures KeyOf(s.item[all[k]]) != Key(hv, key) {
      if k < BUCKET_NITEMS {
        assert all[k] == s.bucket[b].items[k];
      } else {
        assert all[k] == s.chain[b][k - BUCKET_NITEMS];
      }
    }
    if Key(hv, key) in s.tbl { MappedIsEntry(s, s.tbl[Key(hv, key)]); }
  }

  /** The lookup returns exactly what the map holds. */
  lemma FindIsLookup(s: State, hv: nat, key: Bytes)
    requires TableInv(s)
    ensures Find(s, hv, key) == (if Key(hv, key) in s.tbl then s.tbl[Key(hv, key)] else Null)
  {
    var b := BucketOf(s, hv);
    DirectFound(s.item, s.bucket[b], hv, key, 0);
    ChainedFound(s.item, s.chain[b], hv, key);
    var i, j := FindDirect(s.item, s.bucket[b], hv, key, 0), FindChained(s.item, s.chain[b], hv, key);
    if i < BUCKET_NITEMS {
      DirectEntry(s, hv, key, i);
    } else if j < |s.chain[b]| {
      ChainedEntry(s, hv, key, j);
    } else {
      NotFound(s, hv, key);
    }
  }

  // ---------------------------------------------------------------------------
  // Changing the table

  /** The same items as far as the table can tell: keys and chain pointers. */
  predicate SameLinks(item: map<Ptr, Item>, item': map<Ptr, Item>) {
    item.Keys == item'.Keys
    && forall p | p in item :: item'[p].hv == item[p].hv && item'[p].key == item[p].key && item'[p].next == item[p].next
  }

  /** Reference counts and cleanup do not touch the table. */
  lemma TableKeep(s: State, t: State)
    requires TableInv(s) && SameLinks(s.item, t.item)
    requires t.bucket == s.bucket && t.chain == s.chain && t.tbl == s.tbl
    ensures TableInv(t)
  {
    forall p ensures Mapped(t.item, t.tbl, p) == Mapped(s.item, s.tbl, p) && NextOf(t.item, p) == NextOf(s.item, p) {}
    forall b, p | 0 <= b < |t.bucket| && p != Null
      ensures multiset(Entries(t.bucket[b], t.chain[b]))[p] == Belongs(t.item, t.tbl, |t.bucket|, b, p)
    {
      assert multiset(Entries(s.bucket[b], s.chain[b]))[p] == Belongs(s.item, s.tbl, |s.bucket|, b, p);
    }
    forall b | 0 <= b < |t.bucket| ensures BucketOk(t.item, t.bucket[b], t.chain[b]) {
      BucketFrame(s.item, t.item, s.bucket[b], s.chain[b]);
    }
  }

  /** A bucket stays well formed while its own entries keep hash and next pointer. */
  lemma BucketFrame(item: map<Ptr, Item>, item': map<Ptr, Item>, b: Bucket, chain: seq<Ptr>)
    requires BucketOk(item, b, chain) && item.Keys <= item'.Keys && Null !in item'
    requires forall p | p in Entries(b, chain) && p in item ::
      item'[p].hv == item[p].hv && item'[p].next == item[p].next
    ensures BucketOk(item', b, chain)
  {
    forall i | 0 <= i < BUCKET_NITEMS && b.items[i] in item
      ensures item'[b.items[i]].hv == item[b.items[i]].hv && item'[b.items[i]].next == item[b.items[i]].next
    {
      assert Entries(b, chain)[i] == b.items[i];
    }
    forall j | 0 <= j < |chain|
      ensures item'[chain[j]].hv == item[chain[j]].hv && item'[chain[j]].next == item[chain[j]].next
    {
      assert Entries(b, chain)[BUCKET_NITEMS + j] == chain[j];
    }
  }

  lemma NotEntry(s: State, b: nat, p: Ptr)
    requires TableInv(s) && b < |s.bucket| && p != Null && !Mapped(s.item, s.tbl, p)
    ensures p !in Entries(s.bucket[b], s.chain[b])
  {
    assert multiset(Entries(s.bucket[b], s.chain[b]))[p] == Belongs(s.item, s.tbl, |s.bucket|, b, p);
  }

  /** nit is new to the table and b is its bucket. */
  ghost predicate CanPut(s: State, nit: Ptr) {
    TableInv(s) && nit in s.item && !Mapped(s.item, s.tbl, nit)
  }

  /** nit has taken over its key: the same items with the same keys otherwise. */
  predicate TakenOver(item: map<Ptr, Item>, tbl: map<Key, Ptr>, item': map<Ptr, Item>, tbl': map<Key, Ptr>, nit: Ptr) {
    && nit in item && item'.Keys == item.Keys && (forall q | q in item :: KeyOf(item'[q]) == KeyOf(item[q]))
    && tbl' == tbl[KeyOf(item[nit]) := nit]
  }

  lemma BelongsAfter(item: map<Ptr, Item>, tbl: map<Key, Ptr>, item': map<Ptr, Item>, tbl': map<Key, Ptr>, nit: Ptr,
    n: nat, c: nat, p: Ptr)
    requires n > 0 && TakenOver(item, tbl, item', tbl', nit)
    ensures Belongs(item', tbl', n, c, p) ==
      if p == nit then (if item[nit].hv % n == c then 1 else 0)
      else if p in item && KeyOf(item[p]) == KeyOf(item[nit]) then 0
      else Belongs(item, tbl, n, c, p)
  {
    if p in item { assert KeyOf(item'[p]) == KeyOf(item[p]); }
  }

  /** Before nit takes over: nit itself is nowhere, and of the items with its key only the one
      in the map is an entry, of nit's bucket. */
  lemma BelongsBefore(item: map<Ptr, Item>, tbl: map<Key, Ptr>, nit: Ptr, n: nat, c: nat, p: Ptr)
    requires n > 0 && nit in item && !Mapped(item, tbl, nit)
    ensures Belongs(item, tbl, n, c, nit) == 0
    ensures p in item && KeyOf(item[p]) == KeyOf(item[nit]) ==>
      Belongs(item, tbl, n, c, p)
      == if item[nit].hv % n == c && KeyOf(item[nit]) in tbl && tbl[KeyOf(item[nit])] == p then 1 else 0
  {}

  lemma ReplaceCount(item: map<Ptr, Item>, tbl: map<Key, Ptr>, item': map<Ptr, Item>, tbl': map<Key, Ptr>,
                     nit: Ptr, it: Ptr, n: nat, c: nat, p: Ptr, all: multiset<Ptr>, all': multiset<Ptr>)
    requires n > 0 && TakenOver(item, tbl, item', tbl', nit) && !Mapped(item, tbl, nit)
    requires KeyOf(item[nit]) in tbl && tbl[KeyOf(item[nit])] == it && it in item && KeyOf(item[it]) == KeyOf(item[nit])
    requires all[p] == Belongs(item, tbl, n, c, p)
    requires all' == if c == item[nit].hv % n then all - multiset{it} + multiset{nit} else all
    ensures all'[p] == Belongs(item', tbl', n, c, p)
  {
    BelongsBefore(item, tbl, nit, n, c, p);
    BelongsAfter(item, tbl, item', tbl', nit, n, c, p);
  }

  lemma InsertCount(item: map<Ptr, Item>, tbl: map<Key, Ptr>, item': map<Ptr, Item>, tbl': map<Key, Ptr>, nit: Ptr,
                    n: nat, c: nat, p: Ptr, all: multiset<Ptr>, all': multiset<Ptr>)
    requires n > 0 && TakenOver(item, tbl, item', tbl', nit) && !Mapped(item, tbl, nit) && KeyOf(item[nit]) !in tbl
    requires all[p] == Belongs(item, tbl, n, c, p)
    requires all'[p] == if c == item[nit].hv % n then (all + multiset{nit})[p] else all[p]
    ensures all'[p] == Belongs(item', tbl', n, c, p)
  {
    BelongsBefore(item, tbl, nit, n, c, p);
    BelongsAfter(item, tbl, item', tbl', nit, n, c, p);
  }

  /** An entry of nit's bucket is replaced by nit. */
  lemma MemberReplace(s: State, t: State, b: nat, nit: Ptr, it: Ptr)
    requires CanPut(s, nit) && WellShaped(t) && |t.bucket| == |s.bucket| && b == BucketOf(s, s.item[nit].hv)
    requires TakenOver(s.item, s.tbl, t.item, t.tbl, nit)
    requires KeyOf(s.item[nit]) in s.tbl && s.tbl[KeyOf(s.item[nit])] == it
    requires multiset(Entries(t.bucket[b], t.chain[b]))
      == multiset(Entries(s.bucket[b], s.chain[b])) - multiset{it} + multiset{nit}
    requires forall c | 0 <= c < |s.bucket| && c != b :: t.bucket[c] == s.bucket[c] && t.chain[c] == s.chain[c]
    ensures MemberInv(t.item, t.bucket, t.chain, t.tbl)
  {
    var n := |s.bucket|;
    forall c, p | 0 <= c < n && p != Null
      ensures multiset(Entries(t.bucket[c], t.chain[c]))[p] == Belongs(t.item, t.tbl, n, c, p)
    {
      ReplaceCount(s.item, s.tbl, t.item, t.tbl, nit, it, n, c, p,
                   multiset(Entries(s.bucket[c], s.chain[c])), multiset(Entries(t.bucket[c], t.chain[c])));
    }
  }

  /** nit joins its bucket under a key the map did not have. */
  lemma MemberInsert(s: State, t: State, b: nat, nit: Ptr)
    requires CanPut(s, nit) && WellShaped(t) && |t.bucket| == |s.bucket| && b == BucketOf(s, s.item[nit].hv)
    requires TakenOver(s.item, s.tbl, t.item, t.tbl, nit) && KeyOf(s.item[nit]) !in s.tbl
    requires forall p | p != Null ::
      multiset(Entries(t.bucket[b], t.chain[b]))[p] == (multiset(Entries(s.bucket[b], s.chain[b])) + multiset{nit})[p]
    requires forall c | 0 <= c < |s.bucket| && c != b :: t.bucket[c] == s.bucket[c] && t.chain[c] == s.chain[c]
    ensures MemberInv(t.item, t.bucket, t.chain, t.tbl)
  {
    var n := |s.bucket|;
    forall c, p | 0 <= c < n && p != Null
      ensures multiset(Entries(t.bucket[c], t.chain[c]))[p] == Belongs(t.item, t.tbl, n, c, p)
    {
      InsertCount(s.item, s.tbl, t.item, t.tbl, nit, n, c, p,
                  multiset(Entries(s.bucket[c], s.chain[c])), multiset(Entries(t.bucket[c], t.chain[c])));
    }
  }

  // ---------------------------------------------------------------------------
  // The bucket that changes

  ghost predicate NoRepeats(all: seq<Ptr>) {
    forall x, y | 0 <= x < y < |all| && all[x] == all[y] :: all[x] == Null
  }

  lemma Twice(all: seq<Ptr>, x: nat, y: nat)
    requires x < y < |all| && all[x] == all[y]
    ensures multiset(all)[all[x]] >= 2
  {
    assert all == all[..y] + all[y..] && all[..y][x] == all[x] && all[y..][0] == all[x];
  }

  lemma EntriesOnce(s: State, b: nat)
    requires TableInv(s) && b < |s.bucket|
    ensures NoRepeats(Entries(s.bucket[b], s.chain[b]))
  {
    var all := Entries(s.bucket[b], s.chain[b]);
    forall x, y | 0 <= x < y < |all| && all[x] == all[y] ensures all[x] == Null {
      assert all[x] != Null ==> multiset(all)[all[x]] == Belongs(s.item, s.tbl, |s.bucket|, b, all[x]);
      Twice(all, x, y);
    }
  }

  lemma DirectBucket(item: map<Ptr, Item>, b: Bucket, chain: seq<Ptr>, i: nat, nit: Ptr)
    requires BucketOk(item, b, chain) && i < BUCKET_NITEMS && b.items[i] != Null && Null !in item
    requires nit in item && nit !in Entries(b, chain) && b.hashes[i] == item[nit].hv
    ensures BucketOk(SetNext(AddRef(item, nit), nit, NextOf(item, b.items[i])), b.(items := b.items[i := nit]), chain)
  {
    var item' := SetNext(AddRef(item, nit), nit, NextOf(item, b.items[i]));
    var b' := b.(items := b.items[i := nit]);
    forall k | 0 <= k < BUCKET_NITEMS
      ensures b.items[k] != nit && (k != i ==> NextOf(item', b'.items[k]) == NextOf(item, b.items[k]))
    {
      assert Entries(b, chain)[k] == b.items[k];
    }
    forall j | 0 <= j < |chain| ensures chain[j] != nit {
      assert Entries(b, chain)[BUCKET_NITEMS + j] == chain[j];
    }
    forall j | 0 <= j <= |chain| ensures NextOf(item', Before(b', chain, j)) == ChainAt(chain, j) {
      assert NextOf(item, Before(b, chain, j)) == ChainAt(chain, j);
    }
  }

  lemma ChainedBucket(item: map<Ptr, Item>, b: Bucket, chain: seq<Ptr>, j: nat, nit: Ptr)
    requires BucketOk(item, b, chain) && j < |chain| && Null !in item && NoRepeats(Entries(b, chain))
    requires nit in item && nit !in Entries(b, chain)
    ensures var item' := SetNext(SetNext(AddRef(item, nit), nit, NextOf(item, chain[j])), Before(b, chain, j), nit);
      BucketOk(item', b, chain[j := nit])
  {
    var prev := Before(b, chain, j);
    var item' := SetNext(SetNext(AddRef(item, nit), nit, NextOf(item, chain[j])), prev, nit);
    var chain' := chain[j := nit];
    var at := if j == 0 then BUCKET_NITEMS - 1 else BUCKET_NITEMS + j - 1;
    assert Entries(b, chain)[at] == prev && prev in item;
    forall k | 0 <= k < BUCKET_NITEMS
      ensures b.items[k] != nit
      ensures k != at ==> b.items[k] != prev && NextOf(item', b.items[k]) == NextOf(item, b.items[k])
    {
      assert Entries(b, chain)[k] == b.items[k];
    }
    forall k | 0 <= k < |chain|
      ensures chain[k] != nit && chain[k] in item && (k + 1 != j ==> chain[k] != prev)
    {
      assert Entries(b, chain)[BUCKET_NITEMS + k] == chain[k];
    }
    forall k | 0 <= k <= |chain'| ensures NextOf(item', Before(b, chain', k)) == ChainAt(chain', k) {
      assert NextOf(item, Before(b, chain, k)) == ChainAt(chain, k);
      if k < |chain| { assert NextOf(item, Before(b, chain, k + 1)) == ChainAt(chain, k + 1); }
      assert Before(b, chain', k) == (if k == j + 1 then nit else Before(b, chain, k));
    }
  }

  lemma {:induction false} FreeSlotIs(items: seq<Ptr>, n: nat)
    requires n <= |items| && |items| > 0
    ensures var r := FreeSlot(items, n);
      && (items[r] == Null || (r == |items| - 1 && forall k | 0 <= k < n :: items[k] != Null))
      && (forall k | r < k < n :: items[k] != Null)
  {
    if n > 0 && items[n - 1] != Null { FreeSlotIs(items, n - 1); }
  }

  /** An empty slot takes nit; there is no chain then. */
  lemma FreshBucket(item: map<Ptr, Item>, b: Bucket, chain: seq<Ptr>, i: nat, nit: Ptr)
    requires BucketOk(item, b, chain) && i < BUCKET_NITEMS && b.items[i] == Null && Null !in item
    requires nit in item && nit !in Entries(b, chain)
    ensures chain == []
    ensures var b' := Bucket(b.items[i := nit], b.hashes[i := item[nit].hv]);
      BucketOk(SetNext(AddRef(item, nit), nit, Null), b', chain)
  {
    forall k | 0 <= k < BUCKET_NITEMS ensures b.items[k] != nit {
      assert Entries(b, chain)[k] == b.items[k];
    }
    assert NextOf(item, Before(b, chain, 0)) == ChainAt(chain, 0);
  }

  /** With every slot taken, nit takes the last one and pushes its item onto the chain. */
  lemma PushedBucket(item: map<Ptr, Item>, b: Bucket, chain: seq<Ptr>, nit: Ptr)
    requires BucketOk(item, b, chain) && Null !in item && forall k | 0 <= k < BUCKET_NITEMS :: b.items[k] != Null
    requires nit in item && nit !in Entries(b, chain) && NoRepeats(Entries(b, chain))
    ensures var was := b.items[BUCKET_NITEMS - 1];
      BucketOk(SetNext(AddRef(item, nit), nit, was),
               Bucket(b.items[BUCKET_NITEMS - 1 := nit], b.hashes[BUCKET_NITEMS - 1 := item[nit].hv]), [was] + chain)
  {
    var i := BUCKET_NITEMS - 1;
    var was := b.items[i];
    var item' := SetNext(AddRef(item, nit), nit, was);
    var b' := Bucket(b.items[i := nit], b.hashes[i := item[nit].hv]);
    var chain' := [was] + chain;
    forall k | 0 <= k < BUCKET_NITEMS
      ensures b.items[k] != nit && NextOf(item', b.items[k]) == NextOf(item, b.items[k])
    {
      assert Entries(b, chain)[k] == b.items[k];
    }
    forall k | 0 <= k < |chain| ensures chain[k] != nit && NextOf(item', chain[k]) == NextOf(item, chain[k]) {
      assert Entries(b, chain)[BUCKET_NITEMS + k] == chain[k];
    }
    forall k | 0 <= k <= |chain'| ensures NextOf(item', Before(b', chain', k)) == ChainAt(chain', k) {
      if k > 0 {
        assert NextOf(item, Before(b, chain, k - 1)) == ChainAt(chain, k - 1);
        assert Before(b', chain', k) == Before(b, chain, k - 1);
      }
    }
  }

  // ---------------------------------------------------------------------------
  // The three ways a put changes the table

  /** Buckets other than b are untouched: neither nit nor an entry of b is theirs. */
  lemma OtherBuckets(s: State, item': map<Ptr, Item>, b: nat, c: nat, nit: Ptr, prev: Ptr)
    requires CanPut(s, nit) && b < |s.bucket| && c < |s.bucket| && c != b
    requires prev == nit || prev in Entries(s.bucket[b], s.chain[b])
    requires item'.Keys == s.item.Keys
    requires forall p | p in s.item && p != nit && p != prev ::
      item'[p].hv == s.item[p].hv && item'[p].next == s.item[p].next
    ensures BucketOk(item', s.bucket[c], s.chain[c])
  {
    NotEntry(s, c, nit);
    forall p | p in Entries(s.bucket[c], s.chain[c]) && p in s.item ensures p != nit && p != prev {
      EntryIsMapped(s, c, p);
      if prev != nit && prev != Null { EntryIsMapped(s, b, prev); }
    }
    BucketFrame(s.item, item', s.bucket[c], s.chain[c]);
  }

  lemma EntriesUpdate(all: seq<Ptr>, x: nat, q: Ptr)
    requires x < |all|
    ensures multiset(all[x := q]) == multiset(all) - multiset{all[x]} + multiset{q}
  {}

  /** Keys and values of all items as before. */
  predicate SameContents(item: map<Ptr, Item>, item': map<Ptr, Item>) {
    item.Keys == item'.Keys && forall p | p in item :: KeyOf(item'[p]) == KeyOf(item[p]) && item'[p].val == item[p].val
  }

  predicate OneMoreRef(item: map<Ptr, Item>, item': map<Ptr, Item>, nit: Ptr) {
    && SameContents(item, item')
    && forall p | p in item :: item'[p].refs == (if p == nit then item[p].refs + 1 else item[p].refs)
  }

  lemma AddRefAddsOne(item: map<Ptr, Item>, nit: Ptr)
    requires nit in item
    ensures OneMoreRef(item, AddRef(item, nit), nit)
  {}

  lemma SetNextKeeps(item: map<Ptr, Item>, item': map<Ptr, Item>, nit: Ptr, p: Ptr, q: Ptr)
    requires OneMoreRef(item, item', nit)
    ensures OneMoreRef(item, SetNext(item', p, q), nit)
  {}

  lemma LinkingAddsOneRef(item: map<Ptr, Item>, nit: Ptr, next: Ptr, prev: Ptr)
    requires nit in item
    ensures OneMoreRef(item, SetNext(AddRef(item, nit), nit, next), nit)
    ensures OneMoreRef(item, SetNext(SetNext(AddRef(item, nit), nit, next), prev, nit), nit)
  {
    AddRefAddsOne(item, nit);
    SetNextKeeps(item, AddRef(item, nit), nit, nit, next);
    SetNextKeeps(item, SetNext(AddRef(item, nit), nit, next), nit, prev, nit);
  }

  lemma LinkingTakesOver(item: map<Ptr, Item>, tbl: map<Key, Ptr>, item': map<Ptr, Item>, nit: Ptr)
    requires nit in item && TblInv(item, tbl) && OneMoreRef(item, item', nit)
    ensures TakenOver(item, tbl, item', tbl[KeyOf(item[nit]) := nit], nit)
    ensures TblInv(item', tbl[KeyOf(item[nit]) := nit])
  {
    TblAfter(item, tbl, item', nit);
  }

  /** Setting next pointers and adding a reference keeps every key, so the map is as before
      except that nit has its key. */
  lemma TblAfter(item: map<Ptr, Item>, tbl: map<Key, Ptr>, item': map<Ptr, Item>, nit: Ptr)
    requires nit in item && TblInv(item, tbl) && TakenOver(item, tbl, item', tbl[KeyOf(item[nit]) := nit], nit)
    ensures TblInv(item', tbl[KeyOf(item[nit]) := nit])
  {}

  lemma ReplaceDirectKeeps(s: State, b: nat, i: nat, nit: Ptr)
    requires CanPut(s, nit) && b == BucketOf(s, s.item[nit].hv) && i < BUCKET_NITEMS
    requires KeyOf(s.item[nit]) in s.tbl && s.bucket[b].items[i] == s.tbl[KeyOf(s.item[nit])]
    requires s.bucket[b].items[i] != Null
    ensures TableInv(ReplaceDirect(s, b, i, nit))
  {
    var t := ReplaceDirect(s, b, i, nit);
    var it := s.bucket[b].items[i];
    NotEntry(s, b, nit);
    DirectBucket(s.item, s.bucket[b], s.chain[b], i, nit);
    forall c | 0 <= c < |s.bucket| && c != b ensures BucketOk(t.item, s.bucket[c], s.chain[c]) {
      OtherBuckets(s, t.item, b, c, nit, nit);
    }
    var all := Entries(s.bucket[b], s.chain[b]);
    EntriesUpdate(all, i, nit);
    assert Entries(t.bucket[b], t.chain[b]) == all[i := nit];
    MemberReplace(s, t, b, nit, it);
  }

  lemma ReplaceChainedKeeps(s: State, b: nat, j: nat, nit: Ptr)
    requires CanPut(s, nit) && b == BucketOf(s, s.item[nit].hv) && j < |s.chain[b]|
    requires KeyOf(s.item[nit]) in s.tbl && s.chain[b][j] == s.tbl[KeyOf(s.item[nit])]
    ensures TableInv(ReplaceChained(s, b, j, nit))
  {
    LinkingAddsOneRef(s.item, nit, NextOf(s.item, s.chain[b][j]), Before(s.bucket[b], s.chain[b], j));
    LinkingTakesOver(s.item, s.tbl, ReplaceChained(s, b, j, nit).item, nit);
    ChainedBuckets(s, b, j, nit);
    ChainedMembers(s, b, j, nit);
  }

  lemma ChainedMembers(s: State, b: nat, j: nat, nit: Ptr)
    requires CanPut(s, nit) && b == BucketOf(s, s.item[nit].hv) && j < |s.chain[b]|
    requires KeyOf(s.item[nit]) in s.tbl && s.chain[b][j] == s.tbl[KeyOf(s.item[nit])]
    ensures var t := ReplaceChained(s, b, j, nit);
      |t.bucket| == |t.chain| > 0 && MemberInv(t.item, t.bucket, t.chain, t.tbl)
  {
    var t := ReplaceChained(s, b, j, nit);
    var all := Entries(s.bucket[b], s.chain[b]);
    LinkingAddsOneRef(s.item, nit, NextOf(s.item, s.chain[b][j]), Before(s.bucket[b], s.chain[b], j));
    LinkingTakesOver(s.item, s.tbl, t.item, nit);
    EntriesUpdate(all, BUCKET_NITEMS + j, nit);
    assert Entries(t.bucket[b], t.chain[b]) == all[BUCKET_NITEMS + j := nit];
    MemberReplace(s, t, b, nit, s.chain[b][j]);
  }

  lemma ChainedBuckets(s: State, b: nat, j: nat, nit: Ptr)
    requires CanPut(s, nit) && b < |s.bucket| && j < |s.chain[b]|
    ensures var t := ReplaceChained(s, b, j, nit);
      forall c | 0 <= c < |s.bucket| :: BucketOk(t.item, t.bucket[c], t.chain[c])
  {
    var t := ReplaceChained(s, b, j, nit);
    var prev := Before(s.bucket[b], s.chain[b], j);
    var all := Entries(s.bucket[b], s.chain[b]);
    assert all[if j == 0 then BUCKET_NITEMS - 1 else BUCKET_NITEMS + j - 1] == prev;
    NotEntry(s, b, nit);
    EntriesOnce(s, b);
    ChainedBucket(s.item, s.bucket[b], s.chain[b], j, nit);
    forall c | 0 <= c < |s.bucket| && c != b ensures BucketOk(t.item, s.bucket[c], s.chain[c]) {
      OtherBuckets(s, t.item, b, c, nit, prev);
    }
  }

  lemma InsertBuckets(s: State, b: nat, nit: Ptr)
    requires CanPut(s, nit) && b < |s.bucket|
    ensures var t := Insert(s, b, FreeSlot(s.bucket[b].items, BUCKET_NITEMS), nit);
      forall c | 0 <= c < |s.bucket| :: BucketOk(t.item, t.bucket[c], t.chain[c])
  {
    var i := FreeSlot(s.bucket[b].items, BUCKET_NITEMS);
    var t := Insert(s, b, i, nit);
    FreeSlotIs(s.bucket[b].items, BUCKET_NITEMS);
    NotEntry(s, b, nit);
    EntriesOnce(s, b);
    if s.bucket[b].items[i] == Null {
      FreshBucket(s.item, s.bucket[b], s.chain[b], i, nit);
    } else {
      PushedBucket(s.item, s.bucket[b], s.chain[b], nit);
    }
    forall c | 0 <= c < |s.bucket| && c != b ensures BucketOk(t.item, s.bucket[c], s.chain[c]) {
      OtherBuckets(s, t.item, b, c, nit, nit);
    }
  }

  lemma InsertKeeps(s: State, b: nat, nit: Ptr)
    requires CanPut(s, nit) && b == BucketOf(s, s.item[nit].hv) && KeyOf(s.item[nit]) !in s.tbl
    ensures TableInv(Insert(s, b, FreeSlot(s.bucket[b].items, BUCKET_NITEMS), nit))
  {
    InsertTakesOver(s, b, FreeSlot(s.bucket[b].items, BUCKET_NITEMS), nit);
    InsertBuckets(s, b, nit);
    InsertMembers(s, b, FreeSlot(s.bucket[b].items, BUCKET_NITEMS), nit);
  }

  lemma InsertTakesOver(s: State, b: nat, i: nat, nit: Ptr)
    requires CanPut(s, nit) && b < |s.bucket| && i < BUCKET_NITEMS
    ensures var t := Insert(s, b, i, nit);
      t.tbl == s.tbl[KeyOf(s.item[nit]) := nit] && TakenOver(s.item, s.tbl, t.item, t.tbl, nit) && TblInv(t.item, t.tbl)
  {
    LinkingAddsOneRef(s.item, nit, s.bucket[b].items[i], Null);
    LinkingTakesOver(s.item, s.tbl, Insert(s, b, i, nit).item, nit);
  }

  lemma InsertMembers(s: State, b: nat, i: nat, nit: Ptr)
    requires CanPut(s, nit) && b == BucketOf(s, s.item[nit].hv) && KeyOf(s.item[nit]) !in s.tbl && i < BUCKET_NITEMS
    ensures var t := Insert(s, b, i, nit);
      |t.bucket| == |t.chain| > 0 && MemberInv(t.item, t.bucket, t.chain, t.tbl)
  {
    InsertTakesOver(s, b, i, nit);
    InsertEntries(s.bucket[b], s.chain[b], i, nit);
    MemberInsert(s, Insert(s, b, i, nit), b, nit);
  }

  lemma InsertEntries(b: Bucket, chain: seq<Ptr>, i: nat, nit: Ptr)
    requires |b.items| == BUCKET_NITEMS && i < BUCKET_NITEMS
    ensures var was := b.items[i]; var all' := b.items[i := nit] + (if was == Null then chain else [was] + chain);
      forall p | p != Null :: multiset(all')[p] == (multiset(Entries(b, chain)) + multiset{nit})[p]
  {
    EntriesUpdate(b.items, i, nit);
  }

  // ---------------------------------------------------------------------------
  // Put

  /** A plain put always takes effect; a compare-and-set one exactly when the item it names is
      the one the map holds for the key and sits in a slot rather than on the chain. */
  ghost predicate TakesEffect(s: State, nit: Ptr, cas: Ptr)
    requires TableInv(s) && nit in s.item
  {
    var k := KeyOf(s.item[nit]);
    cas == Null || (k in s.tbl && s.tbl[k] == cas && cas in s.bucket[BucketOf(s, k.hv)].items)
  }

  lemma UnrefKeeps(s: State, p: Ptr)
    requires TableInv(s)
    ensures TableInv(Unref(s, p)) && Unref(s, p).tbl == s.tbl && SameContents(s.item, Unref(s, p).item)
  {
    TableKeep(s, Unref(s, p));
  }

  /** A slot that matches holds the item of the map. */
  lemma DirectIs(s: State, hv: nat, key: Bytes)
    requires TableInv(s)
    ensures var b := BucketOf(s, hv); var i := FindDirect(s.item, s.bucket[b], hv, key, 0);
      && (i < BUCKET_NITEMS ==>
            Key(hv, key) in s.tbl && s.tbl[Key(hv, key)] == s.bucket[b].items[i] && s.bucket[b].items[i] != Null)
      && (i == BUCKET_NITEMS && Key(hv, key) in s.tbl ==> s.tbl[Key(hv, key)] !in s.bucket[b].items)
  {
    var b := BucketOf(s, hv);
    DirectFound(s.item, s.bucket[b], hv, key, 0);
    var i := FindDirect(s.item, s.bucket[b], hv, key, 0);
    assert BucketOk(s.item, s.bucket[b], s.chain[b]);
    if i < BUCKET_NITEMS {
      DirectEntry(s, hv, key, i);
    } else if Key(hv, key) in s.tbl {
      var p := s.tbl[Key(hv, key)];
      assert KeyOf(s.item[p]) == Key(hv, key);
      forall k | 0 <= k < BUCKET_NITEMS ensures s.bucket[b].items[k] != p {}
    }
  }

  /** The first slot, then the chain: the state a put that takes effect leaves before the
      replaced item loses its reference. */
  ghost function PutBare(s: State, nit: Ptr): State
    requires TableInv(s) && nit in s.item
  {
    var hv, key := s.item[nit].hv, s.item[nit].key;
    var b := BucketOf(s, hv);
    var i, j := FindDirect(s.item, s.bucket[b], hv, key, 0), FindChained(s.item, s.chain[b], hv, key);
    if i < BUCKET_NITEMS then ReplaceDirect(s, b, i, nit)
    else if j < |s.chain[b]| then ReplaceChained(s, b, j, nit)
    else Insert(s, b, FreeSlot(s.bucket[b].items, BUCKET_NITEMS), nit)
  }

  lemma PutBareKeeps(s: State, nit: Ptr)
    requires CanPut(s, nit)
    ensures TableInv(PutBare(s, nit))
  {
    var hv, key := s.item[nit].hv, s.item[nit].key;
    var b := BucketOf(s, hv);
    var i, j := FindDirect(s.item, s.bucket[b], hv, key, 0), FindChained(s.item, s.chain[b], hv, key);
    DirectIs(s, hv, key);
    ChainedFound(s.item, s.chain[b], hv, key);
    if i < BUCKET_NITEMS {
      ReplaceDirectKeeps(s, b, i, nit);
    } else if j < |s.chain[b]| {
      ChainedEntry(s, hv, key, j);
      ReplaceChainedKeeps(s, b, j, nit);
    } else {
      NotFound(s, hv, key);
      InsertKeeps(s, b, nit);
    }
  }

  /** What a put does, said with the map: nothing, or nit under its key and one reference less
      for the item that was there. */
  lemma PutIs(s: State, nit: Ptr, cas: Ptr)
    requires CanPut(s, nit)
    ensures var k := KeyOf(s.item[nit]);
      Put(s, nit, cas) ==
        if !TakesEffect(s, nit, cas) then s
        else if k in s.tbl then Unref(PutBare(s, nit), s.tbl[k])
        else PutBare(s, nit)
  {
    var hv, key := s.item[nit].hv, s.item[nit].key;
    var b := BucketOf(s, hv);
    var i, j := FindDirect(s.item, s.bucket[b], hv, key, 0), FindChained(s.item, s.chain[b], hv, key);
    DirectIs(s, hv, key);
    ChainedFound(s.item, s.chain[b], hv, key);
    assert KeyOf(s.item[nit]) == Key(hv, key);
    if i < BUCKET_NITEMS {
      assert s.bucket[b].items[i] in s.bucket[b].items;
    } else if j < |s.chain[b]| {
      ChainedEntry(s, hv, key, j);
    } else {
      NotFound(s, hv, key);
    }
  }

  lemma PutBareContents(s: State, nit: Ptr)
    requires CanPut(s, nit)
    ensures var t := PutBare(s, nit);
      && t.tbl == s.tbl[KeyOf(s.item[nit]) := nit] && OneMoreRef(s.item, t.item, nit)
      && t.seg == s.seg && t.queue == s.queue && t.held == s.held
  {
    var hv, key := s.item[nit].hv, s.item[nit].key;
    var b := BucketOf(s, hv);
    var i, j := FindDirect(s.item, s.bucket[b], hv, key, 0), FindChained(s.item, s.chain[b], hv, key);
    if i < BUCKET_NITEMS {
      LinkingAddsOneRef(s.item, nit, NextOf(s.item, s.bucket[b].items[i]), Null);
    } else if j < |s.chain[b]| {
      LinkingAddsOneRef(s.item, nit, NextOf(s.item, s.chain[b][j]), Before(s.bucket[b], s.chain[b], j));
    } else {
      LinkingAddsOneRef(s.item, nit, s.bucket[b].items[FreeSlot(s.bucket[b].items, BUCKET_NITEMS)], Null);
    }
  }

  /** The table refines the map: a put keeps it a table, overwrites exactly its key or, when a
      compare-and-set names any other item, changes nothing at all. */
  lemma PutRefinesMap(s: State, nit: Ptr, cas: Ptr)
    requires CanPut(s, nit)
    ensures var t := Put(s, nit, cas);
      && TableInv(t) && SameContents(s.item, t.item)
      && t.tbl == (if TakesEffect(s, nit, cas) then s.tbl[KeyOf(s.item[nit]) := nit] else s.tbl)
      && (!TakesEffect(s, nit, cas) ==> t == s)
  {
    PutIs(s, nit, cas);
    PutBareKeeps(s, nit);
    PutBareContents(s, nit);
    if KeyOf(s.item[nit]) in s.tbl { UnrefKeeps(PutBare(s, nit), s.tbl[KeyOf(s.item[nit])]); }
  }
}
