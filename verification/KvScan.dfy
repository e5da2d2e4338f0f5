/** Scanning a segment from its start by item sizes. */
module KvScan {
  import opened KvState
  import opened KvLog
  import opened KvStore

  /** keylen is a 16-bit field. */
  const KEYLEN_LIMIT: nat := 0x10000

  /** How far the scan moves over the filler of a tail of avail bytes: its key length is the
      tail without the header, as far as 16 bits hold it. */
  function FillerStep(avail: nat): nat
    requires avail >= HEADER
  {
    HEADER + (avail - HEADER) % KEYLEN_LIMIT
  }

  /** The filler spans the tail exactly when its length fits in 16 bits; otherwise the scan
      lands short of the end, where nothing was written. */
  lemma FillerFitsExactly(avail: nat)
    requires avail >= HEADER
    ensures FillerStep(avail) == avail <==> avail - HEADER < KEYLEN_LIMIT
    ensures avail - HEADER >= KEYLEN_LIMIT ==> FillerStep(avail) < avail
  {}

  /** Items of the log end before the tail. */
  lemma TailIsNoItem(item: map<Ptr, Item>, h: Seg, g: nat)
    requires SegOk(item, h, g)
    ensures At(g, Allocated(item, h.log)) !in h.log
  {
    forall k | 0 <= k < |h.log| ensures h.log[k] != At(g, Allocated(item, h.log)) {
      AllocatedPrefix(item, h.log, k);
    }
  }

  lemma NextItem(item: map<Ptr, Item>, h: Seg, g: nat, k: nat)
    requires SegOk(item, h, g) && k < |h.log|
    ensures h.log[k] in item && h.log[k] == At(g, Allocated(item, h.log[..k]))
    ensures Allocated(item, h.log[..k]) + TotalSize(item[h.log[k]]) == Allocated(item, h.log[..k + 1]) <= h.size
  {
    assert h.log[..k + 1][..k] == h.log[..k] && h.log[..k + 1][k] == h.log[k];
    AllocatedPrefix(item, h.log, k);
  }

  /** The scan has passed the first k items, or is through. */
  ghost predicate Passed(item: map<Ptr, Item>, h: Seg, k: nat, off: nat) {
    && k <= |h.log| && off <= h.size
    && (off == Allocated(item, h.log[..k]) || (off == h.size && k == |h.log|))
  }

  /** A segment as maintenance finds it, with a filler that fits if there is one. */
  ghost predicate Inactive(item: map<Ptr, Item>, h: Seg, g: nat) {
    && SegOk(item, h, g) && h.offset == h.size
    && (forall p | p in item && p.At? && p.seg == g :: p in h.log)
    && h.size - Allocated(item, h.log) < HEADER + KEYLEN_LIMIT
  }

  /** Inactive, folded. */
  ghost predicate Full(item: map<Ptr, Item>, h: Seg, g: nat, depth: nat := 3) {
    if depth == 0 then Inactive(item, h, g) else Full(item, h, g, depth - 1)
  }

  lemma UnfoldFull(item: map<Ptr, Item>, h: Seg, g: nat)
    ensures Full(item, h, g) <==> Inactive(item, h, g)
  {
    assert Full(item, h, g, 3) == Full(item, h, g, 2);
    assert Full(item, h, g, 1) == Full(item, h, g, 0);
  }

  /** The scan stands before an item of the log. */
  lemma BeforeItem(item: map<Ptr, Item>, h: Seg, g: nat, k: nat, off: nat)
    requires SegOk(item, h, g) && k < |h.log| && off == Allocated(item, h.log[..k])
    ensures At(g, off) in item && h.log[k] == At(g, off) && h.size - off >= HEADER
    ensures Passed(item, h, k + 1, off + TotalSize(item[At(g, off)]))
  {
    NextItem(item, h, g, k);
  }

  /** Or behind the last, before the tail. */
  lemma BeforeTail(item: map<Ptr, Item>, h: Seg, g: nat, off: nat)
    requires Inactive(item, h, g) && off == Allocated(item, h.log) && off < h.size
    ensures At(g, off) !in item && (h.size - off >= HEADER ==> off + FillerStep(h.size - off) == h.size)
  {
    TailIsNoItem(item, h, g);
    if h.size - off >= HEADER { FillerFitsExactly(h.size - off); }
  }

  /** Where the scan goes next. */
  lemma Step(item: map<Ptr, Item>, h: Seg, g: nat, k: nat, off: nat)
    requires Full(item, h, g) && Passed(item, h, k, off) && off < h.size
    ensures At(g, off) in item ==>
      k < |h.log| && h.log[k] == At(g, off) && Passed(item, h, k + 1, off + TotalSize(item[At(g, off)]))
        && h.size - off >= HEADER
    ensures At(g, off) !in item ==>
      k == |h.log| && (h.size - off >= HEADER ==> off + FillerStep(h.size - off) == h.size)
  {
    UnfoldFull(item, h, g);
    if k < |h.log| {
      BeforeItem(item, h, g, k, off);
    } else {
      assert h.log[..k] == h.log;
      BeforeTail(item, h, g, off);
    }
  }

  lemma Through(item: map<Ptr, Item>, h: Seg, g: nat, k: nat)
    requires Full(item, h, g) && Passed(item, h, k, h.size)
    ensures k == |h.log|
  {
    UnfoldFull(item, h, g);
    if k < |h.log| { NextItem(item, h, g, k); }
  }

  /** The scan of ialloc_maintenance over a whole segment no one allocates from any more: it
      visits what was allocated there, in order, then the filler, and ends at the size. */
  method ScanSegment(item: map<Ptr, Item>, h: Seg, g: nat) returns (visited: seq<Ptr>, off: nat)
    requires Inactive(item, h, g)
    ensures visited == h.log && off == h.size
  {
    UnfoldFull(item, h, g);
    visited, off := ScanFrom(item, h, g);
  }

  method ScanFrom(item: map<Ptr, Item>, h: Seg, g: nat) returns (visited: seq<Ptr>, off: nat)
    requires Full(item, h, g)
    ensures visited == h.log && off == h.size
  {
    visited, off := [], 0;
    ghost var k := 0;
    while off < h.size
      invariant Passed(item, h, k, off) && visited == h.log[..k]
      decreases h.size - off
    {
      Step(item, h, g, k, off);
      if h.size - off < HEADER {
        off := h.size;
      } else if At(g, off) in item {
        visited := visited + [At(g, off)];
        off := off + TotalSize(item[At(g, off)]);
        k := k + 1;
      } else {
        off := off + FillerStep(h.size - off);
      }
    }
    Through(item, h, g, k);
  }
}
