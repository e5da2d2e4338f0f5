/** The maintenance of a worker's segments: freeing those with nothing live in them, choosing
    one to clean, and queueing what is live in it. */
module KvMaintain {
  import opened KvState
  import opened KvTable
  import opened KvLog
  import opened KvStore
  import opened KvClean
  import opened KvAlloc
  import opened KvScan

  // ---------------------------------------------------------------------------
  // Freeing segments

  predicate Dead(seg: seq<Seg>, g: nat) { g < |seg| && seg[g].freed == seg[g].size }

  function Survivors(seg: seq<Seg>, list: seq<nat>): seq<nat> {
    if list == [] then [] else (if Dead(seg, list[0]) then [] else [list[0]]) + Survivors(seg, list[1..])
  }

  /** The dead ones, the last in front, as pushing them on the free list leaves them. */
  function Casualties(seg: seq<Seg>, list: seq<nat>): seq<nat> {
    if list == [] then [] else Casualties(seg, list[1..]) + (if Dead(seg, list[0]) then [list[0]] else [])
  }

  /** Unlinking the segment at position i and putting it on the free list. */
  function Dropped(a: Arena, i: nat): Arena
    requires i < |a.segs|
  {
    a.(segs := a.segs[..i] + a.segs[i + 1..], free := [a.segs[i]] + a.free)
  }

  /** A dead segment other than the current one may be given to the free list. */
  lemma DropKeeps(seg: seq<Seg>, a: Arena, i: nat)
    requires ArenaOk(seg, a) && i < |a.segs| - 1 && Dead(seg, a.segs[i])
    ensures ArenaOk(seg, Dropped(a, i))
  {
    var b := Dropped(a, i);
    assert forall j | 0 <= j < |b.segs| :: b.segs[j] == if j < i then a.segs[j] else a.segs[j + 1];
    assert forall j | 0 <= j < |a.segs| :: !Spare(a, a.segs[j]);
    assert forall j | 0 < j < |b.free| :: b.free[j] == a.free[j - 1];
  }

  /** All segments but the last. */
  function Older(segs: seq<nat>): seq<nat>
    requires segs != []
  {
    segs[..|segs| - 1]
  }

  // ---------------------------------------------------------------------------
  // Choosing one to clean

  function Ratio(h: Seg): real { if h.size == 0 then 0.0 else h.freed as real / h.size as real }

  predicate Worth(seg: seq<Seg>, cleaned: set<nat>, least: real, g: nat) {
    g < |seg| && g !in cleaned && Ratio(seg[g]) >= least && Ratio(seg[g]) > 0.0
  }

  function Best(seg: seq<Seg>, cleaned: set<nat>, least: real, list: seq<nat>): (r: Option<nat>)
    ensures r.Some? ==> r.value < |seg|
  {
    if list == [] then None
    else
      var b, g := Best(seg, cleaned, least, list[..|list| - 1]), list[|list| - 1];
      if Worth(seg, cleaned, least, g) && (b.Some? ==> Ratio(seg[g]) > Ratio(seg[b.value])) then Some(g) else b
  }

  /** The candidate is the first, from the oldest on, of those with the most freed, and there is
      one whenever any segment is worth cleaning. */
  lemma {:induction false} BestIs(seg: seq<Seg>, cleaned: set<nat>, least: real, list: seq<nat>)
    ensures var r := Best(seg, cleaned, least, list);
      && (r.None? ==> forall j | 0 <= j < |list| :: !Worth(seg, cleaned, least, list[j]))
      && (r.Some? ==>
            && Worth(seg, cleaned, least, r.value)
            && (forall j | 0 <= j < |list| && Worth(seg, cleaned, least, list[j]) ::
              Ratio(seg[list[j]]) <= Ratio(seg[r.value]))
            && (exists k :: 0 <= k < |list| && list[k] == r.value
                  && forall j | 0 <= j < k && Worth(seg, cleaned, least, list[j]) ::
                    Ratio(seg[list[j]]) < Ratio(seg[r.value])))
  {
    if list != [] {
      var init, g := list[..|list| - 1], list[|list| - 1];
      BestIs(seg, cleaned, least, init);
      var b, r := Best(seg, cleaned, least, init), Best(seg, cleaned, least, list);
      assert forall j | 0 <= j < |init| :: list[j] == init[j];
      if r != b {
        assert list[|list| - 1] == r.value;
      } else if r.Some? {
        var k :| 0 <= k < |init| && init[k] == r.value
          && forall j | 0 <= j < k && Worth(seg, cleaned, least, init[j]) :: Ratio(seg[init[j]]) < Ratio(seg[r.value]);
        assert list[k] == r.value;
      }
    }
  }

  // ---------------------------------------------------------------------------
  // The loop that does both

  /** ArenaOk, folded. */
  ghost predicate Tidy(seg: seq<Seg>, a: Arena, depth: nat := 3) {
    if depth == 0 then ArenaOk(seg, a) else Tidy(seg, a, depth - 1)
  }

  lemma UnfoldTidy(seg: seq<Seg>, a: Arena)
    ensures Tidy(seg, a) <==> ArenaOk(seg, a)
  {
    assert Tidy(seg, a, 3) == Tidy(seg, a, 2);
    assert Tidy(seg, a, 1) == Tidy(seg, a, 0);
  }

  /** With i segments passed: what has been and will be kept, and freed. */
  ghost predicate Sorting(seg: seq<Seg>, segs0: seq<nat>, free0: seq<nat>, segs: seq<nat>, free: seq<nat>, i: nat) {
    && segs0 != [] && i < |segs|
    && segs[..i] + Survivors(seg, segs[i..|segs| - 1]) == Survivors(seg, Older(segs0))
    && Casualties(seg, segs[i..|segs| - 1]) + free == Casualties(seg, Older(segs0)) + free0
  }

  lemma Unlinked(segs: seq<nat>, i: nat)
    requires i + 1 < |segs|
    ensures segs[i..|segs| - 1] == [segs[i]] + segs[i + 1..|segs| - 1]
    ensures var segs' := segs[..i] + segs[i + 1..];
      segs'[..i] == segs[..i] && segs'[i..|segs'| - 1] == segs[i + 1..|segs| - 1]
  {}

  lemma SortingDrops(seg: seq<Seg>, segs0: seq<nat>, free0: seq<nat>, segs: seq<nat>, free: seq<nat>, i: nat)
    requires Sorting(seg, segs0, free0, segs, free, i) && i + 1 < |segs| && Dead(seg, segs[i])
    ensures Sorting(seg, segs0, free0, segs[..i] + segs[i + 1..], [segs[i]] + free, i)
  {
    Unlinked(segs, i);
  }

  lemma SortingPasses(seg: seq<Seg>, segs0: seq<nat>, free0: seq<nat>, segs: seq<nat>, free: seq<nat>, i: nat)
    requires Sorting(seg, segs0, free0, segs, free, i) && i + 1 < |segs| && !Dead(seg, segs[i])
    ensures Sorting(seg, segs0, free0, segs, free, i + 1)
  {
    assert segs[i..|segs| - 1] == [segs[i]] + segs[i + 1..|segs| - 1];
    assert segs[..i + 1] == segs[..i] + [segs[i]];
  }

  /** The arena and the candidate when i segments have been passed. */
  ghost predicate SweptTo(seg: seq<Seg>, a0: Arena, a: Arena, least: real, i: nat, cand: Option<nat>) {
    && ArenaOk(seg, a) && a == a0.(segs := a.segs, free := a.free)
    && Sorting(seg, a0.segs, a0.free, a.segs, a.free, i)
    && cand == Best(seg, a0.cleaned, least, a.segs[..i])
  }

  /** SweptTo, folded. */
  ghost predicate Sweeping(seg: seq<Seg>, a0: Arena, a: Arena, least: real, i: nat, cand: Option<nat>,
    depth: nat := 3) {
    if depth == 0 then SweptTo(seg, a0, a, least, i, cand) else Sweeping(seg, a0, a, least, i, cand, depth - 1)
  }

  lemma UnfoldSweeping(seg: seq<Seg>, a0: Arena, a: Arena, least: real, i: nat, cand: Option<nat>)
    ensures Sweeping(seg, a0, a, least, i, cand) <==> SweptTo(seg, a0, a, least, i, cand)
  {
    assert Sweeping(seg, a0, a, least, i, cand, 3) == Sweeping(seg, a0, a, least, i, cand, 2);
    assert Sweeping(seg, a0, a, least, i, cand, 1) == Sweeping(seg, a0, a, least, i, cand, 0);
  }

  lemma SweepStarts(seg: seq<Seg>, a: Arena, least: real)
    requires Tidy(seg, a)
    ensures Sweeping(seg, a, a, least, 0, None)
  {
    UnfoldTidy(seg, a);
    assert a.segs[0..|a.segs| - 1] == Older(a.segs);
    UnfoldSweeping(seg, a, a, least, 0, None);
  }

  lemma SweepAt(seg: seq<Seg>, a0: Arena, a: Arena, least: real, i: nat, cand: Option<nat>)
    requires Sweeping(seg, a0, a, least, i, cand)
    ensures i < |a.segs| && a.segs[i] < |seg| && (cand.Some? ==> cand.value < |seg|) && a.cleaned == a0.cleaned
  {
    UnfoldSweeping(seg, a0, a, least, i, cand);
  }

  lemma SweepDrops(seg: seq<Seg>, a0: Arena, a: Arena, least: real, i: nat, cand: Option<nat>)
    requires Sweeping(seg, a0, a, least, i, cand) && i + 1 < |a.segs| && Dead(seg, a.segs[i])
    ensures Sweeping(seg, a0, Dropped(a, i), least, i, cand)
  {
    UnfoldSweeping(seg, a0, a, least, i, cand);
    DropKeeps(seg, a, i);
    SortingDrops(seg, a0.segs, a0.free, a.segs, a.free, i);
    assert Dropped(a, i).segs[..i] == a.segs[..i];
    UnfoldSweeping(seg, a0, Dropped(a, i), least, i, cand);
  }

  function Better(seg: seq<Seg>, cleaned: set<nat>, least: real, cand: Option<nat>, g: nat): Option<nat>
    requires cand.Some? ==> cand.value < |seg|
  {
    if Worth(seg, cleaned, least, g) && (cand.Some? ==> Ratio(seg[g]) > Ratio(seg[cand.value])) then Some(g) else cand
  }

  lemma SweepPasses(seg: seq<Seg>, a0: Arena, a: Arena, least: real, i: nat, cand: Option<nat>)
    requires Sweeping(seg, a0, a, least, i, cand) && i + 1 < |a.segs| && !Dead(seg, a.segs[i])
    requires cand.Some? ==> cand.value < |seg|
    ensures Sweeping(seg, a0, a, least, i + 1, Better(seg, a.cleaned, least, cand, a.segs[i]))
  {
    UnfoldSweeping(seg, a0, a, least, i, cand);
    SortingPasses(seg, a0.segs, a0.free, a.segs, a.free, i);
    assert a.segs[..i + 1] == a.segs[..i] + [a.segs[i]];
    UnfoldSweeping(seg, a0, a, least, i + 1, Better(seg, a.cleaned, least, cand, a.segs[i]));
  }

  /** Every segment but the current one has been seen. */
  lemma SweepEnds(seg: seq<Seg>, a0: Arena, a: Arena, least: real, i: nat, cand: Option<nat>)
    requires Sweeping(seg, a0, a, least, i, cand) && !(i + 1 < |a.segs| && a.segs[i] in a.inactive)
    ensures Tidy(seg, a) && a0.segs != []
    ensures a.segs == Survivors(seg, Older(a0.segs)) + [a.cur]
    ensures a.free == Casualties(seg, Older(a0.segs)) + a0.free
    ensures cand == Best(seg, a0.cleaned, least, Older(a.segs))
  {
    UnfoldSweeping(seg, a0, a, least, i, cand);
    UnfoldTidy(seg, a);
    assert i + 1 == |a.segs|;
    assert a.segs[i..|a.segs| - 1] == [];
    assert a.segs == a.segs[..i] + [a.cur];
  }

  // ---------------------------------------------------------------------------
  // Queueing what is live

  function QueueAll(s: State, ps: seq<Ptr>): State {
    if ps == [] then s else Enqueue(QueueAll(s, ps[..|ps| - 1]), ps[|ps| - 1])
  }

  function LiveOf(item: map<Ptr, Item>, ps: seq<Ptr>): seq<Ptr> {
    if ps == [] then []
    else LiveOf(item, ps[..|ps| - 1]) + (if Refs(item, ps[|ps| - 1]) > 0 then [ps[|ps| - 1]] else [])
  }

  /** Only counts of live items have gone up. */
  predicate SameButRefs(item: map<Ptr, Item>, item': map<Ptr, Item>) {
    && SameContents(item, item')
    && (forall p | p in item :: item'[p].refs > 0 <==> item[p].refs > 0)
  }

  /** t is s with these items added to the queue. */
  ghost predicate Queued(s: State, t: State, more: seq<Ptr>) {
    && SameButRefs(s.item, t.item) && SameStore(s, t)
    && t.seg == s.seg && t.held == s.held && t.queue == s.queue + more
  }

  /** Queueing takes a reference to exactly the live items, in order, and changes no value. */
  lemma {:induction false} QueueAllIs(s: State, ps: seq<Ptr>)
    ensures Queued(s, QueueAll(s, ps), LiveOf(s.item, ps))
  {
    if ps != [] {
      var init := ps[..|ps| - 1];
      QueueAllIs(s, init);
      QueueOne(QueueAll(s, init), ps[|ps| - 1]);
      SameStoreTransitive(s, QueueAll(s, init), QueueAll(s, ps));
    } else {
      assert LiveOf(s.item, ps) == [];
    }
  }

  lemma QueueOne(s: State, p: Ptr)
    ensures Queued(s, Enqueue(s, p), if Refs(s.item, p) > 0 then [p] else [])
  {
    if p in s.item && s.item[p].refs > 0 {
      AddRefChanges(s.item, p);
      SameTable(s, Enqueue(s, p));
    }
  }

  lemma QueueReady(s: State, a: Arena, p: Ptr)
    requires Ready(s, a)
    ensures Ready(Enqueue(s, p), a)
  {
    UnfoldReady(s, a);
    QueueOne(s, p);
    EnqueueKeeps(s, p);
    SmallContents(s.item, Enqueue(s, p).item, a.segsize);
    UnfoldReady(Enqueue(s, p), a);
  }

  // ---------------------------------------------------------------------------
  // The scan

  /** The scan of segment g is at an item boundary: k items are behind it. */
  ghost predicate Scanning(s: State, g: nat, k: nat, off: nat) {
    g < |s.seg| && Full(s.item, s.seg[g], g) && Passed(s.item, s.seg[g], k, off)
  }

  /** A full segment, its filler fitting, can be scanned from its start. */
  lemma ScanStarts(s: State, g: nat)
    requires Inv(s) && g < |s.seg| && s.seg[g].offset == s.seg[g].size
    requires s.seg[g].size - Allocated(s.item, s.seg[g].log) < HEADER + KEYLEN_LIMIT
    ensures Scanning(s, g, 0, 0)
  {
    assert SegOk(s.item, s.seg[g], g);
    forall p | p in s.item && p.At? && p.seg == g ensures p in s.seg[g].log { assert LoggedIn(s.seg, p); }
    UnfoldFull(s.item, s.seg[g], g);
  }

  /** Reference counts do not move the scan. */
  lemma ScanKept(s: State, t: State, g: nat, k: nat, off: nat)
    requires Scanning(s, g, k, off) && t.seg == s.seg && SameButRefs(s.item, t.item) && SegsOk(t.item, t.seg)
    ensures Scanning(t, g, k, off)
  {
    var h := s.seg[g];
    UnfoldFull(s.item, h, g);
    UnfoldFull(t.item, h, g);
    SameAllocated(s.item, t.item, h.log);
    SameAllocated(s.item, t.item, h.log[..k]);
  }

  /** From s0, where k0 items were behind it, the scan has come to s. */
  ghost predicate ScannedTo(a: Arena, s0: State, g: nat, k0: nat, s: State, k: nat, off: nat) {
    && Ready(s, a) && Scanning(s, g, k, off) && s.seg == s0.seg
    && k0 <= k && s == QueueAll(s0, s0.seg[g].log[k0..k])
  }

  /** ScannedTo, folded. */
  ghost predicate Scans(a: Arena, s0: State, g: nat, k0: nat, s: State, k: nat, off: nat, depth: nat := 3) {
    if depth == 0 then ScannedTo(a, s0, g, k0, s, k, off) else Scans(a, s0, g, k0, s, k, off, depth - 1)
  }

  lemma UnfoldScans(a: Arena, s0: State, g: nat, k0: nat, s: State, k: nat, off: nat)
    ensures Scans(a, s0, g, k0, s, k, off) <==> ScannedTo(a, s0, g, k0, s, k, off)
  {
    assert Scans(a, s0, g, k0, s, k, off, 3) == Scans(a, s0, g, k0, s, k, off, 2);
    assert Scans(a, s0, g, k0, s, k, off, 1) == Scans(a, s0, g, k0, s, k, off, 0);
  }

  lemma ScanBegins(a: Arena, s: State, g: nat, k: nat, off: nat)
    requires Ready(s, a) && Scanning(s, g, k, off)
    ensures Scans(a, s, g, k, s, k, off) && g < |s.seg| && off <= s.seg[g].size
  {
    assert s.seg[g].log[k..k] == [];
    UnfoldScans(a, s, g, k, s, k, off);
  }

  /** Where the scan stands: at the next item of the log, or behind the last. */
  lemma ScanHere(s: State, g: nat, k: nat, off: nat)
    requires Scanning(s, g, k, off) && off < s.seg[g].size
    ensures At(g, off) in s.item ==>
      k < |s.seg[g].log| && s.seg[g].log[k] == At(g, off) && s.seg[g].size - off >= HEADER
      && Scanning(s, g, k + 1, off + TotalSize(s.item[At(g, off)]))
    ensures At(g, off) !in s.item ==>
      Scanning(s, g, k, s.seg[g].size)
        && (s.seg[g].size - off >= HEADER ==> off + FillerStep(s.seg[g].size - off) == s.seg[g].size)
  {
    Step(s.item, s.seg[g], g, k, off);
  }

  lemma QueueOneMore(s0: State, log: seq<Ptr>, k0: nat, s: State, k: nat, p: Ptr)
    requires k0 <= k < |log| && log[k] == p && s == QueueAll(s0, log[k0..k])
    ensures Enqueue(s, p) == QueueAll(s0, log[k0..k + 1])
  {
    assert log[k0..k + 1][..k - k0] == log[k0..k] && log[k0..k + 1][k - k0] == p;
  }

  lemma ScanItem(a: Arena, s: State, g: nat, k: nat, off: nat)
    requires Ready(s, a) && Scanning(s, g, k, off) && off < s.seg[g].size && At(g, off) in s.item
    ensures Ready(Enqueue(s, At(g, off)), a)
    ensures Scanning(Enqueue(s, At(g, off)), g, k + 1, off + TotalSize(s.item[At(g, off)]))
  {
    var p := At(g, off);
    ScanHere(s, g, k, off);
    QueueReady(s, a, p);
    QueueOne(s, p);
    UnfoldReady(Enqueue(s, p), a);
    ScanKept(s, Enqueue(s, p), g, k + 1, off + TotalSize(s.item[p]));
  }

  lemma ScanPassesItem(a: Arena, s0: State, g: nat, k0: nat, s: State, k: nat, off: nat)
    requires Scans(a, s0, g, k0, s, k, off) && g < |s.seg| && off < s.seg[g].size && At(g, off) in s.item
    ensures s.seg[g].size - off >= HEADER && off + TotalSize(s.item[At(g, off)]) <= s.seg[g].size
    ensures ScannedTo(a, s0, g, k0, Enqueue(s, At(g, off)), k + 1, off + TotalSize(s.item[At(g, off)]))
  {
    UnfoldScans(a, s0, g, k0, s, k, off);
    ScanHere(s, g, k, off);
    ScanItem(a, s, g, k, off);
    QueueOneMore(s0, s0.seg[g].log, k0, s, k, At(g, off));
    QueueOne(s, At(g, off));
  }

  /** One turn of the scan: over an item. */
  lemma ScanNextItem(a: Arena, s0: State, g: nat, k0: nat, s: State, k: nat, off: nat)
    requires Scans(a, s0, g, k0, s, k, off) && g < |s.seg| && off < s.seg[g].size && At(g, off) in s.item
    ensures s.seg[g].size - off >= HEADER && off + TotalSize(s.item[At(g, off)]) <= s.seg[g].size
    ensures Scans(a, s0, g, k0, Enqueue(s, At(g, off)), k + 1, off + TotalSize(s.item[At(g, off)]))
  {
    ScanPassesItem(a, s0, g, k0, s, k, off);
    UnfoldScans(a, s0, g, k0, Enqueue(s, At(g, off)), k + 1, off + TotalSize(s.item[At(g, off)]));
  }

  /** Or over the tail. */
  lemma ScanNextTail(a: Arena, s0: State, g: nat, k0: nat, s: State, k: nat, off: nat)
    requires Scans(a, s0, g, k0, s, k, off) && g < |s.seg| && off < s.seg[g].size && At(g, off) !in s.item
    ensures Scans(a, s0, g, k0, s, k, s.seg[g].size)
    ensures s.seg[g].size - off >= HEADER ==> off + FillerStep(s.seg[g].size - off) == s.seg[g].size
  {
    UnfoldScans(a, s0, g, k0, s, k, off);
    ScanHere(s, g, k, off);
    UnfoldScans(a, s0, g, k0, s, k, s.seg[g].size);
  }

  /** A scan that has reached the end has seen every item. */
  lemma ScanEnds(a: Arena, s0: State, g: nat, k0: nat, s: State, k: nat, off: nat)
    requires Scans(a, s0, g, k0, s, k, off)
    ensures ScannedTo(a, s0, g, k0, s, k, off) && (off == s.seg[g].size ==> k == |s.seg[g].log|)
  {
    UnfoldScans(a, s0, g, k0, s, k, off);
    if off == s.seg[g].size { Through(s.item, s.seg[g], g, k); }
  }

  // ---------------------------------------------------------------------------
  // The scan wherever it starts

  /** What the scan leaves, how far it got, and whether it came to bytes that are neither an item
      nor a filler. */
  datatype Scanned = Scanned(state: State, off: nat, astray: bool)

  /** The tail of g begins at off and was given up. */
  predicate IsFiller(s: State, g: nat, off: nat)
    requires g < |s.seg|
  {
    s.seg[g].filled && off == Allocated(s.item, s.seg[g].log)
  }

  /** The last loop of ialloc_maintenance from any offset of any segment, as far as it reads what
      was written there. */
  function ScanRun(s: State, g: nat, off: nat, size: nat, cqsize: nat): Scanned
    requires g < |s.seg|
    decreases size - off
  {
    if off >= size || |s.queue| >= cqsize then Scanned(s, off, false)
    else if size - off < HEADER then Scanned(s, size, false)
    else if At(g, off) in s.item then
      ScanRun(Enqueue(s, At(g, off)), g, off + TotalSize(s.item[At(g, off)]), size, cqsize)
    else if IsFiller(s, g, off) then ScanRun(s, g, off + FillerStep(size - off), size, cqsize)
    else Scanned(s, off, true)
  }

  lemma ScanRunItem(s: State, g: nat, off: nat, size: nat, cqsize: nat)
    requires g < |s.seg| && off < size && |s.queue| < cqsize && size - off >= HEADER && At(g, off) in s.item
    ensures ScanRun(s, g, off, size, cqsize)
         == ScanRun(Enqueue(s, At(g, off)), g, off + TotalSize(s.item[At(g, off)]), size, cqsize)
  {}

  /** What the scan leaves alone. */
  ghost predicate Undisturbed(s: State, t: State) {
    SameContents(s.item, t.item) && SameStore(s, t) && t.seg == s.seg && s.queue <= t.queue
  }

  lemma EnqueueIs(s: State, a: Arena, p: Ptr)
    requires Ready(s, a)
    ensures Ready(Enqueue(s, p), a) && Undisturbed(s, Enqueue(s, p))
  {
    QueueReady(s, a, p);
    QueueOne(s, p);
  }

  lemma UndisturbedReflexive(s: State)
    ensures Undisturbed(s, s)
  {}

  lemma UndisturbedTransitive(s: State, t: State, u: State)
    requires Undisturbed(s, t) && Undisturbed(t, u)
    ensures Undisturbed(s, u)
  {
    SameStoreTransitive(s, t, u);
  }

  /** Wherever it starts, the scan changes no value and adds to the queue only. */
  lemma {:induction false} ScanRunKeeps(s: State, a: Arena, g: nat, off: nat, size: nat, cqsize: nat, t: State)
    requires Ready(s, a) && g < |s.seg| && t == ScanRun(s, g, off, size, cqsize).state
    ensures Ready(t, a) && Undisturbed(s, t)
    decreases size - off
  {
    if off >= size || |s.queue| >= cqsize || size - off < HEADER {
      UndisturbedReflexive(s);
    } else if At(g, off) in s.item {
      var p := At(g, off);
      EnqueueIs(s, a, p);
      ScanRunKeeps(Enqueue(s, p), a, g, off + TotalSize(s.item[p]), size, cqsize, t);
      UndisturbedTransitive(s, Enqueue(s, p), t);
    } else if IsFiller(s, g, off) {
      ScanRunKeeps(s, a, g, off + FillerStep(size - off), size, cqsize, t);
    } else {
      UndisturbedReflexive(s);
    }
  }

  ghost predicate EndInside(item: map<Ptr, Item>, g: nat, size: nat) {
    forall off: nat | At(g, off) in item :: off + TotalSize(item[At(g, off)]) <= size
  }

  lemma ItemsEndInside(s: State, a: Arena, g: nat)
    requires Ready(s, a) && g < |s.seg|
    ensures EndInside(s.item, g, s.seg[g].size)
  {
    UnfoldReady(s, a);
    forall off: nat | At(g, off) in s.item ensures off + TotalSize(s.item[At(g, off)]) <= s.seg[g].size {
      assert LoggedIn(s.seg, At(g, off)) && SegOk(s.item, s.seg[g], g);
      var k :| 0 <= k < |s.seg[g].log| && s.seg[g].log[k] == At(g, off);
      NextItem(s.item, s.seg[g], g, k);
    }
  }

  lemma EnqueueEndsInside(s: State, p: Ptr, g: nat, size: nat)
    requires EndInside(s.item, g, size)
    ensures EndInside(Enqueue(s, p).item, g, size)
  {}

  /** The scan stops inside the segment: at its end, with the queue full, or astray. */
  lemma {:induction false} ScanRunStops(s: State, g: nat, off: nat, size: nat, cqsize: nat)
    requires g < |s.seg| && EndInside(s.item, g, size) && off <= size
    ensures var r := ScanRun(s, g, off, size, cqsize);
      && off <= r.off <= size && r.state.seg == s.seg
      && (if r.astray then r.off < size && At(g, r.off) !in r.state.item && !IsFiller(r.state, g, r.off)
          else r.off == size || |r.state.queue| >= cqsize)
    decreases size - off
  {
    if off >= size || |s.queue| >= cqsize || size - off < HEADER {
    } else if At(g, off) in s.item {
      EnqueueEndsInside(s, At(g, off), g, size);
      ScanRunItem(s, g, off, size, cqsize);
      ScanRunStops(Enqueue(s, At(g, off)), g, off + TotalSize(s.item[At(g, off)]), size, cqsize);
    } else if IsFiller(s, g, off) {
      ScanRunStops(s, g, off + FillerStep(size - off), size, cqsize);
    }
  }

  /** Behind the last item of a segment that is full there is a filler. */
  lemma TailIsFiller(s: State, g: nat, k: nat, off: nat)
    requires Scanning(s, g, k, off) && off < s.seg[g].size && At(g, off) !in s.item
    ensures IsFiller(s, g, off)
  {
    ScanHere(s, g, k, off);
    Step(s.item, s.seg[g], g, k, off);
    UnfoldFull(s.item, s.seg[g], g);
    assert s.seg[g].log[..k] == s.seg[g].log;
  }

  /** From an item boundary of a full segment the scan does not go astray: it passes the items of
      the log in order. */
  lemma {:induction false} ScanRunInOrder(a: Arena, s0: State, g: nat, k0: nat, s: State, k: nat, off: nat,
    cqsize: nat) returns (k': nat)
    requires Scans(a, s0, g, k0, s, k, off) && g < |s.seg| && off <= s.seg[g].size
    ensures var r := ScanRun(s, g, off, s.seg[g].size, cqsize);
      && !r.astray && Scans(a, s0, g, k0, r.state, k', r.off)
      && (|r.state.queue| >= cqsize || r.off == s.seg[g].size)
      && (|s.queue| >= cqsize ==> k' == k)
    decreases s.seg[g].size - off
  {
    var size := s.seg[g].size;
    k' := k;
    if off < size && |s.queue| < cqsize {
      if At(g, off) in s.item {
        ScanNextItem(a, s0, g, k0, s, k, off);
        k' := ScanRunInOrder(a, s0, g, k0, Enqueue(s, At(g, off)), k + 1, off + TotalSize(s.item[At(g, off)]), cqsize);
      } else {
        ScanNextTail(a, s0, g, k0, s, k, off);
        ScansAt(a, s0, g, k0, s, k, off);
        TailIsFiller(s, g, k, off);
      }
    }
  }

  lemma ScansAt(a: Arena, s0: State, g: nat, k0: nat, s: State, k: nat, off: nat)
    requires Scans(a, s0, g, k0, s, k, off)
    ensures Scanning(s, g, k, off)
  {
    UnfoldScans(a, s0, g, k0, s, k, off);
  }
}
