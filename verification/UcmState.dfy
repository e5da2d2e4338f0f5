/** The manager's state: page descriptors, the lists they sit on, the three indexes, the
    per-process byte counters and free rings, and each operation as a function on it. */
module UcmState {
  import Hotness

  const PAGE_SIZE: int := 0x20_0000
  const PEBS_MIGRATE_RATE: nat := 0x1000_0000
  const MIN_MIGRATION_EPOCH_INTERVAL: nat := 5
  const LEVELS: nat := Hotness.NUM_HOTNESS_LEVELS
  const MAX_DEMOTION_TIER: nat := LEVELS - 2

  type PageId = nat
  type Pid = int

  datatype Option<T> = None | Some(value: T)

  /** A frame: a tier and an offset into its device. */
  datatype Frame = Frame(fast: bool, offset: nat)

  /** A page descriptor; pid is -1 while the page is free.  `entry` is the process recorded
      in the embedded entry of the global offset index, if that entry is in use. */
  datatype Page = Page(frame: Frame, present: bool, pid: Pid, va: nat, hot: nat, samples: nat,
                       inFreeRing: bool, entry: Option<Pid>, lastMigrated: nat)

  /** The two global free lists and the hotness lists of each process and tier. */
  datatype ListId = Free(fast: bool) | Hot(pid: Pid, tierFast: bool, level: nat)

  datatype Proc = Proc(fastBytes: int, slowBytes: int, maxFast: nat)

  /** `owner` (which descriptor a frame belongs to) and `log` (the migrations so far) are not
      in the program: they record what the invariants speak about. */
  datatype State = State(
    page: seq<Page>,
    lists: map<ListId, seq<PageId>>,
    va: map<(Pid, nat), PageId>,
    cxl: map<(Pid, nat), PageId>,
    pa: map<nat, PageId>,
    proc: map<Pid, Proc>,
    ring: map<Pid, seq<PageId>>,
    epoch: nat,
    owner: map<Frame, PageId>,
    log: seq<(PageId, nat)>)

  // ---------------------------------------------------------------------------
  // Lists: a list nobody has touched yet is empty

  function At(lists: map<ListId, seq<PageId>>, id: ListId): seq<PageId> {
    if id in lists then lists[id] else []
  }

  /** enqueue_page puts the page in front. */
  function Enqueue(lists: map<ListId, seq<PageId>>, id: ListId, p: PageId): map<ListId, seq<PageId>> {
    lists[id := [p] + At(lists, id)]
  }

  /** page_list_remove, at position k. */
  function Unlink(lists: map<ListId, seq<PageId>>, id: ListId, k: nat): map<ListId, seq<PageId>>
    requires k < |At(lists, id)|
  {
    var s := At(lists, id);
    lists[id := s[..k] + s[k + 1..]]
  }

  function IndexOf(s: seq<PageId>, p: PageId): (k: nat)
    requires p in s
    ensures k < |s| && s[k] == p
  {
    if s[0] == p then 0 else 1 + IndexOf(s[1..], p)
  }

  /** The list a descriptor belongs on: its tier, its owner and its hotness decide. */
  function Home(g: Page): ListId {
    if !g.present then Free(g.frame.fast) else Hot(g.pid, g.frame.fast, g.hot)
  }

  // ---------------------------------------------------------------------------
  // Deleting by entry: whatever key the entry was added under

  function DeleteEntry<K>(m: map<K, PageId>, p: PageId): map<K, PageId> {
    map k | k in m && m[k] != p :: m[k]
  }

  // ---------------------------------------------------------------------------
  // Initialisation

  function FreshPage(f: Frame): Page { Page(f, false, -1, 0, Hotness.COLD, 0, false, None, 0) }

  function FreshPages(fast: bool, n: nat): seq<Page> {
    seq(n, i requires 0 <= i < n => FreshPage(Frame(fast, i * PAGE_SIZE)))
  }

  /** Ids lo..hi, the highest in front, as repeated enqueueing leaves them. */
  function Descending(lo: nat, hi: nat): seq<PageId>
    requires lo <= hi
    decreases hi
  {
    if lo == hi then [] else [hi - 1] + Descending(lo, hi - 1)
  }

  /** The descriptor created for a frame. */
  function CreatedFor(nFast: nat, f: Frame): PageId {
    if f.fast then f.offset / PAGE_SIZE else nFast + f.offset / PAGE_SIZE
  }

  function Frames(nFast: nat, nSlow: nat): set<Frame> {
    (set i | 0 <= i < nFast :: Frame(true, i * PAGE_SIZE)) + (set i | 0 <= i < nSlow :: Frame(false, i * PAGE_SIZE))
  }

  /** The state after mm_init with nFast and nSlow huge pages. */
  function Init(nFast: nat, nSlow: nat): State {
    State(FreshPages(true, nFast) + FreshPages(false, nSlow),
          map[Free(true) := Descending(0, nFast), Free(false) := Descending(nFast, nFast + nSlow)],
          map[], map[], map[], map[], map[], 0,
          map f | f in Frames(nFast, nSlow) :: CreatedFor(nFast, f),
          [])
  }

  /** A new process, with nothing allocated. */
  function AddProcess(s: State, pid: Pid, maxFast: nat): State
    requires pid >= 0 && pid !in s.proc
  {
    s.(proc := s.proc[pid := Proc(0, 0, maxFast)], ring := s.ring[pid := []])
  }

  // ---------------------------------------------------------------------------
  // Allocation

  datatype Preference = FastPreferred | SlowPreferred

  /** Which tier the allocator takes a page from, if any. */
  function ChooseTier(s: State, pid: Pid, pref: Preference): Option<bool>
    requires pid in s.proc
  {
    var anyFast, anySlow := At(s.lists, Free(true)) != [], At(s.lists, Free(false)) != [];
    match pref
    case FastPreferred =>
      if s.proc[pid].fastBytes < s.proc[pid].maxFast && anyFast then Some(true)
      else if anySlow then Some(false) else None
    case SlowPreferred =>
      if anySlow then Some(false) else if anyFast then Some(true) else None
  }

  function AddBytes(r: Proc, fast: bool, bytes: int): Proc {
    if fast then r.(fastBytes := r.fastBytes + bytes) else r.(slowBytes := r.slowBytes + bytes)
  }

  /** pa_proc_map_add: the entry embedded in the page goes into the global offset index. */
  function AddToPa(s: State, pid: Pid, p: PageId): State
    requires p < |s.page|
  {
    s.(pa := s.pa[s.page[p].frame.offset := p], page := s.page[p := s.page[p].(entry := Some(pid))])
  }

  function AddOffset(cxl: map<(Pid, nat), PageId>, pid: Pid, offset: nat, p: PageId): map<(Pid, nat), PageId> {
    if (pid, offset) in cxl then cxl else cxl[(pid, offset) := p]
  }

  /** mm_add_page_to_cxl: an offset already indexed ends it. */
  function AddToCxl(s: State, pid: Pid, p: PageId): State
    requires p < |s.page|
  {
    var offset := s.page[p].frame.offset;
    if (pid, offset) in s.cxl then s else AddToPa(s.(cxl := AddOffset(s.cxl, pid, offset, p)), pid, p)
  }

  /** The slow-tier part of mm_add_page: the global index is added to in any case. */
  function AddSlow(s: State, pid: Pid, p: PageId): State
    requires p < |s.page|
  {
    AddToPa(s.(cxl := AddOffset(s.cxl, pid, s.page[p].frame.offset, p)), pid, p)
  }

  function RemoveFromPa(s: State, p: PageId): State
    requires p < |s.page|
  {
    if s.page[p].entry.None? then s
    else s.(pa := DeleteEntry(s.pa, p), page := s.page[p := s.page[p].(entry := None)])
  }

  /** One page of ucm_allocate_memory: the oldest free page of the tier becomes the page at
      va. */
  function TakePage(s: State, pid: Pid, va: nat, fast: bool): State
    requires pid in s.proc
    requires At(s.lists, Free(fast)) != []
    requires var free := At(s.lists, Free(fast)); free[|free| - 1] < |s.page|
  {
    var free := At(s.lists, Free(fast));
    var p := free[|free| - 1];
    var s1 := s.(lists := Unlink(s.lists, Free(fast), |free| - 1),
                 page := s.page[p := s.page[p].(present := true, pid := pid, va := va)],
                 proc := s.proc[pid := AddBytes(s.proc[pid], fast, PAGE_SIZE)]);
    var s2 := s1.(va := if (pid, va) in s1.va then s1.va else s1.va[(pid, va) := p]);
    var s3 := if fast then s2 else AddSlow(s2, pid, p);
    s3.(lists := Enqueue(s3.lists, Hot(pid, fast, Hotness.COLD), p))
  }

  // ---------------------------------------------------------------------------
  // Freeing: index removal at once, the rest when the ring is drained

  function RemovePage(s: State, pid: Pid, p: PageId): State
    requires p < |s.page| && pid in s.ring
  {
    var s1 := s.(va := DeleteEntry(s.va, p));
    var s2 := if s.page[p].frame.fast then s1 else RemoveFromPa(s1.(cxl := DeleteEntry(s1.cxl, p)), p);
    if s.page[p].inFreeRing then s2
    else s2.(page := s2.page[p := s2.page[p].(inFreeRing := true)], ring := s2.ring[pid := s2.ring[pid] + [p]])
  }

  function Freed(g: Page): Page {
    g.(present := false, pid := -1, hot := Hotness.COLD, samples := 0, inFreeRing := false)
  }

  /** One turn of handle_free_page_ring. */
  function DrainOne(s: State, pid: Pid): State
    requires pid in s.ring && s.ring[pid] != [] && pid in s.proc
    requires s.ring[pid][0] < |s.page|
    requires s.ring[pid][0] in At(s.lists, Home(s.page[s.ring[pid][0]]))
  {
    var p := s.ring[pid][0];
    var g := s.page[p];
    var l1 := Unlink(s.lists, Home(g), IndexOf(At(s.lists, Home(g)), p));
    s.(ring := s.ring[pid := s.ring[pid][1..]],
       page := s.page[p := Freed(g)],
       lists := Enqueue(l1, Free(g.frame.fast), p),
       proc := s.proc[pid := AddBytes(s.proc[pid], g.frame.fast, -PAGE_SIZE)])
  }

  // ---------------------------------------------------------------------------
  // Telemetry

  function WithHot(g: Page, level: nat): Page { g.(hot := level) }

  /** make_hot and make_cold: the same move, named for the direction. */
  function Rehot(s: State, p: PageId, level: nat): State
    requires p < |s.page| && p in At(s.lists, Home(s.page[p]))
  {
    var g := s.page[p];
    if g.hot == level then s
    else
      var l1 := Unlink(s.lists, Home(g), IndexOf(At(s.lists, Home(g)), p));
      var g1 := WithHot(g, level);
      s.(page := s.page[p := g1], lists := Enqueue(l1, Home(g1), p))
  }

  function Sampled(g: Page): Page { g.(samples := g.samples + 1) }

  function Sample(s: State, p: PageId): State
    requires p < |s.page|
  {
    s.(page := s.page[p := Sampled(s.page[p])])
  }

  // ---------------------------------------------------------------------------
  // Migration

  predicate Eligible(g: Page, epoch: nat) {
    epoch >= (if g.lastMigrated == 0 then 0 else g.lastMigrated + MIN_MIGRATION_EPOCH_INTERVAL)
  }

  /** The first eligible position of a list, or its length. */
  function FirstEligible(page: seq<Page>, list: seq<PageId>, epoch: nat): (k: nat)
    ensures k <= |list|
  {
    if list == [] then 0
    else if list[0] < |page| && Eligible(page[list[0]], epoch) then 0
    else 1 + FirstEligible(page, list[1..], epoch)
  }

  datatype Pick = Pick(level: nat, k: nat)

  /** Scanning the slow lists from level - 1 down. */
  function HottestSlow(s: State, pid: Pid, level: nat): (r: Option<Pick>)
    ensures r.Some? ==> r.value.k < |At(s.lists, Hot(pid, false, r.value.level))|
  {
    if level == 0 then None
    else
      var list := At(s.lists, Hot(pid, false, level - 1));
      var k := FirstEligible(s.page, list, s.epoch);
      if k < |list| then Some(Pick(level - 1, k)) else HottestSlow(s, pid, level - 1)
  }

  /** Scanning the fast lists from a level up to the limit. */
  function ColdestFast(s: State, pid: Pid, level: nat, limit: nat): (r: Option<Pick>)
    requires level <= limit
    ensures r.Some? ==> r.value.k < |At(s.lists, Hot(pid, true, r.value.level))|
    decreases |s.page|, limit - level
  {
    if level == limit then None
    else
      var list := At(s.lists, Hot(pid, true, level));
      var k := FirstEligible(s.page, list, s.epoch);
      if k < |list| then Some(Pick(level, k)) else ColdestFast(s, pid, level + 1, limit)
  }

  function Candidate(s: State, pid: Pid, up: bool): (r: Option<Pick>)
    ensures r.Some? ==> r.value.k < |At(s.lists, Hot(pid, !up, r.value.level))|
  {
    if up then HottestSlow(s, pid, LEVELS) else ColdestFast(s, pid, 0, MAX_DEMOTION_TIER)
  }

  /** promote_one_page or demote_one_page: the descriptor gets a new frame on the other tier,
      the offset indexes follow, bytes move from one counter to the other. */
  function Migrate(s: State, pid: Pid, p: PageId, f: Frame): State
    requires p < |s.page| && pid in s.proc
  {
    var s1 := s.(page := s.page[p := s.page[p].(frame := f, lastMigrated := s.epoch)],
                 log := s.log + [(p, s.epoch)],
                 proc := s.proc[pid := AddBytes(AddBytes(s.proc[pid], f.fast, PAGE_SIZE), !f.fast, -PAGE_SIZE)]);
    if f.fast then RemoveFromPa(s1.(cxl := DeleteEntry(s1.cxl, p)), p) else AddToCxl(s1, pid, p)
  }

  /** The candidate p takes the frame of the free page q and q takes p's; both go on their new
      lists. */
  function Exchanged(s: State, pid: Pid, up: bool, p: PageId, q: PageId, hot: nat): State
    requires p < |s.page| && q < |s.page| && pid in s.proc
  {
    var was, dest := s.page[p].frame, s.page[q].frame;
    var s1 := Migrate(s, pid, p, dest);
    var s2 := s1.(page := s1.page[q := s1.page[q].(frame := was, present := false)],
                  owner := s1.owner[dest := p][was := q]);
    s2.(page := s2.page[p := WithHot(s2.page[p], hot)],
        lists := Enqueue(Enqueue(s2.lists, Hot(pid, up, hot), p), Free(!up), q))
  }

  /** With the candidate p in hand: pair it with the oldest free page of the other tier.  A page
      to be demoted is first looked up by its address, and left in hand if it is not found. */
  function Paired(s: State, pid: Pid, up: bool, p: PageId, hot: nat): State
    requires p < |s.page| && pid in s.proc
    requires var free := At(s.lists, Free(up)); free != [] ==> free[|free| - 1] < |s.page|
  {
    var free := At(s.lists, Free(up));
    if free == [] then
      s.(lists := Enqueue(s.lists, Hot(pid, !up, hot), p), page := s.page[p := WithHot(s.page[p], hot)])
    else
      var s1 := s.(lists := Unlink(s.lists, Free(up), |free| - 1));
      if !up && (pid, s.page[p].va) !in s.va then s1
      else Exchanged(s1, pid, up, p, free[|free| - 1], hot)
  }

  /** One turn of process_migrate_up_bytes (up) or process_migrate_down_bytes: pick a
      candidate, unlink it, pair it with a free page.  A promoted page gets the level its
      counters give now. */
  function MigrateOne(s: State, pid: Pid, up: bool, level: nat): State
    requires pid in s.proc && Candidate(s, pid, up).Some?
    requires ListsInRange(s)
  {
    var pick := Candidate(s, pid, up).value;
    var from := Hot(pid, !up, pick.level);
    var p := At(s.lists, from)[pick.k];
    InRange(s, from, pick.k);
    var s1 := s.(lists := Unlink(s.lists, from, pick.k));
    OtherList(s.lists, from, pick.k, Free(up));
    LastInRange(s, Free(up));
    Paired(s1, pid, up, p, if up then level else s.page[p].hot)
  }

  lemma OtherList(lists: map<ListId, seq<PageId>>, id: ListId, k: nat, other: ListId)
    requires k < |At(lists, id)| && other != id
    ensures At(Unlink(lists, id, k), other) == At(lists, other)
  {}

  /** Every list entry is a descriptor. */
  ghost predicate ListsInRange(s: State) {
    forall id, k | 0 <= k < |At(s.lists, id)| :: At(s.lists, id)[k] < |s.page|
  }

  lemma LastInRange(s: State, id: ListId)
    requires ListsInRange(s)
    ensures At(s.lists, id) != [] ==> At(s.lists, id)[|At(s.lists, id)| - 1] < |s.page|
  {}

  lemma InRange(s: State, id: ListId, k: nat)
    requires ListsInRange(s) && k < |At(s.lists, id)|
    ensures At(s.lists, id)[k] < |s.page|
  {}
}
