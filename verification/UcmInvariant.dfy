/** What every operation of the manager keeps, part by part. */
module UcmInvariant {
  import Hotness
  import opened UcmState

  // ---------------------------------------------------------------------------
  // An index holds exactly the descriptors that have a key, under that key

  ghost predicate IndexInv<K(!new)>(page: seq<Page>, m: map<K, PageId>, key: Page -> Option<K>) {
    && (forall k | k in m :: m[k] < |page| && key(page[m[k]]) == Some(k))
    && (forall p | 0 <= p < |page| && key(page[p]).Some? :: key(page[p]).value in m && m[key(page[p]).value] == p)
  }

  lemma IndexAdd<K(!new)>(page: seq<Page>, m: map<K, PageId>, key: Page -> Option<K>, p: PageId, g: Page, k: K)
    requires IndexInv(page, m, key) && p < |page|
    requires key(page[p]) == None && key(g) == Some(k) && k !in m
    ensures IndexInv(page[p := g], m[k := p], key)
  {}

  lemma IndexDrop<K(!new)>(page: seq<Page>, m: map<K, PageId>, key: Page -> Option<K>, p: PageId, g: Page)
    requires IndexInv(page, m, key) && p < |page| && key(g) == None
    ensures IndexInv(page[p := g], DeleteEntry(m, p), key)
  {
    var page', m' := page[p := g], DeleteEntry(m, p);
    forall q | 0 <= q < |page'| && key(page'[q]).Some?
      ensures key(page'[q]).value in m' && m'[key(page'[q]).value] == q
    {
      assert page'[q] == page[q];
    }
  }

  lemma IndexKeep<K(!new)>(page: seq<Page>, m: map<K, PageId>, key: Page -> Option<K>, p: PageId, g: Page)
    requires IndexInv(page, m, key) && p < |page| && key(g) == key(page[p])
    ensures IndexInv(page[p := g], m, key)
  {}

  lemma IndexSwap<K(!new)>(page: seq<Page>, m: map<K, PageId>, key: Page -> Option<K>,
                           p: PageId, g: Page, q: PageId, h: Page, k: K, l: K)
    requires IndexInv(page, m, key) && p < |page| && q < |page| && p != q
    requires key(page[p]) == key(h) == Some(k) && key(page[q]) == key(g) == Some(l)
    ensures IndexInv(page[p := g][q := h], m[l := p][k := q], key)
  {}

  lemma DeleteMissing<K(!new)>(page: seq<Page>, m: map<K, PageId>, key: Page -> Option<K>, p: PageId)
    requires IndexInv(page, m, key) && p < |page| && key(page[p]) == None
    ensures DeleteEntry(m, p) == m
  {
    forall k | k in m ensures m[k] != p {}
  }

  // ---------------------------------------------------------------------------
  // The keys

  /** In use and not waiting to be freed. */
  predicate Live(g: Page) { g.present && !g.inFreeRing }

  predicate Tracked(g: Page) { Live(g) && !g.frame.fast }

  function VaKey(g: Page): Option<(Pid, nat)> {
    if Live(g) then Some((g.pid, g.va)) else None
  }

  function CxlKey(g: Page): Option<(Pid, nat)> {
    if Tracked(g) then Some((g.pid, g.frame.offset)) else None
  }

  function PaKey(g: Page): Option<nat> {
    if Tracked(g) then Some(g.frame.offset) else None
  }

  function FrameKey(g: Page): Option<Frame> { Some(g.frame) }

  // ---------------------------------------------------------------------------
  // Lists

  function Placed(page: seq<Page>, hand: set<PageId>, id: ListId, p: PageId): nat {
    if p < |page| && p !in hand && Home(page[p]) == id then 1 else 0
  }

  /** Every descriptor is once on the list it belongs on and on no other; those in hand are
      on none. */
  ghost predicate ListInv(page: seq<Page>, lists: map<ListId, seq<PageId>>, hand: set<PageId>) {
    forall id, p: PageId :: multiset(At(lists, id))[p] == Placed(page, hand, id, p)
  }

  lemma UnlinkOk(page: seq<Page>, lists: map<ListId, seq<PageId>>, hand: set<PageId>, id: ListId, k: nat)
    requires ListInv(page, lists, hand) && k < |At(lists, id)|
    ensures var p := At(lists, id)[k];
      && p < |page| && p !in hand && Home(page[p]) == id
      && ListInv(page, Unlink(lists, id, k), hand + {p})
  {
    var s, l' := At(lists, id), Unlink(lists, id, k);
    var p := s[k];
    assert s == s[..k] + [p] + s[k + 1..];
    assert multiset(s) == multiset(s[..k] + s[k + 1..]) + multiset{p};
    assert multiset(s)[p] >= 1;
    forall i, q: PageId
      ensures multiset(At(l', i))[q] == Placed(page, hand + {p}, i, q)
    {
      assert multiset(At(lists, i))[q] == Placed(page, hand, i, q);
    }
  }

  lemma EnqueueOk(page: seq<Page>, lists: map<ListId, seq<PageId>>, hand: set<PageId>, p: PageId)
    requires ListInv(page, lists, hand) && p in hand && p < |page|
    ensures ListInv(page, Enqueue(lists, Home(page[p]), p), hand - {p})
  {
    var id := Home(page[p]);
    var l' := Enqueue(lists, id, p);
    forall i, q: PageId
      ensures multiset(At(l', i))[q] == Placed(page, hand - {p}, i, q)
    {
      assert multiset(At(lists, i))[q] == Placed(page, hand, i, q);
    }
  }

  lemma HandChange(page: seq<Page>, lists: map<ListId, seq<PageId>>, hand: set<PageId>, p: PageId, g: Page)
    requires ListInv(page, lists, hand) && p < |page|
    requires p in hand || Home(g) == Home(page[p])
    ensures ListInv(page[p := g], lists, hand)
  {
    forall i, q: PageId
      ensures multiset(At(lists, i))[q] == Placed(page[p := g], hand, i, q)
    {
      assert multiset(At(lists, i))[q] == Placed(page, hand, i, q);
    }
  }

  lemma OnItsList(page: seq<Page>, lists: map<ListId, seq<PageId>>, p: PageId)
    requires ListInv(page, lists, {}) && p < |page|
    ensures p in At(lists, Home(page[p]))
  {
    assert multiset(At(lists, Home(page[p])))[p] == 1;
  }

  lemma ListEntry(page: seq<Page>, lists: map<ListId, seq<PageId>>, id: ListId, k: nat)
    requires ListInv(page, lists, {}) && k < |At(lists, id)|
    ensures At(lists, id)[k] < |page| && Home(page[At(lists, id)[k]]) == id
  {
    UnlinkOk(page, lists, {}, id, k);
  }

  lemma AllInRange(s: State)
    requires ListInv(s.page, s.lists, {})
    ensures ListsInRange(s)
  {
    forall id, k | 0 <= k < |At(s.lists, id)| ensures At(s.lists, id)[k] < |s.page| {
      ListEntry(s.page, s.lists, id, k);
    }
  }

  // ---------------------------------------------------------------------------
  // Byte counters

  predicate Owned(g: Page, pid: Pid, fast: bool) { g.present && g.pid == pid && g.frame.fast == fast }

  function Count(page: seq<Page>, pid: Pid, fast: bool): nat {
    if page == [] then 0
    else (if Owned(page[|page| - 1], pid, fast) then 1 else 0) + Count(page[..|page| - 1], pid, fast)
  }

  lemma {:induction false} CountUpdate(page: seq<Page>, p: PageId, g: Page, pid: Pid, fast: bool)
    requires p < |page|
    ensures Count(page[p := g], pid, fast)
         == Count(page, pid, fast) - (if Owned(page[p], pid, fast) then 1 else 0)
           + (if Owned(g, pid, fast) then 1 else 0)
  {
    var n := |page| - 1;
    if p < n {
      CountUpdate(page[..n], p, g, pid, fast);
      assert page[p := g][..n] == page[..n][p := g];
    } else {
      assert page[p := g][..n] == page[..n];
    }
  }

  ghost predicate BytesInv(page: seq<Page>, proc: map<Pid, Proc>) {
    forall pid | pid in proc ::
      && proc[pid].fastBytes == PAGE_SIZE * Count(page, pid, true)
      && proc[pid].slowBytes == PAGE_SIZE * Count(page, pid, false)
  }

  /** A page changes hands or tier and the counters of one process follow. */
  lemma BytesStep(page: seq<Page>, proc: map<Pid, Proc>, p: PageId, g: Page, pid: Pid, r: Proc)
    requires BytesInv(page, proc) && p < |page| && pid in proc
    requires page[p].present ==> page[p].pid == pid
    requires g.present ==> g.pid == pid
    requires r.fastBytes == proc[pid].fastBytes - (if Owned(page[p], pid, true) then PAGE_SIZE else 0)
                                                + (if Owned(g, pid, true) then PAGE_SIZE else 0)
    requires r.slowBytes == proc[pid].slowBytes - (if Owned(page[p], pid, false) then PAGE_SIZE else 0)
                                                + (if Owned(g, pid, false) then PAGE_SIZE else 0)
    ensures BytesInv(page[p := g], proc[pid := r])
  {
    forall i, fast: bool
      ensures Count(page[p := g], i, fast)
           == Count(page, i, fast) - (if Owned(page[p], i, fast) then 1 else 0) + (if Owned(g, i, fast) then 1 else 0)
    {
      CountUpdate(page, p, g, i, fast);
    }
  }

  lemma BytesKeep(page: seq<Page>, proc: map<Pid, Proc>, p: PageId, g: Page)
    requires BytesInv(page, proc) && p < |page|
    requires g.present == page[p].present
    requires g.present ==> g.frame.fast == page[p].frame.fast && g.pid == page[p].pid
    ensures BytesInv(page[p := g], proc)
  {
    forall i, fast: bool ensures Count(page[p := g], i, fast) == Count(page, i, fast) {
      CountUpdate(page, p, g, i, fast);
    }
  }

  // ---------------------------------------------------------------------------
  // Free rings

  function Waiting(page: seq<Page>, pid: Pid, p: PageId): nat {
    if p < |page| && page[p].inFreeRing && page[p].pid == pid then 1 else 0
  }

  /** A descriptor waits in the ring of its process exactly once while its flag is set. */
  ghost predicate RingInv(page: seq<Page>, ring: map<Pid, seq<PageId>>) {
    forall pid, p: PageId | pid in ring ::
      multiset(ring[pid])[p] == Waiting(page, pid, p)
  }

  lemma RingKeep(page: seq<Page>, ring: map<Pid, seq<PageId>>, p: PageId, g: Page)
    requires RingInv(page, ring) && p < |page|
    requires g.inFreeRing == page[p].inFreeRing && (g.inFreeRing ==> g.pid == page[p].pid)
    ensures RingInv(page[p := g], ring)
  {
    forall pid, q: PageId | pid in ring
      ensures multiset(ring[pid])[q] == Waiting(page[p := g], pid, q)
    {
      assert multiset(ring[pid])[q] == Waiting(page, pid, q);
    }
  }

  lemma RingPut(page: seq<Page>, ring: map<Pid, seq<PageId>>, p: PageId, g: Page)
    requires RingInv(page, ring) && p < |page| && !page[p].inFreeRing && g.inFreeRing && g.pid in ring
    ensures RingInv(page[p := g], ring[g.pid := ring[g.pid] + [p]])
  {
    var ring' := ring[g.pid := ring[g.pid] + [p]];
    forall pid, q: PageId | pid in ring'
      ensures multiset(ring'[pid])[q] == Waiting(page[p := g], pid, q)
    {
      assert multiset(ring[pid])[q] == Waiting(page, pid, q);
    }
  }

  lemma RingHead(page: seq<Page>, ring: map<Pid, seq<PageId>>, pid: Pid)
    requires RingInv(page, ring) && pid in ring && ring[pid] != []
    ensures var p := ring[pid][0]; p < |page| && page[p].inFreeRing && page[p].pid == pid
  {
    assert multiset(ring[pid])[ring[pid][0]] >= 1;
  }

  lemma RingGet(page: seq<Page>, ring: map<Pid, seq<PageId>>, pid: Pid, g: Page)
    requires RingInv(page, ring) && pid in ring && ring[pid] != [] && !g.inFreeRing
    ensures ring[pid][0] < |page|
    ensures RingInv(page[ring[pid][0] := g], ring[pid := ring[pid][1..]])
  {
    RingHead(page, ring, pid);
    var p := ring[pid][0];
    var ring' := ring[pid := ring[pid][1..]];
    assert ring[pid] == [p] + ring[pid][1..];
    forall i, q: PageId | i in ring'
      ensures multiset(ring'[i])[q] == Waiting(page[p := g], i, q)
    {
      assert multiset(ring[i])[q] == Waiting(page, i, q);
    }
  }

  // ---------------------------------------------------------------------------
  // Descriptor fields

  predicate PageOk(g: Page, pids: set<Pid>) {
    && (g.present ==> g.pid in pids && g.hot < LEVELS)
    && (!g.present ==> g.pid == -1 && g.hot == Hotness.COLD && g.samples == 0 && !g.inFreeRing)
    && g.entry == (if Tracked(g) then Some(g.pid) else None)
  }

  ghost predicate FieldInv(page: seq<Page>, pids: set<Pid>) {
    && (forall p | 0 <= p < |page| :: PageOk(page[p], pids))
    && (forall pid | pid in pids :: pid >= 0)
  }

  lemma FieldKeep(page: seq<Page>, pids: set<Pid>, p: PageId, g: Page)
    requires FieldInv(page, pids) && p < |page| && PageOk(g, pids)
    ensures FieldInv(page[p := g], pids)
  {}

  // ---------------------------------------------------------------------------
  // Migration times

  /** Two migrations of one page are far enough apart, unless the first was in epoch 0. */
  ghost predicate LogInv(page: seq<Page>, log: seq<(PageId, nat)>, epoch: nat) {
    && (forall p | 0 <= p < |page| :: page[p].lastMigrated <= epoch)
    && (forall i | 0 <= i < |log| :: log[i].0 < |page| && log[i].1 <= page[log[i].0].lastMigrated)
    && (forall i, j | 0 <= i < j < |log| && log[i].0 == log[j].0 ::
          log[i].1 == 0 || log[j].1 >= log[i].1 + MIN_MIGRATION_EPOCH_INTERVAL)
  }

  lemma LogKeep(page: seq<Page>, log: seq<(PageId, nat)>, epoch: nat, p: PageId, g: Page)
    requires LogInv(page, log, epoch) && p < |page| && g.lastMigrated == page[p].lastMigrated
    ensures LogInv(page[p := g], log, epoch)
  {}

  lemma LogAdd(page: seq<Page>, log: seq<(PageId, nat)>, epoch: nat, p: PageId, g: Page)
    requires LogInv(page, log, epoch) && p < |page| && g.lastMigrated == epoch && Eligible(page[p], epoch)
    ensures LogInv(page[p := g], log + [(p, epoch)], epoch)
  {}

  // ---------------------------------------------------------------------------
  // The invariant

  /** The indexes describe exactly the live pages, the live slow pages and the frames. */
  ghost predicate IndexesInv(s: State) {
    && IndexInv(s.page, s.owner, FrameKey)
    && IndexInv(s.page, s.va, VaKey)
    && IndexInv(s.page, s.cxl, CxlKey)
    && IndexInv(s.page, s.pa, PaKey)
  }

  /** Every process has a free ring and every ring a process. */
  ghost predicate RingEach(ring: map<Pid, seq<PageId>>, proc: map<Pid, Proc>) {
    forall pid :: pid in ring <==> pid in proc
  }

  ghost predicate RestInv(s: State) {
    && RingEach(s.ring, s.proc)
    && FieldInv(s.page, s.proc.Keys)
    && BytesInv(s.page, s.proc)
    && RingInv(s.page, s.ring)
    && LogInv(s.page, s.log, s.epoch)
  }

  /** What every operation keeps. */
  ghost predicate Sound(s: State, frames: set<Frame>) {
    && s.owner.Keys == frames
    && ListInv(s.page, s.lists, {})
    && IndexesInv(s)
    && RestInv(s)
  }

  /** Sound, folded. */
  ghost predicate Inv(s: State, frames: set<Frame>, depth: nat := 3) {
    if depth == 0 then Sound(s, frames) else Inv(s, frames, depth - 1)
  }

  lemma UnfoldInv(s: State, frames: set<Frame>)
    ensures Inv(s, frames) <==> Sound(s, frames)
  {
    assert Inv(s, frames, 3) == Inv(s, frames, 2);
    assert Inv(s, frames, 1) == Inv(s, frames, 0);
  }
}
