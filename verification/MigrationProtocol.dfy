/** The migration protocol between the central manager, the kernel and the
    application, as a transition system over single loads and stores.

    A page is migrated by: taking its remap lock and raising `migrating`; write
    protecting it through userfaultfd; copying it word by word to a free frame of
    the other tier; overwriting the descriptor's offset; asking the application's
    remap thread to replace the mapping; waiting for the acknowledgement; lowering
    `migrating`; and giving the old frame back.  Application threads load and store
    throughout.  A store to a protected page does not happen: it raises a fault, and
    the thread sleeps until the fault handler, which spins on `migrating`, wakes it.

    Kernel assumptions: a store to a write-protected page blocks, and MAP_FIXED
    replaces a mapping by an unprotected one in a single step.  The application
    does not unmap a page that is being migrated or that one of its threads sleeps
    on; FreeDuringMigrationIsVisible shows what the first would lead to. */
module MigrationProtocol {

  type Va = nat
  type Thread = nat
  type Value = int

  datatype Option<T> = None | Some(value: T)

  /** A frame is an offset into the device file of one tier. */
  datatype Frame = Frame(inDram: bool, offset: nat)

  /** What the manager may do with a frame. */
  datatype Owner = Free | Draining | InHand | Mapped(va: Va)

  /** `frame` and `protected` are the application's mapping; `desc` (in_dram and
      devdax_offset) and `migrating` are the manager's descriptor. */
  datatype Page = Page(frame: Frame, protected: bool, desc: Frame, migrating: bool)

  datatype Access = Access(va: Va, word: nat, value: Value)

  datatype ThreadState = Running | Faulted(access: Access) | Retrying(access: Access)

  datatype Phase = Marked | Copying | Recorded | Requested | Remapped | Acked | Finished

  /** `buffer` holds words the copy has read and `copied` the words it has written. */
  datatype Migration = Migration(va: Va, src: Frame, dst: Frame, phase: Phase,
                                 buffer: map<nat, Value>, copied: set<nat>)

  datatype State = State(
    words: nat,                     // words per page
    shm: bool,                      // POSIX shared memory instead of /dev/dax
    mem: map<Frame, seq<Value>>,
    owner: map<Frame, Owner>,
    page: map<Va, Page>,
    migration: Option<Migration>,
    thread: map<Thread, ThreadState>)

  datatype AppStep =
    | Load(t: Thread, va: Va, word: nat)
    | Store(t: Thread, access: Access)
    | Retry(t: Thread)
    | HandleFault(t: Thread)

  /** `Scribble` is anything else that may write to a frame nobody owns. */
  datatype SpaceStep =
    | Allocate(va: Va, frame: Frame)
    | Unmap(va: Va)
    | Drain(frame: Frame)
    | Scribble(frame: Frame, content: seq<Value>)
    | Begin(va: Va, dst: Frame)
    | Release

  datatype CopyStep =
    | Protect
    | Fetch(word: nat)
    | Write(word: nat)
    | Record
    | Request
    | Remap
    | Acknowledge
    | Finish

  datatype Step = App(app: AppStep) | Space(space: SpaceStep) | Copy(copy: CopyStep)

  /** What an application can observe. */
  datatype Event =
    | Silent
    | Loaded(va: Va, word: nat, value: Value)
    | Stored(access: Access)
    | Created(va: Va)
    | Unmapped(va: Va)

  function Words(n: nat): set<nat> { set i {:trigger i in Words(n)} | 0 <= i < n }

  // ---------------------------------------------------------------------------
  // Application threads and the fault handler

  predicate InPage(s: State, va: Va, word: nat) {
    va in s.page && s.page[va].frame in s.mem && word < |s.mem[s.page[va].frame]|
  }

  predicate AppEnabled(s: State, step: AppStep) {
    step.t in s.thread &&
    match step
    case Load(t, va, word) => s.thread[t] == Running && InPage(s, va, word)
    case Store(t, access) => s.thread[t] == Running && InPage(s, access.va, access.word)
    case Retry(t) => s.thread[t].Retrying? && InPage(s, s.thread[t].access.va, s.thread[t].access.word)
    case HandleFault(t) =>
      // the handler waits for `migrating` to drop, except that in shared-memory mode
      // a fault at the page boundary is woken at once
      s.thread[t].Faulted? && s.thread[t].access.va in s.page &&
      (!s.page[s.thread[t].access.va].migrating || (s.shm && s.thread[t].access.word == 0))
  }

  /** A store, or its retry after a fault: it faults again while the page is protected. */
  function TryStore(s: State, t: Thread, access: Access): State
    requires InPage(s, access.va, access.word)
  {
    var p := s.page[access.va];
    if p.protected then
      s.(thread := s.thread[t := Faulted(access)])
    else
      s.(thread := s.thread[t := Running],
         mem := s.mem[p.frame := s.mem[p.frame][access.word := access.value]])
  }

  function AppApply(s: State, step: AppStep): State
    requires AppEnabled(s, step)
  {
    match step
    case Load(_, _, _) => s
    case Store(t, access) => TryStore(s, t, access)
    case Retry(t) => TryStore(s, t, s.thread[t].access)
    case HandleFault(t) => s.(thread := s.thread[t := Retrying(s.thread[t].access)])
  }

  function AppObserve(s: State, step: AppStep): Event
    requires AppEnabled(s, step)
  {
    match step
    case Load(_, va, word) => Loaded(va, word, s.mem[s.page[va].frame][word])
    case Store(_, access) => if s.page[access.va].protected then Silent else Stored(access)
    case Retry(t) =>
      var access := s.thread[t].access;
      if s.page[access.va].protected then Silent else Stored(access)
    case HandleFault(_) => Silent
  }

  // ---------------------------------------------------------------------------
  // Allocation, release, and the two ends of a migration

  predicate IsFree(s: State, frame: Frame) {
    frame in s.owner && s.owner[frame] == Free
  }

  predicate SpaceEnabled(s: State, step: SpaceStep) {
    match step
    case Allocate(va, frame) => va !in s.page && IsFree(s, frame)
    case Unmap(va) =>
      va in s.page && !(s.migration.Some? && s.migration.value.va == va) &&
      (forall t | t in s.thread :: s.thread[t].Running? || s.thread[t].access.va != va)
    case Drain(frame) => frame in s.owner && s.owner[frame] == Draining
    case Scribble(frame, content) => IsFree(s, frame) && |content| == s.words
    case Begin(va, dst) =>
      s.migration.None? && va in s.page && IsFree(s, dst) && dst.inDram != s.page[va].desc.inDram
    case Release => s.migration.Some? && s.migration.value.phase == Finished
  }

  function SpaceApply(s: State, step: SpaceStep): State
    requires SpaceEnabled(s, step)
  {
    match step
    case Allocate(va, frame) =>
      s.(mem := s.mem[frame := seq(s.words, _ => 0)],
         owner := s.owner[frame := Mapped(va)],
         page := s.page[va := Page(frame, false, frame, false)])
    case Unmap(va) =>
      s.(page := s.page - {va}, owner := s.owner[s.page[va].frame := Draining])
    case Drain(frame) =>
      s.(owner := s.owner[frame := Free])
    case Scribble(frame, content) =>
      s.(mem := s.mem[frame := content])
    case Begin(va, dst) =>
      s.(owner := s.owner[dst := InHand],
         page := s.page[va := s.page[va].(migrating := true)],
         migration := Some(Migration(va, s.page[va].desc, dst, Marked, map[], {})))
    case Release =>
      s.(owner := s.owner[s.migration.value.src := Free], migration := None)
  }

  function SpaceObserve(step: SpaceStep): Event {
    match step
    case Allocate(va, _) => Created(va)
    case Unmap(va) => Unmapped(va)
    case _ => Silent
  }

  // ---------------------------------------------------------------------------
  // The body of a migration

  predicate CopyEnabled(s: State, step: CopyStep) {
    s.migration.Some? && s.migration.value.va in s.page &&
    var g := s.migration.value;
    match step
    case Protect => g.phase == Marked
    case Fetch(word) => g.phase == Copying && g.src in s.mem && word < |s.mem[g.src]|
    case Write(word) => g.phase == Copying && word in g.buffer && g.dst in s.mem && word < |s.mem[g.dst]|
    case Record => g.phase == Copying && g.copied == Words(s.words)
    case Request => g.phase == Recorded
    case Remap => g.phase == Requested
    case Acknowledge => g.phase == Remapped
    case Finish => g.phase == Acked
  }

  /** Enter a phase and replace the migrating page's record. */
  function Advance(s: State, phase: Phase, page: Page): State
    requires s.migration.Some?
  {
    var g := s.migration.value;
    s.(migration := Some(g.(phase := phase)), page := s.page[g.va := page])
  }

  function CopyApply(s: State, step: CopyStep): State
    requires CopyEnabled(s, step)
  {
    var g := s.migration.value;
    var p := s.page[g.va];
    match step
    case Protect => Advance(s, Copying, p.(protected := true))
    case Fetch(word) =>
      s.(migration := Some(g.(buffer := g.buffer[word := s.mem[g.src][word]])))
    case Write(word) =>
      s.(mem := s.mem[g.dst := s.mem[g.dst][word := g.buffer[word]]],
         migration := Some(g.(copied := g.copied + {word})))
    case Record =>
      // devdax_offset is overwritten now, in_dram only after the acknowledgement
      Advance(s, Recorded, p.(desc := Frame(p.desc.inDram, g.dst.offset)))
    case Request => Advance(s, Requested, p)
    case Remap =>
      // the request carries the descriptor's new offset and the new tier
      var frame := Frame(g.dst.inDram, p.desc.offset);
      Advance(s, Remapped, p.(frame := frame, protected := false))
        .(owner := s.owner[g.src := InHand][frame := Mapped(g.va)])
    case Acknowledge => Advance(s, Acked, p.(desc := Frame(g.dst.inDram, p.desc.offset)))
    case Finish => Advance(s, Finished, p.(migrating := false))
  }

  // ---------------------------------------------------------------------------
  // Runs

  predicate Enabled(s: State, step: Step) {
    match step
    case App(a) => AppEnabled(s, a)
    case Space(a) => SpaceEnabled(s, a)
    case Copy(a) => CopyEnabled(s, a)
  }

  function Apply(s: State, step: Step): State
    requires Enabled(s, step)
  {
    match step
    case App(a) => AppApply(s, a)
    case Space(a) => SpaceApply(s, a)
    case Copy(a) => CopyApply(s, a)
  }

  /** The event a step shows to the application. */
  function Observe(s: State, step: Step): Event
    requires Enabled(s, step)
  {
    match step
    case App(a) => AppObserve(s, a)
    case Space(a) => SpaceObserve(a)
    case Copy(_) => Silent
  }

  ghost predicate ValidRun(s: State, run: seq<Step>)
    decreases |run|
  {
    run == [] || (Enabled(s, run[0]) && ValidRun(Apply(s, run[0]), run[1..]))
  }

  ghost function Final(s: State, run: seq<Step>): State
    requires ValidRun(s, run)
    decreases |run|
  {
    if run == [] then s else Final(Apply(s, run[0]), run[1..])
  }

  /** The visible history of a run. */
  ghost function History(s: State, run: seq<Step>): (h: seq<Event>)
    requires ValidRun(s, run)
    ensures |h| == |run|
    decreases |run|
  {
    if run == [] then [] else [Observe(s, run[0])] + History(Apply(s, run[0]), run[1..])
  }

  // ---------------------------------------------------------------------------
  // The specification: one flat memory

  type Flat = map<Va, seq<Value>>

  /** The memory an application sees through its page table. */
  ghost function View(s: State): Flat {
    map va | va in s.page && s.page[va].frame in s.mem :: s.mem[s.page[va].frame]
  }

  /** Flat memory allows an event and moves from `f` to `f'`. */
  ghost predicate FlatStep(words: nat, f: Flat, e: Event, f': Flat) {
    match e
    case Silent => f' == f
    case Loaded(va, word, value) => f' == f && va in f && word < |f[va]| && f[va][word] == value
    case Stored(a) => a.va in f && a.word < |f[a.va]| && f' == f[a.va := f[a.va][a.word := a.value]]
    case Created(va) => va !in f && f' == f[va := seq(words, _ => 0)]
    case Unmapped(va) => va in f && f' == f - {va}
  }

  // ---------------------------------------------------------------------------
  // The invariant

  ghost predicate MemoryOk(s: State) {
    && (forall f | f in s.mem :: |s.mem[f]| == s.words)
    && (forall f | f in s.owner :: f in s.mem)
  }

  /** Away from a migration the descriptor and the mapping agree and nothing is protected. */
  ghost predicate Quiet(p: Page) {
    p == Page(p.desc, false, p.desc, false)
  }

  /** A mapped frame belongs to its page alone. */
  ghost predicate Owns(s: State, va: Va)
    requires va in s.page
  {
    s.page[va].frame in s.owner && s.owner[s.page[va].frame] == Mapped(va)
  }

  ghost predicate PagesOk(s: State) {
    && (forall va | va in s.page :: Owns(s, va))
    && (forall va | va in s.page && !(s.migration.Some? && s.migration.value.va == va) :: Quiet(s.page[va]))
  }

  ghost predicate ThreadsOk(s: State) {
    forall t | t in s.thread && !s.thread[t].Running? ::
      s.thread[t].access.va in s.page && s.thread[t].access.word < s.words
  }

  predicate BeforeRemap(phase: Phase) {
    phase.Marked? || phase.Copying? || phase.Recorded? || phase.Requested?
  }

  /** The frame of the two that no page maps at the moment. */
  function Spare(g: Migration): Frame {
    if BeforeRemap(g.phase) then g.dst else g.src
  }

  /** The migrating page's record, phase by phase. */
  function PageAt(g: Migration): Page {
    match g.phase
    case Marked => Page(g.src, false, g.src, true)
    case Copying => Page(g.src, true, g.src, true)
    case Recorded => Page(g.src, true, Frame(g.src.inDram, g.dst.offset), true)
    case Requested => Page(g.src, true, Frame(g.src.inDram, g.dst.offset), true)
    case Remapped => Page(g.dst, false, Frame(g.src.inDram, g.dst.offset), true)
    case Acked => Page(g.dst, false, g.dst, true)
    case Finished => Page(g.dst, false, g.dst, false)
  }

  /** What the copy has done so far is still what the source frame holds. */
  ghost predicate CopyOk(s: State, g: Migration) {
    g.src in s.mem && g.dst in s.mem && |s.mem[g.src]| == |s.mem[g.dst]| == s.words &&
    match g.phase
    case Marked => g.buffer == map[] && g.copied == {}
    case Copying =>
      && g.copied <= Words(s.words)
      && (forall i | i in g.buffer :: i < s.words && g.buffer[i] == s.mem[g.src][i])
      && (forall i | i in g.copied :: i < s.words && s.mem[g.dst][i] == s.mem[g.src][i])
    case Recorded => s.mem[g.dst] == s.mem[g.src]
    case Requested => s.mem[g.dst] == s.mem[g.src]
    case _ => true
  }

  ghost predicate MigrationOk(s: State) {
    s.migration.Some? ==>
      var g := s.migration.value;
      && CopyOk(s, g)
      && g.va in s.page && s.page[g.va] == PageAt(g)
      && g.src != g.dst
      && Spare(g) in s.owner && s.owner[Spare(g)] == InHand
  }

  /** What every step keeps. */
  ghost predicate Sound(s: State) {
    MemoryOk(s) && PagesOk(s) && ThreadsOk(s) && MigrationOk(s)
  }

  /** Sound, folded. */
  ghost predicate Inv(s: State, depth: nat := 3) {
    if depth == 0 then Sound(s) else Inv(s, depth - 1)
  }

  lemma UnfoldInv(s: State)
    ensures Inv(s) <==> Sound(s)
  {
    assert Inv(s, 3) == Inv(s, 2);
    assert Inv(s, 1) == Inv(s, 0);
  }

  /** No page is mapped yet, no thread sleeps, and every frame is free. */
  ghost predicate Init(s: State) {
    && s.page == map[] && s.migration == None
    && (forall f | f in s.owner :: f in s.mem && s.owner[f] == Free)
    && (forall f | f in s.mem :: |s.mem[f]| == s.words)
    && (forall t | t in s.thread :: s.thread[t] == Running)
  }

  // ---------------------------------------------------------------------------
  // One step

  /** `s'` is good, and flat memory allows the event on the way to it. */
  ghost predicate Refines(s: State, e: Event, s': State) {
    Inv(s') && s'.words == s.words && FlatStep(s.words, View(s), e, View(s'))
  }

  lemma StoreKeeps(s: State, t: Thread, a: Access)
    requires Inv(s) && InPage(s, a.va, a.word) && !s.page[a.va].protected
    ensures Inv(TryStore(s, t, a))
  {
    UnfoldInv(s);
    var s' := TryStore(s, t, a);
    var f := s.page[a.va].frame;
    assert Owns(s, a.va);
    assert forall g | g in s.mem && g != f :: s'.mem[g] == s.mem[g];
    assert MemoryOk(s') && PagesOk(s') && ThreadsOk(s') && MigrationOk(s');
    UnfoldInv(TryStore(s, t, a));
  }

  lemma StoreLands(s: State, t: Thread, a: Access)
    requires Inv(s) && InPage(s, a.va, a.word) && !s.page[a.va].protected
    ensures Refines(s, Stored(a), TryStore(s, t, a))
  {
    UnfoldInv(s);
    StoreKeeps(s, t, a);
    var s' := TryStore(s, t, a);
    var f := s.page[a.va].frame;
    assert Owns(s, a.va);
    assert forall va | va in s.page && va != a.va :: Owns(s, va) && s.page[va].frame != f;
    assert View(s') == View(s)[a.va := View(s)[a.va][a.word := a.value]];
  }

  lemma TryStoreGood(s: State, t: Thread, a: Access)
    requires Inv(s) && InPage(s, a.va, a.word)
    ensures Refines(s, if s.page[a.va].protected then Silent else Stored(a), TryStore(s, t, a))
  {
    if s.page[a.va].protected { FaultGood(s, t, a); } else { StoreLands(s, t, a); }
  }

  lemma FaultGood(s: State, t: Thread, a: Access)
    requires Inv(s) && InPage(s, a.va, a.word) && s.page[a.va].protected
    ensures Refines(s, Silent, TryStore(s, t, a))
  {
    UnfoldInv(s);
    UnfoldInv(TryStore(s, t, a));
  }

  lemma AppGood(s: State, step: AppStep)
    requires Inv(s) && AppEnabled(s, step)
    ensures Refines(s, AppObserve(s, step), AppApply(s, step))
  {
    match step
    case Load(_, va, word) => UnfoldInv(s); assert va in View(s);
    case Store(t, a) => TryStoreGood(s, t, a);
    case Retry(t) => TryStoreGood(s, t, s.thread[t].access);
    case HandleFault(_) => UnfoldInv(s); UnfoldInv(AppApply(s, step));
  }

  lemma AllocatePages(s: State, va: Va, frame: Frame)
    requires MemoryOk(s) && PagesOk(s) && SpaceEnabled(s, Allocate(va, frame))
    ensures var s' := SpaceApply(s, Allocate(va, frame)); MemoryOk(s') && PagesOk(s')
  {
    var s' := SpaceApply(s, Allocate(va, frame));
    assert forall v | v in s.page :: Owns(s, v) && s.page[v].frame != frame && s'.page[v] == s.page[v];
  }

  lemma AllocateMigration(s: State, va: Va, frame: Frame)
    requires PagesOk(s) && MigrationOk(s) && SpaceEnabled(s, Allocate(va, frame))
    ensures MigrationOk(SpaceApply(s, Allocate(va, frame)))
  {
    if s.migration.Some? { assert Owns(s, s.migration.value.va); }
  }

  lemma AllocateKeeps(s: State, va: Va, frame: Frame)
    requires Inv(s) && SpaceEnabled(s, Allocate(va, frame))
    ensures Inv(SpaceApply(s, Allocate(va, frame)))
  {
    UnfoldInv(s);
    AllocatePages(s, va, frame);
    AllocateMigration(s, va, frame);
    UnfoldInv(SpaceApply(s, Allocate(va, frame)));
  }

  lemma AllocateView(s: State, va: Va, frame: Frame)
    requires MemoryOk(s) && PagesOk(s) && SpaceEnabled(s, Allocate(va, frame))
    ensures View(SpaceApply(s, Allocate(va, frame))) == View(s)[va := seq(s.words, _ => 0)]
  {
    var s' := SpaceApply(s, Allocate(va, frame));
    forall v | v in s.page ensures v in View(s) && v in View(s') && View(s')[v] == View(s)[v] {
      assert Owns(s, v);
    }
    assert View(s').Keys == View(s).Keys + {va};
  }

  lemma AllocateGood(s: State, va: Va, frame: Frame)
    requires Inv(s) && SpaceEnabled(s, Allocate(va, frame))
    ensures Refines(s, Created(va), SpaceApply(s, Allocate(va, frame)))
  {
    AllocateKeeps(s, va, frame);
    UnfoldInv(s);
    AllocateView(s, va, frame);
  }

  lemma UnmapKeeps(s: State, va: Va)
    requires Inv(s) && SpaceEnabled(s, Unmap(va))
    ensures Inv(SpaceApply(s, Unmap(va)))
  {
    UnfoldInv(s);
    var s' := SpaceApply(s, Unmap(va));
    assert Owns(s, va);
    assert forall v | v in s'.page :: Owns(s, v) && s.page[v].frame != s.page[va].frame && s'.page[v] == s.page[v];
    UnfoldInv(s');
  }

  lemma UnmapGood(s: State, va: Va)
    requires Inv(s) && SpaceEnabled(s, Unmap(va))
    ensures Refines(s, Unmapped(va), SpaceApply(s, Unmap(va)))
  {
    UnmapKeeps(s, va);
    UnfoldInv(s);
    var s' := SpaceApply(s, Unmap(va));
    assert Owns(s, va);
    assert forall v | v in s'.page :: Owns(s, v) && s.page[v].frame != s.page[va].frame && s'.page[v] == s.page[v];
    assert View(s') == View(s) - {va};
  }

  lemma ScribbleKeeps(s: State, frame: Frame, content: seq<Value>)
    requires Inv(s) && SpaceEnabled(s, Scribble(frame, content))
    ensures Inv(SpaceApply(s, Scribble(frame, content)))
  {
    UnfoldInv(s);
    UnfoldInv(SpaceApply(s, Scribble(frame, content)));
  }

  lemma ScribbleGood(s: State, frame: Frame, content: seq<Value>)
    requires Inv(s) && SpaceEnabled(s, Scribble(frame, content))
    ensures Refines(s, Silent, SpaceApply(s, Scribble(frame, content)))
  {
    ScribbleKeeps(s, frame, content);
    UnfoldInv(s);
    var s' := SpaceApply(s, Scribble(frame, content));
    assert forall v | v in s.page :: Owns(s, v) && s.page[v].frame != frame;
    assert View(s') == View(s);
  }

  lemma BeginPages(s: State, va: Va, dst: Frame)
    requires PagesOk(s) && SpaceEnabled(s, Begin(va, dst))
    ensures PagesOk(SpaceApply(s, Begin(va, dst)))
  {
    var s' := SpaceApply(s, Begin(va, dst));
    assert forall v | v in s.page :: Owns(s, v) && s'.page[v].frame == s.page[v].frame;
  }

  lemma BeginMigration(s: State, va: Va, dst: Frame)
    requires MemoryOk(s) && PagesOk(s) && SpaceEnabled(s, Begin(va, dst))
    ensures MigrationOk(SpaceApply(s, Begin(va, dst)))
  {
    assert Quiet(s.page[va]) && Owns(s, va);
  }

  lemma BeginKeeps(s: State, va: Va, dst: Frame)
    requires Inv(s) && SpaceEnabled(s, Begin(va, dst))
    ensures Inv(SpaceApply(s, Begin(va, dst)))
  {
    UnfoldInv(s);
    BeginPages(s, va, dst);
    BeginMigration(s, va, dst);
    UnfoldInv(SpaceApply(s, Begin(va, dst)));
  }

  lemma BeginGood(s: State, va: Va, dst: Frame)
    requires Inv(s) && SpaceEnabled(s, Begin(va, dst))
    ensures Refines(s, Silent, SpaceApply(s, Begin(va, dst)))
  {
    UnfoldInv(s);
    BeginKeeps(s, va, dst);
    var s' := SpaceApply(s, Begin(va, dst));
    assert forall v | v in s.page :: Owns(s, v) && s'.page[v].frame == s.page[v].frame;
    assert View(s') == View(s);
  }

  lemma DrainGood(s: State, frame: Frame)
    requires Inv(s) && SpaceEnabled(s, Drain(frame))
    ensures Refines(s, Silent, SpaceApply(s, Drain(frame)))
  {
    UnfoldInv(s);
    assert forall v | v in s.page :: Owns(s, v);
    assert View(SpaceApply(s, Drain(frame))) == View(s);
    UnfoldInv(SpaceApply(s, Drain(frame)));
  }

  lemma ReleaseGood(s: State)
    requires Inv(s) && SpaceEnabled(s, Release)
    ensures Refines(s, Silent, SpaceApply(s, Release))
  {
    UnfoldInv(s);
    assert forall v | v in s.page :: Owns(s, v);
    assert View(SpaceApply(s, Release)) == View(s);
    UnfoldInv(SpaceApply(s, Release));
  }

  lemma SpaceGood(s: State, step: SpaceStep)
    requires Inv(s) && SpaceEnabled(s, step)
    ensures Refines(s, SpaceObserve(step), SpaceApply(s, step))
  {
    match step
    case Allocate(va, frame) => AllocateGood(s, va, frame);
    case Unmap(va) => UnmapGood(s, va);
    case Drain(frame) => DrainGood(s, frame);
    case Scribble(frame, content) => ScribbleGood(s, frame, content);
    case Begin(va, dst) => BeginGood(s, va, dst);
    case Release => ReleaseGood(s);
  }

  lemma WriteMigration(s: State, word: nat)
    requires MigrationOk(s) && CopyEnabled(s, Write(word))
    ensures MigrationOk(CopyApply(s, Write(word)))
  {}

  lemma WriteView(s: State, word: nat)
    requires PagesOk(s) && MigrationOk(s) && CopyEnabled(s, Write(word))
    ensures View(CopyApply(s, Write(word))) == View(s)
  {
    assert forall v | v in s.page :: Owns(s, v) && s.page[v].frame != s.migration.value.dst;
  }

  lemma WriteGood(s: State, word: nat)
    requires Inv(s) && CopyEnabled(s, Write(word))
    ensures Refines(s, Silent, CopyApply(s, Write(word)))
  {
    UnfoldInv(s);
    WriteMigration(s, word);
    WriteView(s, word);
    UnfoldInv(CopyApply(s, Write(word)));
  }

  /** Once every word has been copied the two frames agree. */
  lemma CopyIsComplete(s: State)
    requires MigrationOk(s) && CopyEnabled(s, Record)
    ensures var g := s.migration.value; g.src in s.mem && g.dst in s.mem && s.mem[g.dst] == s.mem[g.src]
  {
    assert forall i: nat | i < s.words :: i in Words(s.words);
  }

  lemma RecordGood(s: State)
    requires Inv(s) && CopyEnabled(s, Record)
    ensures Refines(s, Silent, CopyApply(s, Record))
  {
    UnfoldInv(s);
    CopyIsComplete(s);
    var g := s.migration.value;
    AdvanceGood(s, Recorded, s.page[g.va].(desc := Frame(g.src.inDram, g.dst.offset)));
  }

  lemma RemapPages(s: State)
    requires MemoryOk(s) && PagesOk(s) && MigrationOk(s) && CopyEnabled(s, Remap)
    ensures var s' := CopyApply(s, Remap); MemoryOk(s') && PagesOk(s')
  {
    var s' := CopyApply(s, Remap);
    var g := s.migration.value;
    assert Owns(s, g.va);
    assert forall v | v in s.page && v != g.va :: Owns(s, v) && s'.page[v] == s.page[v];
  }

  lemma RemapMigration(s: State)
    requires MigrationOk(s) && CopyEnabled(s, Remap)
    ensures MigrationOk(CopyApply(s, Remap))
  {}

  lemma RemapKeeps(s: State)
    requires Inv(s) && CopyEnabled(s, Remap)
    ensures Inv(CopyApply(s, Remap))
  {
    UnfoldInv(s);
    RemapPages(s);
    RemapMigration(s);
    UnfoldInv(CopyApply(s, Remap));
  }

  /** Replacing the mapping is invisible: the two frames hold the same words, and
      because the page was protected no store has come between copy and remap. */
  lemma RemapGood(s: State)
    requires Inv(s) && CopyEnabled(s, Remap)
    ensures Refines(s, Silent, CopyApply(s, Remap))
  {
    UnfoldInv(s);
    RemapKeeps(s);
    var s' := CopyApply(s, Remap);
    var g := s.migration.value;
    assert Owns(s, g.va);
    assert forall v | v in s.page && v != g.va :: Owns(s, v) && s'.page[v] == s.page[v];
    assert View(s') == View(s);
  }

  lemma FetchGood(s: State, word: nat)
    requires Inv(s) && CopyEnabled(s, Fetch(word))
    ensures Refines(s, Silent, CopyApply(s, Fetch(word)))
  {
    UnfoldInv(s);
    assert forall v | v in s.page :: Owns(s, v);
    assert View(CopyApply(s, Fetch(word))) == View(s);
    UnfoldInv(CopyApply(s, Fetch(word)));
  }

  /** Changing only the record of the migrating page, not its frame. */
  ghost predicate CanAdvance(s: State, phase: Phase, p: Page) {
    s.migration.Some? &&
    var g := s.migration.value;
    var g' := g.(phase := phase);
    CopyOk(s, g') && p == PageAt(g') && Spare(g') == Spare(g) && g.va in s.page && p.frame == s.page[g.va].frame
  }

  lemma AdvanceKeeps(s: State, phase: Phase, p: Page)
    requires Inv(s) && CanAdvance(s, phase, p)
    ensures Inv(Advance(s, phase, p))
  {
    UnfoldInv(s);
    var s' := Advance(s, phase, p);
    assert forall v | v in s.page :: Owns(s, v) && s'.page[v].frame == s.page[v].frame;
    UnfoldInv(s');
  }

  lemma AdvanceView(s: State, phase: Phase, p: Page)
    requires CanAdvance(s, phase, p)
    ensures View(Advance(s, phase, p)) == View(s)
  {
    var s' := Advance(s, phase, p);
    assert forall v | v in s.page :: s'.page[v].frame == s.page[v].frame;
  }

  lemma AdvanceGood(s: State, phase: Phase, p: Page)
    requires Inv(s) && CanAdvance(s, phase, p)
    ensures Refines(s, Silent, Advance(s, phase, p))
  {
    AdvanceKeeps(s, phase, p);
    AdvanceView(s, phase, p);
  }

  lemma CopyGood(s: State, step: CopyStep)
    requires Inv(s) && CopyEnabled(s, step)
    ensures Refines(s, Silent, CopyApply(s, step))
  {
    match step
    case Fetch(word) => FetchGood(s, word);
    case Write(word) => WriteGood(s, word);
    case Record => RecordGood(s);
    case Remap => RemapGood(s);
    case Protect => UnfoldInv(s); AdvanceGood(s, Copying, s.page[s.migration.value.va].(protected := true));
    case Request => UnfoldInv(s); AdvanceGood(s, Requested, s.page[s.migration.value.va]);
    case Acknowledge => UnfoldInv(s);
      AdvanceGood(s, Acked, s.page[s.migration.value.va].(desc := s.migration.value.dst));
    case Finish => UnfoldInv(s); AdvanceGood(s, Finished, s.page[s.migration.value.va].(migrating := false));
  }

  /** Every step keeps the invariant and is a step of flat memory. */
  lemma StepRefinesFlat(s: State, step: Step)
    requires Inv(s) && Enabled(s, step)
    ensures Refines(s, Observe(s, step), Apply(s, step))
  {
    match step
    case App(a) => AppGood(s, a);
    case Space(a) => SpaceGood(s, a);
    case Copy(a) => CopyGood(s, a);
  }

  // ---------------------------------------------------------------------------
  // Whole runs

  /** The last value an event history wrote to a word, if its page is mapped. */
  ghost function LastWritten(history: seq<Event>, va: Va, word: nat): Option<Value> {
    if history == [] then None else
      var rest, e := history[..|history| - 1], history[|history| - 1];
      match e
      case Stored(a) => if a.va == va && a.word == word then Some(a.value) else LastWritten(rest, va, word)
      case Created(v) => if v == va then Some(0) else LastWritten(rest, va, word)
      case Unmapped(v) => if v == va then None else LastWritten(rest, va, word)
      case _ => LastWritten(rest, va, word)
  }

  ghost function Content(f: Flat, va: Va, word: nat): Option<Value> {
    if va in f && word < |f[va]| then Some(f[va][word]) else None
  }

  /** The view is what the history so far wrote. */
  ghost predicate Agrees(words: nat, f: Flat, history: seq<Event>) {
    && (forall va | va in f :: |f[va]| == words)
    && (forall va: Va, word: nat | word < words :: LastWritten(history, va, word) == Content(f, va, word))
  }

  lemma FlatStepAgrees(words: nat, f: Flat, e: Event, f': Flat, history: seq<Event>)
    requires Agrees(words, f, history) && FlatStep(words, f, e, f')
    ensures Agrees(words, f', history + [e])
  {
    var h' := history + [e];
    assert h'[..|h'| - 1] == history;
    forall va: Va, word: nat | word < words
      ensures LastWritten(h', va, word) == Content(f', va, word)
    {
      assert LastWritten(history, va, word) == Content(f, va, word);
    }
  }

  lemma StepAgrees(s: State, history: seq<Event>, step: Step)
    requires Inv(s) && Enabled(s, step) && Agrees(s.words, View(s), history)
    ensures var s1 := Apply(s, step);
      Inv(s1) && s1.words == s.words && Agrees(s.words, View(s1), history + [Observe(s, step)])
  {
    StepRefinesFlat(s, step);
    FlatStepAgrees(s.words, View(s), Observe(s, step), View(Apply(s, step)), history);
  }

  lemma HistoryGrows(s: State, history: seq<Event>, run: seq<Step>)
    requires ValidRun(s, run) && run != []
    ensures history + History(s, run) == (history + [Observe(s, run[0])]) + History(Apply(s, run[0]), run[1..])
  {}

  lemma {:induction false} RunAgrees(s: State, history: seq<Event>, run: seq<Step>)
    requires Inv(s) && ValidRun(s, run) && Agrees(s.words, View(s), history)
    ensures Inv(Final(s, run)) && Final(s, run).words == s.words
    ensures Agrees(s.words, View(Final(s, run)), history + History(s, run))
    decreases |run|
  {
    if run == [] {
      assert history + History(s, run) == history;
    } else {
      StepAgrees(s, history, run[0]);
      RunAgrees(Apply(s, run[0]), history + [Observe(s, run[0])], run[1..]);
      HistoryGrows(s, history, run);
    }
  }

  lemma {:induction false} RunSplits(s: State, run: seq<Step>, k: nat)
    requires ValidRun(s, run) && k < |run|
    ensures ValidRun(s, run[..k]) && Enabled(Final(s, run[..k]), run[k])
    ensures History(s, run)[..k] == History(s, run[..k])
    ensures History(s, run)[k] == Observe(Final(s, run[..k]), run[k])
    decreases |run|
  {
    if k > 0 {
      RunSplits(Apply(s, run[0]), run[1..], k - 1);
      assert run[..k][1..] == run[1..][..k - 1] && run[..k][0] == run[0];
    }
  }

  lemma InitIsGood(s: State)
    requires Init(s)
    ensures Inv(s) && Agrees(s.words, View(s), [])
  {
    UnfoldInv(s);
  }

  lemma LoadSees(words: nat, f: Flat, e: Event, f': Flat, history: seq<Event>)
    requires Agrees(words, f, history) && FlatStep(words, f, e, f') && e.Loaded?
    ensures LastWritten(history, e.va, e.word) == Some(e.value)
  {
    assert Content(f, e.va, e.word) == Some(e.value);
  }

  /** A load in a state that a run of a fresh manager leads to. */
  lemma NextLoadSees(s: State, run: seq<Step>, step: Step)
    requires Init(s) && ValidRun(s, run) && Enabled(Final(s, run), step)
    ensures var e := Observe(Final(s, run), step);
            e.Loaded? ==> LastWritten(History(s, run), e.va, e.word) == Some(e.value)
  {
    InitIsGood(s);
    RunAgrees(s, [], run);
    var h, t := History(s, run), Final(s, run);
    assert [] + h == h;
    StepRefinesFlat(t, step);
    if Observe(t, step).Loaded? { LoadSees(s.words, View(t), Observe(t, step), View(Apply(t, step)), h); }
  }

  /** Two-tier memory refines flat memory: in every run of a fresh manager, every load
      returns the value last stored to that word, or the zero of a fresh page, so no
      store is lost whatever migrations it overlaps with. */
  lemma LoadsSeeLastStore(s: State, run: seq<Step>, k: nat)
    requires Init(s) && ValidRun(s, run) && k < |run|
    ensures var e := History(s, run)[k];
            e.Loaded? ==> LastWritten(History(s, run)[..k], e.va, e.word) == Some(e.value)
  {
    RunSplits(s, run, k);
    NextLoadSees(s, run[..k], run[k]);
  }

  // ---------------------------------------------------------------------------
  // A page freed while it migrates

  /** The application unmaps a page whatever the manager is doing with it. */
  function FreedAnyway(s: State, va: Va): State
    requires va in s.page
  {
    s.(page := s.page - {va}, owner := s.owner[s.page[va].frame := Draining])
  }

  /** The remap thread maps the new frame at the address it was sent, mapped or not. */
  function RemappedAnyway(s: State, g: Migration): State {
    s.(page := s.page[g.va := Page(g.dst, false, Frame(g.src.inDram, g.dst.offset), true)])
  }

  /** What the rest of a migration does to the application's mapping once the page is unmapped: the
      remap, if it is still to come. */
  function RestOfMigration(s: State, g: Migration): State {
    if BeforeRemap(g.phase) then RemappedAnyway(s, g) else s
  }

  /** Unmapping a page that is being migrated is a step of flat memory in every phase.  What the
      migration does afterwards stays invisible exactly when the remap has been made; otherwise the
      remap brings the page back. */
  lemma FreeDuringMigrationIsVisible(s: State)
    requires Inv(s) && s.migration.Some?
    ensures var g := s.migration.value;
      && g.va in s.page
      && var u := FreedAnyway(s, g.va);
         && FlatStep(s.words, View(s), Unmapped(g.va), View(u))
         && (FlatStep(s.words, View(u), Silent, View(RestOfMigration(u, g))) <==> !BeforeRemap(g.phase))
  {
    UnfoldInv(s);
    var g := s.migration.value;
    var u := FreedAnyway(s, g.va);
    assert Owns(s, g.va);
    assert View(u) == View(s) - {g.va};
    assert g.va in View(RemappedAnyway(u, g)) && g.va !in View(u);
  }

  // ---------------------------------------------------------------------------
  // Progress: a faulted store is never stranded

  ghost function Missing(n: nat, done: set<nat>): nat { |Words(n) - done| }

  /** Steps the manager and the remap thread still have to take. */
  ghost function Remaining(s: State): nat {
    if s.migration.None? then 0 else StepsLeft(s.words, s.migration.value)
  }

  ghost function StepsLeft(words: nat, g: Migration): nat {
    match g.phase
    case Marked => Missing(words, g.copied) + Missing(words, g.buffer.Keys) + 7
    case Copying => Missing(words, g.copied) + Missing(words, g.buffer.Keys) + 6
    case Recorded => 5
    case Requested => 4
    case Remapped => 3
    case Acked => 2
    case Finished => 1
  }

  lemma OneLessMissing(n: nat, done: set<nat>, x: nat)
    requires x < n && x !in done
    ensures Missing(n, done + {x}) < Missing(n, done)
  {
    assert x in Words(n);
    assert Words(n) - done == (Words(n) - (done + {x})) + {x};
  }

  lemma FetchEnabled(s: State, w: nat)
    requires Inv(s) && s.migration.Some? && s.migration.value.phase == Copying && w < s.words
    ensures CopyEnabled(s, Fetch(w))
  {
    UnfoldInv(s);
  }

  lemma FetchAdvances(s: State, w: nat)
    requires Inv(s) && s.migration.Some? && s.migration.value.phase == Copying
    requires w < s.words && w !in s.migration.value.buffer
    ensures CopyEnabled(s, Fetch(w)) && Remaining(CopyApply(s, Fetch(w))) < Remaining(s)
  {
    FetchEnabled(s, w);
    FetchIsCloser(s.words, s.migration.value, w, s.mem[s.migration.value.src][w]);
  }

  lemma FetchIsCloser(words: nat, g: Migration, w: nat, v: Value)
    requires g.phase == Copying && w < words && w !in g.buffer
    ensures StepsLeft(words, g.(buffer := g.buffer[w := v])) < StepsLeft(words, g)
  {
    OneLessMissing(words, g.buffer.Keys, w);
    assert g.buffer[w := v].Keys == g.buffer.Keys + {w};
  }

  lemma WriteAdvances(s: State, w: nat)
    requires Inv(s) && s.migration.Some? && s.migration.value.phase == Copying
    requires w in s.migration.value.buffer && w !in s.migration.value.copied
    ensures CopyEnabled(s, Write(w)) && Remaining(CopyApply(s, Write(w))) < Remaining(s)
  {
    UnfoldInv(s);
    OneLessMissing(s.words, s.migration.value.copied, w);
  }

  lemma CopyKeepsThreads(s: State, step: CopyStep)
    requires CopyEnabled(s, step)
    ensures CopyApply(s, step).thread == s.thread
  {}

  lemma RecordAdvances(s: State)
    requires Inv(s) && s.migration.Some? && s.migration.value.phase == Copying
    requires forall w | 0 <= w < s.words :: w in s.migration.value.copied
    ensures CopyEnabled(s, Record) && Remaining(CopyApply(s, Record)) < Remaining(s)
  {
    UnfoldInv(s);
    assert s.migration.value.copied == Words(s.words);
  }

  lemma CopyAdvances(s: State) returns (step: CopyStep)
    requires Inv(s) && s.migration.Some? && s.migration.value.phase == Copying
    ensures CopyEnabled(s, step) && Remaining(CopyApply(s, step)) < Remaining(s)
  {
    var g := s.migration.value;
    if w :| 0 <= w < s.words && w !in g.buffer {
      FetchAdvances(s, w);
      step := Fetch(w);
    } else if w :| 0 <= w < s.words && w !in g.copied {
      WriteAdvances(s, w);
      step := Write(w);
    } else {
      RecordAdvances(s);
      step := Record;
    }
  }

  function NextCopyStep(phase: Phase): CopyStep
    requires !phase.Copying? && !phase.Finished?
  {
    match phase
    case Marked => Protect
    case Recorded => Request
    case Requested => Remap
    case Remapped => Acknowledge
    case Acked => Finish
  }

  lemma PhaseEnabled(s: State)
    requires Inv(s) && s.migration.Some?
    requires !s.migration.value.phase.Copying? && !s.migration.value.phase.Finished?
    ensures CopyEnabled(s, NextCopyStep(s.migration.value.phase))
  {
    UnfoldInv(s);
  }

  lemma PhaseAdvances(s: State)
    requires s.migration.Some? && !s.migration.value.phase.Copying? && !s.migration.value.phase.Finished?
    requires CopyEnabled(s, NextCopyStep(s.migration.value.phase))
    ensures Remaining(CopyApply(s, NextCopyStep(s.migration.value.phase))) < Remaining(s)
  {}

  /** While a migration is under way some step of it is enabled and brings it closer to
      its end, leaving every thread as it is and the view unchanged. */
  lemma MigrationAdvances(s: State) returns (step: Step)
    requires Inv(s) && s.migration.Some?
    ensures Enabled(s, step) && Refines(s, Silent, Apply(s, step))
    ensures Remaining(Apply(s, step)) < Remaining(s)
    ensures Apply(s, step).thread == s.thread
  {
    if s.migration.value.phase == Finished {
      step := Space(Release);
      SpaceGood(s, Release);
    } else {
      var c: CopyStep;
      if s.migration.value.phase == Copying {
        c := CopyAdvances(s);
      } else {
        PhaseEnabled(s);
        PhaseAdvances(s);
        c := NextCopyStep(s.migration.value.phase);
      }
      CopyKeepsThreads(s, c);
      CopyGood(s, c);
      step := Copy(c);
    }
  }

  /** From every reachable state a migration can be driven to its end. */
  lemma {:induction false} MigrationCompletes(s: State) returns (run: seq<Step>)
    requires Inv(s)
    ensures ValidRun(s, run) && |run| <= Remaining(s)
    ensures Refines(s, Silent, Final(s, run))
    ensures Final(s, run).migration == None && Final(s, run).thread == s.thread
    decreases Remaining(s)
  {
    if s.migration.None? { return []; }
    var step := MigrationAdvances(s);
    var rest := MigrationCompletes(Apply(s, step));
    run := [step] + rest;
    StepThenRun(s, step, rest);
  }

  /** With no migration under way the handler wakes a faulted thread and its store lands. */
  lemma WakeAndRetry(s: State, t: Thread) returns (run: seq<Step>)
    requires Inv(s) && s.migration.None? && t in s.thread && s.thread[t].Faulted?
    ensures ValidRun(s, run) && Final(s, run).thread == s.thread[t := Running]
    ensures Refines(s, Stored(s.thread[t].access), Final(s, run))
  {
    var wake, retry := App(HandleFault(t)), App(Retry(t));
    UnfoldInv(s);
    assert Quiet(s.page[s.thread[t].access.va]) && Owns(s, s.thread[t].access.va);
    var s1 := Apply(s, wake);
    StepRefinesFlat(s, wake);
    UnfoldInv(s1);
    assert Owns(s1, s.thread[t].access.va);
    StepRefinesFlat(s1, retry);
    run := [wake, retry];
    assert run[1..] == [retry];
    assert Final(s1, [retry]) == Apply(s1, retry);
  }

  lemma StepThenRun(s: State, step: Step, rest: seq<Step>)
    requires Enabled(s, step) && ValidRun(Apply(s, step), rest)
    ensures ValidRun(s, [step] + rest) && Final(s, [step] + rest) == Final(Apply(s, step), rest)
  {
    assert ([step] + rest)[1..] == rest;
  }

  /** A thread asleep on a protected page always has a way to finish its store: the
      migration completes, the handler wakes the thread, and the retried store lands. */
  lemma {:induction false} FaultedStoreCanComplete(s: State, t: Thread) returns (run: seq<Step>)
    requires Inv(s) && t in s.thread && s.thread[t].Faulted?
    ensures ValidRun(s, run) && Final(s, run).thread == s.thread[t := Running]
    ensures Refines(s, Stored(s.thread[t].access), Final(s, run))
    decreases Remaining(s)
  {
    if s.migration.None? {
      run := WakeAndRetry(s, t);
    } else {
      var step := MigrationAdvances(s);
      var rest := FaultedStoreCanComplete(Apply(s, step), t);
      run := [step] + rest;
      StepThenRun(s, step, rest);
    }
  }
}
