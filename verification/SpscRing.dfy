/** The single-producer single-consumer ring, access by access.

    `head` is written by the producer and `tail` by the consumer.  Both are advanced
    by an increment followed, at the end of the buffer, by a separate store of zero,
    so for a moment either index may equal the capacity.  The model interleaves the
    individual loads and stores of one producer (test for full, then put) and one
    consumer (get) under sequential consistency. */
module SpscRing {

  /** Program points of `if (!full) put(v)`; each constructor names the next access. */
  datatype Producer<T> =
    | PIdle
    | GuardHead(v: T)               // full test: load head
    | GuardTail(v: T, h: nat)       // full test: load tail and decide
    | PutItem(v: T)                 // store buffer[head]
    | CheckHead(v: T)               // full test inside advance_pointer: load head
    | CheckTail(v: T, h: nat)       // ... load tail and decide
    | BumpLoad(v: T)                // the ring was full: load tail
    | BumpStore(v: T, t: nat)       // ... store tail + 1
    | BumpWrap(v: T)                // ... store tail = 0
    | IncHead(v: T)                 // store head + 1
    | WrapHead(v: T)                // store head = 0

  /** Program points of get. */
  datatype Consumer<T> =
    | CIdle
    | FullHead                      // full test: load head
    | FullTail(h: nat)              // ... load tail and decide
    | EmptyHead                     // load head again
    | EmptyTail(h: nat, sawEmpty: bool)  // load tail and decide
    | ReadItem                      // load buffer[tail]
    | IncTail(x: T)                 // store tail + 1
    | WrapTail(x: T)                // store tail = 0

  /** The ring, both threads, and the histories of values put and got. */
  datatype State<T> = State(
    cap: nat, buffer: seq<T>, head: nat, tail: nat,
    prod: Producer<T>, cons: Consumer<T>,
    enq: seq<T>, deq: seq<T>)

  datatype Step<T> = BeginPut(v: T) | ProducerStep | BeginGet | ConsumerStep

  /** head + 1, wrapped, as ring_buf_full computes it. */
  function Succ(cap: nat, h: nat): nat {
    if h + 1 == cap then 0 else h + 1
  }

  predicate Enabled<T>(s: State<T>, step: Step<T>) {
    match step
    case BeginPut(_) => s.prod.PIdle?
    case ProducerStep => !s.prod.PIdle? && (s.prod.PutItem? ==> s.head < |s.buffer|)
    case BeginGet => s.cons.CIdle?
    case ConsumerStep => !s.cons.CIdle? && (s.cons.ReadItem? ==> s.tail < |s.buffer|)
  }

  function ProducerNext<T>(s: State<T>): State<T>
    requires Enabled(s, ProducerStep)
  {
    match s.prod
    case GuardHead(v) => s.(prod := GuardTail(v, s.head))
    case GuardTail(v, h) => s.(prod := if Succ(s.cap, h) == s.tail then PIdle else PutItem(v))
    case PutItem(v) => s.(buffer := s.buffer[s.head := v], prod := CheckHead(v))
    case CheckHead(v) => s.(prod := CheckTail(v, s.head))
    case CheckTail(v, h) => s.(prod := if Succ(s.cap, h) == s.tail then BumpLoad(v) else IncHead(v))
    case BumpLoad(v) => s.(prod := BumpStore(v, s.tail))
    case BumpStore(v, t) => s.(tail := t + 1, prod := if t + 1 == s.cap then BumpWrap(v) else IncHead(v))
    case BumpWrap(v) => s.(tail := 0, prod := IncHead(v))
    case IncHead(v) =>
      s.(head := s.head + 1, enq := s.enq + [v],
         prod := if s.head + 1 == s.cap then WrapHead(v) else PIdle)
    case WrapHead(_) => s.(head := 0, prod := PIdle)
  }

  function ConsumerNext<T>(s: State<T>): State<T>
    requires Enabled(s, ConsumerStep)
  {
    match s.cons
    case FullHead => s.(cons := FullTail(s.head))
    case FullTail(h) => s.(cons := if Succ(s.cap, h) == s.tail then ReadItem else EmptyHead)
    case EmptyHead => s.(cons := EmptyTail(s.head, |s.deq| == |s.enq|))
    case EmptyTail(h, _) => s.(cons := if h == s.tail then CIdle else ReadItem)
    case ReadItem => s.(cons := IncTail(s.buffer[s.tail]))
    case IncTail(x) =>
      s.(tail := s.tail + 1, deq := s.deq + [x],
         cons := if s.tail + 1 == s.cap then WrapTail(x) else CIdle)
    case WrapTail(_) => s.(tail := 0, cons := CIdle)
  }

  function Apply<T>(s: State<T>, step: Step<T>): State<T>
    requires Enabled(s, step)
  {
    match step
    case BeginPut(v) => s.(prod := GuardHead(v))
    case ProducerStep => ProducerNext(s)
    case BeginGet => s.(cons := FullHead)
    case ConsumerStep => ConsumerNext(s)
  }

  ghost predicate Init<T>(s: State<T>) {
    s.cap >= 2 && |s.buffer| == s.cap && s.head == 0 && s.tail == 0 &&
    s.prod == PIdle && s.cons == CIdle && s.enq == [] && s.deq == []
  }

  // ---------------------------------------------------------------------------
  // The two windows in which a test can be wrong

  /** The consumer has incremented tail past the end but not yet stored zero, and the
      producer is about to decide whether the slot before the end is the last one. */
  predicate FullWindow<T>(s: State<T>) { s.head + 1 == s.cap && s.tail == s.cap }

  /** The producer has incremented head past the end but not yet stored zero, and the
      consumer has already emptied the ring and wrapped. */
  predicate EmptyWindow<T>(s: State<T>) { s.head == s.cap && s.tail == 0 }

  /** No test decides inside its window. */
  predicate Safe<T>(s: State<T>, step: Step<T>) {
    && (step.ProducerStep? && s.prod.GuardTail? ==> !FullWindow(s))
    && (step.ConsumerStep? && s.cons.EmptyHead? ==> !EmptyWindow(s))
  }

  ghost predicate ValidRun<T>(s: State<T>, run: seq<Step<T>>)
    decreases |run|
  {
    run == [] || (Enabled(s, run[0]) && ValidRun(Apply(s, run[0]), run[1..]))
  }

  ghost predicate SafeRun<T>(s: State<T>, run: seq<Step<T>>)
    decreases |run|
  {
    run == [] || (Enabled(s, run[0]) && Safe(s, run[0]) && SafeRun(Apply(s, run[0]), run[1..]))
  }

  ghost function Final<T>(s: State<T>, run: seq<Step<T>>): State<T>
    requires ValidRun(s, run)
    decreases |run|
  {
    if run == [] then s else Final(Apply(s, run[0]), run[1..])
  }

  // ---------------------------------------------------------------------------
  // The invariant

  /** An index with the transient value read as zero. */
  function Slot(cap: nat, i: nat): nat { if i >= cap then i - cap else i }

  function Size<T>(s: State<T>): int { |s.enq| - |s.deq| }

  /** The i-th waiting item is in its slot. */
  ghost predicate Holds<T>(s: State<T>, i: int)
    requires |s.buffer| == s.cap && s.tail <= s.cap && 0 <= i < Size(s) < s.cap
  {
    s.buffer[Slot(s.cap, Slot(s.cap, s.tail) + i)] == s.enq[|s.deq| + i]
  }

  ghost predicate RingOk<T>(s: State<T>) {
    && s.cap >= 2 && |s.buffer| == s.cap && s.head <= s.cap && s.tail <= s.cap
    && 0 <= Size(s) < s.cap
    && Slot(s.cap, s.head) == Slot(s.cap, Slot(s.cap, s.tail) + Size(s))
    && (forall i | 0 <= i < Size(s) :: Holds(s, i))
  }

  /** What has been got is a prefix of what has been put. */
  ghost predicate Fifo<T>(s: State<T>) {
    |s.deq| <= |s.enq| && s.deq == s.enq[..|s.deq|]
  }

  ghost predicate ProducerOk<T>(s: State<T>)
    requires RingOk(s)
  {
    && (s.head == s.cap <==> s.prod.WrapHead?)
    && (s.prod.GuardTail? ==> s.prod.h == s.head)
    && (s.prod.CheckTail? ==> s.prod.h == s.head)
    && (s.prod.PutItem? || s.prod.CheckHead? || s.prod.CheckTail? || s.prod.IncHead? ==> Size(s) + 1 < s.cap)
    && (s.prod.CheckHead? || s.prod.CheckTail? || s.prod.IncHead? ==> s.buffer[s.head] == s.prod.v)
    && !s.prod.BumpLoad? && !s.prod.BumpStore? && !s.prod.BumpWrap?
  }

  ghost predicate ConsumerOk<T>(s: State<T>)
    requires RingOk(s)
  {
    && (s.tail == s.cap <==> s.cons.WrapTail?)
    && (s.cons.FullTail? && Succ(s.cap, s.cons.h) == s.tail ==> Size(s) > 0)
    && (s.cons.EmptyTail? ==>
          && (s.cons.h == s.tail <==> s.cons.sawEmpty)
          && (s.cons.h != s.tail ==> Size(s) > 0))
    && (s.cons.ReadItem? || s.cons.IncTail? ==> Size(s) > 0)
    && (s.cons.IncTail? ==> s.cons.x == s.enq[|s.deq|])
  }

  ghost predicate Inv<T>(s: State<T>) {
    RingOk(s) && Fifo(s) && ProducerOk(s) && ConsumerOk(s)
  }

  // ---------------------------------------------------------------------------
  // The tests are right exactly outside their windows

  /** The full test, made in one instant of a good state by a producer that is not in
      the middle of wrapping, is wrong exactly in its window. */
  lemma FullTestExact<T>(s: State<T>)
    requires Inv(s) && s.head < s.cap
    ensures (Succ(s.cap, s.head) == s.tail <==> Size(s) + 1 == s.cap) <==> !FullWindow(s)
  {}

  /** The emptiness test, made in one instant of a good state by a consumer that is not
      in the middle of wrapping, is wrong exactly in its window. */
  lemma EmptyTestExact<T>(s: State<T>)
    requires Inv(s) && s.tail < s.cap
    ensures (s.head == s.tail <==> Size(s) == 0) <==> !EmptyWindow(s)
  {}

  // ---------------------------------------------------------------------------
  // Outside the windows the ring is a FIFO queue

  lemma PutItemKeepsInv<T>(s: State<T>)
    requires Inv(s) && s.prod.PutItem?
    ensures Inv(ProducerNext(s))
  {
    var s' := ProducerNext(s);
    forall i | 0 <= i < Size(s') ensures Holds(s', i) {
      assert Holds(s, i);
    }
  }

  lemma IncHeadKeepsInv<T>(s: State<T>)
    requires Inv(s) && s.prod.IncHead?
    ensures Inv(ProducerNext(s))
  {
    var s' := ProducerNext(s);
    forall i | 0 <= i < Size(s') ensures Holds(s', i) {
      if i < Size(s) { assert Holds(s, i); }
    }
  }

  /** A step that only moves a program counter leaves the ring as it was. */
  lemma SameRing<T>(s: State<T>, s': State<T>)
    requires RingOk(s) && Fifo(s) && s' == s.(prod := s'.prod, cons := s'.cons)
    ensures RingOk(s') && Fifo(s')
  {
    assert forall i | 0 <= i < Size(s) :: Holds(s, i) ==> Holds(s', i);
  }

  lemma GuardKeepsInv<T>(s: State<T>)
    requires Inv(s) && s.prod.GuardTail? && !FullWindow(s)
    ensures Inv(ProducerNext(s))
  {
    FullTestExact(s);
    SameRing(s, ProducerNext(s));
  }

  lemma WrapHeadKeepsInv<T>(s: State<T>)
    requires Inv(s) && s.prod.WrapHead?
    ensures Inv(ProducerNext(s))
  {
    var s' := ProducerNext(s);
    assert forall i | 0 <= i < Size(s) :: Holds(s, i) ==> Holds(s', i);
  }

  lemma ProducerKeepsInv<T>(s: State<T>)
    requires Inv(s) && Enabled(s, ProducerStep) && Safe(s, ProducerStep)
    ensures Inv(ProducerNext(s))
  {
    if s.prod.PutItem? {
      PutItemKeepsInv(s);
    } else if s.prod.IncHead? {
      IncHeadKeepsInv(s);
    } else if s.prod.WrapHead? {
      WrapHeadKeepsInv(s);
    } else if s.prod.GuardTail? {
      GuardKeepsInv(s);
    } else {
      SameRing(s, ProducerNext(s));
    }
  }

  lemma IncTailKeepsInv<T>(s: State<T>)
    requires Inv(s) && s.cons.IncTail?
    ensures Inv(ConsumerNext(s))
  {
    var s' := ConsumerNext(s);
    assert s'.deq == s.enq[..|s.deq| + 1];
    forall i | 0 <= i < Size(s') ensures Holds(s', i) {
      assert Holds(s, i + 1);
    }
  }

  lemma TestKeepsInv<T>(s: State<T>)
    requires Inv(s) && (s.cons.FullHead? || s.cons.FullTail? || s.cons.EmptyHead? || s.cons.EmptyTail?)
    requires Safe(s, ConsumerStep)
    ensures Inv(ConsumerNext(s))
  {
    if s.cons.EmptyHead? { EmptyTestExact(s); }
    SameRing(s, ConsumerNext(s));
  }

  lemma ConsumerKeepsInv<T>(s: State<T>)
    requires Inv(s) && Enabled(s, ConsumerStep) && Safe(s, ConsumerStep)
    ensures Inv(ConsumerNext(s))
  {
    if s.cons.IncTail? {
      IncTailKeepsInv(s);
    } else if s.cons.ReadItem? || s.cons.WrapTail? {
      var s' := ConsumerNext(s);
      assert forall i | 0 <= i < Size(s) :: Holds(s, i) ==> Holds(s', i);
      if s.cons.ReadItem? { assert Holds(s, 0); }
    } else {
      TestKeepsInv(s);
    }
  }

  lemma StepKeepsInv<T>(s: State<T>, step: Step<T>)
    requires Inv(s) && Enabled(s, step) && Safe(s, step)
    ensures Inv(Apply(s, step))
  {
    match step
    case ProducerStep => ProducerKeepsInv(s);
    case ConsumerStep => ConsumerKeepsInv(s);
    case _ => SameRing(s, Apply(s, step));
  }

  /** A step keeps the ring a queue exactly when no test decides inside its window. */
  lemma StepKeepsInvExactlyWhen<T>(s: State<T>, step: Step<T>)
    requires Inv(s) && Enabled(s, step)
    ensures Inv(Apply(s, step)) <==> Safe(s, step)
  {
    if Safe(s, step) { StepKeepsInv(s, step); }
  }

  /** The ring steps as a bounded FIFO queue: the queue is untouched except that the
      store of head + 1 appends the item being put and the store of tail + 1 takes the
      oldest item, which is the one the get returns. */
  lemma StepRefinesQueue<T>(s: State<T>, step: Step<T>)
    requires Inv(s) && Enabled(s, step) && Safe(s, step)
    ensures var q, q' := s.enq[|s.deq|..], Apply(s, step).enq[|Apply(s, step).deq|..];
            if step.ProducerStep? && s.prod.IncHead? then q' == q + [s.prod.v] && |q'| < s.cap
            else if step.ConsumerStep? && s.cons.IncTail? then q != [] && s.cons.x == q[0] && q' == q[1..]
            else q' == q
  {
    StepKeepsInv(s, step);
    if step.ProducerStep? && s.prod.IncHead? {
      assert (s.enq + [s.prod.v])[|s.deq|..] == s.enq[|s.deq|..] + [s.prod.v];
    }
  }

  /** In every safe run, from every interleaving, items are got in the order they were
      put, none twice and none skipped; a get that finds the ring empty did so at an
      instant when it was; and at most capacity - 1 items wait. */
  lemma {:induction false} SafeRunIsFifo<T>(s: State<T>, run: seq<Step<T>>)
    requires Inv(s) && SafeRun(s, run)
    ensures ValidRun(s, run)
    ensures var t := Final(s, run);
            && Inv(t)
            && t.deq == t.enq[..|t.deq|] && |t.enq| - |t.deq| < t.cap
            && (t.cons.EmptyTail? && Apply(t, ConsumerStep).cons.CIdle? ==> t.cons.sawEmpty)
    decreases |run|
  {
    if run != [] {
      StepKeepsInv(s, run[0]);
      SafeRunIsFifo(Apply(s, run[0]), run[1..]);
    }
  }

  lemma InitIsGood<T>(s: State<T>)
    requires Init(s)
    ensures Inv(s)
  {}

  // ---------------------------------------------------------------------------
  // Inside the windows it is not

  lemma FinalOfStep<T>(s: State<T>, step: Step<T>, run: seq<Step<T>>)
    requires Enabled(s, step) && ValidRun(Apply(s, step), run)
    ensures ValidRun(s, [step] + run) && Final(s, [step] + run) == Final(Apply(s, step), run)
  {
    assert ([step] + run)[1..] == run;
  }

  /** A put that passes its full test in the window overruns the ring: it stores into
      the last slot, wraps head onto tail, and once the consumer stores its zero the
      ring reads as empty although `capacity` items are waiting. */
  lemma OverrunLosesQueue<T>(s: State<T>) returns (run: seq<Step<T>>)
    requires Inv(s) && FullWindow(s) && s.prod.GuardTail?
    ensures ValidRun(s, run)
    ensures var t := Final(s, run);
            && t.prod == PIdle && t.cons == CIdle
            && t.head == t.tail
            && |t.enq| - |t.deq| == t.cap
    ensures run != [] && run[0] == ProducerStep
  {
    var p: Step<T> := ProducerStep;
    var s1 := Apply(s, p);
    assert s1 == s.(prod := PutItem(s.prod.v));
    var s2 := Apply(s1, p);
    var s3 := Apply(s2, p);
    var s4 := Apply(s3, p);
    assert s4 == s2.(prod := IncHead(s.prod.v));
    var s5 := Apply(s4, p);
    assert s5 == s4.(head := s.cap, enq := s.enq + [s.prod.v], prod := WrapHead(s.prod.v));
    var s6 := Apply(s5, p);
    var s7 := Apply(s6, ConsumerStep);
    assert s7.head == 0 && s7.tail == 0 && s7.prod == PIdle && s7.cons == CIdle;
    assert ValidRun(s7, []);
    FinalOfStep(s6, ConsumerStep, []);
    FinalOfStep(s5, p, [ConsumerStep]);
    run := [p] + [ConsumerStep];
    FinalOfStep(s4, p, run);
    run := [p] + run;
    FinalOfStep(s3, p, run);
    run := [p] + run;
    FinalOfStep(s2, p, run);
    run := [p] + run;
    FinalOfStep(s1, p, run);
    run := [p] + run;
    FinalOfStep(s, p, run);
    run := [p] + run;
  }

  /** A get whose emptiness test falls in its window takes an item from an empty ring. */
  lemma PhantomGet<T>(s: State<T>) returns (run: seq<Step<T>>)
    requires Inv(s) && EmptyWindow(s) && s.cons.EmptyHead?
    ensures Size(s) == 0 && ValidRun(s, run) && |Final(s, run).deq| == |Final(s, run).enq| + 1
    ensures run != [] && run[0] == ConsumerStep
  {
    var c: Step<T> := ConsumerStep;
    var s1 := Apply(s, c);
    var s2 := Apply(s1, c);
    var s3 := Apply(s2, c);
    var s4 := Apply(s3, c);
    assert |s4.deq| == |s4.enq| + 1;
    FinalOfStep(s3, c, []);
    FinalOfStep(s2, c, [c]);
    run := [c] + [c];
    FinalOfStep(s1, c, run);
    run := [c] + run;
    FinalOfStep(s, c, run);
    run := [c] + run;
  }

  /** More has been got than was put or in another order, or as many items wait as there are
      slots. */
  ghost predicate Broken<T>(s: State<T>) { !Fifo(s) || Size(s) >= s.cap }

  /** From the first unsafe step on the threads can go on to break the queue. */
  lemma UnsafeStepCanBreak<T>(s: State<T>, step: Step<T>) returns (more: seq<Step<T>>)
    requires Inv(s) && Enabled(s, step) && !Safe(s, step)
    ensures ValidRun(s, [step] + more) && Broken(Final(s, [step] + more))
  {
    var run;
    if step.ProducerStep? { run := OverrunLosesQueue(s); } else { run := PhantomGet(s); }
    more := run[1..];
    assert run == [step] + more;
  }

  lemma {:induction false} RunsJoin<T>(s: State<T>, run: seq<Step<T>>, more: seq<Step<T>>)
    requires ValidRun(s, run) && ValidRun(Final(s, run), more)
    ensures ValidRun(s, run + more) && Final(s, run + more) == Final(Final(s, run), more)
    decreases |run|
  {
    if run == [] {
      assert run + more == more;
    } else {
      RunsJoin(Apply(s, run[0]), run[1..], more);
      assert (run + more)[1..] == run[1..] + more && (run + more)[0] == run[0];
    }
  }

  /** Where a run first decides inside a window. */
  lemma {:induction false} FirstUnsafe<T>(s: State<T>, run: seq<Step<T>>) returns (k: nat)
    requires ValidRun(s, run) && !SafeRun(s, run)
    ensures k < |run| && SafeRun(s, run[..k]) && ValidRun(s, run[..k])
    ensures Enabled(Final(s, run[..k]), run[k]) && !Safe(Final(s, run[..k]), run[k])
    decreases |run|
  {
    if !Safe(s, run[0]) {
      k := 0;
    } else {
      var j := FirstUnsafe(Apply(s, run[0]), run[1..]);
      k := j + 1;
      assert run[..k][1..] == run[1..][..j] && run[..k][0] == run[0];
    }
  }

  /** FIFO, exactly: a run that never decides inside a window never breaks the queue, and one that
      does can be continued, after its first such step, until the queue is broken. */
  lemma FifoExactlyOutsideTheWindows<T>(s: State<T>, run: seq<Step<T>>) returns (k: nat, more: seq<Step<T>>)
    requires Init(s) && ValidRun(s, run)
    ensures SafeRun(s, run) ==> Inv(Final(s, run)) && !Broken(Final(s, run))
    ensures !SafeRun(s, run) ==>
      && k < |run| && SafeRun(s, run[..k])
      && ValidRun(s, run[..k + 1] + more) && Broken(Final(s, run[..k + 1] + more))
  {
    InitIsGood(s);
    k, more := 0, [];
    if SafeRun(s, run) {
      SafeRunIsFifo(s, run);
    } else {
      k := FirstUnsafe(s, run);
      SafeRunIsFifo(s, run[..k]);
      more := UnsafeStepCanBreak(Final(s, run[..k]), run[k]);
      RunsJoin(s, run[..k], [run[k]] + more);
      assert run[..k] + ([run[k]] + more) == run[..k + 1] + more;
    }
  }

  // Both windows are reachable from a fresh ring of capacity two.

  ghost predicate Reaches<T(!new)>(s: State<T>, t: State<T>) {
    exists run :: SafeRun(s, run) && ValidRun(s, run) && Final(s, run) == t
  }

  lemma {:induction false} RunExtends<T>(s: State<T>, run: seq<Step<T>>, step: Step<T>)
    requires SafeRun(s, run) && ValidRun(s, run)
    requires Enabled(Final(s, run), step) && Safe(Final(s, run), step)
    ensures SafeRun(s, run + [step]) && ValidRun(s, run + [step])
    ensures Final(s, run + [step]) == Apply(Final(s, run), step)
    decreases |run|
  {
    if run == [] {
      assert run + [step] == [step] && [step][1..] == [];
    } else {
      RunExtends(Apply(s, run[0]), run[1..], step);
      assert (run + [step])[1..] == run[1..] + [step];
    }
  }

  lemma Go<T(!new)>(s: State<T>, t: State<T>, step: Step<T>) returns (u: State<T>)
    requires Reaches(s, t) && Enabled(t, step) && Safe(t, step)
    ensures u == Apply(t, step) && Reaches(s, u)
  {
    var run :| SafeRun(s, run) && ValidRun(s, run) && Final(s, run) == t;
    RunExtends(s, run, step);
    u := Apply(t, step);
  }

  /** A put that runs alone passes its full test. */
  lemma PassesGuard(s: State<int>, t: State<int>, v: int) returns (u: State<int>)
    requires Reaches(s, t) && t.prod == PIdle && Succ(t.cap, t.head) != t.tail && !FullWindow(t)
    ensures Reaches(s, u) && u == t.(prod := PutItem(v))
  {
    u := Go(s, t, BeginPut(v));
    u := Go(s, u, ProducerStep);
    u := Go(s, u, ProducerStep);
  }

  /** A put that runs alone, from its first access to the increment of head. */
  lemma PutAlone(s: State<int>, t: State<int>, v: int) returns (u: State<int>)
    requires Reaches(s, t) && t.cap == 2 && |t.buffer| == 2 && t.prod == PIdle && t.head < 2
    requires Succ(2, t.head) != t.tail && !FullWindow(t)
    ensures Reaches(s, u)
    ensures u == t.(buffer := t.buffer[t.head := v], head := t.head + 1, enq := t.enq + [v],
                    prod := if t.head + 1 == 2 then WrapHead(v) else PIdle)
  {
    u := PassesGuard(s, t, v);
    u := Go(s, u, ProducerStep);
    u := Go(s, u, ProducerStep);
    u := Go(s, u, ProducerStep);
    u := Go(s, u, ProducerStep);
  }

  /** A get that runs alone finds a ring that is neither full nor empty. */
  lemma FindsItem(s: State<int>, t: State<int>) returns (u: State<int>)
    requires Reaches(s, t) && t.cons == CIdle && Succ(t.cap, t.head) != t.tail && t.head != t.tail && !EmptyWindow(t)
    ensures Reaches(s, u) && u == t.(cons := ReadItem)
  {
    u := Go(s, t, BeginGet);
    u := Go(s, u, ConsumerStep);
    u := Go(s, u, ConsumerStep);
    u := Go(s, u, ConsumerStep);
    u := Go(s, u, ConsumerStep);
  }

  /** It takes the item in the last slot and wraps. */
  lemma TakesLast(s: State<int>, t: State<int>) returns (u: State<int>)
    requires Reaches(s, t) && t.cons == ReadItem && |t.buffer| == t.cap == t.tail + 1
    ensures Reaches(s, u) && u == t.(tail := 0, deq := t.deq + [t.buffer[t.tail]], cons := CIdle)
  {
    u := Go(s, t, ConsumerStep);
    u := Go(s, u, ConsumerStep);
    u := Go(s, u, ConsumerStep);
  }

  /** A get that runs alone on a full ring, up to the increment of tail. */
  lemma GetAlone(s: State<int>, t: State<int>) returns (u: State<int>)
    requires Reaches(s, t) && t.cap == 2 && |t.buffer| == 2 && t.cons == CIdle && t.tail < 2
    requires Succ(2, t.head) == t.tail
    ensures Reaches(s, u)
    ensures u == t.(tail := t.tail + 1, deq := t.deq + [t.buffer[t.tail]],
                    cons := if t.tail + 1 == 2 then WrapTail(t.buffer[t.tail]) else CIdle)
  {
    u := Go(s, t, BeginGet);
    u := Go(s, u, ConsumerStep);
    u := Go(s, u, ConsumerStep);
    u := Go(s, u, ConsumerStep);
    u := Go(s, u, ConsumerStep);
  }

  function Fresh(): State<int> { State(2, [0, 0], 0, 0, PIdle, CIdle, [], []) }

  lemma FirstRound() returns (u: State<int>)
    ensures Reaches(Fresh(), u)
    ensures u == State(2, [1, 2], 2, 1, WrapHead(2), CIdle, [1, 2], [1])
  {
    var s := Fresh();
    assert SafeRun(s, []) && ValidRun(s, []) && Final(s, []) == s;
    u := PutAlone(s, s, 1);
    u := GetAlone(s, u);
    u := PutAlone(s, u, 2);
    assert [1] + [2] == [1, 2] && [] + [1] == [1];
  }

  /** A safe run brings a producer to its full test inside the full window. */
  lemma FullWindowIsReachable() returns (u: State<int>)
    ensures Reaches(Fresh(), u) && FullWindow(u) && u.prod.GuardTail?
  {
    var s := Fresh();
    u := FirstRound();
    u := Go(s, u, ProducerStep);
    u := GetAlone(s, u);
    u := PutAlone(s, u, 3);
    u := Go(s, u, BeginPut(4));
    u := Go(s, u, ProducerStep);
  }

  /** The consumer empties the ring and wraps while the producer has yet to store zero. */
  lemma ConsumerOvertakes() returns (u: State<int>)
    ensures Reaches(Fresh(), u) && u == State(2, [1, 2], 2, 0, WrapHead(2), CIdle, [1, 2], [1, 2])
  {
    var s := Fresh();
    u := FirstRound();
    u := FindsItem(s, u);
    u := TakesLast(s, u);
    assert [1] + [2] == [1, 2];
  }

  /** A safe run brings a consumer to its emptiness test inside the empty window. */
  lemma EmptyWindowIsReachable() returns (u: State<int>)
    ensures Reaches(Fresh(), u) && EmptyWindow(u) && u.cons.EmptyHead?
  {
    var s := Fresh();
    u := ConsumerOvertakes();
    u := Go(s, u, BeginGet);
    u := Go(s, u, ConsumerStep);
    u := Go(s, u, ConsumerStep);
  }
}

/** The ring as its callers see it when one call runs at a time. */
module SequentialRing {

  function Next(n: nat, i: nat): nat { if i + 1 == n then 0 else i + 1 }

  /** The items from `tail` up to `head`, around the end of the buffer. */
  function Window<T>(s: seq<T>, tail: nat, head: nat): seq<T>
    requires tail < |s| && head < |s|
  {
    if tail <= head then s[tail..head] else s[tail..] + s[..head]
  }

  lemma WindowAppends<T>(s: seq<T>, tail: nat, head: nat, x: T)
    requires tail < |s| && head < |s| && Next(|s|, head) != tail
    ensures Window(s[head := x], tail, Next(|s|, head)) == Window(s, tail, head) + [x]
  {}

  lemma WindowDrops<T>(s: seq<T>, tail: nat, head: nat)
    requires tail < |s| && head < |s| && tail != head
    ensures Window(s, tail, head) != []
    ensures Window(s, tail, head)[0] == s[tail]
    ensures Window(s, Next(|s|, tail), head) == Window(s, tail, head)[1..]
  {}

  class RingBuffer<T(0)> {
    var buffer: array<T>
    var head: nat
    var tail: nat

    ghost predicate Valid()
      reads this
    {
      buffer.Length >= 2 && head < buffer.Length && tail < buffer.Length
    }

    /** The waiting items, oldest first. */
    ghost function Contents(): seq<T>
      reads this, buffer
      requires Valid()
    {
      Window(buffer[..], tail, head)
    }

    constructor (size: nat)
      requires size >= 2
      ensures Valid() && fresh(buffer) && buffer.Length == size && Contents() == []
    {
      buffer := new T[size];
      head, tail := 0, 0;
    }

    method IsFull() returns (full: bool)
      requires Valid()
      ensures full <==> |Contents()| == buffer.Length - 1
    {
      var next := head + 1;
      if next == buffer.Length { next := 0; }
      full := next == tail;
    }

    method IsEmpty() returns (empty: bool)
      requires Valid()
      ensures empty <==> Contents() == []
    {
      var full := IsFull();
      empty := !full && head == tail;
    }

    /** The number of waiting items, except that a full ring reports its capacity. */
    method Size() returns (size: nat)
      requires Valid()
      ensures size == if |Contents()| == buffer.Length - 1 then buffer.Length else |Contents()|
    {
      size := buffer.Length;
      var full := IsFull();
      if !full {
        if head >= tail { size := head - tail; } else { size := buffer.Length + head - tail; }
      }
    }

    /** Putting into a full ring drops the oldest item. */
    method Put(data: T)
      requires Valid()
      modifies this`head, this`tail, buffer
      ensures Valid() && buffer == old(buffer)
      ensures Contents() == (if |old(Contents())| == buffer.Length - 1 then old(Contents())[1..]
                             else old(Contents())) + [data]
    {
      ghost var was := buffer[..];
      buffer[head] := data;
      assert buffer[..] == was[head := data];
      var full := IsFull();
      if full {
        tail := tail + 1;
        if tail == buffer.Length { tail := 0; }
        WindowDrops(was, old(tail), head);
      }
      WindowAppends(was, tail, head, data);
      head := head + 1;
      if head == buffer.Length { head := 0; }
    }

    method TryPut(data: T) returns (ok: bool)
      requires Valid()
      modifies this`head, this`tail, buffer
      ensures Valid() && buffer == old(buffer)
      ensures ok <==> |old(Contents())| < buffer.Length - 1
      ensures Contents() == if ok then old(Contents()) + [data] else old(Contents())
    {
      var full := IsFull();
      ok := !full;
      if ok { Put(data); }
    }

    method Get() returns (ok: bool, data: T)
      requires Valid()
      modifies this`tail
      ensures Valid()
      ensures ok <==> old(Contents()) != []
      ensures ok ==> data == old(Contents())[0] && Contents() == old(Contents())[1..]
      ensures !ok ==> tail == old(tail)
    {
      var empty := IsEmpty();
      data := buffer[tail];
      ok := !empty;
      if ok {
        WindowDrops(buffer[..], tail, head);
        tail := tail + 1;
        if tail == buffer.Length { tail := 0; }
      }
    }
  }
}
