/** The CXL device driver's shadow register cache.

    The device has two system registers and a file of user registers reached through
    a selector: a user write goes to the register named by the selector's current
    value and the address written.  The driver keeps a shadow of every register and
    skips a write whose value the shadow says is already there. */
module CxlDevice {

  import Arithmetic

  type Word = nat

  const SYSTEM_BIT: Word := 0x4_0000               // bit 18
  const PIPELINE_CONFIG_BIT: Word := 0x2_0000      // bit 17
  const VIRTUAL_PIPELINE_CONFIG_BIT: Word := 0x8_0000  // bit 19
  const TRANSLATION_ENTRY_VALID_BIT: Word := 0x2000    // bit 13
  const PIPELINE_SELECTOR_UNIT: Word := 0x2000     // the pipeline index starts at bit 13
  const ADDR_UNIT: Word := 8                       // sub-addresses start at bit 3
  const SELECTOR_ADDRESS: Word := SYSTEM_BIT + 0x20
  const CONTROLPATH_ADDRESS: Word := SYSTEM_BIT + 0x28
  const N_PIPELINES: Word := 3
  const N_COUNTERS: Word := 8192
  const SRAM_LOG_DEPTH: Word := 13

  /** The configuration a pipeline has: six fields and a translation table. */
  datatype Reg =
    | Field(pipeline: Word, code: Word)
    | Entry(pipeline: Word, from: Word)

  predicate IsFieldCode(code: Word) {
    code == 0x00 ||   // added stall
    code == 0x08 ||   // filter start
    code == 0x10 ||   // filter end
    code == 0x18 ||   // map shift
    code == 0x20 ||   // sample bitmask
    code == 0x28      // post translation shift
  }

  predicate IsReg(r: Reg) {
    r.pipeline < N_PIPELINES &&
    match r
    case Field(_, code) => IsFieldCode(code)
    case Entry(_, from) => from < N_COUNTERS
  }

  // The driver ors bits that do not overlap; OrIsSum shows the sums below are the same.

  function Route(r: Reg): Word {
    match r
    case Field(p, code) => PIPELINE_CONFIG_BIT + p * PIPELINE_SELECTOR_UNIT + code
    case Entry(p, _) => VIRTUAL_PIPELINE_CONFIG_BIT + p * PIPELINE_SELECTOR_UNIT
  }

  function SubAddress(r: Reg): Word {
    match r
    case Field(_, _) => 0
    case Entry(_, from) => from * ADDR_UNIT
  }

  lemma OrIsSum(p: bv64, code: bv64, to: bv64)
    requires p < 3 && code <= 0x28 && to < 0x2000
    ensures (1 << 17) | (p << 13) | code == (1 << 17) + (p << 13) + code
    ensures (1 << 19) | (p << 13) == (1 << 19) + (p << 13)
    ensures to | (1 << 13) == to + (1 << 13)
  {}

  /** Where each register is, or-ed together as the driver does: bit 17 or 19, the pipeline from
      bit 13 on, and the field or, from bit 3 of the sub-address on, the entry. */
  lemma AddressesAsWritten(p: Word, code: Word, from: Word)
    requires p < 3 && IsFieldCode(code)
    ensures Route(Field(p, code)) == ((1 << 17) | ((p as bv64) << 13) | (code as bv64)) as int
    ensures Route(Entry(p, from)) == ((1 << 19) | ((p as bv64) << 13)) as int
    ensures SubAddress(Field(p, code)) == 0 && SubAddress(Entry(p, from)) == 8 * from
  {
    assert p == 0 || p == 1 || p == 2;
  }

  lemma SystemAddressesAsWritten()
    ensures SELECTOR_ADDRESS == ((1 << 18) | 0x20 as bv64) as int
    ensures CONTROLPATH_ADDRESS == ((1 << 18) | 0x28 as bv64) as int
  {}

  predicate HasBit(w: Word, bit: Word)
    requires bit > 0
  {
    (w / bit) % 2 == 1
  }

  /** No two registers share a route and a sub-address. */
  lemma AddressInjective(r: Reg, q: Reg)
    requires IsReg(r) && IsReg(q)
    ensures Route(r) == Route(q) && SubAddress(r) == SubAddress(q) ==> r == q
  {}

  /** Routes are never system addresses and sub-addresses stay in their bits. */
  lemma AddressWellFormed(r: Reg)
    requires IsReg(r)
    ensures !HasBit(Route(r), SYSTEM_BIT)
    ensures SubAddress(r) % ADDR_UNIT == 0 && SubAddress(r) < 0x1_0000
    ensures SubAddress(r) != SELECTOR_ADDRESS && SubAddress(r) != CONTROLPATH_ADDRESS
  {}

  function MaxTranslation(mapShift: Word, postShift: Word): Word {
    if mapShift >= postShift && mapShift - postShift < SRAM_LOG_DEPTH
    then Arithmetic.Pow2(SRAM_LOG_DEPTH - (mapShift - postShift)) - 1
    else 0
  }

  lemma {:induction false} PowersMultiply(d: nat, n: nat)
    requires d <= n
    ensures Arithmetic.Pow2(n - d) * Arithmetic.Pow2(d) == Arithmetic.Pow2(n)
    decreases d
  {
    if d > 0 {
      PowersMultiply(d - 1, n);
      assert Arithmetic.Pow2(n - d) * Arithmetic.Pow2(d) == (2 * Arithmetic.Pow2(n - d)) * Arithmetic.Pow2(d - 1);
    }
  }

  /** With the translation applied to pages 2^d times as large as the counted ones, the largest
      entry is such that the entries times 2^d are the 8192 counters. */
  lemma TranslationCovers(postShift: Word, d: Word)
    requires d < 13
    ensures (MaxTranslation(postShift + d, postShift) + 1) * Arithmetic.Pow2(d) == 8192
  {
    PowersMultiply(d, 13);
    assert Arithmetic.Pow2(13) == 8192 by {
      assert Arithmetic.Pow2(4) == 16 && Arithmetic.Pow2(8) == 256 && Arithmetic.Pow2(12) == 4096;
    }
  }

  /** The identity map over the whole table fits exactly when the two shifts agree. */
  lemma FullTableFitsExactly(mapShift: Word, postShift: Word)
    ensures MaxTranslation(mapShift, postShift) >= N_COUNTERS - 1 <==> mapShift == postShift
  {
    assert Arithmetic.Pow2(12) == 4096 by {
      assert Arithmetic.Pow2(4) == 16 && Arithmetic.Pow2(8) == 256;
    }
    if mapShift > postShift && mapShift - postShift < SRAM_LOG_DEPTH {
      Arithmetic.Pow2Monotone(SRAM_LOG_DEPTH - (mapShift - postShift), 12);
    }
  }

  /** __builtin_popcount works on 32 bits. */
  const UINT: Word := 0x1_0000_0000

  function PopCount(x: Word): nat {
    if x == 0 then 0 else x % 2 + PopCount(x / 2)
  }

  predicate OneBit(x: Word) { exists k: nat {:trigger Arithmetic.Pow2(k)} | k <= x :: x == Arithmetic.Pow2(k) }

  lemma {:induction false} PopCountZero(x: Word)
    ensures PopCount(x) == 0 <==> x == 0
  {
    if x != 0 { PopCountZero(x / 2); }
  }

  lemma {:induction false} PowerIsPositive(k: nat)
    ensures k < Arithmetic.Pow2(k)
  {
    if k > 0 { PowerIsPositive(k - 1); }
  }

  /** Exactly one bit is set in the powers of two. */
  lemma {:induction false} PopCountOne(x: Word)
    ensures PopCount(x) == 1 <==> OneBit(x)
  {
    if x == 0 {
      forall k: nat ensures Arithmetic.Pow2(k) != 0 { PowerIsPositive(k); }
    } else {
      PopCountOne(x / 2);
      PopCountZero(x / 2);
      if x % 2 == 0 && OneBit(x / 2) {
        var k: nat :| k <= x / 2 && x / 2 == Arithmetic.Pow2(k);
        assert Arithmetic.Pow2(k + 1) == x;
        PowerIsPositive(k + 1);
      } else if x == 1 {
        assert Arithmetic.Pow2(0) == 1;
      }
      if OneBit(x) {
        var k: nat :| k <= x && x == Arithmetic.Pow2(k);
        if k > 0 {
          assert Arithmetic.Pow2(k) == 2 * Arithmetic.Pow2(k - 1);
          PowerIsPositive(k - 1);
          assert OneBit(x / 2);
        }
      }
    }
  }

  // ---------------------------------------------------------------------------
  // The device

  /** `regs` holds the user registers whose content is known. */
  datatype Device = Device(selector: Word, controlpath: Word, regs: map<(Word, Word), Word>)

  /** A store into the register space. */
  function RawWrite(d: Device, addr: Word, data: Word): Device {
    if addr == SELECTOR_ADDRESS then d.(selector := data)
    else if addr == CONTROLPATH_ADDRESS then d.(controlpath := data)
    else d.(regs := d.regs[(d.selector, addr) := data])
  }

  function Address(r: Reg): (Word, Word) { (Route(r), SubAddress(r)) }

  /** Setting a register without consulting any shadow. */
  function PlainSet(d: Device, r: Reg, data: Word): Device {
    RawWrite(RawWrite(d, SELECTOR_ADDRESS, Route(r)), SubAddress(r), data)
  }

  /** Setting a register unless the shadow says its value is already there. */
  function ElidedSet(d: Device, shadow: map<Reg, Word>, r: Reg, data: Word): Device {
    if r in shadow && shadow[r] == data then d else PlainSet(d, r, data)
  }

  /** A skipped write can leave the selector where the unskipped one would not: the selector names
      pipeline 1 and the call sets the first field of pipeline 0 to the value it has. */
  lemma SelectorCanStayElsewhere(d: Device)
    requires d.selector == Route(Field(1, 0))
    ensures ElidedSet(d, map[Field(0, 0) := 0], Field(0, 0), 0).selector == Route(Field(1, 0))
    ensures PlainSet(d, Field(0, 0), 0).selector == Route(Field(0, 0)) != Route(Field(1, 0))
  {
    PlainSetRegs(d, Field(0, 0), 0);
  }

  // ---------------------------------------------------------------------------
  // Calls

  datatype Call =
    | SetField(pipeline: Word, code: Word, val: Word)
    | SetTranslation(pipeline: Word, from: Word, to: Word)
    | ClearTranslation(pipeline: Word, from: Word)

  function Target(c: Call): Reg {
    match c
    case SetField(p, code, _) => Field(p, code)
    case SetTranslation(p, from, _) => Entry(p, from)
    case ClearTranslation(p, from) => Entry(p, from)
  }

  function Data(c: Call): Word {
    match c
    case SetField(_, _, val) => val
    case SetTranslation(_, _, to) => to + TRANSLATION_ENTRY_VALID_BIT
    case ClearTranslation(_, _) => 0
  }

  /** What the assertions of the setters demand; `bound` is the pipeline's largest
      translation value. */
  predicate Allowed(c: Call, bound: map<Word, Word>) {
    IsReg(Target(c)) &&
    (c.SetTranslation? ==> c.to < N_COUNTERS && c.pipeline in bound && c.to <= bound[c.pipeline])
  }

  function PlainRun(d: Device, calls: seq<Call>): Device {
    if calls == [] then d
    else var c := calls[|calls| - 1];
         PlainSet(PlainRun(d, calls[..|calls| - 1]), Target(c), Data(c))
  }

  /** The last value a run of calls gave a register. */
  function LastSet(calls: seq<Call>, r: Reg, initial: Word): Word {
    if calls == [] then initial
    else var c := calls[|calls| - 1];
         if Target(c) == r then Data(c) else LastSet(calls[..|calls| - 1], r, initial)
  }

  /** Plain writes read only the register file: the selector they start from is moot. */
  lemma {:induction false} PlainRunForgetsSelector(d: Device, e: Device, calls: seq<Call>)
    requires d.regs == e.regs && d.controlpath == e.controlpath
    requires forall c | c in calls :: IsReg(Target(c))
    ensures PlainRun(d, calls).regs == PlainRun(e, calls).regs
    ensures PlainRun(d, calls).controlpath == PlainRun(e, calls).controlpath
  {
    if calls != [] {
      PlainRunForgetsSelector(d, e, calls[..|calls| - 1]);
      AddressWellFormed(Target(calls[|calls| - 1]));
    }
  }

  /** After plain writes every register holds the last value set: this is where the
      route encoding has to be injective. */
  lemma {:induction false} PlainRunHoldsLastSet(d: Device, calls: seq<Call>, r: Reg)
    requires IsReg(r) && Address(r) in d.regs
    requires forall c | c in calls :: IsReg(Target(c))
    ensures var e := PlainRun(d, calls);
            Address(r) in e.regs && e.regs[Address(r)] == LastSet(calls, r, d.regs[Address(r)])
  {
    if calls != [] {
      var c := calls[|calls| - 1];
      PlainRunHoldsLastSet(d, calls[..|calls| - 1], r);
      AddressWellFormed(Target(c));
      AddressInjective(r, Target(c));
    }
  }

  // ---------------------------------------------------------------------------
  // The driver

  /** The shadow of one register is exact. */
  ghost predicate ExactIn(regs: map<(Word, Word), Word>, shadow: map<Reg, Word>, r: Reg) {
    r in shadow && Address(r) in regs && regs[Address(r)] == shadow[r]
  }

  /** Setting one register and its shadow disturbs no other. */
  lemma SetKeepsExact(regs: map<(Word, Word), Word>, shadow: map<Reg, Word>, r: Reg, data: Word, q: Reg)
    requires IsReg(r) && IsReg(q) && (q == r || ExactIn(regs, shadow, q))
    ensures ExactIn(regs[Address(r) := data], shadow[r := data], q)
  {
    AddressInjective(r, q);
  }

  lemma PlainSetRegs(d: Device, r: Reg, data: Word)
    requires IsReg(r)
    ensures PlainSet(d, r, data) == Device(Route(r), d.controlpath, d.regs[Address(r) := data])
  {
    AddressWellFormed(r);
  }

  /** The outcome of reading a translation entry. */
  datatype Translation = Invalid | To(to: Word)

  function Decode(raw: Word): Translation {
    if HasBit(raw, TRANSLATION_ENTRY_VALID_BIT) then To(raw - TRANSLATION_ENTRY_VALID_BIT) else Invalid
  }

  /** An entry is written with bit 13 set, and read back. */
  lemma DecodeRoundTrip(p: Word, from: Word, to: Word)
    requires to < N_COUNTERS
    ensures Data(SetTranslation(p, from, to)) == to + 8192 && Decode(to + 8192) == To(to)
    ensures Data(ClearTranslation(p, from)) == 0 && Decode(0) == Invalid
  {}

  /** Register `r` is programmed before entry `from` of pipeline `p`. */
  predicate Precedes(r: Reg, p: Word, from: Word) {
    IsReg(r) && (r.pipeline < p || (r.pipeline == p && (r.Field? || r.from < from)))
  }

  lemma PrecedesNext(r: Reg, p: Word, from: Word)
    requires from < N_COUNTERS
    ensures Precedes(r, p, from + 1) ==> Precedes(r, p, from) || r == Entry(p, from)
  {}

  class Fpga {
    var device: Device
    var selector: Word                      // shadow of the pipeline selector
    var controlpath: Word
    var shadow: map<Reg, Word>
    var bound: map<Word, Word>              // largest translation value per pipeline

    ghost predicate Exact(r: Reg)
      reads this
    {
      ExactIn(device.regs, shadow, r)
    }

    ghost predicate Valid()
      reads this
    {
      && device.selector == selector && device.controlpath == controlpath
      && (forall r | IsReg(r) :: Exact(r))
      && (forall p: Word | p < N_PIPELINES :: p in bound)
    }

    constructor (device: Device)
      ensures this.device == device && shadow == map[] && bound == map[]
    {
      this.device, selector, controlpath, shadow, bound := device, 0, 0, map[], map[];
    }

    method SetSelector(new_: Word)
      requires !HasBit(new_, SYSTEM_BIT)
      modifies this`device, this`selector
      ensures selector == new_
      ensures old(selector) == new_ ==> device == old(device)
      ensures old(selector) != new_ ==> device == old(device).(selector := new_)
    {
      if selector == new_ { return; }
      selector := new_;
      device := RawWrite(device, SELECTOR_ADDRESS, new_);
    }

    method SetControlpath(new_: Word)
      modifies this`device, this`controlpath
      ensures controlpath == new_
      ensures old(controlpath) == new_ ==> device == old(device)
      ensures old(controlpath) != new_ ==> device == old(device).(controlpath := new_)
    {
      if controlpath == new_ { return; }
      controlpath := new_;
      device := RawWrite(device, CONTROLPATH_ADDRESS, new_);
    }

    /** A routed write to a user register. */
    method CtrlWrite(r: Reg, data: Word)
      requires IsReg(r) && device.selector == selector
      modifies this`device, this`selector
      ensures device == PlainSet(old(device), r, data) && selector == device.selector
    {
      AddressWellFormed(r);
      SetSelector(Route(r));
      device := RawWrite(device, SubAddress(r), data);
    }

    /** The body every setter shares: skip the write if the shadow already has it. */
    method Set(r: Reg, data: Word)
      requires IsReg(r) && r in shadow && device.selector == selector
      modifies this`device, this`selector, this`shadow
      ensures shadow == old(shadow)[r := data] && selector == device.selector
      ensures old(shadow[r]) != data ==> device == PlainSet(old(device), r, data)
      ensures old(shadow[r]) == data ==> device == old(device)
    {
      if shadow[r] == data {
        assert shadow == shadow[r := data];
        return;
      }
      CtrlWrite(r, data);
      shadow := shadow[r := data];
    }

    /** One call.  The register file ends up as if nothing had been skipped; the
        selector does too unless the write was skipped with the selector elsewhere. */
    method Do(c: Call)
      requires Valid() && Allowed(c, bound)
      modifies this`device, this`selector, this`shadow
      ensures Valid() && controlpath == old(controlpath)
      ensures shadow == old(shadow)[Target(c) := Data(c)]
      ensures device == ElidedSet(old(device), old(shadow), Target(c), Data(c))
      ensures device.regs == PlainSet(old(device), Target(c), Data(c)).regs
      ensures device.selector == PlainSet(old(device), Target(c), Data(c)).selector
              <==> old(shadow)[Target(c)] != Data(c) || old(selector) == Route(Target(c))
    {
      var r := Target(c);
      assert Exact(r);
      ghost var before, was := device, shadow;
      Set(r, Data(c));
      PlainSetRegs(before, r, Data(c));
      assert device.regs == before.regs[Address(r) := Data(c)];
      forall q | IsReg(q) ensures Exact(q) {
        assert old(Exact(q));
        SetKeepsExact(before.regs, was, r, Data(c), q);
      }
    }

    /** Any run of calls leaves every shadow exact and the register file as the same
        calls without write elision would leave it. */
    method Run(calls: seq<Call>)
      requires Valid() && forall c | c in calls :: Allowed(c, bound)
      modifies this`device, this`selector, this`shadow
      ensures Valid()
      ensures device.regs == PlainRun(old(device), calls).regs
      ensures forall r | IsReg(r) :: shadow[r] == LastSet(calls, r, old(shadow)[r])
    {
      var i := 0;
      while i < |calls|
        invariant 0 <= i <= |calls| && Valid()
        invariant device.regs == PlainRun(old(device), calls[..i]).regs
      {
        var done := calls[..i + 1];
        assert done[..i] == calls[..i] && calls[i] in calls;
        PlainSetRegs(device, Target(calls[i]), Data(calls[i]));
        PlainSetRegs(PlainRun(old(device), calls[..i]), Target(calls[i]), Data(calls[i]));
        Do(calls[i]);
        i := i + 1;
      }
      assert calls[..i] == calls;
      forall r | IsReg(r) ensures shadow[r] == LastSet(calls, r, old(shadow)[r]) {
        assert old(Exact(r)) && Exact(r);
        PlainRunHoldsLastSet(old(device), calls, r);
      }
    }

    method ComputeMaxTranslation(pipeline: Word, mapShift: Word, postShift: Word)
      modifies this`bound
      ensures bound == old(bound)[pipeline := MaxTranslation(mapShift, postShift)]
    {
      bound := bound[pipeline := MaxTranslation(mapShift, postShift)];
    }

    /** The shadow is poisoned with 1 first so that the write of 0 is not skipped. */
    method Reset(r: Reg)
      requires IsReg(r) && device.selector == selector
      modifies this`device, this`selector, this`shadow
      ensures device == PlainSet(old(device), r, 0) && selector == device.selector
      ensures shadow == old(shadow)[r := 0]
    {
      shadow := shadow[r := 1];
      Set(r, 0);
    }

    /** What the device holds in a register. */
    ghost function DeviceReg(r: Reg): Word
      requires Valid() && IsReg(r)
      reads this
    {
      assert Exact(r);
      device.regs[Address(r)]
    }

    /** Initialization has programmed the register. */
    ghost predicate Programmed(r: Reg)
      reads this
    {
      Exact(r) && shadow[r] == 0
    }

    /** Initialization has reached entry `from` of pipeline `p`. */
    ghost predicate ProgrammedUpTo(p: Word, from: Word)
      reads this
    {
      forall r | Precedes(r, p, from) :: Programmed(r)
    }

    method ResetOne(r: Reg)
      requires IsReg(r) && device.selector == selector
      modifies this`device, this`selector, this`shadow
      ensures device.selector == selector && device.controlpath == old(device.controlpath)
      ensures Programmed(r)
      ensures forall q | IsReg(q) && old(Programmed(q)) :: Programmed(q)
    {
      ghost var before, was := device, shadow;
      Reset(r);
      PlainSetRegs(before, r, 0);
      SetKeepsExact(before.regs, was, r, 0, r);
      forall q | IsReg(q) && old(Programmed(q)) ensures Programmed(q) {
        SetKeepsExact(before.regs, was, r, 0, q);
      }
    }

    method ResetFields(p: Word)
      requires p < N_PIPELINES && device.selector == selector
      modifies this`device, this`selector, this`shadow
      ensures device.selector == selector && device.controlpath == old(device.controlpath)
      ensures forall code | IsFieldCode(code) :: Programmed(Field(p, code))
      ensures forall q | IsReg(q) && old(Programmed(q)) :: Programmed(q)
    {
      ResetOne(Field(p, 0x00));
      ResetOne(Field(p, 0x08));
      ResetOne(Field(p, 0x10));
      ResetOne(Field(p, 0x18));
      ResetOne(Field(p, 0x20));
      ResetOne(Field(p, 0x28));
    }

    method ResetTable(p: Word)
      requires p < N_PIPELINES && device.selector == selector && ProgrammedUpTo(p, 0)
      modifies this`device, this`selector, this`shadow
      ensures device.selector == selector && device.controlpath == old(device.controlpath)
      ensures ProgrammedUpTo(p, N_COUNTERS)
    {
      var from: Word := 0;
      while from < N_COUNTERS
        invariant from <= N_COUNTERS && device.selector == selector
        invariant device.controlpath == old(device.controlpath) && ProgrammedUpTo(p, from)
        decreases N_COUNTERS - from
      {
        label before:
        ResetOne(Entry(p, from));
        forall r | Precedes(r, p, from + 1) ensures Programmed(r) {
          PrecedesNext(r, p, from);
          assert r != Entry(p, from) ==> old@before(Programmed(r));
        }
        from := from + 1;
      }
    }

    /** Bring a device in any state under the driver's control: afterwards every shadow
        is exact, every register is zero, and no translation is allowed yet. */
    method InitFpga(controlpathStart: Word)
      requires controlpathStart != 1
      modifies this
      ensures Valid() && controlpath == controlpathStart
      ensures forall r | IsReg(r) :: DeviceReg(r) == 0
      ensures forall p: Word | p < N_PIPELINES :: bound[p] == 0
    {
      selector := 1;
      SetSelector(0);
      controlpath := 1;
      SetControlpath(controlpathStart);
      var p := 0;
      while p < N_PIPELINES
        invariant 0 <= p <= N_PIPELINES
        invariant device.selector == selector && device.controlpath == controlpath == controlpathStart
        invariant forall r | IsReg(r) && r.pipeline < p :: Programmed(r)
        invariant forall q: Word | q < p :: q in bound && bound[q] == 0
      {
        InitPipeline(p);
        p := p + 1;
      }
    }

    /** One round of the initialization loop. */
    method InitPipeline(p: Word)
      requires p < N_PIPELINES && device.selector == selector
      requires forall r | IsReg(r) && r.pipeline < p :: Programmed(r)
      modifies this
      ensures device.selector == selector && device.controlpath == old(device.controlpath)
      ensures controlpath == old(controlpath) && bound == old(bound)[p := 0]
      ensures forall r | IsReg(r) && r.pipeline <= p :: Programmed(r)
    {
      ResetFields(p);
      bound := bound[p := 0];
      assert ProgrammedUpTo(p, 0);
      ResetTable(p);
      assert forall r | IsReg(r) && r.pipeline <= p :: Precedes(r, p, N_COUNTERS);
    }

    /** The translation the shadow reports is the one the device applies. */
    method GetTranslation(pipeline: Word, from: Word) returns (t: Translation)
      requires Valid() && pipeline < N_PIPELINES && from < N_COUNTERS
      ensures t == Decode(DeviceReg(Entry(pipeline, from)))
    {
      assert Exact(Entry(pipeline, from));
      t := Decode(shadow[Entry(pipeline, from)]);
    }

    /** Fill a pipeline's table with the identity, until an entry breaks the bound;
        every other register is left alone. */
    method InstallIdentity(pipeline: Word) returns (ok: bool)
      requires Valid() && pipeline < N_PIPELINES
      modifies this`device, this`selector, this`shadow
      ensures Valid()
      ensures ok <==> bound[pipeline] >= N_COUNTERS - 1
      ensures ok ==> forall from: Word | from < N_COUNTERS ::
                Decode(DeviceReg(Entry(pipeline, from))) == To(from)
      ensures forall r | IsReg(r) && !(r.Entry? && r.pipeline == pipeline) :: DeviceReg(r) == old(DeviceReg(r))
    {
      var from: Word := 0;
      ok := true;
      while from < N_COUNTERS && ok
        invariant from <= N_COUNTERS && Valid()
        invariant ok ==> from <= bound[pipeline] + 1
        invariant !ok ==> bound[pipeline] < N_COUNTERS - 1
        invariant forall k: Word | k < from ::
                    Entry(pipeline, k) in shadow && shadow[Entry(pipeline, k)] == k + TRANSLATION_ENTRY_VALID_BIT
        invariant forall r | IsReg(r) && !(r.Entry? && r.pipeline == pipeline) ::
                    r in shadow && r in old(shadow) && shadow[r] == old(shadow)[r]
        decreases N_COUNTERS - from, ok
      {
        ok := from <= bound[pipeline];
        if ok {
          Do(SetTranslation(pipeline, from, from));
          from := from + 1;
        }
      }
      if ok {
        forall k: Word | k < N_COUNTERS ensures Decode(DeviceReg(Entry(pipeline, k))) == To(k) {
          assert Exact(Entry(pipeline, k));
          DecodeRoundTrip(pipeline, k, k);
        }
      }
      forall r | IsReg(r) && !(r.Entry? && r.pipeline == pipeline) ensures DeviceReg(r) == old(DeviceReg(r)) {
        assert Exact(r) && old(Exact(r));
      }
    }

    method SetFields(pipeline: Word, vals: seq<Word>)
      requires Valid() && pipeline < N_PIPELINES && |vals| == 6
      modifies this`device, this`selector, this`shadow
      ensures Valid()
      ensures forall i: nat | i < 6 :: IsFieldCode(8 * i) && DeviceReg(Field(pipeline, 8 * i)) == vals[i]
      ensures forall r | IsReg(r) && r.pipeline != pipeline :: DeviceReg(r) == old(DeviceReg(r))
    {
      var i := 0;
      assert forall r | IsReg(r) :: Exact(r) && DeviceReg(r) == shadow[r];
      while i < 6
        invariant 0 <= i <= 6 && Valid()
        invariant forall r | IsReg(r) && r.pipeline != pipeline :: shadow[r] == old(shadow)[r]
        invariant forall j | 0 <= j < i :: Field(pipeline, 8 * j) in shadow && shadow[Field(pipeline, 8 * j)] == vals[j]
      {
        Do(SetField(pipeline, 8 * i, vals[i]));
        i := i + 1;
      }
      assert forall r | IsReg(r) :: Exact(r) && DeviceReg(r) == shadow[r];
      forall i: nat | i < 6 ensures IsFieldCode(8 * i) && DeviceReg(Field(pipeline, 8 * i)) == vals[i] {
        assert Exact(Field(pipeline, 8 * i));
      }
    }

    /** Program one pipeline with an identity translation table.  The assertions on the sampling
        mask and on table values let this finish exactly when the mask is one below a power of
        two, in 32 bits, and the two shifts agree. */
    method InstallPipeline(pipeline: Word, filterStart: Word, filterEnd: Word,
                           mapShift: Word, bitmask: Word, postShift: Word) returns (ok: bool)
      requires Valid() && pipeline < N_PIPELINES
      modifies this`device, this`selector, this`shadow, this`bound
      ensures Valid() && (ok <==> OneBit((bitmask + 1) % UINT) && mapShift == postShift)
      ensures ok ==> forall from: Word | from < N_COUNTERS ::
                Decode(DeviceReg(Entry(pipeline, from))) == To(from)
      ensures OneBit((bitmask + 1) % UINT) ==> forall i: nat | i < 6 ::
                IsFieldCode(8 * i) &&
                DeviceReg(Field(pipeline, 8 * i)) == [0, filterStart, filterEnd, mapShift, bitmask, postShift][i]
      ensures forall r | IsReg(r) && (r.pipeline != pipeline || !OneBit((bitmask + 1) % UINT)) ::
                DeviceReg(r) == old(DeviceReg(r))
    {
      PopCountOne((bitmask + 1) % UINT);
      if PopCount((bitmask + 1) % UINT) != 1 { return false; }
      ComputeMaxTranslation(pipeline, mapShift, postShift);
      FullTableFitsExactly(mapShift, postShift);
      SetFields(pipeline, [0, filterStart, filterEnd, mapShift, bitmask, postShift]);
      ok := InstallIdentity(pipeline);
    }
  }
}
