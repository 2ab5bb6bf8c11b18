/** Masked register steps of the PCIe core and their reverse-order rollback
    (a1625_pcie_phy.h, lines 14-16, 63-69, 98-129 and 153-173). */
module PhySteps {
  import opened Errno
  import opened ConfigSpace

  const ONES: U32 := Mask(_ => true)

  /** One masked change; `saved` is what the masked bits were before it. */
  datatype Step = Step(offset: nat, mask: U32, bits: U32, saved: U32)

  /** `(value & ~mask) | bits` */
  function Blend(value: U32, mask: U32, bits: U32): U32 {
    seq(32, i requires 0 <= i < 32 => (value[i] && !mask[i]) || bits[i])
  }

  predicate Within(bits: U32, mask: U32) {
    forall i :: 0 <= i < 32 && bits[i] ==> mask[i]
  }

  // ---------- Rollback on values ----------

  /** The register bank of the 8 KiB core block, a word per register. */
  const WORDS: nat := 0x800
  type Bank = s: seq<U32> | |s| == WORDS ghost witness seq(WORDS, _ => seq(32, _ => false))

  predicate Addressable(s: Step) {
    s.offset % 4 == 0 && s.offset / 4 < WORDS
  }

  predicate WellFormed(steps: seq<Step>) {
    forall i :: 0 <= i < |steps| ==> Addressable(steps[i]) && Within(steps[i].bits, steps[i].mask)
  }

  /** The bank after a register's masked bits are set; `sticks` says whether the hardware took the write. */
  function Apply(bank: Bank, s: Step, bits: U32, sticks: bool): Bank
    requires Addressable(s)
  {
    var k := s.offset / 4;
    if sticks then bank[k := Blend(bank[k], s.mask, bits)] else bank
  }

  /** The step as it is remembered when applied to this bank. */
  function Remember(bank: Bank, s: Step): Step
    requires Addressable(s)
  {
    s.(saved := And(bank[s.offset / 4], s.mask))
  }

  /** Undo remembered steps, last first, all writes taken. */
  function Unwind(bank: Bank, steps: seq<Step>): Bank
    requires WellFormed(steps)
    decreases |steps|
  {
    if steps == [] then bank
    else
      var n := |steps| - 1;
      Unwind(Apply(bank, steps[n], steps[n].saved, true), steps[..n])
  }

  /** Undoing one step gives the bank back, whether or not the hardware took the step. */
  lemma UndoOne(bank: Bank, s: Step, sticks: bool)
    requires Addressable(s) && Within(s.bits, s.mask)
    ensures Apply(Apply(bank, s, s.bits, sticks), s, Remember(bank, s).saved, true) == bank
  {
    var k := s.offset / 4;
    var there := Apply(bank, s, s.bits, sticks);
    var back := Apply(there, s, Remember(bank, s).saved, true);
    forall i | 0 <= i < 32 ensures back[k][i] == bank[k][i] {
    }
    assert back[k] == bank[k];
  }

  lemma UnwindNone(bank: Bank)
    ensures Unwind(bank, []) == bank && Legible(bank, [])
  {
  }

  lemma UnwindLast(bank: Bank, steps: seq<Step>)
    requires WellFormed(steps) && steps != []
    ensures var n := |steps| - 1;
      Addressable(steps[n]) && WellFormed(steps[..n])
      && Unwind(bank, steps) == Unwind(Apply(bank, steps[n], steps[n].saved, true), steps[..n])
  {
  }

  /** The bank and the remembered steps after applying `steps` in order; `sticks` says which writes were taken. */
  function Forward(bank: Bank, steps: seq<Step>, sticks: seq<bool>): (r: (Bank, seq<Step>))
    requires WellFormed(steps) && |sticks| == |steps|
    ensures |r.1| == |steps| && WellFormed(r.1)
  {
    if steps == [] then (bank, [])
    else
      var n := |steps| - 1;
      var (b, done) := Forward(bank, steps[..n], sticks[..n]);
      (Apply(b, steps[n], steps[n].bits, sticks[n]), done + [Remember(b, steps[n])])
  }

  /** Any steps, with repeated registers and overlapping masks, stopped anywhere, with any writes lost:
      rolling back what was remembered restores the whole bank. */
  lemma {:induction false} RollbackRestores(bank: Bank, steps: seq<Step>, sticks: seq<bool>)
    requires WellFormed(steps) && |sticks| == |steps|
    ensures var (after, done) := Forward(bank, steps, sticks); Unwind(after, done) == bank
  {
    if steps != [] {
      var n := |steps| - 1;
      RollbackRestores(bank, steps[..n], sticks[..n]);
      var (b, done) := Forward(bank, steps[..n], sticks[..n]);
      var (after, all) := Forward(bank, steps, sticks);
      UndoOne(b, steps[n], sticks[n]);
      assert all[..n] == done;
    }
  }

  /** The writes of so many steps are all taken. */
  function Taken(n: nat): (sticks: seq<bool>)
    ensures |sticks| == n
  {
    seq(n, _ => true)
  }

  /** The bank after these steps on hardware that takes every write. */
  function Set(bank: Bank, steps: seq<Step>): Bank
    requires WellFormed(steps)
  {
    Forward(bank, steps, Taken(|steps|)).0
  }

  /** Each step of a perfect run finds its register different from all ones, and leaves it so. */
  predicate Visible(bank: Bank, steps: seq<Step>)
    requires WellFormed(steps)
    decreases |steps|
  {
    steps == [] ||
    (var n := |steps| - 1;
     && Visible(bank, steps[..n])
     && Set(bank, steps[..n])[steps[n].offset / 4] != ONES
     && Apply(Set(bank, steps[..n]), steps[n], steps[n].bits, true)[steps[n].offset / 4] != ONES)
  }

  /** So does each step of a perfect rollback. */
  predicate Legible(bank: Bank, stack: seq<Step>)
    requires WellFormed(stack)
    decreases |stack|
  {
    stack == [] ||
    (var n := |stack| - 1;
     var back := Apply(bank, stack[n], stack[n].saved, true);
     && bank[stack[n].offset / 4] != ONES && back[stack[n].offset / 4] != ONES
     && And(back[stack[n].offset / 4], stack[n].mask) == stack[n].saved
     && Legible(back, stack[..n]))
  }

  lemma ForwardMore(bank: Bank, steps: seq<Step>, sticks: seq<bool>, s: Step, stick: bool)
    requires WellFormed(steps) && |sticks| == |steps| && Addressable(s) && Within(s.bits, s.mask)
    ensures WellFormed(steps + [s])
    ensures var (b, done) := Forward(bank, steps, sticks);
      Forward(bank, steps + [s], sticks + [stick]) == (Apply(b, s, s.bits, stick), done + [Remember(b, s)])
  {
    assert (steps + [s])[..|steps|] == steps && (sticks + [stick])[..|steps|] == sticks;
  }

  lemma SetMore(bank: Bank, steps: seq<Step>, s: Step)
    requires WellFormed(steps) && Addressable(s) && Within(s.bits, s.mask)
    ensures WellFormed(steps + [s]) && Set(bank, steps + [s]) == Apply(Set(bank, steps), s, s.bits, true)
    ensures Visible(bank, steps + [s]) <==>
      && Visible(bank, steps) && Set(bank, steps)[s.offset / 4] != ONES
      && Apply(Set(bank, steps), s, s.bits, true)[s.offset / 4] != ONES
  {
    ForwardMore(bank, steps, Taken(|steps|), s, true);
    assert Taken(|steps|) + [true] == Taken(|steps| + 1);
    assert (steps + [s])[..|steps|] == steps;
  }

  /** A rollback reads back what the forward steps went through. */
  lemma LegibleLast(bank: Bank, stack: seq<Step>)
    requires WellFormed(stack) && stack != []
    ensures var s := stack[|stack| - 1];
      var k := s.offset / 4;
      var back := Apply(bank, s, s.saved, true);
      && WellFormed(stack[..|stack| - 1])
      && (Legible(bank, stack) <==>
          bank[k] != ONES && back[k] != ONES && And(back[k], s.mask) == s.saved && Legible(back, stack[..|stack| - 1]))
  {
  }

  lemma AllSucceed(device: Device, n: nat)
    ensures Perfect(device) ==> device.answers(n) && device.takes(n + 1) && device.answers(n + 2)
  {
  }

  lemma {:induction false} VisibleBothWays(bank: Bank, steps: seq<Step>)
    requires WellFormed(steps) && Visible(bank, steps)
    ensures var (after, done) := Forward(bank, steps, Taken(|steps|)); Legible(after, done)
  {
    hide Apply, Blend, Within, Visible, Legible, Forward, Set;
    if steps == [] {
      NothingApplied(bank, steps, Taken(0));
      UnwindNone(bank);
    } else {
      var n := |steps| - 1;
      var front, s := steps[..n], steps[n];
      assert front + [s] == steps && Taken(n) + [true] == Taken(n + 1);
      SetMore(bank, front, s);
      VisibleBothWays(bank, front);
      ForwardMore(bank, front, Taken(n), s, true);
      var (b, done) := Forward(bank, front, Taken(n));
      SetIs(bank, front);
      UndoOne(b, s, true);
      var all := done + [Remember(b, s)];
      assert all[..n] == done;
      RememberedAlike(b, s, Apply(b, s, s.bits, true), And(b[s.offset / 4], s.mask));
      LegibleLast(Apply(b, s, s.bits, true), all);
    }
  }

  /** A step is undone alike whatever it remembers. */
  lemma RememberedAlike(bank: Bank, s: Step, there: Bank, bits: U32)
    requires Addressable(s)
    ensures Apply(there, Remember(bank, s), bits, true) == Apply(there, s, bits, true)
  {
  }

  lemma SetIs(bank: Bank, steps: seq<Step>)
    requires WellFormed(steps)
    ensures Set(bank, steps) == Forward(bank, steps, Taken(|steps|)).0
  {
  }

  // ---------- The table ----------

  function BitMask(n: nat): U32 {
    Mask(i => i == n)
  }

  const NONE: U32 := Mask(_ => false)
  const LOWEST: U32 := BitMask(0)
  const LOWEST_TWO: U32 := Mask(i => i < 2)

  /** Shared PHY setup, then port 1 internal enable, the counter command and the clock control. */
  function Table(): (t: seq<Step>)
    ensures |t| == 13
  {
    [Step(0x40, LOWEST, LOWEST, NONE), Step(0x100, LOWEST, LOWEST, NONE), Step(0x118, LOWEST, LOWEST, NONE),
     Step(0x118, LOWEST, NONE, NONE), Step(0x100, LOWEST, NONE, NONE), Step(0x40, LOWEST, NONE, NONE),
     Step(0x198, LOWEST, NONE, NONE), Step(0x188, LOWEST, LOWEST, NONE),
     Step(0x18c, LOWEST, NONE, NONE), Step(0x180, LOWEST, LOWEST, NONE),
     Step(0x198, LOWEST, LOWEST, NONE), Step(0x860, ONES, LOWEST_TWO, NONE), Step(0x188, BitMask(8), NONE, NONE)]
  }

  /** The steps a run may take: the inspection prefix stops before the counter command (entry 11), and the
      clock test takes the clock control (entry 12) in its place. */
  function Program(inspect: bool, refclk: bool): (p: seq<Step>)
    ensures |p| == if !inspect then 13 else if refclk then 12 else 11
  {
    if !inspect then Table()
    else Table()[..11] + if refclk then [Table()[12]] else []
  }

  lemma StepFits(offset: nat, mask: U32, bits: U32)
    requires offset % 4 == 0 && offset / 4 < WORDS && (bits == NONE || bits == mask || (mask == ONES && bits == LOWEST_TWO))
    ensures Addressable(Step(offset, mask, bits, NONE)) && Within(bits, mask)
  {
  }

  lemma TableWellFormed()
    ensures WellFormed(Table())
  {
    hide Mask, BitMask, Within, Addressable;
    var t := Table();
    forall i | 0 <= i < 13 ensures Addressable(t[i]) && Within(t[i].bits, t[i].mask) {
      StepFits(t[i].offset, t[i].mask, t[i].bits);
    }
  }

  lemma ProgramWellFormed(inspect: bool, refclk: bool)
    ensures WellFormed(Program(inspect, refclk))
  {
    hide Mask, BitMask, Within, Addressable;
    TableWellFormed();
  }

  lemma NothingApplied(bank: Bank, p: seq<Step>, sticks: seq<bool>)
    requires WellFormed(p) && sticks == []
    ensures Forward(bank, p[..0], sticks) == (bank, []) && Set(bank, p[..0]) == bank && Visible(bank, p[..0])
  {
    assert p[..0] == [] && Taken(0) == [];
  }

  lemma {:induction false} VisiblePrefix(bank: Bank, p: seq<Step>, n: nat)
    requires WellFormed(p) && n <= |p| && Visible(bank, p)
    ensures Visible(bank, p[..n])
    decreases |p|
  {
    hide Set, Apply, Within;
    if n < |p| {
      assert p[..|p| - 1][..n] == p[..n];
      VisiblePrefix(bank, p[..|p| - 1], n);
    } else {
      assert p[..n] == p;
    }
  }

  /** On a device that answers everything a step fails exactly if its register is all ones before or after it. */
  lemma StepSeen(bank: Bank, p: seq<Step>, i: nat, device: Device, n: nat)
    requires WellFormed(p) && i < |p| && p[..i + 1] == p[..i] + [p[i]]
    ensures var s, before := p[i], Set(bank, p[..i]);
      var k := s.offset / 4;
      Perfect(device) ==>
        && device.answers(n) && device.answers(n + 2) && device.takes(n + 1)
        && And(Apply(before, s, s.bits, true)[k], s.mask) == s.bits
        && (Visible(bank, p) ==> before[k] != ONES && Apply(before, s, s.bits, true)[k] != ONES)
  {
    hide Set, Forward;
    var s, before := p[i], Set(bank, p[..i]);
    SetMore(bank, p[..i], s);
    if Visible(bank, p) {
      VisiblePrefix(bank, p, i + 1);
    }
    BlendShows(before[s.offset / 4], s.mask, s.bits);
  }

  lemma BlendShows(v: U32, mask: U32, bits: U32)
    requires Within(bits, mask)
    ensures And(Blend(v, mask, bits), mask) == bits
  {
  }

  // ---------- What the steps amount to ----------

  /** What the last of the first n steps that has this bit in its mask makes of it. */
  function Decided(p: seq<Step>, n: nat, k: nat, i: nat): Option<bool>
    requires n <= |p| && i < 32
  {
    if n == 0 then None
    else if p[n - 1].offset / 4 == k && p[n - 1].mask[i] then Some(p[n - 1].bits[i])
    else Decided(p, n - 1, k, i)
  }

  /** Every bit of the bank after the steps. */
  lemma {:induction false} SetBits(bank: Bank, p: seq<Step>, n: nat, k: nat, i: nat)
    requires WellFormed(p) && n <= |p| && k < WORDS && i < 32
    ensures Set(bank, p[..n])[k][i] == match Decided(p, n, k, i) case None => bank[k][i] case Some(bit) => bit
  {
    hide Set;
    if n == 0 {
      NothingApplied(bank, p, []);
    } else {
      SetBits(bank, p, n - 1, k, i);
      SetMore(bank, p[..n - 1], p[n - 1]);
      assert p[..n - 1] + [p[n - 1]] == p[..n];
    }
  }

  lemma Literals(i: nat)
    requires i < 32
    ensures NONE[i] == false && ONES[i] == true && LOWEST[i] == (i == 0) && LOWEST_TWO[i] == (i < 2) && BitMask(8)[i] == (i == 8)
  {
  }

  /** Bit i of word k of the register block once the port is enabled. */
  function Enabled(inspect: bool, refclk: bool, k: nat, i: nat, before: bool): bool {
    if k == 0x860 / 4 && !inspect then i < 2
    else if k == 0x188 / 4 && i == 8 && (!inspect || refclk) then false
    else if i == 0 && (k == 0x180 / 4 || k == 0x188 / 4 || k == 0x198 / 4) then true
    else if i == 0 && (k == 0x40 / 4 || k == 0x100 / 4 || k == 0x118 / 4 || k == 0x18c / 4) then false
    else before
  }

  lemma FirstSeven(k: nat, i: nat)
    requires i < 32
    ensures Decided(Table(), 7, k, i) ==
      if i == 0 && (k == 0x40 / 4 || k == 0x100 / 4 || k == 0x118 / 4 || k == 0x198 / 4) then Some(false) else None
  {
    hide Mask, BitMask;
    Literals(i);
    var t := Table();
    assert Decided(t, 1, k, i) == if i == 0 && k == 0x40 / 4 then Some(true) else Decided(t, 0, k, i);
    assert Decided(t, 2, k, i) == if i == 0 && (k == 0x40 / 4 || k == 0x100 / 4) then Some(true) else None;
    assert Decided(t, 4, k, i) ==
      if i == 0 && k == 0x118 / 4 then Some(false) else if i == 0 && (k == 0x40 / 4 || k == 0x100 / 4) then Some(true) else None;
    assert Decided(t, 6, k, i) ==
      if i == 0 && (k == 0x40 / 4 || k == 0x100 / 4 || k == 0x118 / 4) then Some(false) else None;
  }

  lemma FirstEleven(k: nat, i: nat)
    requires i < 32
    ensures Decided(Table(), 11, k, i) ==
      if i == 0 && (k == 0x180 / 4 || k == 0x188 / 4 || k == 0x198 / 4) then Some(true)
      else if i == 0 && (k == 0x40 / 4 || k == 0x100 / 4 || k == 0x118 / 4 || k == 0x18c / 4) then Some(false)
      else None
  {
    hide Mask, BitMask;
    Literals(i);
    FirstSeven(k, i);
    var t := Table();
    assert Decided(t, 8, k, i) == if i == 0 && k == 0x188 / 4 then Some(true) else Decided(t, 7, k, i);
    assert Decided(t, 9, k, i) == if i == 0 && k == 0x18c / 4 then Some(false) else Decided(t, 8, k, i);
    assert Decided(t, 10, k, i) == if i == 0 && k == 0x180 / 4 then Some(true) else Decided(t, 9, k, i);
  }

  lemma {:induction false} SamePrefix(p: seq<Step>, q: seq<Step>, n: nat, k: nat, i: nat)
    requires n <= |p| && n <= |q| && p[..n] == q[..n] && i < 32
    ensures Decided(p, n, k, i) == Decided(q, n, k, i)
  {
    if n > 0 {
      assert p[n - 1] == p[..n][n - 1] && q[n - 1] == q[..n][n - 1];
      assert p[..n - 1] == p[..n][..n - 1] && q[..n - 1] == q[..n][..n - 1];
      SamePrefix(p, q, n - 1, k, i);
    }
  }

  /** A complete preparation enables the port's internal blocks, loads the counter command and clears the clock control,
      as far as the options ask for that, and changes no other bit of the block. */
  lemma PortEnabled(bank: Bank, inspect: bool, refclk: bool, k: nat, i: nat)
    requires k < WORDS && i < 32
    ensures WellFormed(Program(inspect, refclk))
    ensures Set(bank, Program(inspect, refclk))[k][i] == Enabled(inspect, refclk, k, i, bank[k][i])
  {
    hide Mask, BitMask, Within, Addressable, Set;
    ProgramWellFormed(inspect, refclk);
    var p, t := Program(inspect, refclk), Table();
    SetBits(bank, p, |p|, k, i);
    assert p[..|p|] == p;
    assert p[..11] == t[..11];
    SamePrefix(p, t, 11, k, i);
    FirstEleven(k, i);
    Literals(i);
    if !inspect {
      assert p[11] == t[11] && p[12] == t[12];
      assert Decided(p, 12, k, i) == if k == 0x860 / 4 then Some(i < 2) else Decided(p, 11, k, i);
    } else if refclk {
      assert p[11] == t[12];
    }
  }

  // ---------- The register block at work ----------

  datatype Access = Read(k: nat, value: U32) | Write(k: nat, value: U32)

  /** Rollback accesses: each write lies between two reads of its register and the first of them answered. */
  predicate Careful(log: seq<Access>) {
    log == [] ||
    (var n := |log|;
     && n >= 3
     && log[n - 3].Read? && log[n - 3].value != ONES
     && log[n - 2].Write? && log[n - 2].k == log[n - 3].k
     && log[n - 1].Read? && log[n - 1].k == log[n - 3].k
     && Careful(log[..n - 3]))
  }

  /** A register that did not answer before its write is the last one touched. */
  predicate StopsWhenDead(log: seq<Access>) {
    Careful(log) || (log != [] && log[|log| - 1].Read? && log[|log| - 1].value == ONES && Careful(log[..|log| - 1]))
  }

  /** No register read as all ones. */
  predicate AllAnswer(log: seq<Access>) {
    forall i :: 0 <= i < |log| ==> !(log[i].Read? && log[i].value == ONES)
  }

  class Core {
    const bank: array<U32>
    const steps: array<Step>
    const device: Device
    var applied: nat
    /** The accesses so far; the device answers each by its number. */
    var log: seq<Access>

    predicate Valid()
      reads this`applied
    {
      bank.Length == WORDS && steps.Length == 13 && applied <= 13
    }

    ghost function Regs(): Bank
      requires bank.Length == WORDS
      reads bank
    {
      bank[..]
    }

    /** The steps applied so far, remembered in order. */
    ghost function Stack(): seq<Step>
      requires Valid()
      reads this`applied, steps
    {
      steps[..applied]
    }

    constructor (bank: array<U32>, device: Device)
      requires bank.Length == WORDS
      ensures Valid() && this.bank == bank && this.device == device && applied == 0 && log == [] && steps[..] == Table()
      ensures fresh(steps)
    {
      this.bank, this.device := bank, device;
      var t := Table();
      steps := new Step[13](i requires 0 <= i < 13 => t[i]);
      applied, log := 0, [];
    }

    method ReadL(k: nat) returns (v: U32)
      requires Valid() && k < WORDS
      modifies this`log
      ensures v == if device.answers(|old(log)|) then bank[k] else ONES
      ensures log == old(log) + [Read(k, v)]
    {
      v := if device.answers(|log|) then bank[k] else ONES;
      log := log + [Read(k, v)];
    }

    method WriteL(k: nat, v: U32)
      requires Valid() && k < WORDS
      modifies this`log, bank
      ensures Regs() == if device.takes(|old(log)|) then old(Regs())[k := v] else old(Regs())
      ensures log == old(log) + [Write(k, v)]
    {
      if device.takes(|log|) {
        bank[k] := v;
      }
      log := log + [Write(k, v)];
    }

    /** The register shows a value other than all ones at this access. */
    predicate Shows(n: nat, word: U32) {
      device.answers(n) && word != ONES
    }

    /** One step of the forward loop: read, remember, write and read back. */
    method ApplyStep(i: nat) returns (ret: int)
      requires Valid() && applied == i < 13 && WellFormed(steps[..])
      modifies this`applied, this`log, bank, steps
      ensures Valid() && WellFormed(steps[..])
      ensures Addressable(old(steps[i]))
      ensures var n, s := |old(log)|, old(steps[i]);
        var k := s.offset / 4;
        && (ret == ENODEV <==> !Shows(n, old(bank[k])))
        && (ret == 0 <==> Shows(n, old(bank[k])) && Shows(n + 2, bank[k]) && And(bank[k], s.mask) == s.bits)
      ensures ret == 0 || ret == ENODEV || ret == EIO
      ensures ret == ENODEV ==> applied == i && Stack() == old(Stack()) && Regs() == old(Regs()) && steps[i] == old(steps[i])
      ensures ret != ENODEV ==> applied == i + 1 && |log| == |old(log)| + 3
      ensures ret != ENODEV ==> steps[i] == Remember(old(Regs()), old(steps[i])) && Stack() == old(Stack()) + [steps[i]]
      ensures ret != ENODEV ==> Regs() == Apply(old(Regs()), old(steps[i]), old(steps[i]).bits, device.takes(|old(log)| + 1))
      ensures ret == 0 ==> Regs() == Apply(old(Regs()), old(steps[i]), old(steps[i]).bits, true)
      ensures forall j :: 0 <= j < 13 && j != i ==> steps[j] == old(steps[j])
    {
      hide Blend;
      ghost var before, stack := Regs(), Stack();
      var s := steps[i];
      var k := s.offset / 4;
      var value := ReadL(k);
      if value == ONES {
        return ENODEV;
      }
      steps[i] := s.(saved := And(value, s.mask));
      applied := applied + 1;
      WriteL(k, Blend(value, s.mask, s.bits));
      assert Stack() == stack + [Remember(before, s)];
      value := ReadL(k);
      if value == ONES || And(value, s.mask) != s.bits {
        return EIO;
      }
      SetAnyway(before, s);
      return 0;
    }

    /** Which of the first n steps' writes are taken, if the first access is number `from`. */
    function Sticks(from: nat, n: nat): (sticks: seq<bool>)
      ensures |sticks| == n
    {
      seq(n, j requires 0 <= j < n => device.takes(from + 3 * j + 1))
    }

    /** The bank and the stack after the steps applied so far, taken or not as the device decides. */
    ghost predicate Reached(start: Bank, from: nat, p: seq<Step>)
      requires Valid() && WellFormed(p)
      reads this`applied, bank, steps
    {
      applied <= |p| && (Regs(), Stack()) == Forward(start, p[..applied], Sticks(from, applied))
    }

    /** So far every step of the program has passed its checks. */
    ghost predicate Underway(start: Bank, from: nat, p: seq<Step>)
      requires Valid() && WellFormed(p)
      reads this`applied, this`log, bank, steps
    {
      && Reached(start, from, p) && |log| == from + 3 * applied
      && Regs() == Set(start, p[..applied]) && (Perfect(device) ==> Visible(start, p[..applied]))
    }

    /** One more step of the program. */
    method TakeStep(i: nat, ghost start: Bank, ghost from: nat, ghost p: seq<Step>) returns (ret: int)
      requires Valid() && applied == i < 13 && WellFormed(steps[..]) && WellFormed(p) && i < |p| && steps[i] == p[i]
      requires Underway(start, from, p)
      modifies this`applied, this`log, bank, steps
      ensures Valid() && WellFormed(steps[..])
      ensures ret == 0 || ret == ENODEV || ret == EIO
      ensures ret == 0 ==> applied == i + 1 && Underway(start, from, p)
      ensures ret != 0 ==> Reached(start, from, p) && (Perfect(device) ==> !Visible(start, p))
      ensures forall j :: i < j < 13 ==> steps[j] == old(steps[j])
    {
      hide Unwind, Apply, Blend, Within, Visible, Forward, Set, Perfect;
      ghost var n := |log|;
      ret := ApplyStep(i);
      assert p[..i] + [p[i]] == p[..i + 1];
      assert Sticks(from, i) + [device.takes(n + 1)] == Sticks(from, i + 1);
      ForwardMore(start, p[..i], Sticks(from, i), p[i], device.takes(n + 1));
      SetMore(start, p[..i], p[i]);
      StepSeen(start, p, i, device, n);
    }

    /** The forward loop, stopped by the first register that does not answer or does not take its value. */
    method Prepare(inspect: bool, refclk: bool) returns (ret: int)
      requires Valid() && applied == 0 && steps[..] == Table()
      modifies this`applied, this`log, bank, steps
      ensures Valid() && WellFormed(Stack()) && Unwind(Regs(), Stack()) == old(Regs())
      ensures ret == 0 || ret == ENODEV || ret == EIO
      ensures WellFormed(Program(inspect, refclk)) && Reached(old(Regs()), |old(log)|, Program(inspect, refclk))
      ensures ret == 0 ==> applied == |Program(inspect, refclk)| && Regs() == Set(old(Regs()), Program(inspect, refclk))
      ensures Perfect(device) ==> (ret == 0 <==> Visible(old(Regs()), Program(inspect, refclk)))
    {
      hide Unwind, Apply, Blend, Within, Visible, Forward, Set, Perfect;
      ghost var p := Program(inspect, refclk);
      ProgramWellFormed(inspect, refclk);
      TableWellFormed();
      ghost var start, from := Regs(), |log|;
      NothingApplied(start, p, Sticks(from, 0));
      var i := 0;
      ret := 0;
      while i < 13
        invariant Valid() && applied == i <= |p| && WellFormed(steps[..]) && Underway(start, from, p)
        invariant forall j :: i <= j < 13 ==> steps[j] == Table()[j]
      {
        if inspect && i == 11 {
          if !refclk {
            break;
          }
          ghost var stack := Stack();
          steps[i] := steps[i + 1];
          assert Stack() == stack;
        }
        if inspect && i == 12 {
          break;
        }
        ret := TakeStep(i, start, from, p);
        if ret != 0 {
          break;
        }
        i := i + 1;
      }
      assert ret == 0 ==> p[..applied] == p;
      RollbackRestores(start, p[..applied], Sticks(from, applied));
    }

    /** Read a step's register, write the remembered bits, read back. */
    method WriteBack(s: Step) returns (dead: bool, ok: bool)
      requires Valid() && Addressable(s)
      modifies this`log, bank
      ensures old(log) <= log
      ensures var n, k := |old(log)|, s.offset / 4;
        && (dead <==> !Shows(n, old(bank[k])))
        && (dead ==> Regs() == old(Regs()) && log == old(log) + [Read(k, ONES)])
        && (!dead ==> Regs() == Apply(old(Regs()), s, s.saved, device.takes(n + 1)))
        && (!dead ==> log[n..] == [Read(k, old(bank[k])), Write(k, Blend(old(bank[k]), s.mask, s.saved)),
                                   Read(k, if device.answers(n + 2) then bank[k] else ONES)])
        && (ok <==> !dead && Shows(n + 2, bank[k]) && And(bank[k], s.mask) == s.saved)
    {
      hide Blend;
      ghost var soFar := log;
      var k := s.offset / 4;
      var value := ReadL(k);
      if value == ONES {
        return true, false;
      }
      WriteL(k, Blend(value, s.mask, s.saved));
      var observed := ReadL(k);
      assert log == soFar + [Read(k, value), Write(k, Blend(value, s.mask, s.saved)), Read(k, observed)];
      return false, observed != ONES && And(observed, s.mask) == s.saved;
    }

    /** Undo the last applied step. */
    method RollbackStep() returns (dead: bool, ok: bool)
      requires Valid() && applied > 0 && WellFormed(Stack())
      modifies this`applied, this`log, bank
      ensures Valid() && applied == old(applied) - 1 && WellFormed(Stack())
      ensures Addressable(steps[applied]) && old(log) <= log
      ensures var n, s := |old(log)|, steps[applied];
        && (dead <==> !Shows(n, old(bank[s.offset / 4])))
        && Regs() == (if dead then old(Regs()) else Apply(old(Regs()), s, s.saved, device.takes(n + 1)))
      ensures dead ==> log == old(log) + [Read(steps[applied].offset / 4, ONES)]
      ensures !dead ==> |log| == |old(log)| + 3 && Careful(log[|old(log)|..])
      ensures ok ==> !dead && Unwind(Regs(), Stack()) == old(Unwind(Regs(), Stack()))
      ensures ok ==> AllAnswer(log[|old(log)|..])
      ensures Perfect(device) ==> (old(Legible(Regs(), Stack())) <==> ok && Legible(Regs(), Stack()))
    {
      hide Careful, Unwind, Blend, WellFormed, Legible, Perfect, Within, Apply;
      ghost var before, stack, soFar := Regs(), Stack(), log;
      UnwindLast(before, stack);
      LegibleLast(before, stack);
      AllSucceed(device, |log|);
      applied := applied - 1;
      var s := steps[applied];
      assert stack[applied] == s && Stack() == stack[..applied];
      dead, ok := WriteBack(s);
      if !dead {
        var k := s.offset / 4;
        CarefulThree(k, before[k], Blend(before[k], s.mask, s.saved), if device.answers(|soFar| + 2) then bank[k] else ONES);
        TakenTwice(before, s, device.takes(|soFar| + 1));
      }
    }

    /** The rollback loop. A register that stops answering before its write ends it. */
    method Rollback() returns (ret: int)
      requires Valid() && WellFormed(Stack())
      modifies this`applied, this`log, bank
      ensures Valid()
      ensures ret == 0 || ret == EIO
      ensures ret == 0 ==> applied == 0 && Regs() == old(Unwind(Regs(), Stack()))
      ensures old(log) <= log && StopsWhenDead(log[|old(log)|..])
      ensures ret == 0 ==> AllAnswer(log[|old(log)|..])
      ensures applied > 0 ==> |log| > |old(log)| && log[|log| - 1].Read? && log[|log| - 1].value == ONES
      ensures Perfect(device) ==> (ret == 0 <==> old(Legible(Regs(), Stack())))
    {
      hide Unwind, Careful, WellFormed, Legible, Perfect, Blend, Apply, AllAnswer;
      ghost var goal := Unwind(Regs(), Stack());
      ghost var legible := Legible(Regs(), Stack());
      ghost var start := log;
      CarefulNone();
      assert log[|start|..] == [];
      ret := 0;
      while applied > 0
        invariant Valid() && WellFormed(Stack()) && (ret == 0 || ret == EIO)
        invariant ret == 0 ==> Unwind(Regs(), Stack()) == goal
        invariant Clean(start, ret)
        invariant Perfect(device) ==> (legible <==> ret == 0 && Legible(Regs(), Stack()))
      {
        ghost var soFar := log;
        var dead, ok := RollbackStep();
        if !ok {
          ret := EIO;
        }
        if dead {
          assert log[|start|..] == soFar[|start|..] + [log[|log| - 1]];
          break;
        }
        CleanMore(start, soFar, log);
      }
      assert applied == 0 ==> Stack() == [];
      UnwindNone(Regs());
    }

    /** The accesses of a rollback so far: none of them dead, and all answered if nothing failed. */
    ghost predicate Clean(start: seq<Access>, ret: int)
      reads this`log
    {
      start <= log && Careful(log[|start|..]) && (ret == 0 ==> AllAnswer(log[|start|..]))
    }
  }

  lemma CleanMore(start: seq<Access>, soFar: seq<Access>, log: seq<Access>)
    requires start <= soFar <= log && |log| == |soFar| + 3
    requires Careful(soFar[|start|..]) && Careful(log[|soFar|..])
    ensures Careful(log[|start|..])
    ensures AllAnswer(soFar[|start|..]) && AllAnswer(log[|soFar|..]) ==> AllAnswer(log[|start|..])
  {
    hide Careful;
    assert log[|start|..] == soFar[|start|..] + log[|soFar|..];
    CarefulMore(soFar[|start|..], log[|soFar|..]);
  }

  /** On a perfect device a rollback reads back everything that a complete preparation went through. */
  lemma PreparedLegibly(core: Core, start: Bank, from: nat, p: seq<Step>)
    requires core.Valid() && WellFormed(p) && core.Reached(start, from, p) && core.applied == |p|
    ensures WellFormed(core.Stack())
    ensures Perfect(core.device) && Visible(start, p) ==> Legible(core.Regs(), core.Stack())
  {
    hide Visible, Legible, Unwind, Apply, Blend, Within;
    assert p[..core.applied] == p;
    if Perfect(core.device) {
      assert core.Sticks(from, |p|) == Taken(|p|);
      if Visible(start, p) {
        VisibleBothWays(start, p);
      }
    }
  }

  lemma CarefulNone()
    ensures Careful([]) && AllAnswer([])
  {
  }

  lemma CarefulThree(k: nat, first: U32, written: U32, last: U32)
    requires first != ONES
    ensures Careful([Read(k, first), Write(k, written), Read(k, last)])
  {
  }

  lemma CarefulMore(log: seq<Access>, seg: seq<Access>)
    requires Careful(log) && Careful(seg) && |seg| == 3
    ensures Careful(log + seg)
  {
    var all := log + seg;
    assert all[..|all| - 3] == log;
    assert all[|all| - 3] == seg[0] && all[|all| - 2] == seg[1] && all[|all| - 1] == seg[2];
  }

  /** A register that shows the wanted masked bits is as if the write had been taken. */
  lemma SetAnyway(bank: Bank, s: Step)
    requires Addressable(s) && Within(s.bits, s.mask)
    ensures And(bank[s.offset / 4], s.mask) == s.bits ==> Apply(bank, s, s.bits, true) == bank
  {
    TakenAnyway(bank, s.(saved := s.bits));
  }

  /** A readback that agrees proves the register restored, whether or not the write was taken. */
  lemma TakenTwice(bank: Bank, s: Step, sticks: bool)
    requires Addressable(s)
    ensures And(Apply(bank, s, s.saved, sticks)[s.offset / 4], s.mask) == s.saved ==>
      Apply(bank, s, s.saved, sticks) == Apply(bank, s, s.saved, true)
  {
    TakenAnyway(bank, s);
  }

  /** A register that already holds the wanted masked bits does not notice a lost write. */
  lemma TakenAnyway(bank: Bank, s: Step)
    requires Addressable(s)
    ensures And(bank[s.offset / 4], s.mask) == s.saved ==> Apply(bank, s, s.saved, true) == bank
  {
    var v := bank[s.offset / 4];
    if And(v, s.mask) == s.saved {
      forall i | 0 <= i < 32 ensures Blend(v, s.mask, s.saved)[i] == v[i] {
        assert s.saved[i] == (v[i] && s.mask[i]);
      }
      assert Blend(v, s.mask, s.saved) == v;
    }
  }
}
