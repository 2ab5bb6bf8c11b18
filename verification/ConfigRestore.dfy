/** Runs of filtered configuration writes, and what the restore sequence brings back after any of them. */
module ConfigRestore {
  import opened Errno
  import opened CapabilityWalk
  import opened ConfigSpace
  import opened ConfigFilter

  // ---------- Runs ----------

  /** What happens to the host from outside: the firmware stage begins, or somebody writes configuration space; the
      device may ignore a write that the filter lets through. */
  datatype Op = Activate | Write(bus: nat, devfn: nat, where: int, size: int, value: U32, taken: bool)

  datatype State = State(space: Config, rejected: bool, active: bool)

  /** The two functions that exist: 00:01.0 and 01:00.0. */
  predicate Exists(bus: nat, devfn: nat) {
    (bus == 0 && devfn == 8) || (bus == 1 && devfn == 0)
  }

  function Step(cs: seq<Control>, s: State, op: Op): State
    requires SoundControls(cs)
  {
    match op
    case Activate => s.(active := true)
    case Write(bus, devfn, where, size, value, taken) =>
      if !Exists(bus, devfn) then s
      else
        AcceptedInPage(cs, s.active, bus, where, size, value);
        match Filter(cs, s.active, bus, where, size, value)
        case None => s.(rejected := true)
        case Some(a) => if taken then s.(space := s.space.Write(bus, a.where, a.size, a.value)) else s
  }

  function Run(cs: seq<Control>, s: State, ops: seq<Op>): State
    requires SoundControls(cs)
  {
    if ops == [] then s else Step(cs, Run(cs, s, ops[..|ops| - 1]), ops[|ops| - 1])
  }

  /** The filter refuses this operation in the state the earlier ones lead to. */
  predicate Refused(cs: seq<Control>, s: State, ops: seq<Op>, i: nat)
    requires SoundControls(cs) && i < |ops|
  {
    var op := ops[i];
    op.Write? && Exists(op.bus, op.devfn)
    && Filter(cs, Run(cs, s, ops[..i]).active, op.bus, op.where, op.size, op.value).None?
  }

  /** `rejected` remembers exactly whether any operation of the run was refused. */
  lemma {:induction false} RejectionIsLatched(cs: seq<Control>, s: State, ops: seq<Op>)
    requires SoundControls(cs)
    ensures Run(cs, s, ops).rejected <==> s.rejected || exists i :: 0 <= i < |ops| && Refused(cs, s, ops, i)
  {
    if ops != [] {
      var n := |ops| - 1;
      var front := ops[..n];
      RejectionIsLatched(cs, s, front);
      forall i | 0 <= i < n ensures Refused(cs, s, ops, i) <==> Refused(cs, s, front, i) {
        assert ops[..i] == front[..i];
      }
      assert Run(cs, s, ops).rejected <==> Run(cs, s, front).rejected || Refused(cs, s, ops, n);
    }
  }

  // ---------- Bus mastering ----------

  predicate MasterClear(space: Config) {
    !space.rc[8 * 4 + MASTER] && !space.ep[8 * 4 + MASTER]
  }

  /** Before the firmware stage, no sequence of writes sets a Bus Master Enable bit. */
  lemma {:induction false} MasterStaysClear(cs: seq<Control>, s: State, ops: seq<Op>)
    requires SoundControls(cs)
    requires !s.active && MasterClear(s.space)
    requires forall i :: 0 <= i < |ops| ==> !ops[i].Activate?
    ensures var t := Run(cs, s, ops); !t.active && MasterClear(t.space)
  {
    if ops != [] {
      var n := |ops| - 1;
      MasterStaysClear(cs, s, ops[..n]);
      var op := ops[n];
      ControlsDecide(cs, |cs|, BaseAllowed(false, op.bus, op.where, op.size, op.value), op.bus, op.where, op.size, op.value);
      AcceptedInPage(cs, false, op.bus, op.where, op.size, op.value);
    }
  }

  // ---------- Restoring ----------

  /** Bit `k` of the page belongs to this register. */
  predicate Covers(r: Register, bus: nat, k: nat) {
    r.bus == bus && 8 * r.where <= k < 8 * (r.where + r.size)
  }

  predicate Covered(rs: seq<Register>, bus: nat, k: nat) {
    exists i :: 0 <= i < |rs| && Covers(rs[i], bus, k)
  }

  /** Command, address and bus number registers, in the order they are written back after the saved controls. */
  function FixedRegisters(): (rs: seq<Register>)
    ensures AllInPage(rs)
  {
    [Register(1, 4, 2, ALL16), Register(0, 4, 2, ALL16),
     Register(0, 0x10, 4, ALL32), Register(0, 0x14, 4, ALL32),
     Register(1, 0x10, 4, ALL32), Register(1, 0x14, 4, ALL32), Register(1, 0x18, 4, ALL32),
     Register(1, 0x1c, 4, ALL32), Register(1, 0x20, 4, ALL32), Register(1, 0x24, 4, ALL32),
     Register(0, 0x38, 4, ALL32), Register(1, 0x30, 4, ALL32),
     Register(0, 0x18, 4, ALL32), Register(0, 0x3e, 2, ALL16)]
  }

  function Reversed<T>(s: seq<T>): (r: seq<T>)
    ensures |r| == |s|
    ensures forall i :: 0 <= i < |s| ==> r[i] == s[|s| - 1 - i]
  {
    if s == [] then [] else [s[|s| - 1]] + Reversed(s[..|s| - 1])
  }

  /** The registers written back after a run, first to last. */
  function RestoreOrder(rs: seq<Register>): seq<Register> {
    Reversed(rs) + FixedRegisters()
  }

  /** Write the entry values of these registers, first to last. */
  function WriteBack(entry: Config, space: Config, rs: seq<Register>): Config
    requires AllInPage(rs)
  {
    if rs == [] then space
    else
      var n := |rs| - 1;
      var c := Capture(entry, rs[n]);
      WriteBack(entry, space, rs[..n]).Write(c.reg.bus, c.reg.where, c.reg.size, c.saved)
  }

  lemma OrderInPage(rs: seq<Register>)
    requires AllSound(rs)
    ensures AllInPage(rs) && AllInPage(RestoreOrder(rs))
  {
  }

  /** The whole restore sequence. */
  function Restore(entry: Config, space: Config, rs: seq<Register>): Config
    requires AllSound(rs)
  {
    OrderInPage(rs);
    WriteBack(entry, space, RestoreOrder(rs))
  }

  /** Every register that covers this bit has it in its mask. */
  predicate Kept(rs: seq<Register>, bus: nat, k: nat) {
    forall i :: 0 <= i < |rs| && Covers(rs[i], bus, k) ==>
      var at := k - 8 * rs[i].where; 0 <= at < 32 && rs[i].mask[at]
  }

  /** The last register written back decides the bits it covers. */
  lemma WriteBackLast(entry: Config, space: Config, rs: seq<Register>, bus: nat, k: nat)
    requires AllInPage(rs) && bus <= 1 && k < PAGE_BITS && rs != [] && rs[|rs| - 1].bus <= 1
    ensures var last := rs[|rs| - 1];
      WriteBack(entry, space, rs).Page(bus)[k] ==
        if Covers(last, bus, k) then Capture(entry, last).saved[k - 8 * last.where]
        else WriteBack(entry, space, rs[..|rs| - 1]).Page(bus)[k]
  {
    hide Config.Write;
    var last := rs[|rs| - 1];
    WriteBit(WriteBack(entry, space, rs[..|rs| - 1]), last.bus, last.where, last.size, Capture(entry, last).saved, bus, k);
  }

  lemma {:induction false} WriteBackLeaves(entry: Config, space: Config, rs: seq<Register>, bus: nat, k: nat)
    requires AllInPage(rs) && bus <= 1 && k < PAGE_BITS
    requires forall i :: 0 <= i < |rs| ==> rs[i].bus <= 1
    requires !Covered(rs, bus, k)
    ensures WriteBack(entry, space, rs).Page(bus)[k] == space.Page(bus)[k]
  {
    hide Covers, Capture, Config.Write;
    if rs != [] {
      WriteBackLeaves(entry, space, rs[..|rs| - 1], bus, k);
      WriteBackLast(entry, space, rs, bus, k);
    }
  }

  lemma {:induction false} WriteBackKeeps(entry: Config, space: Config, rs: seq<Register>, bus: nat, k: nat)
    requires AllInPage(rs) && bus <= 1 && k < PAGE_BITS
    requires forall i :: 0 <= i < |rs| ==> rs[i].bus <= 1
    requires Covered(rs, bus, k) && Kept(rs, bus, k)
    ensures WriteBack(entry, space, rs).Page(bus)[k] == entry.Page(bus)[k]
  {
    hide WriteBack, Capture;
    var n := |rs| - 1;
    WriteBackLast(entry, space, rs, bus, k);
    if Covers(rs[n], bus, k) {
      CapturedBit(entry, rs[n], k);
    } else {
      assert Covered(rs[..n], bus, k);
      WriteBackKeeps(entry, space, rs[..n], bus, k);
    }
  }

  /** The saved value has the entry value's bit wherever the mask has one. */
  lemma CapturedBit(entry: Config, r: Register, k: nat)
    requires InPage(r.where, r.size) && 8 * r.where <= k < 8 * (r.where + r.size)
    requires r.mask[k - 8 * r.where]
    ensures Capture(entry, r).saved[k - 8 * r.where] == entry.Page(r.bus)[k]
  {
    ReadBit(entry, r.bus, r.where, r.size, k - 8 * r.where);
  }

  /** Written on purpose and not replayed: bridge secondary status (W1C), the doorbell at 0x98, and
      the driver's link control word at 0xbc, unless a saved control covers it. */
  predicate Transient(bus: nat, k: nat) {
    (bus == 0 && 8 * 0x1e <= k < 8 * 0x20)
    || (bus == 1 && (8 * 0x98 <= k < 8 * 0x9c || 8 * 0xbc <= k < 8 * 0xbe))
  }

  /** An accepted write touches only bits that are restored, or transient ones. */
  lemma AcceptedIsOwned(cs: seq<Control>, rs: seq<Register>, active: bool, bus: nat, where: int, size: int, v: U32, k: nat)
    requires |cs| == |rs| && forall i :: 0 <= i < |rs| ==> cs[i].reg == rs[i]
    requires bus <= 1 && AllSound(rs)
    requires active ==> forall r :: r in FirmwareRegisters() ==> r in rs
    requires var r := Filter(cs, active, bus, where, size, v);
      r.Some? && 8 * r.value.where <= k < 8 * (r.value.where + r.value.size)
    ensures Covered(RestoreOrder(rs), bus, k) || Transient(bus, k)
  {
    var base := BaseAllowed(active, bus, where, size, v);
    ControlsDecide(cs, |cs|, base, bus, where, size, v);
    if active && bus == 1 && where == 0x80 && size == 4 {
      var window := FirmwareRegisters()[0];
      assert window in FirmwareRegisters();
      var w :| 0 <= w < |rs| && rs[w] == window;
      assert Names(cs[w], bus, where, size);
    }
    if i :| 0 <= i < |cs| && Names(cs[i], bus, where, size) {
      var r := RestoreOrder(rs)[|rs| - 1 - i];
      assert r == rs[i];
      assert Covers(r, bus, k) || Transient(bus, k);
    } else if base {
      var f := FixedIndex(bus, where, size);
      var r := RestoreOrder(rs)[|rs| + f];
      assert r == FixedRegisters()[f];
      assert Covers(r, bus, k);
    }
  }

  /** Every register the base rules open is in the fixed list. */
  lemma FixedIndex(bus: nat, where: int, size: int) returns (f: nat)
    requires bus <= 1
    requires (where == 4 && size == 2)
      || (size == 4 && 0x10 <= where <= (if bus == 1 then 0x24 else 0x14) && where % 4 == 0)
      || (bus == 0 && ((where == 0x18 && size == 4) || (where == 0x3e && size == 2)))
      || (where == (if bus == 1 then 0x30 else 0x38) && size == 4)
    ensures f < |FixedRegisters()|
    ensures FixedRegisters()[f].bus == bus && FixedRegisters()[f].where == where && FixedRegisters()[f].size == size
  {
    f := if where == 4 then 1 - bus
         else if where == 0x3e then 13
         else if where == 0x38 then 10
         else if where == 0x30 then 11
         else if bus == 0 && where == 0x18 then 12
         else if bus == 0 then 2 + (where - 0x10) / 4
         else 4 + (where - 0x10) / 4;
  }

  // ---------- The main theorem ----------

  /** The firmware stage is entered only when binding was asked for. */
  predicate Admissible(l: Layout, ops: seq<Op>) {
    forall i :: 0 <= i < |ops| && ops[i].Activate? ==> l.bind
  }

  function SavedControls(l: Layout, entry: Config): (cs: seq<Control>)
    requires LayoutInBounds(l)
    ensures AllSound(Registers(l)) && |cs| == |Registers(l)| && SoundControls(cs)
    ensures forall i :: 0 <= i < |cs| ==> cs[i].reg == Registers(l)[i]
  {
    RegistersSound(l);
    CaptureAll(entry, Registers(l))
  }

  /** Configuration space after saving, a run, and restoring. */
  function Aftermath(l: Layout, entry: Config, ops: seq<Op>): Config
    requires LayoutInBounds(l)
  {
    var cs := SavedControls(l, entry);
    Restore(entry, Run(cs, State(entry, false, false), ops).space, Registers(l))
  }

  /** `cs` are controls for the registers of this layout. */
  predicate ControlsOf(l: Layout, cs: seq<Control>) {
    && AllSound(Registers(l)) && SoundControls(cs) && |cs| == |Registers(l)|
    && forall i :: 0 <= i < |cs| ==> cs[i].reg == Registers(l)[i]
  }

  lemma StepLeaves(l: Layout, cs: seq<Control>, s: State, op: Op, bus: nat, k: nat)
    requires ControlsOf(l, cs) && bus <= 1 && k < PAGE_BITS
    requires s.active ==> l.bind
    requires !Covered(RestoreOrder(Registers(l)), bus, k) && !Transient(bus, k)
    ensures Step(cs, s, op).space.Page(bus)[k] == s.space.Page(bus)[k]
  {
    if op.Write? && Exists(op.bus, op.devfn) {
      AcceptedInPage(cs, s.active, op.bus, op.where, op.size, op.value);
      var r := Filter(cs, s.active, op.bus, op.where, op.size, op.value);
      if r.Some? {
        var a := r.value;
        WriteBit(s.space, op.bus, a.where, a.size, a.value, bus, k);
        if op.bus == bus && 8 * a.where <= k < 8 * (a.where + a.size) {
          AcceptedIsOwned(cs, Registers(l), s.active, op.bus, op.where, op.size, op.value, k);
        }
      }
    }
  }

  lemma {:induction false} RunLeaves(l: Layout, cs: seq<Control>, s: State, ops: seq<Op>, bus: nat, k: nat)
    requires ControlsOf(l, cs) && bus <= 1 && k < PAGE_BITS
    requires Admissible(l, ops) && (s.active ==> l.bind)
    requires !Covered(RestoreOrder(Registers(l)), bus, k) && !Transient(bus, k)
    ensures var t := Run(cs, s, ops);
      t.space.Page(bus)[k] == s.space.Page(bus)[k] && (t.active ==> l.bind)
  {
    if ops != [] {
      var n := |ops| - 1;
      RunLeaves(l, cs, s, ops[..n], bus, k);
      StepLeaves(l, cs, Run(cs, s, ops[..n]), ops[n], bus, k);
    }
  }

  /** Whatever is written between saving and restoring, every bit comes back to its entry value that all
      registers covering it keep, and that is covered or not one of the transient words. */
  lemma RestoreAfterAnyRun(l: Layout, entry: Config, ops: seq<Op>, bus: nat, k: nat)
    requires LayoutInBounds(l) && Admissible(l, ops)
    requires bus <= 1 && k < PAGE_BITS
    requires Kept(RestoreOrder(Registers(l)), bus, k)
    requires Covered(RestoreOrder(Registers(l)), bus, k) || !Transient(bus, k)
    ensures Aftermath(l, entry, ops).Page(bus)[k] == entry.Page(bus)[k]
  {
    var cs := SavedControls(l, entry);
    var rs := Registers(l);
    var t := Run(cs, State(entry, false, false), ops);
    OrderInPage(rs);
    OrderBuses(rs);
    if Covered(RestoreOrder(rs), bus, k) {
      WriteBackKeeps(entry, t.space, RestoreOrder(rs), bus, k);
    } else {
      RunLeaves(l, cs, State(entry, false, false), ops, bus, k);
      WriteBackLeaves(entry, t.space, RestoreOrder(rs), bus, k);
    }
  }

  lemma OrderBuses(rs: seq<Register>)
    requires AllSound(rs)
    ensures forall i :: 0 <= i < |RestoreOrder(rs)| ==> RestoreOrder(rs)[i].bus <= 1
  {
  }

  lemma WriteBackSnoc(entry: Config, space: Config, rs: seq<Register>, r: Register)
    requires AllInPage(rs) && InPage(r.where, r.size)
    ensures AllInPage(rs + [r])
    ensures WriteBack(entry, space, rs + [r]) ==
      WriteBack(entry, space, rs).Write(r.bus, r.where, r.size, Capture(entry, r).saved)
  {
    assert (rs + [r])[..|rs|] == rs;
  }

  lemma {:induction false} WriteBackConcat(entry: Config, space: Config, a: seq<Register>, b: seq<Register>)
    requires AllInPage(a) && AllInPage(b)
    ensures WriteBack(entry, WriteBack(entry, space, a), b) == WriteBack(entry, space, a + b)
  {
    hide Config.Write, Capture;
    if b == [] {
      assert a + b == a;
    } else {
      var n := |b| - 1;
      WriteBackConcat(entry, space, a, b[..n]);
      WriteBackSnoc(entry, space, a + b[..n], b[n]);
      assert a + b == (a + b[..n]) + [b[n]];
    }
  }

  /** The registers restored last hold their entry values whole. */
  lemma FixedComesBack(entry: Config, space: Config, rs: seq<Register>, f: nat)
    requires AllSound(rs) && f < |FixedRegisters()|
    ensures AllInPage(RestoreOrder(rs))
    ensures var r := FixedRegisters()[f];
      WriteBack(entry, space, RestoreOrder(rs)).Read(r.bus, r.where, r.size) == entry.Read(r.bus, r.where, r.size)
  {
    OrderInPage(rs);
    OrderBuses(rs);
    var order := RestoreOrder(rs);
    var r := FixedRegisters()[f];
    var after := WriteBack(entry, space, order);
    assert order[|rs| + f] == r;
    forall i | 0 <= i < 8 * r.size
      ensures after.Read(r.bus, r.where, r.size)[i] == entry.Read(r.bus, r.where, r.size)[i]
    {
      var k := 8 * r.where + i;
      assert Covers(order[|rs| + f], r.bus, k);
      FixedKept(rs, f, k);
      WriteBackKeeps(entry, space, order, r.bus, k);
      ReadBit(after, r.bus, r.where, r.size, i);
      ReadBit(entry, r.bus, r.where, r.size, i);
    }
    assert after.Read(r.bus, r.where, r.size) == entry.Read(r.bus, r.where, r.size);
  }

  lemma FixedKept(rs: seq<Register>, f: nat, k: nat)
    requires AllSound(rs) && f < |FixedRegisters()|
    requires var r := FixedRegisters()[f]; Covers(r, r.bus, k)
    ensures Kept(RestoreOrder(rs), FixedRegisters()[f].bus, k)
  {
    var order, bus := RestoreOrder(rs), FixedRegisters()[f].bus;
    forall i | 0 <= i < |order| && Covers(order[i], bus, k)
      ensures var at := k - 8 * order[i].where; 0 <= at < 32 && order[i].mask[at]
    {
      if i < |rs| {
        SoundMissesFixed(rs[|rs| - 1 - i], f, k);
      } else {
        FixedMask(i - |rs|, k - 8 * order[i].where);
      }
    }
  }

  lemma SoundMissesFixed(r: Register, f: nat, k: nat)
    requires Sound(r) && f < |FixedRegisters()|
    requires var fixed := FixedRegisters()[f]; Covers(fixed, fixed.bus, k)
    ensures !Covers(r, FixedRegisters()[f].bus, k)
  {
    FixedPlaces(f);
  }

  lemma FixedPlaces(f: nat)
    requires f < |FixedRegisters()|
    ensures var r := FixedRegisters()[f];
      if r.bus == 0 then r.where + r.size <= 0x1c || (0x38 <= r.where && r.where + r.size <= 0x40)
      else r.bus == 1 && r.where + r.size <= 0x40
  {
  }

  lemma FixedMask(f: nat, at: nat)
    requires f < |FixedRegisters()| && at < 8 * FixedRegisters()[f].size
    ensures FixedRegisters()[f].size <= 4 && FixedRegisters()[f].mask[at]
  {
  }

  // ---------- The driver's link control word ----------

  /** Bits of the 16-bit word at 0xbc of the endpoint. */
  predicate InLinkWord(k: nat) {
    8 * 0xbc <= k < 8 * 0xbe
  }

  ghost predicate LinkWordSaved(l: Layout) {
    forall k: nat :: InLinkWord(k) ==> Covered(Registers(l), 1, k)
  }

  /** Some run changes the word for good wherever no saved control covers it. */
  lemma LinkWordEscapes(l: Layout, entry: Config, k: nat) returns (ops: seq<Op>)
    requires LayoutInBounds(l) && l.bind && InLinkWord(k) && k != 8 * 0xbc + LINK_DISABLE
    requires !Covered(Registers(l), 1, k)
    ensures Admissible(l, ops)
    ensures Kept(RestoreOrder(Registers(l)), 1, k)
    ensures Aftermath(l, entry, ops).Page(1)[k] != entry.Page(1)[k]
  {
    var rs := Registers(l);
    var at := k - 8 * 0xbc;
    var v := Mask(i => i == at && !entry.ep[k]);
    var write := Write(1, 0, 0xbc, 4, v, true);
    ops := [Activate, write];
    var cs := SavedControls(l, entry);
    var s := State(entry, false, false);
    var active := Step(cs, s, Activate);
    assert Run(cs, s, []) == s;
    assert ops[..1] == [Activate] && [Activate][..0] == [];
    assert Run(cs, s, [Activate]) == active;
    var t := Run(cs, s, ops);
    assert t == Step(cs, active, write);
    AcceptedInPage(cs, true, 1, 0xbc, 4, v);
    assert Filter(cs, true, 1, 0xbc, 4, v) == Some(Access(0xbc, 2, And(v, ALL16)));
    WriteBit(entry, 1, 0xbc, 2, And(v, ALL16), 1, k);
    assert t.space.Page(1)[k] != entry.Page(1)[k];
    OrderInPage(rs);
    OrderBuses(rs);
    NotInOrder(rs, k);
    WriteBackLeaves(entry, t.space, RestoreOrder(rs), 1, k);
  }

  lemma NotInOrder(rs: seq<Register>, k: nat)
    requires AllSound(rs) && InLinkWord(k) && !Covered(rs, 1, k)
    ensures !Covered(RestoreOrder(rs), 1, k)
  {
    var order := RestoreOrder(rs);
    forall i | 0 <= i < |order| ensures !Covers(order[i], 1, k) {
      if i < |rs| {
        assert order[i] == rs[|rs| - 1 - i];
      } else {
        assert order[i] == FixedRegisters()[i - |rs|];
      }
    }
  }

  /** With the firmware stage, the kept bits of the word at 0xbc survive every run exactly when saved
      controls cover the word. */
  lemma LinkWordIff(l: Layout)
    requires LayoutInBounds(l) && l.bind
    ensures LinkWordSaved(l) <==>
      forall entry: Config, ops: seq<Op>, k: nat ::
        InLinkWord(k) && Admissible(l, ops) && Kept(RestoreOrder(Registers(l)), 1, k)
        ==> Aftermath(l, entry, ops).Page(1)[k] == entry.Page(1)[k]
  {
    if LinkWordSaved(l) {
      forall entry: Config, ops: seq<Op>, k: nat
        | InLinkWord(k) && Admissible(l, ops) && Kept(RestoreOrder(Registers(l)), 1, k)
        ensures Aftermath(l, entry, ops).Page(1)[k] == entry.Page(1)[k]
      {
        SavedInOrder(Registers(l), 1, k);
        RestoreAfterAnyRun(l, entry, ops, 1, k);
      }
    } else {
      var k: nat :| InLinkWord(k) && !Covered(Registers(l), 1, k);
      // Registers cover whole bytes: step off the one bit the filter never lets a writer set.
      var k' := if k == 8 * 0xbc + LINK_DISABLE then k + 1 else k;
      WholeBytes(Registers(l), 8 * 0xbc + LINK_DISABLE);
      var zero: Page := seq(PAGE_BITS, _ => false);
      var entry := Config(zero, zero);
      var ops := LinkWordEscapes(l, entry, k');
    }
  }

  lemma WholeBytes(rs: seq<Register>, k: nat)
    requires k % 8 != 7
    ensures Covered(rs, 1, k + 1) ==> Covered(rs, 1, k)
  {
    if i :| 0 <= i < |rs| && Covers(rs[i], 1, k + 1) {
      assert Covers(rs[i], 1, k);
    }
  }

  lemma SavedInOrder(rs: seq<Register>, bus: nat, k: nat)
    requires Covered(rs, bus, k)
    ensures Covered(RestoreOrder(rs), bus, k)
  {
    var i :| 0 <= i < |rs| && Covers(rs[i], bus, k);
    assert Covers(RestoreOrder(rs)[|rs| - 1 - i], bus, k);
  }

  /** The endpoint whose PCI Express capability is at 0xac, as on the real board, is such a layout. */
  lemma ExpressAtAc(l: Layout)
    requires l.endpoint.exp == 0xac
    ensures LinkWordSaved(l)
  {
    var link := Register(1, 0xbc, 2, LINK_MASK);
    assert CapRegisters(1, l.endpoint)[2] == link;
    assert Registers(l)[7] == link;
    forall k: nat | InLinkWord(k) ensures Covered(Registers(l), 1, k) {
      assert Covers(Registers(l)[7], 1, k);
    }
  }
}
