/** What the write filter lets through and which registers a scan owns, written out in full
    (a1625_pci_scan.h, lines 81-143, 172-238 and 574-608). */
module ConfigLaws {
  import opened ConfigSpace
  import opened ConfigFilter
  import opened ConfigRestore

  // ---------- Which writes are accepted ----------

  /** The i-th saved control is the last one for this register. */
  ghost predicate Decides(cs: seq<Control>, n: nat, i: nat, bus: nat, where: int, size: int)
    requires n <= |cs|
  {
    && i < n && cs[i].reg.bus == bus && cs[i].reg.where == where && cs[i].reg.size == size
    && forall j :: i < j < n ==> !(cs[j].reg.bus == bus && cs[j].reg.where == where && cs[j].reg.size == size)
  }

  /** A saved control takes any value, but power management control stays in D0 and link control never disables the link. */
  predicate ControlTakes(mask: U32, v: U32) {
    (mask == PM_MASK ==> !v[0] && !v[1]) && (mask == LINK_MASK ==> !v[4])
  }

  /** The registers for which the firmware stage has rules of its own: the BAR0 window, link control and status as one
      dword, and the mailbox. */
  predicate OfDriver(active: bool, bus: nat, where: int, size: int) {
    active && bus == 1 && size == 4 && (where == 0x80 || where == 0xbc || where == 0x98)
  }

  predicate DriverMay(where: int, v: U32) {
    if where == 0x80 then Number(v[..12]) == 0 && 0x18000000 <= Number(v) <= 0x1810f000
    else if where == 0xbc then !v[4]
    else Number(v) == 1
  }

  /** What enumeration may write: the command without bus mastering before the firmware stage, base addresses, bus numbers
      0 or 0-1-1, bridge control without reset, expansion ROM addresses without decoding, and the acknowledgement of all
      secondary status bits. */
  predicate OfEnumeration(active: bool, bus: nat, where: int, size: int, v: U32) {
    || (size == 2 && where == 4 && (v[2] ==> active))
    || (size == 4 && (where == 0x10 || where == 0x14))
    || (size == 4 && bus == 1 && (where == 0x18 || where == 0x1c || where == 0x20 || where == 0x24))
    || (size == 4 && bus == 0 && where == 0x18 && (Number(v[..24]) == 0 || Number(v[..24]) == 0x01_0100))
    || (size == 2 && bus == 0 && where == 0x3e && !v[6])
    || (size == 4 && bus == 0 && where == 0x38 && !v[0])
    || (size == 4 && bus == 1 && where == 0x30 && !v[0])
    || (size == 2 && bus == 0 && where == 0x1e && forall k :: 0 <= k < 32 ==> (v[k] <==> k < 16))
  }

  /** The last saved control for this register takes the value. */
  ghost predicate Taken(cs: seq<Control>, n: nat, bus: nat, where: int, size: int, v: U32)
    requires n <= |cs|
  {
    exists i: nat :: Decides(cs, n, i, bus, where, size) && ControlTakes(cs[i].reg.mask, v)
  }

  ghost predicate Permissible(cs: seq<Control>, active: bool, bus: nat, where: int, size: int, v: U32) {
    if OfDriver(active, bus, where, size) then DriverMay(where, v)
    else
      OfEnumeration(active, bus, where, size, v) || Taken(cs, |cs|, bus, where, size, v)
  }

  ghost predicate Named(cs: seq<Control>, n: nat, bus: nat, where: int, size: int)
    requires n <= |cs|
  {
    exists i: nat :: Decides(cs, n, i, bus, where, size)
  }

  lemma {:induction false} LastDecides(cs: seq<Control>, n: nat, base: bool, bus: nat, where: int, size: int, v: U32)
    requires n <= |cs|
    ensures AfterControls(cs, n, base, bus, where, size, v) <==>
      if Named(cs, n, bus, where, size) then Taken(cs, n, bus, where, size, v) else base
  {
    if n > 0 {
      MasksDiffer();
      if Names(cs[n - 1], bus, where, size) {
        assert Decides(cs, n, n - 1, bus, where, size);
      } else {
        LastDecides(cs, n - 1, base, bus, where, size, v);
        OneFewer(cs, n, bus, where, size, v);
      }
    }
  }

  lemma OneFewer(cs: seq<Control>, n: nat, bus: nat, where: int, size: int, v: U32)
    requires 0 < n <= |cs| && !Names(cs[n - 1], bus, where, size)
    ensures Named(cs, n, bus, where, size) <==> Named(cs, n - 1, bus, where, size)
    ensures Taken(cs, n, bus, where, size, v) <==> Taken(cs, n - 1, bus, where, size, v)
  {
    hide ControlTakes;
    forall i: nat ensures Decides(cs, n, i, bus, where, size) <==> Decides(cs, n - 1, i, bus, where, size) {
    }
    if Taken(cs, n - 1, bus, where, size, v) {
      var i: nat :| Decides(cs, n - 1, i, bus, where, size) && ControlTakes(cs[i].reg.mask, v);
      assert Decides(cs, n, i, bus, where, size);
    }
    if Named(cs, n - 1, bus, where, size) {
      var i: nat :| Decides(cs, n - 1, i, bus, where, size);
      assert Decides(cs, n, i, bus, where, size);
    }
  }

  lemma MasksDiffer()
    ensures PM_MASK != LINK_MASK
  {
    assert PM_MASK[5] && !LINK_MASK[5];
  }

  /** A register of enumeration is never a saved control. */
  lemma SetupIsNotSaved(r: Register, active: bool, v: U32)
    requires Sound(r)
    ensures !OfEnumeration(active, r.bus, r.where, r.size, v) && !BaseAllowed(active, r.bus, r.where, r.size, v)
  {
  }

  lemma AllOnes(v: U32)
    ensures v == ALL16 <==> forall k :: 0 <= k < 32 ==> (v[k] <==> k < 16)
  {
  }

  /** The rules that look at the offset alone, with the acknowledgement of secondary status. */
  lemma BaseIs(active: bool, bus: nat, where: int, size: int, v: U32)
    requires bus <= 1
    ensures BaseAllowed(active, bus, where, size, v) || (bus == 0 && where == 0x1e && size == 2 && v == ALL16) <==>
      OfEnumeration(active, bus, where, size, v)
  {
    AllOnes(v);
  }

  /** What reaches the hardware of an accepted write. */
  function Reaching(active: bool, bus: nat, where: int, size: int, v: U32): Access {
    if active && bus == 1 && where == 0xbc && size == 4 then Access(0xbc, 2, And(v, ALL16)) else Access(where, size, v)
  }

  /** The filter accepts exactly these writes. What reaches the hardware is the write itself, but of the dword at 0xbc in
      the firmware stage only the low word, so that link status is not written. */
  lemma AcceptedIff(cs: seq<Control>, active: bool, bus: nat, where: int, size: int, v: U32)
    requires SoundControls(cs) && bus <= 1
    ensures var r := Filter(cs, active, bus, where, size, v);
      && (r.Some? <==> Permissible(cs, active, bus, where, size, v))
      && (r.Some? ==> r.value == Reaching(active, bus, where, size, v))
  {
    hide AfterControls, BaseAllowed, OfEnumeration, ControlTakes;
    var base := BaseAllowed(active, bus, where, size, v);
    LastDecides(cs, |cs|, base, bus, where, size, v);
    BaseIs(active, bus, where, size, v);
    AllOnes(v);
    if i: nat :| Decides(cs, |cs|, i, bus, where, size) {
      SetupIsNotSaved(cs[i].reg, active, v);
      OnlyOneDecides(cs, i, bus, where, size);
      assert Sound(cs[i].reg);
    }
  }

  lemma OnlyOneDecides(cs: seq<Control>, i: nat, bus: nat, where: int, size: int)
    requires Decides(cs, |cs|, i, bus, where, size)
    ensures forall j: nat :: Decides(cs, |cs|, j, bus, where, size) ==> j == i
  {
  }

  /** The firmware stage has begun before operation i. */
  ghost predicate Begun(ops: seq<Op>, i: nat)
    requires i <= |ops|
  {
    exists j :: 0 <= j < i && ops[j].Activate?
  }

  lemma {:induction false} BegunIsActive(cs: seq<Control>, s: State, ops: seq<Op>, i: nat)
    requires SoundControls(cs) && i <= |ops| && !s.active
    ensures Run(cs, s, ops[..i]).active <==> Begun(ops, i)
  {
    hide Filter, Exists, Config.Write;
    if i > 0 {
      BegunIsActive(cs, s, ops, i - 1);
      assert ops[..i][..i - 1] == ops[..i - 1];
      assert Begun(ops, i) <==> Begun(ops, i - 1) || ops[i - 1].Activate?;
    }
  }

  /** The operation is a write to one of the two functions that is not permissible when it happens. */
  ghost predicate Offends(cs: seq<Control>, ops: seq<Op>, i: nat)
    requires i < |ops|
  {
    var op := ops[i];
    op.Write? && ((op.bus == 0 && op.devfn == 8) || (op.bus == 1 && op.devfn == 0))
    && !Permissible(cs, Begun(ops, i), op.bus, op.where, op.size, op.value)
  }

  /** A run is rejected exactly if some write of it was not permissible. */
  lemma RejectedIff(cs: seq<Control>, space: Config, ops: seq<Op>)
    requires SoundControls(cs)
    ensures Run(cs, State(space, false, false), ops).rejected <==> exists i :: 0 <= i < |ops| && Offends(cs, ops, i)
  {
    hide Permissible, Filter, Begun, Run;
    var s := State(space, false, false);
    RejectionIsLatched(cs, s, ops);
    forall i | 0 <= i < |ops| ensures Refused(cs, s, ops, i) <==> Offends(cs, ops, i) {
      BegunIsActive(cs, s, ops, i);
      var op := ops[i];
      if op.Write? && op.bus <= 1 {
        AcceptedIff(cs, Begun(ops, i), op.bus, op.where, op.size, op.value);
      }
    }
    if exists i :: 0 <= i < |ops| && Offends(cs, ops, i) {
      var i :| 0 <= i < |ops| && Offends(cs, ops, i);
      assert Refused(cs, s, ops, i);
    }
  }

  // ---------- Which registers a scan owns ----------

  /** The control registers of one function: power management, device control 2, link control, and both L1 substates
      controls. */
  predicate OfFunction(bus: nat, c: Caps, r: Register) {
    r.bus == bus &&
    (|| r == Register(bus, c.pm + 4, 2, PM_MASK)
     || r == Register(bus, c.exp + 0x10, 2, LINK_MASK)
     || r == Register(bus, c.exp + 0x28, 2, ALL16)
     || r == Register(bus, c.l1ss + 8, 4, ALL32)
     || r == Register(bus, c.l1ss + 12, 4, ALL32))
  }

  /** The bridge's windows: I/O and prefetchable, and with memory assignment all of them. */
  predicate OfWindows(assign: bool, r: Register) {
    r.bus == 0 &&
    (|| (r.where == 0x1c && r.size == 2 && r.mask == ALL16)
     || (r.size == 4 && r.mask == ALL32
         && (r.where == 0x24 || (assign && r.where % 4 == 0 && 0x20 <= r.where <= 0x30))))
  }

  /** The MSI capability: flags, address, data and, if it has one, the mask. */
  predicate OfMsi(m: Msi, r: Register) {
    var data := if m.wide then m.cap + 12 else m.cap + 8;
    r.bus == 1 &&
    (|| (r.size == 2 && r.mask == ALL16 && (r.where == m.cap + 2 || r.where == data))
     || (r.size == 4 && r.mask == ALL32
         && (r.where == m.cap + 4 || (m.wide && r.where == m.cap + 8) || (m.maskable && r.where == data + 4))))
  }

  /** What the driver's watchdog replays: the BAR0 window, device control 2 and three vendor and latency registers. */
  predicate OfFirmware(r: Register) {
    r.bus == 1 &&
    (|| (r.size == 2 && r.mask == ALL16 && r.where == 0xdc)
     || (r.size == 4 && r.mask == ALL32 && (r.where == 0x80 || r.where == 0x228 || r.where == 0x4e0 || r.where == 0x4f4)))
  }

  predicate Owned(l: Layout, r: Register) {
    || OfFunction(0, l.root, r) || OfFunction(1, l.endpoint, r) || OfWindows(l.assign, r)
    || (l.msi.Some? && OfMsi(l.msi.value, r)) || (l.bind && OfFirmware(r))
  }

  lemma CapsOwned(bus: nat, c: Caps, r: Register)
    ensures r in CapRegisters(bus, c) <==> OfFunction(bus, c, r)
  {
    var rs := CapRegisters(bus, c);
    assert rs[0] in rs && rs[1] in rs && rs[2] in rs && rs[3] in rs && rs[4] in rs;
  }

  lemma WindowsOwned(assign: bool, r: Register)
    ensures r in WindowRegisters(assign) <==> OfWindows(assign, r)
  {
    var rs := WindowRegisters(assign);
    assert rs[0] in rs && rs[1] in rs;
    if assign {
      assert rs[2] in rs && rs[3] in rs && rs[4] in rs && rs[5] in rs;
    }
  }

  lemma FirmwareOwned(r: Register)
    ensures r in FirmwareRegisters() <==> OfFirmware(r)
  {
    var rs := FirmwareRegisters();
    assert rs[0] in rs && rs[1] in rs && rs[2] in rs && rs[3] in rs && rs[4] in rs;
  }

  lemma MsiOwned(m: Msi, r: Register)
    ensures r in MsiRegisters(m) <==> OfMsi(m, r)
  {
    var first := [Register(1, m.cap + 2, 2, ALL16), Register(1, m.cap + 4, 4, ALL32)];
    var data := [Register(1, m.cap + (if m.wide then 12 else 8), 2, ALL16)];
    InParts(first + MsiAddressHigh(m) + data, MsiMask(m), r);
    InParts(first + MsiAddressHigh(m), data, r);
    InParts(first, MsiAddressHigh(m), r);
    assert MsiRegisters(m) == first + MsiAddressHigh(m) + data + MsiMask(m);
  }

  lemma InParts(a: seq<Register>, b: seq<Register>, r: Register)
    ensures r in a + b <==> r in a || r in b
  {
  }

  /** The saved controls are exactly these registers. */
  lemma SavedIff(l: Layout, r: Register)
    ensures r in Registers(l) <==> Owned(l, r)
  {
    hide OfFunction, OfWindows, OfMsi, OfFirmware, CapRegisters, WindowRegisters, MsiRegisters, FirmwareRegisters;
    CapsOwned(0, l.root, r);
    CapsOwned(1, l.endpoint, r);
    WindowsOwned(l.assign, r);
    FirmwareOwned(r);
    if l.msi.Some? {
      MsiOwned(l.msi.value, r);
    }
  }

  /** The bits of saved registers that the restore does not keep: PME status, which a write of one clears, and the
      self-clearing command to retrain the link. */
  predicate NotReplayed(l: Layout, bus: nat, k: nat) {
    var c := if bus == 0 then l.root else l.endpoint;
    k == 8 * (c.pm + 4) + 15 || k == 8 * (c.exp + 0x10) + 5
  }

  /** Every other bit of every saved register is kept. */
  lemma KeptButTwo(l: Layout, bus: nat, k: nat)
    requires LayoutInBounds(l) && bus <= 1 && !NotReplayed(l, bus, k)
    ensures Kept(Registers(l), bus, k)
  {
    hide Registers, Owned, NotReplayed, LayoutInBounds, Covers;
    var rs := Registers(l);
    forall i | 0 <= i < |rs| && Covers(rs[i], bus, k)
      ensures var at := k - 8 * rs[i].where; 0 <= at < 32 && rs[i].mask[at]
    {
      SavedIff(l, rs[i]);
      OwnedKeeps(l, rs[i], bus, k);
    }
  }

  lemma OwnedKeeps(l: Layout, r: Register, bus: nat, k: nat)
    requires Owned(l, r) && bus <= 1 && !NotReplayed(l, bus, k) && Covers(r, bus, k)
    ensures 0 <= k - 8 * r.where < 32 && r.mask[k - 8 * r.where]
  {
  }

  /** Some saved register has this bit. */
  ghost predicate OfSaved(l: Layout, bus: nat, k: nat) {
    exists r: Register :: Owned(l, r) && Covers(r, bus, k)
  }

  /** Whatever is written between saving and restoring, every bit of both pages is back, except those two of each function
      and the transient words that no saved register covers. */
  lemma EverythingComesBack(l: Layout, entry: Config, ops: seq<Op>, bus: nat, k: nat)
    requires LayoutInBounds(l) && Admissible(l, ops) && bus <= 1 && k < PAGE_BITS
    requires !NotReplayed(l, bus, k) && (Transient(bus, k) ==> OfSaved(l, bus, k))
    ensures Aftermath(l, entry, ops).Page(bus)[k] == entry.Page(bus)[k]
  {
    hide Registers, Owned, NotReplayed, LayoutInBounds, Covers, RestoreOrder, Aftermath, Transient, Kept, Covered;
    KeptButTwo(l, bus, k);
    KeptInOrder(Registers(l), bus, k);
    if OfSaved(l, bus, k) {
      var r: Register :| Owned(l, r) && Covers(r, bus, k);
      SavedIff(l, r);
      CoveredBy(Registers(l), r, bus, k);
      SavedInOrder(Registers(l), bus, k);
    }
    RestoreAfterAnyRun(l, entry, ops, bus, k);
  }

  lemma CoveredBy(rs: seq<Register>, r: Register, bus: nat, k: nat)
    requires r in rs && Covers(r, bus, k)
    ensures Covered(rs, bus, k)
  {
    var i :| 0 <= i < |rs| && rs[i] == r;
  }

  /** What the saved controls keep, the registers restored after them keep too. */
  lemma KeptInOrder(rs: seq<Register>, bus: nat, k: nat)
    requires Kept(rs, bus, k)
    ensures Kept(RestoreOrder(rs), bus, k)
  {
    var order := RestoreOrder(rs);
    forall i | 0 <= i < |order| && Covers(order[i], bus, k)
      ensures var at := k - 8 * order[i].where; 0 <= at < 32 && order[i].mask[at]
    {
      if i < |rs| {
        assert order[i] == rs[|rs| - 1 - i];
      } else {
        FixedMask(i - |rs|, k - 8 * order[i].where);
      }
    }
  }
}
