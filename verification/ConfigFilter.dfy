/** What the temporary PCI host saves, which configuration writes it lets through, and what the restore
    sequence makes of them (a1625_pci_scan.h, lines 81-143, 172-238 and 574-608), as functions on values. */
module ConfigFilter {
  import opened Errno
  import opened CapabilityWalk
  import opened ConfigSpace

  // ---------- Saved controls ----------

  /** Single bits the filter looks at. */
  const MASTER: nat := 2
  const ROM_ENABLE: nat := 0
  const BUS_RESET: nat := 6
  const LINK_DISABLE: nat := 4

  datatype Register = Register(bus: nat, where: nat, size: nat, mask: U32)

  datatype Control = Control(reg: Register, saved: U32)

  /** All bits of a dword, all bits of a word. */
  const ALL32 := Mask(_ => true)
  const ALL16 := Mask(i => i < 16)
  /** Power management control without the write-one-to-clear PME status (bit 15). */
  const PM_MASK := Mask(i => i < 15)
  /** Link control without the self-clearing retrain command (bit 5). */
  const LINK_MASK := Mask(i => i < 16 && i != 5)

  /** The capabilities of one function, by the place each starts at. */
  datatype Caps = Caps(pm: nat, exp: nat, l1ss: nat)

  /** The endpoint's MSI capability: place, 64-bit addressing, per-vector masking. */
  datatype Msi = Msi(cap: nat, wide: bool, maskable: bool)

  /** Everything that decides which registers are saved. */
  datatype Layout = Layout(root: Caps, endpoint: Caps, assign: bool, msi: Option<Msi>, bind: bool)

  function CapRegisters(bus: nat, c: Caps): (rs: seq<Register>)
    ensures |rs| == 5
  {
    [Register(bus, c.pm + 4, 2, PM_MASK),
     Register(bus, c.exp + 0x28, 2, ALL16),
     Register(bus, c.exp + 0x10, 2, LINK_MASK),
     Register(bus, c.l1ss + 8, 4, ALL32),
     Register(bus, c.l1ss + 0xc, 4, ALL32)]
  }

  function WindowRegisters(assign: bool): (rs: seq<Register>)
    ensures |rs| == if assign then 6 else 2
  {
    [Register(0, 0x1c, 2, ALL16), Register(0, 0x24, 4, ALL32)]
    + if !assign then [] else
      [Register(0, 0x20, 4, ALL32), Register(0, 0x28, 4, ALL32),
       Register(0, 0x2c, 4, ALL32), Register(0, 0x30, 4, ALL32)]
  }

  function MsiRegisters(m: Msi): (rs: seq<Register>)
    ensures |rs| <= 5
  {
    [Register(1, m.cap + 2, 2, ALL16), Register(1, m.cap + 4, 4, ALL32)]
    + MsiAddressHigh(m)
    + [Register(1, m.cap + (if m.wide then 12 else 8), 2, ALL16)]
    + MsiMask(m)
  }

  function MsiAddressHigh(m: Msi): seq<Register> {
    if m.wide then [Register(1, m.cap + 8, 4, ALL32)] else []
  }

  function MsiMask(m: Msi): seq<Register> {
    if m.maskable then [Register(1, m.cap + (if m.wide then 16 else 12), 4, ALL32)] else []
  }

  function FirmwareRegisters(): (rs: seq<Register>)
    ensures |rs| == 5
  {
    [Register(1, 0x80, 4, ALL32), Register(1, 0xdc, 2, ALL16), Register(1, 0x228, 4, ALL32),
     Register(1, 0x4e0, 4, ALL32), Register(1, 0x4f4, 4, ALL32)]
  }

  /** All saved registers, in the order they are saved in. */
  function Registers(l: Layout): seq<Register> {
    var always := CapRegisters(0, l.root) + CapRegisters(1, l.endpoint) + WindowRegisters(l.assign);
    var routed := if l.msi.Some? then always + MsiRegisters(l.msi.value) else always;
    if l.bind then routed + FirmwareRegisters() else routed
  }

  predicate CapsInBounds(c: Caps) {
    Legal(c.pm) && Legal(c.exp) && c.exp + 0x28 <= 0xfe && ExtLegal(c.l1ss) && c.l1ss + 0xc <= 0xffc
  }

  /** What the walks and the checks behind them establish about every accepted layout. */
  predicate LayoutInBounds(l: Layout) {
    CapsInBounds(l.root) && CapsInBounds(l.endpoint)
    && (l.msi.Some? ==> Legal(l.msi.value.cap) && l.msi.value.cap <= 0xe8)
  }

  /** A register the host can own: naturally aligned, inside its page, clear of the registers restored separately. */
  predicate Sound(r: Register) {
    && r.bus <= 1
    && InPage(r.where, r.size) && Aligned(r.where, r.size)
    && (r.bus == 0 ==> 0x1c <= r.where && (r.where + r.size <= 0x1e || 0x20 <= r.where)
                       && (r.where + r.size <= 0x34 || 0x40 <= r.where))
    && (r.bus == 1 ==> 0x40 <= r.where)
  }

  predicate AllSound(rs: seq<Register>) {
    forall i :: 0 <= i < |rs| ==> Sound(rs[i])
  }

  /** At most 26 registers are saved, whatever the layout, and every one is sound. */
  lemma RegistersSound(l: Layout)
    requires LayoutInBounds(l)
    ensures |Registers(l)| <= 26
    ensures AllSound(Registers(l))
  {
    CapsSound(0, l.root);
    CapsSound(1, l.endpoint);
    WindowsSound(l.assign);
    if l.msi.Some? {
      MsiSound(l.msi.value);
    }
    FirmwareSound();
  }

  lemma WindowsSound(assign: bool)
    ensures AllSound(WindowRegisters(assign))
  {
  }

  lemma FirmwareSound()
    ensures AllSound(FirmwareRegisters())
  {
  }

  lemma CapsSound(bus: nat, c: Caps)
    requires bus <= 1 && CapsInBounds(c)
    ensures AllSound(CapRegisters(bus, c))
  {
    WordAligned(c.pm, 4);
    WordAligned(c.exp, 0x28);
    WordAligned(c.exp, 0x10);
    WordAligned(c.l1ss, 8);
    WordAligned(c.l1ss, 0xc);
    forall i | 0 <= i < 5 ensures Sound(CapRegisters(bus, c)[i]) {
      hide Legal, ExtLegal;
      CapPlaces(bus, c, i);
    }
  }

  lemma WordAligned(pos: nat, offset: nat)
    requires pos % 4 == 0 && offset % 4 == 0
    ensures (pos + offset) % 4 == 0 && (pos + offset) % 2 == 0
  {
    var words := pos / 4 + offset / 4;
    assert pos + offset == 4 * words;
    Multiple(words, 4);
    Multiple(2 * words, 2);
  }

  lemma Multiple(n: nat, d: nat)
    requires d == 2 || d == 4
    ensures (d * n) % d == 0
  {
  }

  lemma CapPlaces(bus: nat, c: Caps, i: nat)
    requires bus <= 1 && CapsInBounds(c) && i < 5
    ensures var r := CapRegisters(bus, c)[i];
      r.bus == bus && (r.size == 2 || r.size == 4) && 0x40 <= r.where && r.where + r.size <= 4096
  {
  }

  lemma MsiSound(m: Msi)
    requires Legal(m.cap) && m.cap <= 0xe8
    ensures AllSound(MsiRegisters(m))
  {
    hide Sound, Legal;
    MsiRegisterSound(m.cap, 2, 2, ALL16);
    MsiRegisterSound(m.cap, 4, 4, ALL32);
    MsiRegisterSound(m.cap, 8, 4, ALL32);
    MsiRegisterSound(m.cap, if m.wide then 12 else 8, 2, ALL16);
    MsiRegisterSound(m.cap, if m.wide then 16 else 12, 4, ALL32);
  }

  lemma MsiRegisterSound(cap: nat, offset: nat, size: nat, mask: U32)
    requires Legal(cap) && cap <= 0xe8 && offset <= 16
    requires (size == 2 && offset % 2 == 0) || (size == 4 && offset % 4 == 0)
    ensures Sound(Register(1, cap + offset, size, mask))
  {
  }

  function Capture(space: Config, r: Register): Control
    requires InPage(r.where, r.size)
  {
    Control(r, And(space.Read(r.bus, r.where, r.size), r.mask))
  }

  predicate AllInPage(rs: seq<Register>) {
    forall i :: 0 <= i < |rs| ==> InPage(rs[i].where, rs[i].size)
  }

  function CaptureAll(space: Config, rs: seq<Register>): (cs: seq<Control>)
    requires AllInPage(rs)
    ensures |cs| == |rs|
    ensures forall i :: 0 <= i < |rs| ==> cs[i].reg == rs[i]
  {
    if rs == [] then [] else CaptureAll(space, rs[..|rs| - 1]) + [Capture(space, rs[|rs| - 1])]
  }

  lemma {:induction false} CaptureAt(space: Config, rs: seq<Register>, i: nat)
    requires AllInPage(rs) && i < |rs|
    ensures CaptureAll(space, rs)[i] == Capture(space, rs[i])
  {
    if i < |rs| - 1 {
      CaptureAt(space, rs[..|rs| - 1], i);
    }
  }

  lemma CaptureSnoc(space: Config, rs: seq<Register>, r: Register)
    requires AllInPage(rs) && InPage(r.where, r.size)
    ensures CaptureAll(space, rs + [r]) == CaptureAll(space, rs) + [Capture(space, r)]
  {
    assert (rs + [r])[..|rs|] == rs;
  }

  predicate SoundControls(cs: seq<Control>) {
    forall i :: 0 <= i < |cs| ==> Sound(cs[i].reg)
  }

  // ---------- The write filter ----------

  /** The rules that look at the offset alone, before the saved controls are consulted. */
  predicate BaseAllowed(active: bool, bus: nat, where: int, size: int, v: U32) {
    var a := where == 4 && size == 2 && (!v[MASTER] || active);
    var a := a || (size == 4 && 0x10 <= where <= (if bus != 0 then 0x24 else 0x14) && where % 4 == 0);
    var a := if bus == 0 && where == 0x18 && size == 4
      then Number(v[..24]) == 0x010100 || Number(v[..24]) == 0 else a;
    var a := if bus == 0 && where == 0x3e && size == 2 then !v[BUS_RESET] else a;
    if where == (if bus != 0 then 0x30 else 0x38) && size == 4 then !v[ROM_ENABLE] else a
  }

  predicate Names(c: Control, bus: nat, where: int, size: int) {
    c.reg.bus == bus && c.reg.where == where && c.reg.size == size
  }

  /** A saved control admits any value, save for a power state change and for disabling the link. */
  predicate ControlAllows(c: Control, v: U32) {
    if c.reg.mask == LINK_MASK then !v[LINK_DISABLE]
    else if c.reg.mask == PM_MASK then !v[0] && !v[1]
    else true
  }

  /** The verdict after the first `n` saved controls: the last one that names the register decides. */
  predicate AfterControls(cs: seq<Control>, n: nat, base: bool, bus: nat, where: int, size: int, v: U32)
    requires n <= |cs|
  {
    if n == 0 then base
    else if Names(cs[n - 1], bus, where, size) then ControlAllows(cs[n - 1], v)
    else AfterControls(cs, n - 1, base, bus, where, size, v)
  }

  datatype Access = Access(where: int, size: int, value: U32)

  /** What reaches the hardware of a write to an existing function; None is a refusal. */
  function Filter(cs: seq<Control>, active: bool, bus: nat, where: int, size: int, v: U32): Option<Access> {
    var a := AfterControls(cs, |cs|, BaseAllowed(active, bus, where, size, v), bus, where, size, v);
    var driver := bus == 1 && active;
    var a := if driver && where == 0x80 && size == 4
      then Number(v[..12]) == 0 && 0x18000000 <= Number(v) <= 0x1810f000 else a;
    var narrow := driver && where == 0xbc && size == 4;
    var a := if narrow then !v[LINK_DISABLE] else a;
    var size' := if narrow then 2 else size;
    var v' := if narrow then And(v, ALL16) else v;
    var a := if driver && where == 0x98 && size' == 4 then Number(v') == 1 else a;
    var a := a || (bus == 0 && where == 0x1e && size' == 2 && v' == ALL16);
    if a then Some(Access(where, size', v')) else None
  }

  /** An accepted access is naturally aligned and inside its page. */
  lemma AcceptedInPage(cs: seq<Control>, active: bool, bus: nat, where: int, size: int, v: U32)
    requires SoundControls(cs)
    ensures var r := Filter(cs, active, bus, where, size, v);
      r.Some? ==> InPage(r.value.where, r.value.size) && Aligned(r.value.where, r.value.size)
  {
    ControlsDecide(cs, |cs|, BaseAllowed(active, bus, where, size, v), bus, where, size, v);
  }

  /** Without a control that names the register, the base rules stand. */
  lemma {:induction false} ControlsDecide(cs: seq<Control>, n: nat, base: bool, bus: nat, where: int, size: int, v: U32)
    requires n <= |cs|
    ensures AfterControls(cs, n, base, bus, where, size, v) ==>
      base || exists i :: 0 <= i < n && Names(cs[i], bus, where, size)
    ensures (forall i :: 0 <= i < n ==> !Names(cs[i], bus, where, size)) ==>
      AfterControls(cs, n, base, bus, where, size, v) == base
  {
    if n > 0 && !Names(cs[n - 1], bus, where, size) {
      ControlsDecide(cs, n - 1, base, bus, where, size, v);
    }
  }
}
