/** The temporary PCI host at work: it saves controls, filters writes and restores, in place on the two
    memory-mapped configuration pages (a1625_pci_scan.h, lines 68-143, 172-238 and 483-610). */
module HostScan {
  import opened Errno
  import opened CapabilityWalk
  import opened ConfigSpace
  import opened ConfigFilter
  import ConfigLaws
  import opened ConfigRestore
  import opened ConfigRecovery

  const CAP_PM: nat := 1
  const CAP_MSI: nat := 5
  const CAP_EXPRESS: nat := 0x10
  const CAP_L1SS: nat := 0x1e

  const PCIBIOS_SUCCESSFUL: int := 0
  const PCIBIOS_DEVICE_NOT_FOUND: int := 0x86
  const PCIBIOS_SET_FAILED: int := 0x88

  /** The capabilities are the first of their kind in the function's lists. */
  ghost predicate Describes(page: Page, c: Caps) {
    var cfg := BytesOf(page);
    FirstAt(cfg, CAP_PM, c.pm) && FirstAt(cfg, CAP_EXPRESS, c.exp) && ExtFirstAt(cfg, CAP_L1SS, c.l1ss)
  }

  lemma NothingCaptured(space: Config)
    ensures AllSound([]) && AllInPage([]) && CaptureAll(space, []) == []
  {
  }

  /** The three capabilities are where a bounded walk finds them. */
  ghost predicate Located(page: Page, c: Caps) {
    && CapsInBounds(c) && Describes(page, c)
    && exists n: nat :: n < EXT_BOUND && ExtMatch(BytesOf(page), CAP_L1SS, n)
  }

  /** Everything a scan saves is there: the capabilities of two functions in D0, and the endpoint's MSI, if it is used,
      switched off. */
  ghost predicate Scannable(space: Config, msi: bool) {
    && (exists c :: Located(space.rc, c) && AwakeCaps(space.rc, c))
    && (exists c :: Located(space.ep, c) && AwakeCaps(space.ep, c))
    && (msi ==> exists m :: LayoutOfMsi(space, m))
  }

  lemma ScannableMeans(space: Config, msi: bool)
    ensures Scannable(space, msi) <==>
      && (exists e :: Located(space.Page(0), e) && AwakeCaps(space.Page(0), e))
      && (exists e :: Located(space.Page(1), e) && AwakeCaps(space.Page(1), e))
      && (msi ==> exists m :: LayoutOfMsi(space, m))
  {
    hide Describes, AwakeCaps, LayoutOfMsi, ExtMatch;
    assert space.Page(0) == space.rc && space.Page(1) == space.ep;
  }

  lemma LayoutFound(space: Config, l: Layout)
    requires Located(space.Page(0), l.root) && AwakeCaps(space.Page(0), l.root)
    requires Located(space.Page(1), l.endpoint) && AwakeCaps(space.Page(1), l.endpoint)
    requires l.msi.Some? ==> LayoutOfMsi(space, l.msi.value)
    ensures LayoutOf(space, l)
  {
    hide Describes, AwakeCaps, ExtMatch;
  }

  /** There is only one first capability of a kind. */
  lemma FirstIsOnly(cfg: Bytes, id: nat, p: nat, q: nat)
    requires FirstAt(cfg, id, p) && FirstAt(cfg, id, q)
    ensures p == q
  {
    var n: nat :| Match(cfg, id, n) && p == Pointer(cfg, n) && forall k: nat :: k < n ==> Passed(cfg, id, k);
    var m: nat :| Match(cfg, id, m) && q == Pointer(cfg, m) && forall k: nat :: k < m ==> Passed(cfg, id, k);
    assert !Passed(cfg, id, n) && !Passed(cfg, id, m);
  }

  lemma ExtFirstIsOnly(cfg: Bytes, id: nat, p: nat, q: nat)
    requires ExtFirstAt(cfg, id, p) && ExtFirstAt(cfg, id, q)
    ensures p == q
  {
    var n: nat :| ExtMatch(cfg, id, n) && p == ExtPointer(cfg, n) && forall k: nat :: k < n ==> ExtPassed(cfg, id, k);
    var m: nat :| ExtMatch(cfg, id, m) && q == ExtPointer(cfg, m) && forall k: nat :: k < m ==> ExtPassed(cfg, id, k);
    assert !ExtPassed(cfg, id, n) && !ExtPassed(cfg, id, m);
  }

  lemma FirstIsPresent(cfg: Bytes, id: nat, p: nat)
    requires FirstAt(cfg, id, p)
    ensures Present(cfg, id)
  {
  }

  /** The capabilities of a function are determined. */
  lemma LocatedOnce(page: Page, c: Caps, e: Caps)
    requires Describes(page, c) && Describes(page, e)
    ensures c == e
  {
    hide FirstAt, ExtFirstAt;
    FirstIsOnly(BytesOf(page), CAP_PM, c.pm, e.pm);
    FirstIsOnly(BytesOf(page), CAP_EXPRESS, c.exp, e.exp);
    ExtFirstIsOnly(BytesOf(page), CAP_L1SS, c.l1ss, e.l1ss);
  }

  /** The layout is what a walk over these pages finds, with the function in D0 and MSI disabled. */
  ghost predicate LayoutOf(space: Config, l: Layout) {
    && LayoutInBounds(l)
    && Describes(space.rc, l.root) && Describes(space.ep, l.endpoint)
    && AwakeCaps(space.rc, l.root) && AwakeCaps(space.ep, l.endpoint)
    && (l.msi.Some? ==> LayoutOfMsi(space, l.msi.value))
  }

  ghost predicate LayoutOfMsi(space: Config, m: Msi) {
    && Legal(m.cap) && m.cap <= 0xe8 && FirstAt(BytesOf(space.ep), CAP_MSI, m.cap)
    && var flags := ReadPage(space.ep, m.cap + 2, 2);
       !flags[0] && m.wide == flags[7] && m.maskable == flags[8]
  }

  /** Power state D0. */
  ghost predicate AwakeCaps(page: Page, c: Caps)
    requires CapsInBounds(c)
  {
    var pmc := ReadPage(page, c.pm + 4, 2);
    !pmc[0] && !pmc[1]
  }

  lemma TakeOneMore<T>(s: seq<T>, i: nat)
    requires i < |s|
    ensures s[..i + 1] == s[..i] + [s[i]]
    ensures i + 1 == |s| ==> s == s[..i] + [s[i]]
  {
  }

  /** The filter refused some operation of this run. */
  predicate AnyRefused(l: Layout, entry: Config, ops: seq<Op>)
    requires LayoutInBounds(l)
  {
    exists i :: 0 <= i < |ops| && Refused(SavedControls(l, entry), State(entry, false, false), ops, i)
  }

  const ZERO: U32 := Mask(_ => false)

  /** The only state a scan starts from. */
  predicate Quiescent(space: Config) {
    && Number(space.Read(0, 0, 4)) == 0x1002106b && Number(space.Read(1, 0, 4)) == 0x43a314e4
    && space.Read(0, 4, 2) == ZERO && space.Read(1, 4, 2) == ZERO
    && Number(space.Read(0, 0x18, 4)[..24]) == 0x010100 && !space.Read(0, 0x3e, 2)[BUS_RESET]
    && !space.Read(0, 0x38, 4)[ROM_ENABLE] && !space.Read(1, 0x30, 4)[ROM_ENABLE]
  }

  /** The same, bit by bit: the two functions, both commands zero, bus numbers 0, 1 and 1, no reset of the secondary bus, and
      neither expansion ROM decoded. */
  lemma QuiescentIff(space: Config)
    ensures Quiescent(space) <==>
      && Number(space.Read(0, 0, 4)) == 0x1002106b && Number(space.Read(1, 0, 4)) == 0x43a314e4
      && (forall k :: 8 * 4 <= k < 8 * 6 ==> !space.rc[k] && !space.ep[k])
      && (forall k :: 8 * 0x18 <= k < 8 * 0x1b ==> (space.rc[k] <==> k == 8 * 0x19 || k == 8 * 0x1a))
      && !space.rc[8 * 0x3e + 6] && !space.rc[8 * 0x38] && !space.ep[8 * 0x30]
  {
    ZeroWord(space, 0);
    ZeroWord(space, 1);
    BusWord(space);
    ReadBit(space, 0, 0x3e, 2, 6);
    ReadBit(space, 0, 0x38, 4, 0);
    ReadBit(space, 1, 0x30, 4, 0);
  }

  lemma ZeroWord(space: Config, bus: nat)
    requires bus <= 1
    ensures space.Read(bus, 4, 2) == ZERO <==> forall k :: 32 <= k < 48 ==> !space.Page(bus)[k]
  {
    var v := space.Read(bus, 4, 2);
    forall i | 0 <= i < 16 ensures v[i] == space.Page(bus)[32 + i] {
      ReadBit(space, bus, 4, 2, i);
    }
    if forall k :: 32 <= k < 48 ==> !space.Page(bus)[k] {
      assert forall i :: 0 <= i < 32 ==> v[i] == ZERO[i];
    } else {
      var k :| 32 <= k < 48 && space.Page(bus)[k];
      assert v[k - 32] && !ZERO[k - 32];
    }
  }

  lemma BusWord(space: Config)
    ensures Number(space.Read(0, 0x18, 4)[..24]) == 0x010100 <==>
      forall k :: 8 * 0x18 <= k < 8 * 0x1b ==> (space.rc[k] <==> k == 8 * 0x19 || k == 8 * 0x1a)
  {
    var buses := space.Read(0, 0x18, 4)[..24];
    OneBus(buses);
    forall k | 8 * 0x18 <= k < 8 * 0x1b ensures buses[k - 8 * 0x18] == space.rc[k] {
      ReadBit(space, 0, 0x18, 4, k - 8 * 0x18);
    }
    forall i | 0 <= i < 24 ensures buses[i] == space.rc[8 * 0x18 + i] {
      ReadBit(space, 0, 0x18, 4, i);
    }
  }

  /** Bus number register 0, 1, 1 in bits. */
  lemma OneBus(v: seq<bool>)
    requires |v| == 24
    ensures Number(v) == 0x010100 <==> forall k :: 0 <= k < 24 ==> (v[k] <==> k == 8 || k == 16)
  {
    var one := seq(24, k => k == 8 || k == 16);
    OneBusIs(one);
    if Number(v) == 0x010100 {
      NumberOnce(v, one);
    }
    if forall k :: 0 <= k < 24 ==> (v[k] <==> k == 8 || k == 16) {
      assert v == one;
    }
  }

  lemma OneBusIs(v: seq<bool>)
    requires |v| == 24 && forall k :: 0 <= k < 24 ==> (v[k] <==> k == 8 || k == 16)
    ensures Number(v) == 0x010100
  {
    assert Power(8) == 256 && Power(7) == 128;
    Low(v, 8);
    var second := v[8..][1..];
    assert second[7] == v[16];
    Low(second, 7);
    var third := second[7..][1..];
    Low(third, 7);
    assert third[7..] == [] && Number(third) == 0 && Number(second[7..]) == 1;
  }

  function Power(n: nat): nat {
    if n == 0 then 1 else 2 * Power(n - 1)
  }

  lemma {:induction false} Low(v: seq<bool>, n: nat)
    requires n <= |v| && forall k :: 0 <= k < n ==> !v[k]
    ensures Number(v) == Power(n) * Number(v[n..])
  {
    if n > 0 {
      Low(v[1..], n - 1);
      assert v[1..][n - 1..] == v[n..];
    } else {
      assert v[0..] == v;
    }
  }

  lemma {:induction false} NumberOnce(a: seq<bool>, b: seq<bool>)
    requires |a| == |b| && Number(a) == Number(b)
    ensures a == b
  {
    if a != [] {
      assert a[0] == b[0] && Number(a[1..]) == Number(b[1..]);
      NumberOnce(a[1..], b[1..]);
      assert a == [a[0]] + a[1..] && b == [b[0]] + b[1..];
    }
  }

  /** Until the firmware stage begins both Bus Master Enable bits are clear, after every write of the run. */
  ghost predicate MastersClear(l: Layout, entry: Config, ops: seq<Op>)
    requires LayoutInBounds(l)
  {
    forall n: nat :: n <= |ops| && (forall i :: 0 <= i < n ==> !ops[i].Activate?) ==>
      MasterClear(Run(SavedControls(l, entry), State(entry, false, false), ops[..n]).space)
  }

  /** The configuration space when the run is over and the restore begins. */
  function AfterRun(l: Layout, entry: Config, ops: seq<Op>): Config
    requires LayoutInBounds(l)
  {
    Run(SavedControls(l, entry), State(entry, false, false), ops).space
  }

  /** What a scan leaves behind and reports, for every device: the registers whose write it takes have their saved values,
      and the result is that of the run exactly if every readback agrees and no write was refused, and EIO if not. A result
      of 0 means that everything the readbacks can tell is restored, whatever the device ignored. On a perfect device
      everything is, and only a refused write makes the result differ from that of the run. */
  ghost predicate Scanned(d: Device, entry: Config, l: Layout, ops: seq<Op>, after: Config, rejected: bool, core: int, ret: int) {
    && Quiescent(entry) && LayoutOf(entry, l) && AllInPage(RestoreOrder(Registers(l)))
    && rejected == AnyRefused(l, entry, ops)
    && MastersClear(l, entry, ops)
    && (var order, run, saved := RestoreOrder(Registers(l)), AfterRun(l, entry, ops), |Registers(l)|;
        && after == WriteBackOn(d, entry, run, order, |order|)
        && ret == (if AllAgree(d, entry, run, order, saved) && !rejected then core else EIO)
        && OnlyCovered(run, after, order))
    && (Perfect(d) ==> after == Aftermath(l, entry, ops) && ret == (if rejected then EIO else core))
    && (ret == 0 ==> core == 0 && Restored(l, entry, after))
  }

  lemma ScanKeepsMasters(l: Layout, entry: Config, ops: seq<Op>)
    requires LayoutInBounds(l) && Quiescent(entry)
    ensures MastersClear(l, entry, ops)
  {
    hide Quiescent;
    QuiescentMasters(entry);
    forall n: nat | n <= |ops| && (forall i :: 0 <= i < n ==> !ops[i].Activate?)
      ensures MasterClear(Run(SavedControls(l, entry), State(entry, false, false), ops[..n]).space)
    {
      MasterStaysClear(SavedControls(l, entry), State(entry, false, false), ops[..n]);
    }
  }

  /** A scan starts with both Bus Master Enable bits clear. */
  lemma QuiescentMasters(space: Config)
    requires Quiescent(space)
    ensures MasterClear(space)
  {
    ReadBit(space, 0, 4, 2, MASTER);
    ReadBit(space, 1, 4, 2, MASTER);
  }

  /** What is written back is what the masked readback shows. */
  lemma SavedReadsBack(entry: Config, space: Config, r: Register)
    requires InPage(r.where, r.size) && r.bus <= 1
    ensures var saved := Capture(entry, r).saved;
      And(space.Write(r.bus, r.where, r.size, saved).Read(r.bus, r.where, r.size), r.mask) == saved
  {
    var saved := Capture(entry, r).saved;
    var after := space.Write(r.bus, r.where, r.size, saved);
    forall i | 0 <= i < 8 * r.size ensures after.Read(r.bus, r.where, r.size)[i] == saved[i] {
      WriteBit(space, r.bus, r.where, r.size, saved, r.bus, 8 * r.where + i);
      ReadBit(after, r.bus, r.where, r.size, i);
    }
  }

  /** What writing the first n registers back one by one has come to. */
  ghost predicate Progress(d: Device, entry: Config, start: Config, now: Config, rs: seq<Register>, saved: nat, n: nat, ok: bool)
    requires AllInPage(rs) && n <= |rs|
  {
    && OnlyCovered(start, now, rs[..n]) && now == WriteBackOn(d, entry, start, rs, n)
    && (ok <==> forall j :: 0 <= j < n && AtOnce(saved, j) ==> Agreed(d, entry, start, rs, saved, j))
  }

  lemma ProgressNone(d: Device, entry: Config, start: Config, rs: seq<Register>, saved: nat)
    requires AllInPage(rs)
    ensures Progress(d, entry, start, start, rs, saved, 0, true)
    ensures AllInPage(rs[..0]) && Recovered(entry, start, rs[..0])
  {
    assert rs[..0] == [];
    NothingToRecover(entry, start);
  }

  lemma ProgressMore(d: Device, entry: Config, start: Config, before: Config, after: Config, rs: seq<Register>, saved: nat, n: nat,
                     ok: bool, fine: bool)
    requires AllInPage(rs) && n < |rs| && Progress(d, entry, start, before, rs, saved, n, ok) && rs[n].bus <= 1
    requires after == if d.takes(n) then Written(entry, before, rs[n]) else before
    requires AtOnce(saved, n) ==> (fine <==> Agrees(d, entry, after, rs[n], n))
    requires !AtOnce(saved, n) ==> fine
    ensures Progress(d, entry, start, after, rs, saved, n + 1, ok && fine)
  {
    hide OnlyCovered, Written, Agrees;
    WrittenStays(entry, before, rs[n]);
    Unmoved(before, [rs[n]]);
    OnlyCoveredMore(start, before, after, rs[..n], [rs[n]]);
    TakeOneMore(rs, n);
  }

  lemma WrittenStays(entry: Config, space: Config, r: Register)
    requires InPage(r.where, r.size) && r.bus <= 1
    ensures OnlyCovered(space, Written(entry, space, r), [r])
  {
    WriteStays(space, r, Capture(entry, r).saved);
  }

  lemma ProgressMeans(d: Device, entry: Config, start: Config, now: Config, rs: seq<Register>, saved: nat, n: nat, ok: bool)
    requires AllInPage(rs) && n <= |rs| && Progress(d, entry, start, now, rs, saved, n, ok)
    ensures OnlyCovered(start, now, rs[..n]) && now == WriteBackOn(d, entry, start, rs, n)
    ensures n == |rs| ==> OnlyCovered(start, now, rs)
    ensures ok <==> forall j :: 0 <= j < n && AtOnce(saved, j) ==> Agreed(d, entry, start, rs, saved, j)
  {
    assert rs[..|rs|] == rs;
  }

  /** The readback has proved this fixed register. */
  ghost predicate Proved(entry: Config, space: Config, f: nat)
    requires f < |FixedRegisters()|
  {
    AllInPage([FixedRegisters()[f]]) && Recovered(entry, space, [FixedRegisters()[f]])
  }

  lemma ProvedMeans(entry: Config, space: Config, f: nat)
    requires f < |FixedRegisters()|
    ensures AllInPage([FixedRegisters()[f]])
    ensures Proved(entry, space, f) <==> Recovered(entry, space, [FixedRegisters()[f]])
  {
  }

  lemma AllProved(entry: Config, space: Config)
    requires forall f :: 0 <= f < |FixedRegisters()| ==> Proved(entry, space, f)
    ensures Recovered(entry, space, FixedRegisters())
  {
    hide Recovered, FixedRegisters;
    forall f | 0 <= f < |FixedRegisters()|
      ensures AllInPage([FixedRegisters()[f]]) && Recovered(entry, space, [FixedRegisters()[f]])
    {
      assert Proved(entry, space, f);
    }
    RecoveredEach(entry, space, FixedRegisters());
  }

  lemma RestoreIs(entry: Config, space: Config, rs: seq<Register>)
    requires AllSound(rs)
    ensures AllInPage(RestoreOrder(rs)) && RestoreOrder(rs) == Reversed(rs) + FixedRegisters()
    ensures Restore(entry, space, rs) == WriteBack(entry, space, Reversed(rs) + FixedRegisters())
  {
    hide WriteBack, FixedRegisters;
    OrderInPage(rs);
  }

  /** After a restore without losses the fixed registers read as they were saved. */
  lemma FixedReadsBack(entry: Config, start: Config, rs: seq<Register>, f: nat)
    requires AllSound(rs) && f < |FixedRegisters()|
    ensures var r := FixedRegisters()[f];
      And(Restore(entry, start, rs).Read(r.bus, r.where, r.size), r.mask) == Capture(entry, r).saved
  {
    hide WriteBack, Config.Read, FixedRegisters;
    FixedComesBack(entry, start, rs, f);
  }

  /** A device that takes every write and answers every read is restored whole, and every readback agrees. */
  lemma PerfectRestores(d: Device, entry: Config, start: Config, rs: seq<Register>)
    requires AllSound(rs) && Perfect(d)
    ensures var order := RestoreOrder(rs);
      && AllInPage(order) && AllAgree(d, entry, start, order, |rs|)
      && WriteBackOn(d, entry, start, order, |order|) == Restore(entry, start, rs)
  {
    hide WriteBack, WriteBackOn, Config.Write, Config.Read, Capture, FixedRegisters, AllSound, Written, Reversed, Perfect;
    RestoreIs(entry, start, rs);
    OrderBuses(rs);
    var order := RestoreOrder(rs);
    PerfectWrites(d, entry, start, order, |order|);
    assert order[..|order|] == order;
    forall j | 0 <= j < |order| ensures Agreed(d, entry, start, order, |rs|, j) {
      Answered(d, j);
      if AtOnce(|rs|, j) {
        OneWritten(d, entry, start, order, j);
      } else {
        FixedReadsBack(entry, start, rs, j - |rs|);
        assert order[j] == FixedRegisters()[j - |rs|];
      }
    }
  }

  lemma Answered(d: Device, j: nat)
    requires Perfect(d)
    ensures d.answers(j) && d.takes(j)
  {
  }

  lemma OneWritten(d: Device, entry: Config, start: Config, rs: seq<Register>, j: nat)
    requires AllInPage(rs) && j < |rs| && d.answers(j) && d.takes(j) && rs[j].bus <= 1
    ensures Agrees(d, entry, WriteBackOn(d, entry, start, rs, j + 1), rs[j], j)
  {
    hide Config.Write, Config.Read, Capture;
    SavedReadsBack(entry, WriteBackOn(d, entry, start, rs, j), rs[j]);
  }

  lemma Controls(l: Layout, entry: Config, rs: seq<Register>, cs: seq<Control>)
    requires LayoutOf(entry, l) && rs == Registers(l) && AllSound(rs) && cs == CaptureAll(entry, rs)
    ensures LayoutInBounds(l) && cs == SavedControls(l, entry) && SoundControls(cs)
  {
    hide Describes, AwakeCaps, LayoutOfMsi, Registers;
  }

  lemma BindOnly(l: Layout, ops: seq<Op>, bind: bool)
    requires l.bind == bind && forall i :: 0 <= i < |ops| && ops[i].Activate? ==> bind
    ensures Admissible(l, ops)
  {
  }

  /** What the run, the restore and its readbacks make of a scan. */
  lemma Assemble(d: Device, entry: Config, l: Layout, ops: seq<Op>, run: State, after: Config, core: int, ret: int, ok: bool)
    requires Quiescent(entry) && LayoutOf(entry, l) && LayoutInBounds(l) && Admissible(l, ops) && AllSound(Registers(l))
    requires run == Run(SavedControls(l, entry), State(entry, false, false), ops)
    requires AllInPage(RestoreOrder(Registers(l))) && OnlyCovered(run.space, after, RestoreOrder(Registers(l)))
    requires ok ==> Recovered(entry, after, RestoreOrder(Registers(l)))
    requires var order := RestoreOrder(Registers(l));
      && after == WriteBackOn(d, entry, run.space, order, |order|)
      && (ok <==> AllAgree(d, entry, run.space, order, |Registers(l)|))
    requires ret == if ok && !run.rejected then core else EIO
    ensures Scanned(d, entry, l, ops, after, run.rejected, core, ret)
  {
    hide Quiescent, LayoutOf, LayoutInBounds, OnlyCovered, Recovered, Restored, Run, Restore, RestoreOrder, Registers, MastersClear,
         Refused, AllSound, Admissible, SavedControls, AllInPage, AllAgree, WriteBackOn, Perfect;
    ScanKeepsMasters(l, entry, ops);
    RejectionIsLatched(SavedControls(l, entry), State(entry, false, false), ops);
    if ok {
      RestoredDespiteLosses(l, entry, ops, after);
    }
    if Perfect(d) {
      PerfectRestores(d, entry, run.space, Registers(l));
    }
  }

  class ScanHost {
    const rc: array<bool>
    const ep: array<bool>
    const msi: bool
    const assign: bool
    const bind: bool
    /** Which writes of the restore are taken and which of its reads are answered, by their place in its order. */
    const device: Device
    const controls: array<Control>
    var nrControls: nat
    ghost var registers: seq<Register>
    var rejected: bool
    var active: bool

    predicate Shaped() {
      rc.Length == PAGE_BITS && ep.Length == PAGE_BITS && rc != ep && controls.Length == 26
    }

    predicate Valid()
      reads this`nrControls
    {
      Shaped() && nrControls <= 26
    }

    ghost function Space(): Config
      requires Shaped()
      reads rc, ep
    {
      Config(rc[..], ep[..])
    }

    ghost function Saved(): seq<Control>
      requires Valid()
      reads this`nrControls, controls
    {
      controls[..nrControls]
    }

    constructor (rc: array<bool>, ep: array<bool>, msi: bool, assign: bool, bind: bool, device: Device)
      requires rc.Length == PAGE_BITS && ep.Length == PAGE_BITS && rc != ep
      ensures Valid() && this.rc == rc && this.ep == ep && fresh(controls)
      ensures this.msi == msi && this.assign == assign && this.bind == bind && this.device == device
      ensures Saved() == [] && registers == [] && !rejected && !active
    {
      this.rc, this.ep := rc, ep;
      this.msi, this.assign, this.bind, this.device := msi, assign, bind, device;
      controls := new Control[26];
      nrControls, rejected, active, registers := 0, false, false, [];
    }

    method ReadRegister(bus: nat, where: nat, size: nat) returns (v: U32)
      requires Valid() && bus <= 1 && InPage(where, size)
      ensures v == Space().Read(bus, where, size)
    {
      var page := if bus == 0 then rc else ep;
      v := ReadPage(page[..], where, size);
    }

    method WriteRegister(bus: nat, where: nat, size: nat, v: U32)
      requires Valid() && bus <= 1 && InPage(where, size)
      modifies rc, ep
      ensures Space() == old(Space()).Write(bus, where, size, v)
    {
      var page := if bus == 0 then rc else ep;
      forall i | 0 <= i < 8 * size {
        page[8 * where + i] := v[i];
      }
      assert page[..] == WritePage(old(page[..]), where, size, v);
    }

    method SaveControl(r: Register)
      requires Valid() && nrControls < 26 && Sound(r)
      requires AllSound(registers) && Saved() == CaptureAll(Space(), registers)
      modifies this`nrControls, this`registers, controls
      ensures Valid() && nrControls == old(nrControls) + 1 && registers == old(registers) + [r]
      ensures AllSound(registers) && Saved() == CaptureAll(Space(), registers)
    {
      hide CaptureAll, Config.Read, And;
      var v := ReadRegister(r.bus, r.where, r.size);
      controls[nrControls] := Control(r, And(v, r.mask));
      nrControls := nrControls + 1;
      CaptureSnoc(Space(), registers, r);
      assert Saved() == old(Saved()) + [Capture(Space(), r)];
      registers := registers + [r];
    }

    /** Save these registers in order. */
    method SaveEach(rs: seq<Register>)
      requires Valid() && nrControls + |rs| <= 26 && AllSound(rs)
      requires AllSound(registers) && Saved() == CaptureAll(Space(), registers)
      modifies this`nrControls, this`registers, controls
      ensures Valid() && nrControls == old(nrControls) + |rs| && registers == old(registers) + rs
      ensures AllSound(registers) && Saved() == CaptureAll(Space(), registers)
      decreases |rs|
    {
      hide CaptureAll, Sound;
      if rs != [] {
        var n := |rs| - 1;
        SaveEach(rs[..n]);
        SaveControl(rs[n]);
        TakeOneMore(rs, n);
      }
    }

    /** Locate the three capabilities of one function that is in D0, and save their controls. It fails exactly if they
        are not there or the function is not in D0. */
    method SaveCaps(bus: nat) returns (ret: int, c: Caps)
      requires Valid() && bus <= 1 && nrControls <= 21
      requires AllSound(registers) && Saved() == CaptureAll(Space(), registers)
      modifies this`nrControls, this`registers, controls
      ensures Valid()
      ensures ret == 0 || ret == ENODEV || ret == EBUSY
      ensures ret == 0 ==> Located(Space().Page(bus), c) && AwakeCaps(Space().Page(bus), c)
      ensures ret == 0 ==> registers == old(registers) + CapRegisters(bus, c) && nrControls == old(nrControls) + 5
      ensures ret == ENODEV <==> !exists e :: Located(Space().Page(bus), e)
      ensures ret == 0 <==> exists e :: Located(Space().Page(bus), e) && AwakeCaps(Space().Page(bus), e)
      ensures AllSound(registers) && Saved() == CaptureAll(Space(), registers)
    {
      hide CapRegisters, AllSound, CaptureAll, AwakeCaps, Describes;
      ret, c := FindCaps(bus);
      if ret == 0 {
        forall e | Located(Space().Page(bus), e) ensures e == c {
          LocatedOnce(Space().Page(bus), e, c);
        }
        var awake := Awake(bus, c);
        if !awake {
          return EBUSY, c;
        }
        CapsSound(bus, c);
        SaveEach(CapRegisters(bus, c));
      }
    }

    method FindCaps(bus: nat) returns (ret: int, c: Caps)
      requires Valid() && bus <= 1
      ensures ret == 0 || ret == ENODEV
      ensures ret == 0 ==> Located(Space().Page(bus), c)
      ensures ret == 0 <==> exists e :: Located(Space().Page(bus), e)
    {
      hide FirstAt, ExtFirstAt, ExtMatch, Present, Legal, ExtLegal;
      var page := if bus == 0 then rc else ep;
      var cfg := BytesOf(page[..]);
      var pm := ScanCap(cfg, CAP_PM);
      var exp := ScanCap(cfg, CAP_EXPRESS);
      var l1ss := ScanExtCap(cfg, CAP_L1SS);
      if e :| Located(Space().Page(bus), e) {
        FirstIsPresent(cfg, CAP_PM, e.pm);
        FirstIsPresent(cfg, CAP_EXPRESS, e.exp);
        FirstIsOnly(cfg, CAP_EXPRESS, e.exp, exp);
        ExtFirstIsOnly(cfg, CAP_L1SS, e.l1ss, l1ss);
      }
      if pm < 0 || exp < 0 || l1ss < 0 || exp + 0x28 > 0xfe || l1ss + 0xc > 0xffc {
        return ENODEV, Caps(0, 0, 0);
      }
      assert FirstAt(cfg, CAP_PM, pm) && FirstAt(cfg, CAP_EXPRESS, exp) && ExtFirstAt(cfg, CAP_L1SS, l1ss);
      c := Caps(pm, exp, l1ss);
      assert Located(Space().Page(bus), c);
      return 0, c;
    }

    method Awake(bus: nat, c: Caps) returns (awake: bool)
      requires Valid() && bus <= 1 && CapsInBounds(c)
      ensures awake == AwakeCaps(Space().Page(bus), c)
    {
      var control := ReadRegister(bus, c.pm + 4, 2);
      awake := !control[0] && !control[1];
    }

    /** Locate the endpoint's MSI capability, see that MSI is off, and save its controls. */
    method SaveMsi() returns (ret: int, m: Msi)
      requires Valid() && nrControls <= 21
      requires AllSound(registers) && Saved() == CaptureAll(Space(), registers)
      modifies this`nrControls, this`registers, controls
      ensures Valid()
      ensures ret == 0 || ret == ENODEV || ret == EBUSY
      ensures ret == 0 ==> LayoutOfMsi(Space(), m)
      ensures ret == 0 <==> exists e :: LayoutOfMsi(Space(), e)
      ensures ret == 0 ==> registers == old(registers) + MsiRegisters(m) && nrControls <= old(nrControls) + 5
      ensures AllSound(registers) && Saved() == CaptureAll(Space(), registers)
    {
      hide MsiRegisters, AllSound, CaptureAll;
      ret, m := FindMsi();
      if ret == 0 {
        MsiSound(m);
        SaveEach(MsiRegisters(m));
      }
    }

    method FindMsi() returns (ret: int, m: Msi)
      requires Valid()
      ensures ret == 0 || ret == ENODEV || ret == EBUSY
      ensures ret == 0 ==> LayoutOfMsi(Space(), m)
      ensures ret == 0 <==> exists e :: LayoutOfMsi(Space(), e)
    {
      hide FirstAt, Present;
      m := Msi(0, false, false);
      var cfg := BytesOf(ep[..]);
      var cap := ScanCap(cfg, CAP_MSI);
      if e :| LayoutOfMsi(Space(), e) {
        FirstIsPresent(cfg, CAP_MSI, e.cap);
        FirstIsOnly(cfg, CAP_MSI, e.cap, cap);
      }
      if cap < 0 || cap > 0xe8 {
        return ENODEV, m;
      }
      var flags := ReadRegister(1, cap + 2, 2);
      if flags[0] {
        return EBUSY, m;
      }
      m := Msi(cap, flags[7], flags[8]);
      assert LayoutOfMsi(Space(), m);
      return 0, m;
    }

    /** Snapshot every control the run may touch, 26 at most. It fails exactly if something of it is not there. */
    method SaveControls() returns (ret: int, ghost l: Layout)
      requires Valid() && nrControls == 0 && registers == []
      modifies this`nrControls, this`registers, controls
      ensures Valid()
      ensures ret == 0 || ret == ENODEV || ret == EBUSY
      ensures ret == 0 ==> LayoutOf(Space(), l) && l.assign == assign && l.bind == bind && l.msi.Some? == msi
      ensures ret == 0 ==> registers == Registers(l)
      ensures ret == 0 <==> Scannable(Space(), msi)
      ensures AllSound(registers) && Saved() == CaptureAll(Space(), registers)
    {
      hide CapRegisters, MsiRegisters, WindowRegisters, FirmwareRegisters, Describes, LayoutOfMsi, AwakeCaps, ExtMatch,
           AllSound, CaptureAll, Located, LayoutOf, Scannable;
      ghost var space := Space();
      NothingCaptured(space);
      l := Layout(Caps(0, 0, 0), Caps(0, 0, 0), assign, None, bind);
      var root, endpoint;
      ScannableMeans(space, msi);
      ret, root := SaveCaps(0);
      if ret != 0 {
        return;
      }
      assert registers == CapRegisters(0, root);
      ret, endpoint := SaveCaps(1);
      if ret != 0 {
        return;
      }
      WindowsSound(assign);
      SaveEach(WindowRegisters(assign));
      l := Layout(root, endpoint, assign, None, bind);
      if msi {
        var m;
        ret, m := SaveMsi();
        if ret != 0 {
          return;
        }
        l := l.(msi := Some(m));
      }
      LayoutFound(space, l);
      if bind {
        FirmwareSound();
        SaveEach(FirmwareRegisters());
      }
    }

    /** The configuration write operation the Linux PCI core is given; `taken` says whether the device takes a write. */
    method ConfigWrite(bus: nat, devfn: nat, where: int, size: int, value: U32, taken: bool) returns (status: int)
      requires Valid() && SoundControls(Saved())
      modifies this`rejected, rc, ep
      ensures Valid() && Saved() == old(Saved())
      ensures State(Space(), rejected, active) ==
        Step(Saved(), old(State(Space(), rejected, active)), Write(bus, devfn, where, size, value, taken))
      ensures status == PCIBIOS_DEVICE_NOT_FOUND <==> !Exists(bus, devfn)
      ensures status == PCIBIOS_SUCCESSFUL <==>
        Exists(bus, devfn) && ConfigLaws.Permissible(Saved(), active, bus, where, size, value)
      ensures status == PCIBIOS_SET_FAILED <==>
        Exists(bus, devfn) && !ConfigLaws.Permissible(Saved(), active, bus, where, size, value)
      ensures status == PCIBIOS_SET_FAILED || !taken ==> Space() == old(Space())
    {
      hide AfterControls, BaseAllowed, Config.Write, ConfigLaws.Permissible;
      if !Exists(bus, devfn) {
        return PCIBIOS_DEVICE_NOT_FOUND;
      }
      var access := Decide(bus, where, size, value);
      ConfigLaws.AcceptedIff(Saved(), active, bus, where, size, value);
      AcceptedInPage(Saved(), active, bus, where, size, value);
      if access.None? {
        rejected := true;
        return PCIBIOS_SET_FAILED;
      }
      if taken {
        WriteRegister(bus, access.value.where, access.value.size, access.value.value);
      }
      return PCIBIOS_SUCCESSFUL;
    }

    /** The rules in the order they are applied. */
    method Decide(bus: nat, where: int, size: int, value: U32) returns (access: Option<Access>)
      requires Valid() && SoundControls(Saved())
      ensures access == Filter(Saved(), active, bus, where, size, value)
    {
      var size, value := size, value;
      ghost var asked, given := size, value;
      var base := BaseAllowed(active, bus, where, size, value);
      var allowed := base;
      for i := 0 to nrControls
        invariant allowed == AfterControls(Saved(), i, base, bus, where, size, value)
      {
        var control := controls[i];
        if control.reg.bus == bus && control.reg.where == where && control.reg.size == size {
          allowed := ControlAllows(control, value);
        }
      }
      if bus == 1 && active {
        if where == 0x80 && size == 4 {
          allowed := Number(value[..12]) == 0 && 0x18000000 <= Number(value) <= 0x1810f000;
        }
        if where == 0xbc && size == 4 {
          allowed := !value[LINK_DISABLE];
          size, value := 2, And(value, ALL16);
        }
        if where == 0x98 && size == 4 {
          allowed := Number(value) == 1;
        }
      }
      if bus == 0 && where == 0x1e && size == 2 && value == ALL16 {
        allowed := true;
      }
      return if allowed then Some(Access(where, size, value)) else None;
    }

    /** Write the saved value of register j back. */
    method WriteSaved(c: Control, j: nat, ghost entry: Config)
      requires Valid() && c.reg.bus <= 1 && InPage(c.reg.where, c.reg.size) && c == Capture(entry, c.reg)
      modifies rc, ep
      ensures Space() == if device.takes(j) then Written(entry, old(Space()), c.reg) else old(Space())
    {
      hide Config.Write, Capture;
      if device.takes(j) {
        WriteRegister(c.reg.bus, c.reg.where, c.reg.size, c.saved);
      }
    }

    /** Read register j back and compare it with what was saved. */
    method Check(c: Control, j: nat, ghost entry: Config) returns (ok: bool)
      requires Valid() && c.reg.bus <= 1 && InPage(c.reg.where, c.reg.size) && c == Capture(entry, c.reg)
      ensures ok == Agrees(device, entry, Space(), c.reg, j)
      ensures AllInPage([c.reg]) && (ok ==> Recovered(entry, Space(), [c.reg]))
    {
      hide Capture, Recovered, Config.Read, Dead;
      var observed := ReadRegister(c.reg.bus, c.reg.where, c.reg.size);
      if !device.answers(j) {
        observed := Dead(c.reg.size);
      }
      ok := And(observed, c.reg.mask) == c.saved;
      if ok {
        ReadbackProves(entry, Space(), c.reg, observed);
      }
    }

    /** Write one saved value back and read it again. */
    method PutBack(c: Control, j: nat, ghost entry: Config) returns (ok: bool)
      requires Valid() && c.reg.bus <= 1 && InPage(c.reg.where, c.reg.size) && c == Capture(entry, c.reg)
      modifies rc, ep
      ensures Space() == if device.takes(j) then Written(entry, old(Space()), c.reg) else old(Space())
      ensures ok == Agrees(device, entry, Space(), c.reg, j)
      ensures AllInPage([c.reg]) && (ok ==> Recovered(entry, Space(), [c.reg]))
    {
      hide Config.Write, Config.Read, Recovered, Agrees, Written;
      WriteSaved(c, j, entry);
      ok := Check(c, j, entry);
    }

    /** One more of the saved controls; `before` says whether all earlier ones agreed. */
    method PutBackNext(i: nat, before: bool, ghost entry: Config, ghost start: Config) returns (ok: bool)
      requires Valid() && i < nrControls && AllSound(registers) && Saved() == CaptureAll(entry, registers)
      requires AllInPage(RestoreOrder(registers))
      requires Progress(device, entry, start, Space(), RestoreOrder(registers), nrControls, nrControls - 1 - i, before)
      requires before ==> Recovered(entry, Space(), RestoreOrder(registers)[..nrControls - 1 - i])
      modifies rc, ep
      ensures Progress(device, entry, start, Space(), RestoreOrder(registers), nrControls, nrControls - i, ok)
      ensures ok ==> Recovered(entry, Space(), RestoreOrder(registers)[..nrControls - i])
    {
      hide Progress, Capture, CaptureAll, Config.Write, Config.Read, Recovered, Agrees, Written, FixedRegisters, OnlyCovered;
      var n := nrControls - 1 - i;
      ghost var order := RestoreOrder(registers);
      ghost var was := Space();
      assert order[n] == registers[i];
      CaptureAt(entry, registers, i);
      assert Saved()[i] == controls[i];
      ok := PutBack(controls[i], n, entry);
      ProgressMore(device, entry, start, was, Space(), order, nrControls, n, before, ok);
      WrittenStays(entry, was, order[n]);
      Unmoved(was, [order[n]]);
      TakeOneMore(order, n);
      if before && ok {
        RecoveredMore(entry, was, Space(), order[..n], [order[n]]);
      }
      ok := before && ok;
    }

    /** Every saved control in reverse, each read back at once. */
    method RestoreControls(ghost entry: Config) returns (ok: bool)
      requires Valid() && AllSound(registers) && Saved() == CaptureAll(entry, registers)
      requires AllInPage(RestoreOrder(registers))
      modifies rc, ep
      ensures Progress(device, entry, old(Space()), Space(), RestoreOrder(registers), nrControls, nrControls, ok)
      ensures ok ==> Recovered(entry, Space(), RestoreOrder(registers)[..nrControls])
    {
      hide Progress, Capture, CaptureAll, AllSound, Config.Write, Config.Read, Recovered, FixedRegisters, Reversed, Sound;
      ProgressNone(device, entry, Space(), RestoreOrder(registers), nrControls);
      ok := true;
      var i := nrControls;
      while i > 0
        invariant 0 <= i <= nrControls
        invariant Progress(device, entry, old(Space()), Space(), RestoreOrder(registers), nrControls, nrControls - i, ok)
        invariant ok ==> Recovered(entry, Space(), RestoreOrder(registers)[..nrControls - i])
      {
        i := i - 1;
        ok := PutBackNext(i, ok, entry, old(Space()));
      }
    }

    /** The command, address and bus number registers, read before the run. */
    method SnapshotFixed() returns (fixed: seq<Control>)
      requires Valid()
      ensures fixed == CaptureAll(Space(), FixedRegisters())
    {
      fixed := SnapshotEach(FixedRegisters());
    }

    method SnapshotEach(rs: seq<Register>) returns (cs: seq<Control>)
      requires Valid() && AllInPage(rs) && forall i :: 0 <= i < |rs| ==> rs[i].bus <= 1
      ensures cs == CaptureAll(Space(), rs)
    {
      cs := [];
      ghost var space := Space();
      for i := 0 to |rs|
        invariant cs == CaptureAll(space, rs[..i])
      {
        var v := ReadRegister(rs[i].bus, rs[i].where, rs[i].size);
        CaptureSnoc(space, rs[..i], rs[i]);
        TakeOneMore(rs, i);
        cs := cs + [Control(rs[i], And(v, rs[i].mask))];
      }
      assert rs[..|rs|] == rs;
    }

    /** Write the fixed registers back in order; base addresses are read back at once, the others at the end. */
    method RestoreFixed(fixed: seq<Control>, controlsFine: bool, ghost entry: Config, ghost start: Config) returns (ok: bool)
      requires Valid() && fixed == CaptureAll(entry, FixedRegisters())
      requires AllInPage(RestoreOrder(registers)) && |registers| == nrControls
      requires Progress(device, entry, start, Space(), RestoreOrder(registers), nrControls, nrControls, controlsFine)
      modifies rc, ep
      ensures OnlyCovered(old(Space()), Space(), FixedRegisters())
      ensures ok ==> forall f :: 0 <= f < |fixed| && ReadAtOnce(f) ==> Proved(entry, Space(), f)
      ensures Progress(device, entry, start, Space(), RestoreOrder(registers), nrControls, |RestoreOrder(registers)|, ok)
      ensures ok ==> controlsFine
    {
      hide Capture, CaptureAll, Config.Write, Config.Read, OnlyCovered, Proved, FixedRegisters, Progress, Reversed;
      ghost var order := FixedRegisters();
      NothingToRecover(entry, Space());
      ok := controlsFine;
      assert order[..0] == [];
      for i := 0 to |fixed|
        invariant OnlyCovered(old(Space()), Space(), order[..i]) && (ok ==> controlsFine)
        invariant ok ==> forall f :: 0 <= f < i && ReadAtOnce(f) ==> Proved(entry, Space(), f)
        invariant Progress(device, entry, start, Space(), RestoreOrder(registers), nrControls, nrControls + i, ok)
      {
        ok := RestoreOne(fixed, entry, i, old(Space()), start, ok);
      }
      assert order[..|fixed|] == order;
    }

    /** One of them. */
    method RestoreOne(fixed: seq<Control>, ghost entry: Config, i: nat, ghost middle: Config, ghost start: Config, before: bool)
      returns (ok: bool)
      requires Valid() && fixed == CaptureAll(entry, FixedRegisters()) && i < |fixed|
      requires AllInPage(RestoreOrder(registers)) && |registers| == nrControls
      requires Progress(device, entry, start, Space(), RestoreOrder(registers), nrControls, nrControls + i, before)
      requires OnlyCovered(middle, Space(), FixedRegisters()[..i])
      requires before ==> forall f :: 0 <= f < i && ReadAtOnce(f) ==> Proved(entry, Space(), f)
      modifies rc, ep
      ensures OnlyCovered(middle, Space(), FixedRegisters()[..i + 1]) && (ok ==> before)
      ensures ok ==> forall f :: 0 <= f < i + 1 && ReadAtOnce(f) ==> Proved(entry, Space(), f)
      ensures Progress(device, entry, start, Space(), RestoreOrder(registers), nrControls, nrControls + i + 1, ok)
    {
      hide Capture, CaptureAll, Config.Write, Config.Read, OnlyCovered, Proved, Recovered, FixedRegisters, Progress, Written, Agrees,
           Reversed;
      var n := nrControls + i;
      ghost var was, order, all := Space(), FixedRegisters(), RestoreOrder(registers);
      assert all[n] == order[i];
      FixedPlaces(i);
      CaptureAt(entry, order, i);
      ok := true;
      if ReadAtOnce(i) {
        ok := PutBack(fixed[i], n, entry);
        ProvedMeans(entry, Space(), i);
      } else {
        WriteSaved(fixed[i], n, entry);
      }
      ProgressMore(device, entry, start, was, Space(), all, nrControls, n, before, ok);
      WrittenStays(entry, was, order[i]);
      Unmoved(was, [order[i]]);
      TakeOneMore(order, i);
      OnlyCoveredMore(middle, was, Space(), order[..i], [order[i]]);
      if before {
        forall f | 0 <= f < i && ReadAtOnce(f) ensures Proved(entry, Space(), f) {
          FixedApart(f, i);
          ProvedMeans(entry, was, f);
          ProvedMeans(entry, Space(), f);
          RecoveredApart(entry, was, Space(), order[f], order[i]);
        }
      }
      ok := before && ok;
    }

    /** The final comparison of the fixed registers that have not been read back. */
    method VerifyFixed(fixed: seq<Control>, ghost entry: Config) returns (ok: bool)
      requires Valid() && fixed == CaptureAll(entry, FixedRegisters())
      ensures ok ==> forall f :: 0 <= f < |fixed| && !ReadAtOnce(f) ==> Proved(entry, Space(), f)
      ensures AllInPage(FixedRegisters())
      ensures ok <==> forall f :: 0 <= f < |fixed| && !ReadAtOnce(f) ==>
        Agrees(device, entry, Space(), FixedRegisters()[f], nrControls + f)
    {
      hide Capture, CaptureAll, Config.Read, Recovered, Proved, FixedRegisters, Agrees;
      ok := true;
      for i := 0 to |fixed|
        invariant ok ==> forall f :: 0 <= f < i && !ReadAtOnce(f) ==> Proved(entry, Space(), f)
        invariant ok <==> forall f :: 0 <= f < i && !ReadAtOnce(f) ==>
          Agrees(device, entry, Space(), FixedRegisters()[f], nrControls + f)
      {
        if !ReadAtOnce(i) {
          FixedPlaces(i);
          var c := fixed[i];
          CaptureAt(entry, FixedRegisters(), i);
          var fine := Check(c, nrControls + i, entry);
          ProvedMeans(entry, Space(), i);
          ok := ok && fine;
        }
      }
    }

    /** The writes of the PCI core and the driver, one after the other. */
    method Drive(ops: seq<Op>)
      requires Valid() && SoundControls(Saved())
      requires forall i :: 0 <= i < |ops| && ops[i].Activate? ==> bind
      modifies this`rejected, this`active, rc, ep
      ensures Valid() && Saved() == old(Saved())
      ensures State(Space(), rejected, active) == Run(Saved(), old(State(Space(), rejected, active)), ops)
    {
      if ops != [] {
        var n := |ops| - 1;
        Drive(ops[..n]);
        match ops[n] {
          case Activate =>
            active := true;
          case Write(bus, devfn, where, size, value, taken) =>
            var status := ConfigWrite(bus, devfn, where, size, value, taken);
        }
      }
    }

    /** The identities and the quiet state that are demanded before anything is saved. */
    method EntryChecks() returns (ok: bool)
      requires Valid()
      ensures ok == Quiescent(Space())
    {
      var rcId := ReadRegister(0, 0, 4);
      var epId := ReadRegister(1, 0, 4);
      var rcCommand := ReadRegister(0, 4, 2);
      var epCommand := ReadRegister(1, 4, 2);
      var control := ReadRegister(0, 0x3e, 2);
      var buses := ReadRegister(0, 0x18, 4);
      var rcRom := ReadRegister(0, 0x38, 4);
      var epRom := ReadRegister(1, 0x30, 4);
      ok := Number(rcId) == 0x1002106b && Number(epId) == 0x43a314e4
        && rcCommand == ZERO && epCommand == ZERO
        && Number(buses[..24]) == 0x010100 && !control[BUS_RESET]
        && !rcRom[ROM_ENABLE] && !epRom[ROM_ENABLE];
    }

    /** Write everything back, and report what the readbacks show. */
    method RestoreAll(fixed: seq<Control>, ghost entry: Config) returns (ok: bool)
      requires Valid() && AllSound(registers) && Saved() == CaptureAll(entry, registers)
      requires fixed == CaptureAll(entry, FixedRegisters())
      modifies rc, ep
      ensures AllInPage(RestoreOrder(registers)) && OnlyCovered(old(Space()), Space(), RestoreOrder(registers))
      ensures ok ==> Recovered(entry, Space(), RestoreOrder(registers))
      ensures var order := RestoreOrder(registers);
        && Space() == WriteBackOn(device, entry, old(Space()), order, |order|)
        && (ok <==> AllAgree(device, entry, old(Space()), order, |registers|))
    {
      hide Capture, CaptureAll, Config.Write, Config.Read, OnlyCovered, Recovered, Proved, FixedRegisters, AllSound, Reversed, Progress,
           WriteBackOn, Agrees, AllAgree;
      ghost var order := RestoreOrder(registers);
      OrderInPage(registers);
      var fine := RestoreControls(entry);
      ghost var middle := Space();
      fine := RestoreFixed(fixed, fine, entry, old(Space()));
      ProgressMeans(device, entry, old(Space()), Space(), order, nrControls, |order|, fine);
      var verified := VerifyFixed(fixed, entry);
      ok := fine && verified;
      TwoKinds(device, entry, old(Space()), Space(), registers, fine, verified);
      if ok {
        AllProved(entry, Space());
        assert order[..nrControls] == Reversed(registers);
        StillRecovered(entry, middle, Space(), registers, fine);
      }
    }

    /** The part of a scan between saving and returning. */
    method RunAndRestore(ops: seq<Op>, core: int, fixed: seq<Control>, ghost l: Layout, ghost entry: Config)
      returns (ret: int)
      requires Valid() && !rejected && !active && Space() == entry
      requires Quiescent(entry) && LayoutOf(entry, l) && registers == Registers(l) && AllSound(registers) && l.bind == bind
      requires Saved() == CaptureAll(entry, registers) && fixed == CaptureAll(entry, FixedRegisters())
      requires forall i :: 0 <= i < |ops| && ops[i].Activate? ==> bind
      modifies this`rejected, this`active, rc, ep
      ensures Valid()
      ensures Scanned(device, entry, l, ops, Space(), rejected, core, ret)
    {
      hide *;
      Controls(l, entry, registers, Saved());
      BindOnly(l, ops, bind);
      Drive(ops);
      ghost var run := Space();
      var ok := RestoreAll(fixed, entry);
      ret := if ok && !rejected then core else EIO;
      Assemble(device, entry, l, ops, State(run, rejected, active), Space(), core, ret, ok);
    }

    /** Everything before the bridge is scanned: checks and snapshots, no write. It succeeds exactly in a quiet state in
        which everything to be saved is found. */
    method Prepare(start: int) returns (ret: int, fixed: seq<Control>, ghost l: Layout)
      requires Valid() && nrControls == 0 && registers == []
      modifies this`nrControls, this`registers, controls
      ensures Valid() && AllSound(registers) && Saved() == CaptureAll(Space(), registers)
      ensures fixed == CaptureAll(Space(), FixedRegisters())
      ensures ret == 0 ==> LayoutOf(Space(), l) && registers == Registers(l) && l.bind == bind && l.msi.Some? == msi
      ensures ret == 0 <==> Quiescent(Space()) && Scannable(Space(), msi) && start == 0
    {
      hide Quiescent, LayoutOf, Scannable, AllSound, CaptureAll, Registers, FixedRegisters;
      var ok := EntryChecks();
      fixed := SnapshotFixed();
      ret, l := SaveControls();
      if !ok {
        ret := EBUSY;
      } else if ret == 0 {
        ret := start;
      }
    }

    /** One scan. `start` is what setting up the bridge reports and `core` what enumeration, identification
        and the firmware stage report before anything is restored; `ops` are the writes in between. */
    method Scan(ops: seq<Op>, start: int, core: int) returns (ret: int, ran: bool, ghost l: Layout)
      requires Valid() && nrControls == 0 && registers == [] && !rejected && !active
      requires forall i :: 0 <= i < |ops| && ops[i].Activate? ==> bind
      modifies this`nrControls, this`registers, this`rejected, this`active, controls, rc, ep
      ensures Valid()
      ensures ran <==> Quiescent(old(Space())) && Scannable(old(Space()), msi) && start == 0
      ensures if ran then Scanned(device, old(Space()), l, ops, Space(), rejected, core, ret)
              else ret != 0 && Space() == old(Space())
    {
      hide Quiescent, Scannable, LayoutOf, Scanned, AllSound, CaptureAll, Registers, FixedRegisters;
      var fixed;
      ret, fixed, l := Prepare(start);
      ran := ret == 0;
      if ran {
        ret := RunAndRestore(ops, core, fixed, l, Space());
      }
    }
  }

  lemma TwoKinds(d: Device, entry: Config, start: Config, now: Config, rs: seq<Register>, fine: bool, verified: bool)
    requires AllInPage(RestoreOrder(rs)) && AllInPage(FixedRegisters())
    requires var order := RestoreOrder(rs); now == WriteBackOn(d, entry, start, order, |order|)
    requires var order := RestoreOrder(rs);
      fine <==> forall j :: 0 <= j < |order| && AtOnce(|rs|, j) ==> Agreed(d, entry, start, order, |rs|, j)
    requires verified <==> forall f :: 0 <= f < |FixedRegisters()| && !ReadAtOnce(f) ==>
      Agrees(d, entry, now, FixedRegisters()[f], |rs| + f)
    ensures fine && verified <==> AllAgree(d, entry, start, RestoreOrder(rs), |rs|)
  {
    hide Agrees, WriteBackOn, FixedRegisters, Reversed;
    var order := RestoreOrder(rs);
    forall f | 0 <= f < |FixedRegisters()| && !ReadAtOnce(f)
      ensures Agrees(d, entry, now, FixedRegisters()[f], |rs| + f) <==> Agreed(d, entry, start, order, |rs|, |rs| + f)
    {
      assert order[|rs| + f] == FixedRegisters()[f];
    }
    if fine && verified {
      forall j | 0 <= j < |order| ensures Agreed(d, entry, start, order, |rs|, j) {
        if !AtOnce(|rs|, j) {
          assert Agrees(d, entry, now, FixedRegisters()[j - |rs|], |rs| + (j - |rs|));
        }
      }
    }
  }

  /** The saved controls stay recovered while the fixed registers are written, which share no bit with them. */
  lemma StillRecovered(entry: Config, middle: Config, now: Config, rs: seq<Register>, fine: bool)
    requires AllInPage(RestoreOrder(rs)) && AllInPage(Reversed(rs)) && AllInPage(FixedRegisters())
    requires Recovered(entry, middle, Reversed(rs)) && OnlyCovered(middle, now, FixedRegisters())
    requires Recovered(entry, now, FixedRegisters())
    ensures Recovered(entry, now, RestoreOrder(rs))
  {
    hide Recovered, OnlyCovered, FixedRegisters, Reversed;
    RecoveredMore(entry, middle, now, Reversed(rs), FixedRegisters());
  }
}
