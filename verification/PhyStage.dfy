/** The PHY lifetime and what runs inside it (a1625_pcie_phy.h, lines 47-176; a1625_pcie_domains.c, lines 498-530). */
module PhyStage {
  import opened ConfigSpace
  import opened Errno
  import opened BoardState
  import opened ProbeOptions
  import DartLifetime
  import MsiPort
  import PhySteps
  import RadioStage

  /** With scan_iommu and scan_msi a PCI host is only opened while the DART device and the MSI domain are live: they
      stay among the layers that were live at every opening. */
  ghost predicate Sheltered(o: Options, before: set<Layer>, after: set<Layer>) {
    (o.scanIommu && Dart in before ==> Dart in after) && (o.scanMsi && MsiDomain in before ==> MsiDomain in after)
  }

  /** The inner hardware as every stage wants to find it. */
  predicate AtRest(hw: Hardware) {
    && RadioStage.RadioReady(hw, true) && hw.msiControl == 0 && hw.msiBase == 0 && !hw.dartNode
  }

  function ProbeMarks(o: Options): set<Milestone> {
    (if o.probeMsi then MsiPort.MsiMarks(o, false) else {})
    + if o.probeDart then DartLifetime.DartMarks(o, if o.mapDart then DartLifetime.MapPage else DartLifetime.Nothing) else {}
  }

  function ScanMarks(o: Options): set<Milestone> {
    if o.scanMsi then MsiPort.MsiMarks(o, true)
    else if o.scanIommu then DartLifetime.DartMarks(o, DartLifetime.PowerRadio)
    else if o.pulseRadio then RadioStage.RadioMarks(o)
    else {}
  }

  /** The milestones of the PHY lifetime with these options. */
  function PhyMarks(o: Options): set<Milestone> {
    (if o.preparePort then {Opened(Phy)} else {}) + ProbeMarks(o) + ScanMarks(o)
  }

  lemma RestIsReady(hw: Hardware, o: Options)
    requires Accepted(o) && AtRest(hw)
    ensures MsiPort.MsiReady(hw, o, false) && RadioStage.Tellable(hw.ltssm)
    ensures o.scanMsi ==> MsiPort.MsiReady(hw, o, true)
    ensures !o.scanMsi ==> DartLifetime.InsideReady(hw, o, DartLifetime.PowerRadio, false)
    ensures !o.scanIommu ==> RadioStage.Published(o, false, false) && RadioStage.RadioReady(hw, false)
  {
  }

  /** Everything that may run on the prepared PHY, in order, each stage only after success. */
  method ReadyPhy(b: Board, o: Options) returns (ret: int)
    requires b.Valid() && Accepted(o) && Below(b.open, MsiDomain) && !b.scanDart && !b.scanMsi
    requires (o.preparePort ==> Phy in b.open) && MsiControl !in b.owed && MsiBase !in b.owed
    modifies b`hw, b`writes, b`open, b`trace, b`lost, b`around, b`owed, b`reached, b`scanDart, b`scanMsi
    ensures b.Valid() && b.open == old(b.open) && b.owed == old(b.owed) && !b.scanDart && !b.scanMsi
    ensures b.hw == old(b.hw).(ltssm := b.hw.ltssm, buses := b.hw.buses, hostNode := b.hw.hostNode, perst := b.hw.perst,
                               radio := b.hw.radio, dartNode := b.hw.dartNode, msiControl := b.hw.msiControl, msiBase := b.hw.msiBase)
    ensures ret == 0 || !o.preparePort || (Orderly(b.env) && RadioStage.Tellable(old(b.hw.ltssm))) ==> b.hw == old(b.hw)
    ensures ret == 0 ==> b.lost == old(b.lost)
    ensures Sheltered(o, old(b.around), b.around)
    ensures RadioStage.Came(old(b.reached), b.reached, ProbeMarks(o) + ScanMarks(o), ret)
    ensures Flawless(b.env) && AtRest(old(b.hw)) ==> ret == 0
  {
    hide Replay, PowerAfter, Requested, ResetAfter, Board.Valid, Accepted, AtRest, ProbeMarks, ScanMarks, RadioStage.Tellable;
    ScansNest(o);
    ret := 0;
    if o.inspectRc {
      ret := Call(b.env);
    }
    if ret == 0 && o.inspectDart {
      ret := Call(b.env);
    }
    if ret == 0 {
      ret := Probes(b, o);
    }
    if ret == 0 {
      ret := Scans(b, o);
    }
  }

  /** The standalone probes, which never bring up a PCI host. */
  method Probes(b: Board, o: Options) returns (ret: int)
    requires b.Valid() && Accepted(o) && Below(b.open, MsiDomain) && !b.scanDart && !b.scanMsi
    requires (o.preparePort ==> Phy in b.open) && MsiControl !in b.owed && MsiBase !in b.owed
    modifies b`hw, b`writes, b`open, b`trace, b`lost, b`around, b`owed, b`reached, b`scanDart, b`scanMsi
    ensures b.Valid() && b.open == old(b.open) && b.owed == old(b.owed) && !b.scanDart && !b.scanMsi
    ensures b.hw == old(b.hw).(ltssm := b.hw.ltssm, buses := b.hw.buses, hostNode := b.hw.hostNode, perst := b.hw.perst,
                               radio := b.hw.radio, dartNode := b.hw.dartNode, msiControl := b.hw.msiControl, msiBase := b.hw.msiBase)
    ensures ret == 0 || !o.preparePort || (Orderly(b.env) && RadioStage.Tellable(old(b.hw.ltssm))) ==> b.hw == old(b.hw)
    ensures ret == 0 ==> b.lost == old(b.lost)
    ensures o.scanIommu ==> b.around == old(b.around)
    ensures RadioStage.Came(old(b.reached), b.reached, ProbeMarks(o), ret)
    ensures Flawless(b.env) && AtRest(old(b.hw)) ==> ret == 0
  {
    hide Replay, PowerAfter, Requested, ResetAfter, Board.Valid, Accepted, StillAround, AtRest, MsiPort.MsiMarks, DartLifetime.DartMarks,
         MsiPort.MsiReady, RadioStage.Tellable, Below;
    FirmwareBringsEverything(o);
    if AtRest(b.hw) {
      RestIsReady(b.hw, o);
      NoDartYet(b.hw, o);
    }
    DartAbove(b.open);
    ret := 0;
    if o.probeMsi {
      var msi;
      ret, msi := MsiPort.WithMsi(b, o, false);
    }
    if ret == 0 && o.probeDart {
      ret := DartLifetime.WithDart(b, o, if o.mapDart then DartLifetime.MapPage else DartLifetime.Nothing);
    }
    if ret == 0 && o.probeDart {
      ret := Call(b.env);
    }
  }

  lemma NoDartYet(hw: Hardware, o: Options)
    requires AtRest(hw)
    ensures !hw.dartNode
    ensures DartLifetime.InsideReady(hw, o, DartLifetime.MapPage, false) && DartLifetime.InsideReady(hw, o, DartLifetime.Nothing, false)
  {
  }

  lemma DartAbove(stack: seq<Layer>)
    requires Below(stack, MsiDomain)
    ensures Below(stack, Dart) && Below(stack, Radio)
  {
  }

  /** The radio pulse, inside what the PCI scan is to have. */
  method Scans(b: Board, o: Options) returns (ret: int)
    requires b.Valid() && Accepted(o) && Below(b.open, MsiDomain) && !b.scanDart && !b.scanMsi
    requires (o.preparePort ==> Phy in b.open) && MsiControl !in b.owed && MsiBase !in b.owed
    modifies b`hw, b`writes, b`open, b`trace, b`lost, b`around, b`owed, b`reached, b`scanDart, b`scanMsi
    ensures b.Valid() && b.open == old(b.open) && b.owed == old(b.owed) && !b.scanDart && !b.scanMsi
    ensures b.hw == old(b.hw).(ltssm := b.hw.ltssm, buses := b.hw.buses, hostNode := b.hw.hostNode, perst := b.hw.perst,
                               radio := b.hw.radio, dartNode := b.hw.dartNode, msiControl := b.hw.msiControl, msiBase := b.hw.msiBase)
    ensures ret == 0 || !o.preparePort || (Orderly(b.env) && RadioStage.Tellable(old(b.hw.ltssm))) ==> b.hw == old(b.hw)
    ensures ret == 0 ==> b.lost == old(b.lost)
    ensures Sheltered(o, old(b.around), b.around)
    ensures RadioStage.Came(old(b.reached), b.reached, ScanMarks(o), ret)
    ensures Flawless(b.env) && AtRest(old(b.hw)) ==> ret == 0
  {
    hide Replay, PowerAfter, Requested, ResetAfter, Board.Valid, Accepted, AtRest, MsiPort.MsiMarks, DartLifetime.DartMarks,
         RadioStage.RadioMarks, MsiPort.MsiReady, DartLifetime.InsideReady, RadioStage.RadioReady, RadioStage.Tellable, Below,
         RadioStage.Published;
    FirmwareBringsEverything(o);
    ScansNest(o);
    if AtRest(b.hw) {
      RestIsReady(b.hw, o);
      NoDartYet(b.hw, o);
    }
    DartAbove(b.open);
    ret := 0;
    if o.scanMsi {
      var msi;
      ret, msi := MsiPort.WithMsi(b, o, true);
    }
    if ret == 0 && o.scanIommu && !o.scanMsi {
      ret := DartLifetime.WithDart(b, o, DartLifetime.PowerRadio);
    }
    if ret == 0 && o.scanIommu {
      ret := Call(b.env);
    }
    if ret == 0 && o.pulseRadio && !o.scanIommu {
      ret := RadioStage.Pulse(b, o, true);
    }
  }

  lemma ScansNest(o: Options)
    requires Accepted(o)
    ensures o.scanMsi ==> o.scanIommu
  {
  }

  /** Every step of the preparation these options ask for finds its register different from all ones, and leaves it so. */
  ghost predicate CoreVisible(bank: PhySteps.Bank, o: Options) {
    PhySteps.ProgramWellFormed(o.inspectPrefix, o.testRefclk);
    PhySteps.Visible(bank, PhySteps.Program(o.inspectPrefix, o.testRefclk))
  }

  /** Prepare the PHY, run what the options ask for, and roll the PHY back. A result of 0 means that the whole
      register bank is as it was. */
  method WithPhy(b: Board, o: Options) returns (ret: int)
    requires b.Valid() && Accepted(o) && Below(b.open, Phy) && Domain(2) in b.open && !b.scanDart && !b.scanMsi
    modifies b`hw, b`writes, b`open, b`trace, b`lost, b`around, b`owed, b`reached, b`scanDart, b`scanMsi, b.bank
    ensures b.Valid() && b.open == old(b.open) && b.owed == old(b.owed) && !b.scanDart && !b.scanMsi
    ensures b.hw == old(b.hw).(ltssm := b.hw.ltssm, buses := b.hw.buses, hostNode := b.hw.hostNode, perst := b.hw.perst,
                               radio := b.hw.radio, dartNode := b.hw.dartNode, msiControl := b.hw.msiControl, msiBase := b.hw.msiBase)
    ensures ret == 0 || !o.preparePort ==> b.hw == old(b.hw) && b.bank[..] == old(b.bank[..])
    ensures Orderly(b.env) && RadioStage.Tellable(old(b.hw.ltssm)) ==> b.hw == old(b.hw)
    ensures b.bank.Length == PhySteps.WORDS
    ensures Orderly(b.env) && CoreVisible(old(b.bank[..]), o) ==> b.bank[..] == old(b.bank[..])
    ensures ret == 0 ==> b.lost == old(b.lost)
    ensures Sheltered(o, old(b.around), b.around)
    ensures RadioStage.Came(old(b.reached), b.reached, PhyMarks(o), ret)
    ensures (Flawless(b.env) && AtRest(old(b.hw)) && CoreVisible(old(b.bank[..]), o)) ==> ret == 0
    ensures o.preparePort && old(b.hw.radio) != 0 ==>
      ret != 0 && b.hw == old(b.hw) && b.bank[..] == old(b.bank[..]) && b.reached == old(b.reached)
  {
    hide Replay, PowerAfter, Requested, ResetAfter, Accepted, AroundHosts, OwedIn, ReachedIn, Below, Supported, Sheltered, ProbeMarks,
         ScanMarks, AtRest, CoreVisible, RadioStage.Tellable;
    SameShelter(o, b.around);
    NothingOwedYet(b);
    ret := Call(b.env);
    if ret != 0 {
      return;
    }
    if o.preparePort {
      OffAtRest(b.hw);
      ret := RadioIsOff(b);
      if ret == 0 {
        ret := Prepared(b, o);
      }
    } else {
      MsiAbove(b.open);
      ret := Call(b.env);
      if ret == 0 {
        ret := ReadyPhy(b, o);
      }
    }
  }

  lemma NothingOwedYet(b: Board)
    requires b.Valid() && Below(b.open, Phy)
    ensures MsiControl !in b.owed && MsiBase !in b.owed && Free(b.owed, Phy)
  {
    hide Replay, OwedIn;
    assert Phy !in b.open;
    NothingOwed(b.trace, Phy);
  }

  lemma OffAtRest(hw: Hardware)
    ensures AtRest(hw) ==> hw.radio == 0
  {
  }

  lemma MsiAbove(stack: seq<Layer>)
    requires Below(stack, Phy)
    ensures Below(stack, MsiDomain)
  {
  }

  /** radio_is_off. */
  method RadioIsOff(b: Board) returns (ret: int)
    requires b.Valid()
    modifies b`trace
    ensures b.Valid() && (ret == 0 ==> b.hw.radio == 0)
    ensures b.env.responsive && b.hw.radio == 0 ==> ret == 0
  {
    hide Replay, PowerAfter, Requested, ResetAfter, Board.Valid;
    var value;
    ret, value := RegmapRead(b.env, b.hw.radio);
    if ret == 0 {
      b.Note(PowerRead(value));
      if value != 0 {
        ret := EBUSY;
      }
    }
  }

  /** The steps, the callback, and the rollback, which follows whatever failed. */
  method Prepared(b: Board, o: Options) returns (ret: int)
    requires b.Valid() && Accepted(o) && o.preparePort && Below(b.open, Phy) && Domain(2) in b.open && !b.scanDart && !b.scanMsi
    requires MsiControl !in b.owed && MsiBase !in b.owed && Free(b.owed, Phy)
    modifies b`hw, b`writes, b`open, b`trace, b`lost, b`around, b`owed, b`reached, b`scanDart, b`scanMsi, b.bank
    ensures b.Valid() && b.open == old(b.open) && b.owed == old(b.owed) && !b.scanDart && !b.scanMsi
    ensures b.hw == old(b.hw).(ltssm := b.hw.ltssm, buses := b.hw.buses, hostNode := b.hw.hostNode, perst := b.hw.perst,
                               radio := b.hw.radio, dartNode := b.hw.dartNode, msiControl := b.hw.msiControl, msiBase := b.hw.msiBase)
    ensures ret == 0 ==> b.hw == old(b.hw) && b.bank[..] == old(b.bank[..])
    ensures Orderly(b.env) && RadioStage.Tellable(old(b.hw.ltssm)) ==> b.hw == old(b.hw)
    ensures b.bank.Length == PhySteps.WORDS
    ensures Orderly(b.env) && CoreVisible(old(b.bank[..]), o) ==> b.bank[..] == old(b.bank[..])
    ensures ret == 0 ==> b.lost == old(b.lost)
    ensures Sheltered(o, old(b.around), b.around)
    ensures RadioStage.Came(old(b.reached), b.reached, PhyMarks(o), ret)
    ensures (Flawless(b.env) && AtRest(old(b.hw)) && CoreVisible(old(b.bank[..]), o)) ==> ret == 0
  {
    hide Replay, PowerAfter, Requested, ResetAfter, Accepted, Below, Supported, Sheltered, AroundHosts, OwedIn, ReachedIn, Free,
         ProbeMarks, ScanMarks, AtRest, RadioStage.Tellable, Perfect,
         PhySteps.Unwind, PhySteps.WellFormed, PhySteps.Table, PhySteps.Program, PhySteps.Visible, PhySteps.Legible, PhySteps.Set,
         PhySteps.Forward, PhySteps.StopsWhenDead, PhySteps.AllAnswer;
    SameShelter(o, b.around);
    ghost var before, p := b.bank[..], PhySteps.Program(o.inspectPrefix, o.testRefclk);
    var core := new PhySteps.Core(b.bank, b.env.core);
    ret := core.Prepare(o.inspectPrefix, o.testRefclk);
    if ret == 0 {
      PhySteps.PreparedLegibly(core, before, 0, p);
      ret := InPhy(b, o);
    }
    b.Note(WriteBack(Phy));
    var rollback := core.Rollback();
    if rollback != 0 {
      ret := EIO;
    }
  }

  lemma SameShelter(o: Options, around: set<Layer>)
    ensures Sheltered(o, around, around)
  {
  }

  /** From the prepared PHY to its rollback. */
  method InPhy(b: Board, o: Options) returns (ret: int)
    requires b.Valid() && Accepted(o) && Below(b.open, Phy) && Domain(2) in b.open && !b.scanDart && !b.scanMsi
    requires o.preparePort && MsiControl !in b.owed && MsiBase !in b.owed && Free(b.owed, Phy)
    modifies b`hw, b`writes, b`open, b`trace, b`lost, b`around, b`owed, b`reached, b`scanDart, b`scanMsi
    ensures b.Valid() && b.open == old(b.open) && b.owed == old(b.owed) && !b.scanDart && !b.scanMsi
    ensures b.hw == old(b.hw).(ltssm := b.hw.ltssm, buses := b.hw.buses, hostNode := b.hw.hostNode, perst := b.hw.perst,
                               radio := b.hw.radio, dartNode := b.hw.dartNode, msiControl := b.hw.msiControl, msiBase := b.hw.msiBase)
    ensures ret == 0 || (Orderly(b.env) && RadioStage.Tellable(old(b.hw.ltssm))) ==> b.hw == old(b.hw)
    ensures ret == 0 ==> b.lost == old(b.lost)
    ensures Sheltered(o, old(b.around), b.around)
    ensures RadioStage.Came(old(b.reached), b.reached, PhyMarks(o), ret)
    ensures Flawless(b.env) && AtRest(old(b.hw)) ==> ret == 0
  {
    hide Replay, PowerAfter, Requested, ResetAfter, Accepted, Board.Valid, Sheltered, Free, ProbeMarks, ScanMarks, AtRest, RadioStage.Tellable;
    SameShelter(o, b.around);
    b.Enter(Phy);
    ret := Call(b.env);
    if ret == 0 {
      ret := ReadyPhy(b, o);
    }
    b.Leave(Phy);
  }
}
