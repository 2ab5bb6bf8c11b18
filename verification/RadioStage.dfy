/** The stages that run while the radio is powered: power pulse, link, endpoint, PCI host and firmware driver
    (a1625_radio_pulse.h, lines 34-183; a1625_pcie_domains.c, lines 290-444; a1625_pci_scan.h, lines 420-478 and
    483-621; a1625_pci_node.h). */
module RadioStage {
  import opened Errno
  import opened BoardState
  import opened ProbeOptions

  const PERST_HIGH: Word := 0x76203

  /** Radio, link and host each need only the layer before, and the next may open on top of them. */
  lemma Deeper(stack: seq<Layer>, l: Layer)
    requires Below(stack, l) && (l == Radio || l == Link || l == Host)
    requires (if l == Radio then Phy else if l == Link then Radio else Link) in stack
    ensures Supported(stack, l) && l !in stack
    ensures Below(stack + [l], if l == Radio then Link else if l == Link then Host else Driver)
  {
  }

  lemma Unowed(b: Board, l: Layer)
    requires b.Valid() && l !in b.open
    ensures Free(b.owed, l)
  {
    hide Replay, OwedIn, Free;
    NothingOwed(b.trace, l);
  }

  // ---------- What a run is asked for ----------

  function HostMarks(o: Options): set<Milestone> {
    {Opened(Host)} + if o.bindFirmware then {Opened(Driver)} else {}
  }

  function EndpointMarks(o: Options): set<Milestone> {
    if o.scanPci then HostMarks(o) else {}
  }

  function LinkMarks(o: Options): set<Milestone> {
    {Opened(Link)} + if o.identifyEndpoint then EndpointMarks(o) else {}
  }

  /** The milestones of a pulse with these options. */
  function RadioMarks(o: Options): set<Milestone> {
    {Opened(Radio), Powered} + if o.trainLink then LinkMarks(o) else {}
  }

  /** Only these milestones were added, and all of them if the result is 0. */
  predicate Came(before: set<Milestone>, after: set<Milestone>, marks: set<Milestone>, ret: int) {
    before <= after <= before + marks && (ret == 0 ==> after == before + marks)
  }

  lemma CameNowhere(before: set<Milestone>, marks: set<Milestone>, ret: int)
    ensures ret != 0 ==> Came(before, before, marks, ret)
    ensures Came(before, before, {}, ret)
  {
  }

  /** A stage inside another: the outer milestone comes first. */
  lemma CameInside(before: set<Milestone>, m: Milestone, after: set<Milestone>, marks: set<Milestone>, ret: int)
    requires Came(before + {m}, after, marks, ret)
    ensures Came(before, after, {m} + marks, ret)
  {
  }

  /** An error after the stage. */
  lemma CameAnyway(before: set<Milestone>, after: set<Milestone>, marks: set<Milestone>, ret: int, later: int)
    requires Came(before, after, marks, ret) && later != 0
    ensures Came(before, after, marks, later)
  {
  }

  /** The PCI scan has what binding the firmware driver takes. */
  predicate Published(o: Options, dart: bool, msi: bool) {
    o.bindFirmware ==> dart && msi && o.assignMemory
  }

  /** Hardware that the endpoint stage accepts. */
  predicate EndpointReady(buses: Word, node: bool, dart: bool) {
    (buses % 0x100_0000 == 0 || buses % 0x100_0000 == 0x01_0100) && !(dart && node)
  }

  /** Hardware that a pulse accepts. */
  predicate RadioReady(hw: Hardware, dart: bool) {
    && EndpointReady(hw.buses, hw.hostNode, dart) && hw.ltssm % 2 == 0 && Tellable(hw.ltssm)
    && hw.perst == PERST_SAVED && hw.radio == 0
  }

  /** Started, the link state machine's control word does not read like a port that does not answer. */
  predicate Tellable(ltssm: Word) {
    ltssm != 0xffff_fffe
  }

  // ---------- Firmware driver ----------

  /** Bind the firmware driver to the checked endpoint, watch it, and release it whatever happened. */
  method Firmware(b: Board, o: Options, rejected: bool) returns (ret: int)
    requires b.Valid() && b.open != [] && Below(b.open, Driver) && Host in b.open
    requires b.scanDart ==> Dart in b.open
    requires b.scanMsi ==> MsiDomain in b.open
    modifies b`open, b`trace, b`reached
    ensures b.Valid() && b.open == old(b.open)
    ensures Came(old(b.reached), b.reached, {Opened(Driver)}, ret)
    ensures (Flawless(b.env) && b.scanDart && b.scanMsi && o.assignMemory && !rejected) ==> ret == 0
  {
    hide Replay, PowerAfter, Requested, ResetAfter, Board.Valid;
    var found := Check(b.env);
    if !found || !b.scanDart || !b.scanMsi || !o.assignMemory || rejected {
      return EINVAL;
    }
    ret := Call(b.env);
    if ret != 0 {
      return;
    }
    b.Enter(Driver);
    ret := Call(b.env);
    if ret >= 0 {
      ret := Call(b.env);
      if ret == 0 {
        ret := Call(b.env);
      }
    }
    b.Leave(Driver);
    var mapped := Check(b.env);
    if !mapped {
      ret := ENOMEM;
    }
    return ret;
  }

  // ---------- Device tree node of the host ----------

  /** What the node helper remembers between create and remove. */
  datatype Node = Node(created: bool, applied: bool)

  /** Create and attach the node. A failing apply may leave it attached. */
  method NodeCreate(b: Board) returns (ret: int, node: Node)
    requires b.Valid()
    modifies b`hw
    ensures b.Valid() && b.hw == old(b.hw).(hostNode := b.hw.hostNode)
    ensures b.hw.hostNode != old(b.hw.hostNode) ==> node.created
    ensures node.created ==> !old(b.hw.hostNode)
    ensures node.applied ==> node.created
    ensures ret == 0 ==> node.created && node.applied && b.hw.hostNode
    ensures (Flawless(b.env) && !old(b.hw.hostNode)) ==> ret == 0
  {
    hide Replay, PowerAfter, Requested, ResetAfter, Board.Valid;
    node := Node(false, false);
    var valid := Check(b.env);
    if !valid {
      return EINVAL, node;
    }
    if b.hw.hostNode {
      return EBUSY, node;
    }
    var made := Check(b.env);
    if !made {
      return ENOMEM, node;
    }
    node := Node(true, false);
    ret := Call(b.env);
    if ret != 0 {
      return;
    }
    var attached := Choose();
    ret := Call(b.env);
    if ret == 0 {
      node := Node(true, true);
      attached := true;
    }
    b.hw := b.hw.(hostNode := attached);
  }

  /** Revert, and detach what a failed apply or revert left behind. If detaching works the node is gone. */
  method NodeRemove(b: Board, node: Node) returns (ret: int)
    requires b.Valid() && Below(b.open, Host)
    modifies b`hw, b`trace
    ensures b.Valid() && b.hw == old(b.hw).(hostNode := b.hw.hostNode)
    ensures !node.created && !node.applied ==> b.hw == old(b.hw) && ret == 0
    ensures node.created && (ret == 0 || b.env.detaches) ==> !b.hw.hostNode
    ensures (Flawless(b.env)) ==> ret == 0
  {
    hide Replay, PowerAfter, Requested, ResetAfter, Board.Valid;
    b.Note(WriteBack(Host));
    ret := 0;
    if node.applied {
      ret := Call(b.env);
      var stays := Choose();
      b.hw := b.hw.(hostNode := b.hw.hostNode && (ret != 0 || stays));
    }
    if node.created && b.hw.hostNode {
      var cleanup := Detaching(b.env);
      if cleanup != 0 {
        ret := cleanup;
      } else {
        b.hw := b.hw.(hostNode := false);
      }
    }
  }

  lemma SameHost(h: Hardware)
    ensures h.(hostNode := h.hostNode) == h && h.(buses := h.buses) == h
  {
  }

  // ---------- PCI host ----------

  /** The bus as Linux sees it: scan, bind, remove, restore. Configuration registers other than the bus numbers
      are the subject of HostScan and only report here. */
  method PciScan(b: Board, o: Options) returns (ret: int)
    requires b.Valid() && Below(b.open, Host) && Link in b.open && BusNumbers !in b.owed
    requires b.scanDart ==> Dart in b.open
    requires b.scanMsi ==> MsiDomain in b.open
    modifies b`hw, b`writes, b`open, b`trace, b`around, b`owed, b`reached
    ensures b.Valid() && b.open == old(b.open) && b.owed == old(b.owed)
    ensures b.hw == old(b.hw).(buses := b.hw.buses, hostNode := b.hw.hostNode)
    ensures ret == 0 || Orderly(b.env) ==> b.hw == old(b.hw)
    ensures StillAround(old(b.around), b.around, b.open, {})
    ensures Came(old(b.reached), b.reached, HostMarks(o), ret)
    ensures (Flawless(b.env) && Published(o, b.scanDart, b.scanMsi) && old(b.hw.buses) % 0x100_0000 == 0x01_0100
             && (b.scanDart ==> !old(b.hw.hostNode))) ==> ret == 0
    ensures ret == 0 ==> old(b.hw.buses) % 0x100_0000 == 0x01_0100
  {
    hide Replay, PowerAfter, Requested, ResetAfter, Board.Valid, StillAround, HostMarks;
    SameAround(b.around, b.open);
    var quiet := Check(b.env);
    if !quiet {
      return EBUSY;
    }
    var saved := Sample(b.env, b.hw.buses);
    if saved % 0x100_0000 != 0x01_0100 {
      return EBUSY;
    }
    ret := Call(b.env);
    if ret != 0 {
      return;
    }
    ret := WithNode(b, o, saved);
  }

  /** The device tree node of the host, if the DART is published, around the host itself. */
  method WithNode(b: Board, o: Options, saved: Word) returns (ret: int)
    requires b.Valid() && Below(b.open, Host) && Link in b.open && saved == b.hw.buses != ALL_ONES && BusNumbers !in b.owed
    requires b.scanDart ==> Dart in b.open
    requires b.scanMsi ==> MsiDomain in b.open
    modifies b`hw, b`writes, b`open, b`trace, b`around, b`owed, b`reached
    ensures b.Valid() && b.open == old(b.open) && b.owed == old(b.owed)
    ensures b.hw == old(b.hw).(buses := b.hw.buses, hostNode := b.hw.hostNode)
    ensures ret == 0 || Orderly(b.env) ==> b.hw == old(b.hw)
    ensures StillAround(old(b.around), b.around, b.open, {})
    ensures Came(old(b.reached), b.reached, HostMarks(o), ret)
    ensures (Flawless(b.env) && Published(o, b.scanDart, b.scanMsi) && (b.scanDart ==> !old(b.hw.hostNode))) ==> ret == 0
  {
    hide Replay, PowerAfter, Requested, ResetAfter, Board.Valid, StillAround, Below, Supported, HostMarks, Published;
    SameAround(b.around, b.open);
    ret := 0;
    var node := Node(false, false);
    if b.scanDart {
      ret, node := NodeCreate(b);
    }
    if ret == 0 {
      ret := HostLifetime(b, o, saved);
    }
    if b.scanDart {
      var cleanup := NodeRemove(b, node);
      SameHost(old(b.hw));
      if cleanup != 0 {
        ret := cleanup;
      }
    }
  }

  /** Parent, bridge and window, then the scan itself and the restore. */
  method HostLifetime(b: Board, o: Options, saved: Word) returns (ret: int)
    requires b.Valid() && Below(b.open, Host) && Link in b.open && saved == b.hw.buses != ALL_ONES && BusNumbers !in b.owed
    requires b.scanDart ==> Dart in b.open
    requires b.scanMsi ==> MsiDomain in b.open
    modifies b`hw, b`writes, b`open, b`trace, b`around, b`owed, b`reached
    ensures b.Valid() && b.open == old(b.open) && b.owed == old(b.owed)
    ensures b.hw == old(b.hw).(buses := b.hw.buses)
    ensures ret == 0 || Orderly(b.env) ==> b.hw == old(b.hw)
    ensures StillAround(old(b.around), b.around, b.open, {})
    ensures Came(old(b.reached), b.reached, HostMarks(o), ret)
    ensures (Flawless(b.env) && Published(o, b.scanDart, b.scanMsi)) ==> ret == 0
  {
    hide Replay, PowerAfter, Requested, ResetAfter, Board.Valid, Below, Supported, StillAround, HostMarks, Published;
    SameAround(b.around, b.open);
    SameHost(b.hw);
    ret := Call(b.env);
    if ret != 0 {
      return;
    }
    var bridge := Check(b.env);
    if !bridge {
      return ENOMEM;
    }
    if o.assignMemory {
      ret := Call(b.env);
      if ret != 0 {
        return;
      }
    }
    var rejected;
    ret, rejected := Bus(b, o);
    var ok := HostRestore(b, o, saved);
    if !ok || rejected {
      ret := EIO;
    }
  }

  /** The bus from the scan to its removal. The PCI core may write any bus numbers the filter lets through. */
  method Bus(b: Board, o: Options) returns (ret: int, rejected: bool)
    requires b.Valid() && Below(b.open, Host) && Link in b.open && BusNumbers !in b.owed
    requires b.scanDart ==> Dart in b.open
    requires b.scanMsi ==> MsiDomain in b.open
    modifies b`hw, b`open, b`trace, b`around, b`owed, b`reached
    ensures b.Valid() && b.open == old(b.open) && b.hw == old(b.hw).(buses := b.hw.buses)
    ensures b.owed == old(b.owed)[BusNumbers := old(b.hw.buses)]
    ensures StillAround(old(b.around), b.around, b.open, {})
    ensures Came(old(b.reached), b.reached, HostMarks(o), ret)
    ensures Flawless(b.env) && Published(o, b.scanDart, b.scanMsi) ==> ret == 0 && !rejected
  {
    hide Replay, PowerAfter, Requested, ResetAfter, Board.Valid, Below, Supported, StillAround, Came;
    Deeper(b.open, Host);
    b.Expose();
    b.EnterHost();
    ret, rejected := Enumerate(b);
    ghost var here := b.reached;
    CameNowhere(here, if o.bindFirmware then {Opened(Driver)} else {}, ret);
    if ret == 0 && o.bindFirmware {
      ret := Firmware(b, o, rejected);
    }
    CameInside(old(b.reached), Opened(Host), b.reached, if o.bindFirmware then {Opened(Driver)} else {}, ret);
    b.Leave(Host);
  }

  /** The PCI core scans the bus; it must find both functions and have no write rejected. */
  method Enumerate(b: Board) returns (ret: int, rejected: bool)
    requires b.Valid()
    modifies b`hw
    ensures b.Valid() && b.hw == old(b.hw).(buses := b.hw.buses)
    ensures ret == 0 ==> !rejected
    ensures Flawless(b.env) ==> ret == 0
  {
    hide Replay, PowerAfter, Requested, ResetAfter, Board.Valid;
    ret := Call(b.env);
    var numbers: Word := *;
    b.hw := b.hw.(buses := numbers);
    var accepted := Check(b.env);
    rejected := !accepted;
    var both := Check(b.env);
    if ret == 0 && (rejected || !both) {
      ret := EIO;
    }
  }

  /** Release the window and write the saved configuration back. */
  method HostRestore(b: Board, o: Options, saved: Word) returns (ok: bool)
    requires b.Valid() && Below(b.open, Host) && Link in b.open && saved != ALL_ONES && BusNumbers in b.owed && b.owed[BusNumbers] == saved
    modifies b`hw, b`writes, b`trace, b`owed
    ensures b.Valid() && b.hw == old(b.hw).(buses := b.hw.buses) && b.owed == old(b.owed) - {BusNumbers}
    ensures ok || Orderly(b.env) ==> b.hw.buses == saved
    ensures Flawless(b.env) ==> ok
  {
    hide Replay, PowerAfter, Requested, ResetAfter, Board.Valid;
    var released := Check(b.env);
    b.UndoReg(BusNumbers, saved);
    var observed := Sample(b.env, b.hw.buses);
    var others := Check(b.env);
    return observed == saved && others && (!o.assignMemory || released);
  }

  // ---------- Endpoint ----------

  /** Route bus 1 if it is not routed, look at the endpoint, and put the bus numbers back. */
  method Endpoint(b: Board, o: Options) returns (ret: int)
    requires b.Valid() && Below(b.open, Host) && Link in b.open && Route !in b.owed && BusNumbers !in b.owed
    requires b.scanDart ==> Dart in b.open
    requires b.scanMsi ==> MsiDomain in b.open
    modifies b`hw, b`writes, b`open, b`trace, b`around, b`owed, b`reached
    ensures b.Valid() && b.open == old(b.open) && b.owed == old(b.owed)
    ensures b.hw == old(b.hw).(buses := b.hw.buses, hostNode := b.hw.hostNode)
    ensures ret == 0 || Orderly(b.env) ==> b.hw == old(b.hw)
    ensures StillAround(old(b.around), b.around, b.open, {})
    ensures Came(old(b.reached), b.reached, EndpointMarks(o), ret)
    ensures (Flawless(b.env) && Published(o, b.scanDart, b.scanMsi)
             && EndpointReady(old(b.hw.buses), old(b.hw.hostNode), b.scanDart)) ==> ret == 0
    ensures ret == 0 ==> old(b.hw.buses) % 0x100_0000 == 0 || old(b.hw.buses) % 0x100_0000 == 0x01_0100
  {
    hide Replay, PowerAfter, Requested, ResetAfter, Board.Valid, StillAround, EndpointMarks, Published, Below, Supported;
    SameAround(b.around, b.open);
    ret := Call(b.env);
    if ret != 0 {
      return;
    }
    var known := Check(b.env);
    var buses := Sample(b.env, b.hw.buses);
    if !known || buses == ALL_ONES || (buses % 0x100_0000 != 0 && buses % 0x100_0000 != 0x01_0100) {
      return ENODEV;
    }
    if buses % 0x100_0000 == 0 {
      ret := Routed(b, o, buses);
    } else {
      ret := Inspect(b, o);
    }
  }

  /** The endpoint with bus 1 routed to it meanwhile. */
  method Routed(b: Board, o: Options, buses: Word) returns (ret: int)
    requires b.Valid() && Below(b.open, Host) && Link in b.open && Route !in b.owed && BusNumbers !in b.owed
    requires buses == b.hw.buses && buses % 0x100_0000 == 0
    requires b.scanDart ==> Dart in b.open
    requires b.scanMsi ==> MsiDomain in b.open
    modifies b`hw, b`writes, b`open, b`trace, b`around, b`owed, b`reached
    ensures b.Valid() && b.open == old(b.open) && b.owed == old(b.owed)
    ensures b.hw == old(b.hw).(buses := b.hw.buses, hostNode := b.hw.hostNode)
    ensures ret == 0 || Orderly(b.env) ==> b.hw == old(b.hw)
    ensures StillAround(old(b.around), b.around, b.open, {})
    ensures Came(old(b.reached), b.reached, EndpointMarks(o), ret)
    ensures (Flawless(b.env) && Published(o, b.scanDart, b.scanMsi) && (b.scanDart ==> !old(b.hw.hostNode))) ==> ret == 0
  {
    hide Replay, PowerAfter, Requested, ResetAfter, Board.Valid, StillAround, EndpointMarks, Published, Below, Supported;
    SameAround(b.around, b.open);
    SameHost(b.hw);
    ret := Reroute(b, buses);
    if ret == 0 {
      ret := Inspect(b, o);
    }
    var ok := Unroute(b, buses);
    if !ok {
      ret := EIO;
    }
  }

  method Reroute(b: Board, buses: Word) returns (ret: int)
    requires b.Valid() && Link in b.open && Route !in b.owed && buses == b.hw.buses && buses % 0x100_0000 == 0
    modifies b`hw, b`writes, b`trace, b`owed
    ensures b.Valid() && b.hw == old(b.hw).(buses := b.hw.buses) && b.owed == old(b.owed)[Route := buses]
    ensures b.hw.buses == buses || b.hw.buses == buses + 0x01_0100
    ensures ret == 0 ==> b.hw.buses == buses + 0x01_0100
    ensures ret == 0 || ret == EIO
    ensures Orderly(b.env) ==> ret == 0
  {
    hide Replay, PowerAfter, Requested, ResetAfter, Board.Valid;
    var routed: Word := buses + 0x01_0100;
    b.ChangeReg(Route, buses, routed);
    var observed := Sample(b.env, b.hw.buses);
    return if observed != routed then EIO else 0;
  }

  method Unroute(b: Board, buses: Word) returns (ok: bool)
    requires b.Valid() && Below(b.open, Host) && Link in b.open && buses != ALL_ONES && Route in b.owed && b.owed[Route] == buses
    modifies b`hw, b`writes, b`trace, b`owed
    ensures b.Valid() && b.hw == old(b.hw).(buses := b.hw.buses) && b.owed == old(b.owed) - {Route}
    ensures ok || (Orderly(b.env) && old(b.hw.buses) != ALL_ONES) ==> b.hw.buses == buses
    ensures Orderly(b.env) && old(b.hw.buses) != ALL_ONES ==> ok
  {
    hide Replay, PowerAfter, Requested, ResetAfter, Board.Valid;
    var alive := b.Alive(Route);
    if !alive {
      return false;
    }
    b.UndoReg(Route, buses);
    var observed := Sample(b.env, b.hw.buses);
    return observed == buses;
  }

  /** Identification reads, then the chip snapshot or the PCI scan. */
  method Inspect(b: Board, o: Options) returns (ret: int)
    requires b.Valid() && Below(b.open, Host) && Link in b.open && BusNumbers !in b.owed
    requires b.scanDart ==> Dart in b.open
    requires b.scanMsi ==> MsiDomain in b.open
    modifies b`hw, b`writes, b`open, b`trace, b`around, b`owed, b`reached
    ensures b.Valid() && b.open == old(b.open) && b.owed == old(b.owed)
    ensures b.hw == old(b.hw).(buses := b.hw.buses, hostNode := b.hw.hostNode)
    ensures ret == 0 || Orderly(b.env) ==> b.hw == old(b.hw)
    ensures StillAround(old(b.around), b.around, b.open, {})
    ensures Came(old(b.reached), b.reached, EndpointMarks(o), ret)
    ensures (Flawless(b.env) && Published(o, b.scanDart, b.scanMsi) && old(b.hw.buses) % 0x100_0000 == 0x01_0100
             && (b.scanDart ==> !old(b.hw.hostNode))) ==> ret == 0
  {
    hide Replay, PowerAfter, Requested, ResetAfter, Board.Valid, StillAround, HostMarks, Published, Below, Supported;
    SameAround(b.around, b.open);
    SameHost(b.hw);
    ret := Call(b.env);
    if ret == 0 && o.identifyChip {
      ret := Call(b.env);
    }
    if ret == 0 && o.scanPci {
      ret := PciScan(b, o);
    }
  }

  // ---------- Link ----------

  /** gpiod_direction_output_raw on the reset line: the pin configuration becomes whatever the driver makes of it. */
  method DirectReset(b: Board, high: bool) returns (ret: int)
    requires b.Valid() && Radio in b.open && Below(b.open, Host) && (high ==> Link in b.open)
    modifies b`hw, b`trace
    ensures b.Valid() && b.hw == old(b.hw).(perst := b.hw.perst) && ret <= 0
    ensures ResetAfter(b.trace) == Driven(high)
    ensures PowerAfter(b.trace) == PowerAfter(old(b.trace)) && Requested(b.trace) == Requested(old(b.trace))
    ensures b.env.smooth ==> ret == 0 && b.hw.perst == if high then PERST_HIGH else PERST_LOW
  {
    hide Replay, PowerAfter, Requested, ResetAfter, Board.Valid;
    b.Note(DriveReset(high));
    var pin: Word := *;
    if b.env.smooth {
      pin := if high then PERST_HIGH else PERST_LOW;
    }
    b.hw := b.hw.(perst := pin);
    ret := Call(b.env);
  }

  /** Release the line and check the pin configuration. */
  method ReleaseReset(b: Board) returns (ret: int)
    requires b.Valid() && Radio in b.open && Link in b.open && Below(b.open, Host)
    modifies b`hw, b`trace
    ensures b.Valid() && b.hw == old(b.hw).(perst := b.hw.perst) && (ret == 0 ==> b.hw.perst == PERST_HIGH)
    ensures ResetAfter(b.trace) == Driven(true)
    ensures PowerAfter(b.trace) == PowerAfter(old(b.trace)) && Requested(b.trace) == Requested(old(b.trace))
    ensures (Flawless(b.env)) ==> ret == 0
  {
    hide Replay, PowerAfter, Requested, ResetAfter, Board.Valid, Below, Supported;
    ret := DirectReset(b, true);
    if ret == 0 {
      ret := ReadEqual(b.env, b.hw.perst, PERST_HIGH);
    }
  }

  /** Record whether PERST is seen low. */
  method CheckReset(b: Board, driven: int) returns (ret: int)
    requires b.Valid() && Radio in b.open && Below(b.open, Host)
    requires ResetAfter(b.trace) == Driven(false) || ResetAfter(b.trace).Held?
    modifies b`trace, b`lost
    ensures b.Valid() && (ret == 0 <==> ResetAfter(b.trace).Held?) && (ret != 0 <==> ResetAfter(b.trace).Lost?)
    ensures ret == 0 ==> driven == 0 && b.hw.perst == PERST_LOW && b.lost == old(b.lost)
    ensures ret != 0 ==> b.lost
    ensures PowerAfter(b.trace) == PowerAfter(old(b.trace)) && Requested(b.trace) == Requested(old(b.trace))
    ensures b.env.responsive && driven == 0 && b.hw.perst == PERST_LOW ==> ret == 0
  {
    hide Replay, PowerAfter, Requested, ResetAfter, Board.Valid, Below, Supported;
    ret := driven;
    if ret == 0 {
      ret := ReadEqual(b.env, b.hw.perst, PERST_LOW);
    }
    if ret == 0 {
      b.Note(ResetHeld);
    } else {
      b.NoteLost();
    }
  }

  /** Drive the line low. It is known to be low exactly if the result is 0. */
  method HoldReset(b: Board) returns (ret: int)
    requires b.Valid() && Radio in b.open && Below(b.open, Host)
    modifies b`hw, b`trace, b`lost
    ensures b.Valid() && b.hw == old(b.hw).(perst := b.hw.perst)
    ensures (ret == 0 <==> ResetAfter(b.trace).Held?) && (ret != 0 <==> ResetAfter(b.trace).Lost?)
    ensures ret == 0 ==> b.hw.perst == PERST_LOW && b.lost == old(b.lost)
    ensures ret != 0 ==> b.lost
    ensures PowerAfter(b.trace) == PowerAfter(old(b.trace)) && Requested(b.trace) == Requested(old(b.trace))
    ensures (Flawless(b.env)) ==> ret == 0
  {
    hide Replay, PowerAfter, Requested, ResetAfter, Board.Valid, Below, Supported;
    ret := DirectReset(b, false);
    ret := CheckReset(b, ret);
  }

  /** The observer of the powered radio: with train_link, release PERST, train, look, and stop again. */
  method HeldRadio(b: Board, o: Options) returns (ret: int)
    requires b.Valid() && Below(b.open, Link) && Radio in b.open && ResetAfter(b.trace).Held?
    requires b.scanDart ==> Dart in b.open
    requires b.scanMsi ==> MsiDomain in b.open
    modifies b`hw, b`writes, b`open, b`trace, b`lost, b`around, b`owed, b`reached
    ensures b.Valid() && b.open == old(b.open) && b.owed == old(b.owed)
    ensures b.hw == old(b.hw).(ltssm := b.hw.ltssm, buses := b.hw.buses, hostNode := b.hw.hostNode, perst := b.hw.perst)
    ensures ret == 0 || (Orderly(b.env) && Tellable(old(b.hw.ltssm))) ==> b.hw == old(b.hw).(perst := b.hw.perst)
    ensures ret == 0 && o.trainLink ==> b.hw.perst == PERST_LOW
    ensures ResetAfter(b.trace).Held? || (ResetAfter(b.trace).Lost? && ret != 0)
    ensures ret == 0 ==> b.lost == old(b.lost)
    ensures StillAround(old(b.around), b.around, b.open, {})
    ensures Came(old(b.reached), b.reached, if o.trainLink then LinkMarks(o) else {}, ret)
    ensures (Flawless(b.env) && Published(o, b.scanDart, b.scanMsi) && EndpointReady(old(b.hw.buses), old(b.hw.hostNode), b.scanDart)
             && old(b.hw.ltssm) % 2 == 0 && Tellable(old(b.hw.ltssm))) ==> ret == 0
  {
    hide Replay, PowerAfter, Requested, ResetAfter, Board.Valid, Below, Supported, StillAround, LinkMarks, Published, EndpointReady;
    SameAround(b.around, b.open);
    var control := Sample(b.env, b.hw.ltssm);
    if control == ALL_ONES || control % 2 == 1 {
      return EIO;
    }
    var down := Check(b.env);
    if !down {
      return EIO;
    }
    if !o.trainLink {
      return 0;
    }
    ret := Call(b.env);
    if ret == 0 {
      ret := LinkLifetime(b, o, control);
    }
  }

  /** From releasing PERST to holding it again, or to an error that says that this failed. */
  method LinkLifetime(b: Board, o: Options, control: Word) returns (ret: int)
    requires b.Valid() && Below(b.open, Link) && Radio in b.open && control == b.hw.ltssm && control % 2 == 0
    requires b.scanDart ==> Dart in b.open
    requires b.scanMsi ==> MsiDomain in b.open
    modifies b`hw, b`writes, b`open, b`trace, b`lost, b`around, b`owed, b`reached
    ensures b.Valid() && b.open == old(b.open) && b.owed == old(b.owed)
    ensures b.hw == old(b.hw).(ltssm := b.hw.ltssm, buses := b.hw.buses, hostNode := b.hw.hostNode, perst := b.hw.perst)
    ensures ret == 0 ==> b.hw == old(b.hw).(perst := PERST_LOW)
    ensures Orderly(b.env) && Tellable(old(b.hw.ltssm)) ==> b.hw == old(b.hw).(perst := b.hw.perst)
    ensures ResetAfter(b.trace).Held? || (ResetAfter(b.trace).Lost? && ret != 0)
    ensures ret == 0 ==> b.lost == old(b.lost)
    ensures StillAround(old(b.around), b.around, b.open, {})
    ensures Came(old(b.reached), b.reached, LinkMarks(o), ret)
    ensures (Flawless(b.env) && Published(o, b.scanDart, b.scanMsi)
             && EndpointReady(old(b.hw.buses), old(b.hw.hostNode), b.scanDart) && Tellable(old(b.hw.ltssm))) ==> ret == 0
  {
    hide Replay, PowerAfter, Requested, ResetAfter, Board.Valid, Below, Supported, Free, Published, EndpointReady, EndpointMarks,
         Tellable, Orderly, StillAround, Came;
    ghost var stack := b.open;
    Deeper(stack, Link);
    Unowed(b, Link);
    b.Enter(Link);
    FreeOfLink(b.owed);
    ret := HeldAgain(b, o, control);
    CameInside(old(b.reached), Opened(Link), b.reached, if o.identifyEndpoint then EndpointMarks(o) else {}, ret);
    AroundInside(old(b.around), b.around, stack, Link);
    b.Leave(Link);
  }

  /** PERST released and, whatever happened meanwhile, held again. */
  method HeldAgain(b: Board, o: Options, control: Word) returns (ret: int)
    requires b.Valid() && Below(b.open, Host) && Radio in b.open && Link in b.open && control == b.hw.ltssm && control % 2 == 0
    requires Ltssm !in b.owed && Route !in b.owed && BusNumbers !in b.owed
    requires b.scanDart ==> Dart in b.open
    requires b.scanMsi ==> MsiDomain in b.open
    modifies b`hw, b`writes, b`open, b`trace, b`lost, b`around, b`owed, b`reached
    ensures b.Valid() && b.open == old(b.open) && b.owed == old(b.owed)
    ensures b.hw == old(b.hw).(ltssm := b.hw.ltssm, buses := b.hw.buses, hostNode := b.hw.hostNode, perst := b.hw.perst)
    ensures ret == 0 ==> b.hw == old(b.hw).(perst := PERST_LOW)
    ensures Orderly(b.env) && Tellable(old(b.hw.ltssm)) ==> b.hw == old(b.hw).(perst := b.hw.perst)
    ensures ResetAfter(b.trace).Held? || (ResetAfter(b.trace).Lost? && ret != 0)
    ensures ret == 0 ==> b.lost == old(b.lost)
    ensures StillAround(old(b.around), b.around, b.open, {})
    ensures Came(old(b.reached), b.reached, if o.identifyEndpoint then EndpointMarks(o) else {}, ret)
    ensures (Flawless(b.env) && Published(o, b.scanDart, b.scanMsi)
             && EndpointReady(old(b.hw.buses), old(b.hw.hostNode), b.scanDart) && Tellable(old(b.hw.ltssm))) ==> ret == 0
  {
    hide Replay, PowerAfter, Requested, ResetAfter, Board.Valid, Below, Supported, Published, EndpointReady, EndpointMarks, Tellable,
         Orderly, StillAround, Came;
    ret := Released(b, o, control);
    var cleanup := HoldReset(b);
    if cleanup != 0 {
      CameAnyway(old(b.reached), b.reached, if o.identifyEndpoint then EndpointMarks(o) else {}, ret, cleanup);
      ret := cleanup;
    }
  }

  /** The link with PERST released. */
  method Released(b: Board, o: Options, control: Word) returns (ret: int)
    requires b.Valid() && Below(b.open, Host) && Radio in b.open && Link in b.open && control == b.hw.ltssm && control % 2 == 0
    requires Ltssm !in b.owed && Route !in b.owed && BusNumbers !in b.owed
    requires b.scanDart ==> Dart in b.open
    requires b.scanMsi ==> MsiDomain in b.open
    modifies b`hw, b`writes, b`open, b`trace, b`around, b`owed, b`reached
    ensures b.Valid() && b.open == old(b.open) && b.owed == old(b.owed)
    ensures b.hw == old(b.hw).(ltssm := b.hw.ltssm, buses := b.hw.buses, hostNode := b.hw.hostNode, perst := b.hw.perst)
    ensures ret == 0 || (Orderly(b.env) && Tellable(old(b.hw.ltssm))) ==> b.hw == old(b.hw).(perst := b.hw.perst)
    ensures StillAround(old(b.around), b.around, b.open, {})
    ensures Came(old(b.reached), b.reached, if o.identifyEndpoint then EndpointMarks(o) else {}, ret)
    ensures (Flawless(b.env) && Published(o, b.scanDart, b.scanMsi)
             && EndpointReady(old(b.hw.buses), old(b.hw.hostNode), b.scanDart) && Tellable(old(b.hw.ltssm))) ==> ret == 0
  {
    hide Replay, PowerAfter, Requested, ResetAfter, Board.Valid, Below, Supported, StillAround, Published, EndpointReady, EndpointMarks,
         Orderly, Tellable;
    SameAround(b.around, b.open);
    ret := ReleaseReset(b);
    if ret == 0 {
      ret := Train(b, o, control);
    }
  }

  lemma FreeOfLink(owed: map<Reg, Word>)
    requires Free(owed, Link)
    ensures Ltssm !in owed && Route !in owed && BusNumbers !in owed
  {
  }

  /** Start the link state machine, wait for the link, look at the endpoint, and stop the link. */
  method Train(b: Board, o: Options, control: Word) returns (ret: int)
    requires b.Valid() && Below(b.open, Host) && Link in b.open && control == b.hw.ltssm && control % 2 == 0
    requires Ltssm !in b.owed && Route !in b.owed && BusNumbers !in b.owed
    requires b.scanDart ==> Dart in b.open
    requires b.scanMsi ==> MsiDomain in b.open
    modifies b`hw, b`writes, b`open, b`trace, b`around, b`owed, b`reached
    ensures b.Valid() && b.open == old(b.open) && b.owed == old(b.owed)
    ensures b.hw == old(b.hw).(ltssm := b.hw.ltssm, buses := b.hw.buses, hostNode := b.hw.hostNode)
    ensures ret == 0 || (Orderly(b.env) && Tellable(old(b.hw.ltssm))) ==> b.hw == old(b.hw)
    ensures StillAround(old(b.around), b.around, b.open, {})
    ensures Came(old(b.reached), b.reached, if o.identifyEndpoint then EndpointMarks(o) else {}, ret)
    ensures (Flawless(b.env) && Published(o, b.scanDart, b.scanMsi)
             && EndpointReady(old(b.hw.buses), old(b.hw.hostNode), b.scanDart) && Tellable(old(b.hw.ltssm))) ==> ret == 0
  {
    hide Replay, PowerAfter, Requested, ResetAfter, Board.Valid, StillAround, Published, EndpointMarks, EndpointReady, Below, Supported, Came;
    SameAround(b.around, b.open);
    ghost var marks := if o.identifyEndpoint then EndpointMarks(o) else {};
    ret := StartLink(b, control);
    CameNowhere(b.reached, marks, ret);
    if ret == 0 {
      ret := Observe(b, o);
    }
    ghost var before := ret;
    ret := StopLink(b, control, ret);
    if ret != before {
      CameAnyway(old(b.reached), b.reached, marks, before, ret);
    }
  }

  method StartLink(b: Board, control: Word) returns (ret: int)
    requires b.Valid() && Link in b.open && control == b.hw.ltssm && control % 2 == 0 && Ltssm !in b.owed
    modifies b`hw, b`writes, b`trace, b`owed
    ensures b.Valid() && b.owed == old(b.owed)[Ltssm := control]
    ensures b.hw == old(b.hw) || b.hw == old(b.hw).(ltssm := control + 1)
    ensures (ret == 0 && Tellable(control)) || Orderly(b.env) ==> b.hw.ltssm == control + 1
    ensures Orderly(b.env) ==> ret == 0
  {
    hide Replay, PowerAfter, Requested, ResetAfter, Board.Valid;
    var started: Word := control + 1;
    b.ChangeReg(Ltssm, control, started);
    var status := Sample(b.env, b.hw.ltssm);
    ret := if status != started then EIO else 0;
  }

  /** Wait for the link and look at the endpoint. */
  method Observe(b: Board, o: Options) returns (ret: int)
    requires b.Valid() && Below(b.open, Host) && Link in b.open && Route !in b.owed && BusNumbers !in b.owed
    requires b.scanDart ==> Dart in b.open
    requires b.scanMsi ==> MsiDomain in b.open
    modifies b`hw, b`writes, b`open, b`trace, b`around, b`owed, b`reached
    ensures b.Valid() && b.open == old(b.open) && b.owed == old(b.owed)
    ensures b.hw == old(b.hw).(buses := b.hw.buses, hostNode := b.hw.hostNode)
    ensures ret == 0 || Orderly(b.env) ==> b.hw == old(b.hw)
    ensures StillAround(old(b.around), b.around, b.open, {})
    ensures Came(old(b.reached), b.reached, if o.identifyEndpoint then EndpointMarks(o) else {}, ret)
    ensures (Flawless(b.env) && Published(o, b.scanDart, b.scanMsi)
             && EndpointReady(old(b.hw.buses), old(b.hw.hostNode), b.scanDart)) ==> ret == 0
  {
    hide Replay, PowerAfter, Requested, ResetAfter, Board.Valid, StillAround, Published, EndpointReady, EndpointMarks, Below, Supported;
    SameAround(b.around, b.open);
    SameHost(b.hw);
    ret := Call(b.env);
    var here := Check(b.env);
    if !here {
      ret := ENODEV;
    }
    if ret == 0 && o.identifyEndpoint {
      ret := Endpoint(b, o);
    }
  }

  /** Write the link state machine's saved control word back, unless the port no longer answers. */
  method StopLink(b: Board, control: Word, before: int) returns (ret: int)
    requires b.Valid() && Below(b.open, Host) && Link in b.open && control != ALL_ONES && Ltssm in b.owed && b.owed[Ltssm] == control
    modifies b`hw, b`writes, b`trace, b`owed
    ensures b.Valid() && b.hw == old(b.hw).(ltssm := b.hw.ltssm) && b.owed == old(b.owed) - {Ltssm}
    ensures ret == 0 ==> before == 0 && b.hw.ltssm == control
    ensures Orderly(b.env) && old(b.hw.ltssm) != ALL_ONES ==> ret == before && b.hw.ltssm == control
  {
    hide Replay, PowerAfter, Requested, ResetAfter, Board.Valid;
    ret := before;
    var alive := b.Alive(Ltssm);
    if !alive {
      return ENODEV;
    }
    b.UndoReg(Ltssm, control);
    var status := Sample(b.env, b.hw.ltssm);
    if status != control {
      ret := EIO;
    }
  }

  // ---------- Radio power ----------

  lemma BelowMore(stack: seq<Layer>)
    requires Below(stack, Link)
    ensures Below(stack, Host)
  {
  }

  lemma RestIsOff(b: Board)
    requires b.Valid() && Radio !in b.open
    ensures Requested(b.trace) == 0
  {
    RadioLeftOff(b.trace);
  }

  /** Read the PMU register and note what it says. */
  method ReadPower(b: Board, expected: Word) returns (ret: int)
    requires b.Valid()
    modifies b`trace
    ensures b.Valid() && ret <= 0
    ensures ret == 0 ==> b.hw.radio == expected && (expected == 0 ==> PowerAfter(b.trace).Off?)
    ensures expected == 0 && old(PowerAfter(b.trace).Unverified?) && ret != 0 ==> PowerAfter(b.trace).Unverified?
    ensures Requested(b.trace) == Requested(old(b.trace)) && ResetAfter(b.trace) == ResetAfter(old(b.trace))
    ensures b.env.responsive && b.hw.radio == expected ==> ret == 0
  {
    hide Replay, PowerAfter, Requested, ResetAfter, Board.Valid;
    var value;
    ret, value := RegmapRead(b.env, b.hw.radio);
    if ret != 0 {
      return;
    }
    b.Note(PowerRead(value));
    if value != expected {
      ret := EIO;
    }
  }

  method WritePower(b: Board, value: Word) returns (ret: int)
    requires b.Valid() && Radio in b.open && Below(b.open, Link)
    requires (value == RADIO_ON && ResetAfter(b.trace).Held?)
      || (value == 0 && (ResetAfter(b.trace).Held? || ResetAfter(b.trace).Lost?))
    modifies b`hw, b`writes, b`trace, b`reached
    ensures b.Valid() && ret <= 0 && b.hw == if b.env.takes(old(b.writes)) then old(b.hw).(radio := value) else old(b.hw)
    ensures PowerAfter(b.trace).Unverified?
    ensures Requested(b.trace) == value && ResetAfter(b.trace) == ResetAfter(old(b.trace))
    ensures b.reached == old(b.reached) + if value == 0 then {} else {Powered}
    ensures b.env.responsive ==> ret == 0
  {
    hide Replay, PowerAfter, Requested, ResetAfter, Board.Valid;
    b.SetPower(value);
    ret := Access(b.env);
  }

  /** Give PERST its saved configuration back. */
  method RestoreReset(b: Board) returns (ret: int)
    requires b.Valid() && Radio in b.open && Below(b.open, Link) && !PowerAfter(b.trace).Unverified?
    modifies b`hw, b`writes, b`trace
    ensures b.Valid() && ret <= 0
    ensures b.hw == if b.env.takes(old(b.writes)) then old(b.hw).(perst := PERST_SAVED) else old(b.hw)
    ensures ret == 0 ==> b.hw.perst == PERST_SAVED
    ensures ResetAfter(b.trace).Idle?
    ensures Requested(b.trace) == Requested(old(b.trace)) && PowerAfter(b.trace) == PowerAfter(old(b.trace))
    ensures Orderly(b.env) ==> ret == 0
  {
    hide Replay, PowerAfter, Requested, ResetAfter, Board.Valid;
    b.GivePerstBack();
    ret := Access(b.env);
    if ret == 0 {
      ret := ReadEqual(b.env, b.hw.perst, PERST_SAVED);
    }
  }

  /** The exact baseline the pulse accepts. */
  method Baseline(b: Board) returns (ret: int)
    requires b.Valid()
    modifies b`trace
    ensures b.Valid()
    ensures ret == 0 ==> b.hw.perst == PERST_SAVED && b.hw.radio == 0 && PowerAfter(b.trace).Off?
    ensures Requested(b.trace) == Requested(old(b.trace))
    ensures (Flawless(b.env) && b.hw.perst == PERST_SAVED && b.hw.radio == 0) ==> ret == 0
  {
    hide Replay, PowerAfter, Requested, ResetAfter, Board.Valid;
    ret := Call(b.env);
    if ret != 0 {
      return;
    }
    var reset, power;
    ret, reset := RegmapRead(b.env, b.hw.perst);
    if ret != 0 {
      return;
    }
    ret, power := RegmapRead(b.env, b.hw.radio);
    if ret != 0 {
      return;
    }
    b.Note(PowerRead(power));
    if reset != PERST_SAVED || power != 0 {
      return EBUSY;
    }
    ret := ReadEqual(b.env, b.hw.perst, reset);
    if ret == 0 {
      ret := Call(b.env);
    }
  }

  /** Hold PERST, power the radio, observe, power off; PERST gets its configuration back exactly when the radio
      was never powered or has been read back as off. */
  method Pulse(b: Board, o: Options, pulse: bool) returns (ret: int)
    requires b.Valid() && Below(b.open, Radio) && Phy in b.open
    requires b.scanDart ==> Dart in b.open
    requires b.scanMsi ==> MsiDomain in b.open
    modifies b`hw, b`writes, b`open, b`trace, b`lost, b`around, b`owed, b`reached
    ensures b.Valid() && b.open == old(b.open) && b.owed == old(b.owed)
    ensures b.hw == old(b.hw).(ltssm := b.hw.ltssm, buses := b.hw.buses, hostNode := b.hw.hostNode,
                               perst := b.hw.perst, radio := b.hw.radio)
    ensures ret == 0 || !pulse || (Orderly(b.env) && Tellable(old(b.hw.ltssm))) ==> b.hw == old(b.hw)
    ensures (forall n: nat :: b.env.takes(n)) && !PowerAfter(b.trace).Unverified? ==> b.hw.perst == old(b.hw.perst)
    ensures ret == 0 ==> b.lost == old(b.lost)
    ensures StillAround(old(b.around), b.around, b.open, {})
    ensures Came(old(b.reached), b.reached, if pulse then RadioMarks(o) else {}, ret)
    ensures (Flawless(b.env) && Published(o, b.scanDart, b.scanMsi) && RadioReady(old(b.hw), b.scanDart)) ==> ret == 0
    ensures ret == 0 ==> old(b.hw.perst) == PERST_SAVED && old(b.hw.radio) == 0
  {
    hide Replay, PowerAfter, Requested, ResetAfter, Board.Valid, Below, Supported, Published, EndpointReady, RadioMarks, Orderly,
         StillAround, Tellable;
    SameAround(b.around, b.open);
    Deeper(b.open, Radio);
    RestIsOff(b);
    ret := Baseline(b);
    if ret != 0 || !pulse {
      return;
    }
    ret := Call(b.env);
    if ret == 0 {
      ret := RadioLifetime(b, o);
    }
  }

  /** From driving PERST low to giving it back. */
  method RadioLifetime(b: Board, o: Options) returns (ret: int)
    requires b.Valid() && Below(b.open, Radio) && Phy in b.open
    requires PowerAfter(b.trace).Off? && Requested(b.trace) == 0 && b.hw.perst == PERST_SAVED && b.hw.radio == 0
    requires b.scanDart ==> Dart in b.open
    requires b.scanMsi ==> MsiDomain in b.open
    modifies b`hw, b`writes, b`open, b`trace, b`lost, b`around, b`owed, b`reached
    ensures b.Valid() && b.open == old(b.open) && b.owed == old(b.owed)
    ensures b.hw == old(b.hw).(ltssm := b.hw.ltssm, buses := b.hw.buses, hostNode := b.hw.hostNode,
                               perst := b.hw.perst, radio := b.hw.radio)
    ensures ret == 0 || (Orderly(b.env) && Tellable(old(b.hw.ltssm))) ==> b.hw == old(b.hw)
    ensures (forall n: nat :: b.env.takes(n)) && !PowerAfter(b.trace).Unverified? ==> b.hw.perst == PERST_SAVED
    ensures ret == 0 ==> b.lost == old(b.lost)
    ensures StillAround(old(b.around), b.around, b.open, {})
    ensures Came(old(b.reached), b.reached, RadioMarks(o), ret)
    ensures (Flawless(b.env) && Published(o, b.scanDart, b.scanMsi)
             && EndpointReady(old(b.hw.buses), old(b.hw.hostNode), b.scanDart)
             && old(b.hw.ltssm) % 2 == 0 && Tellable(old(b.hw.ltssm))) ==> ret == 0
  {
    hide Replay, PowerAfter, Requested, ResetAfter, Board.Valid, Below, Supported, Published, EndpointReady, PoweredMarks, RadioMarks,
         Orderly, Tellable, StillAround, Came;
    ghost var stack := b.open;
    Deeper(stack, Radio);
    b.Enter(Radio);
    ret := OnAndOff(b, o);
    RadioInside(old(b.reached), b.reached, o, ret);
    AroundInside(old(b.around), b.around, stack, Radio);
    b.Leave(Radio);
  }

  /** What a pulse adds to opening the radio layer. */
  function PoweredMarks(o: Options): set<Milestone> {
    {Powered} + if o.trainLink then LinkMarks(o) else {}
  }

  /** The forward half and the rollback, which follows whatever went wrong. */
  method OnAndOff(b: Board, o: Options) returns (ret: int)
    requires b.Valid() && Below(b.open, Link) && Radio in b.open
    requires PowerAfter(b.trace).Off? && Requested(b.trace) == 0 && b.hw.perst == PERST_SAVED && b.hw.radio == 0
    requires b.scanDart ==> Dart in b.open
    requires b.scanMsi ==> MsiDomain in b.open
    modifies b`hw, b`writes, b`open, b`trace, b`lost, b`around, b`owed, b`reached
    ensures b.Valid() && b.open == old(b.open) && b.owed == old(b.owed)
    ensures b.hw == old(b.hw).(ltssm := b.hw.ltssm, buses := b.hw.buses, hostNode := b.hw.hostNode,
                               perst := b.hw.perst, radio := b.hw.radio)
    ensures ret == 0 || (Orderly(b.env) && Tellable(old(b.hw.ltssm))) ==> b.hw == old(b.hw)
    ensures Requested(b.trace) == 0 && (PowerAfter(b.trace).Unverified? <==> !ResetAfter(b.trace).Idle?)
    ensures (forall n: nat :: b.env.takes(n)) && !PowerAfter(b.trace).Unverified? ==> b.hw.perst == PERST_SAVED
    ensures ret == 0 ==> b.lost == old(b.lost)
    ensures StillAround(old(b.around), b.around, b.open, {})
    ensures Came(old(b.reached), b.reached, PoweredMarks(o), ret)
    ensures (Flawless(b.env) && Published(o, b.scanDart, b.scanMsi)
             && EndpointReady(old(b.hw.buses), old(b.hw.hostNode), b.scanDart)
             && old(b.hw.ltssm) % 2 == 0 && Tellable(old(b.hw.ltssm))) ==> ret == 0
  {
    hide Replay, PowerAfter, Requested, ResetAfter, Board.Valid, Below, Supported, Published, EndpointReady, PoweredMarks, Orderly,
         Tellable, StillAround, Came;
    var touched;
    ret, touched := PowerOn(b, o);
    ghost var before := ret;
    ret := PowerOff(b, ret, touched);
    if ret != before {
      CameAnyway(old(b.reached), b.reached, PoweredMarks(o), before, ret);
    }
  }

  lemma RadioInside(before: set<Milestone>, after: set<Milestone>, o: Options, ret: int)
    requires Came(before + {Opened(Radio)}, after, PoweredMarks(o), ret)
    ensures Came(before, after, RadioMarks(o), ret)
  {
    hide LinkMarks;
  }

  /** The rollback half: power off if the radio may be on, and give PERST its configuration back if it is seen off,
      whatever went wrong before. */
  method PowerOff(b: Board, before: int, touched: bool) returns (ret: int)
    requires b.Valid() && Radio in b.open && Below(b.open, Link)
    requires touched ==> ResetAfter(b.trace).Held? || ResetAfter(b.trace).Lost?
    requires !touched ==> PowerAfter(b.trace).Off? && Requested(b.trace) == 0
    modifies b`hw, b`writes, b`trace, b`reached
    ensures b.Valid() && b.hw == old(b.hw).(perst := b.hw.perst, radio := b.hw.radio) && b.reached == old(b.reached)
    ensures Requested(b.trace) == 0 && (PowerAfter(b.trace).Unverified? <==> !ResetAfter(b.trace).Idle?)
    ensures ret == 0 ==> before == 0 && b.hw.perst == PERST_SAVED && (touched ==> b.hw.radio == 0)
    ensures !touched ==> b.hw.radio == old(b.hw.radio)
    ensures (forall n: nat :: b.env.takes(n)) && !PowerAfter(b.trace).Unverified? ==> b.hw.perst == PERST_SAVED
    ensures Orderly(b.env) ==> ret == before && b.hw.perst == PERST_SAVED && (touched ==> b.hw.radio == 0)
  {
    hide Replay, PowerAfter, Requested, ResetAfter, Board.Valid, Below, Supported;
    ret := before;
    if touched {
      var rollback := WritePower(b, 0);
      if rollback == 0 {
        rollback := ReadPower(b, 0);
      }
      if rollback != 0 {
        return rollback;
      }
    }
    var rollback := RestoreReset(b);
    if rollback != 0 {
      ret := rollback;
    }
  }

  /** The forward half; `touched` says whether the radio may have been powered. */
  method PowerOn(b: Board, o: Options) returns (ret: int, touched: bool)
    requires b.Valid() && Below(b.open, Link) && Radio in b.open && PowerAfter(b.trace).Off?
    requires b.scanDart ==> Dart in b.open
    requires b.scanMsi ==> MsiDomain in b.open
    modifies b`hw, b`writes, b`open, b`trace, b`lost, b`around, b`owed, b`reached
    ensures b.Valid() && b.open == old(b.open) && b.owed == old(b.owed)
    ensures b.hw == old(b.hw).(ltssm := b.hw.ltssm, buses := b.hw.buses, hostNode := b.hw.hostNode,
                               perst := b.hw.perst, radio := b.hw.radio)
    ensures !touched ==> PowerAfter(b.trace).Off? && b.hw.radio == old(b.hw.radio)
    ensures touched ==> ResetAfter(b.trace).Held? || (ResetAfter(b.trace).Lost? && ret != 0)
    ensures !touched ==> Requested(b.trace) == Requested(old(b.trace))
    ensures ret == 0 ==> b.lost == old(b.lost) && touched
    ensures ret == 0 || (Orderly(b.env) && Tellable(old(b.hw.ltssm))) ==> b.hw == old(b.hw).(perst := b.hw.perst, radio := b.hw.radio)
    ensures StillAround(old(b.around), b.around, b.open, {})
    ensures Came(old(b.reached), b.reached, PoweredMarks(o), ret)
    ensures (Flawless(b.env) && Published(o, b.scanDart, b.scanMsi) && EndpointReady(old(b.hw.buses), old(b.hw.hostNode), b.scanDart)
             && old(b.hw.ltssm) % 2 == 0 && Tellable(old(b.hw.ltssm))) ==> ret == 0
  {
    hide Replay, PowerAfter, Requested, ResetAfter, Board.Valid, Below, Supported, StillAround, Published, LinkMarks,
         EndpointReady, Tellable, Orderly;
    SameAround(b.around, b.open);
    BelowMore(b.open);
    touched := false;
    ret := HoldReset(b);
    if ret != 0 {
      return;
    }
    touched := true;
    ret := PowerUp(b);
    if ret == 0 {
      ret := HeldRadio(b, o);
    }
  }

  /** Power the radio with PERST held, and see that both took. */
  method PowerUp(b: Board) returns (ret: int)
    requires b.Valid() && Below(b.open, Link) && Radio in b.open && ResetAfter(b.trace).Held? && b.hw.perst == PERST_LOW
    modifies b`hw, b`writes, b`trace, b`lost, b`reached
    ensures b.Valid() && b.hw == old(b.hw).(radio := b.hw.radio) && (ret == 0 ==> b.hw.radio == RADIO_ON)
    ensures ResetAfter(b.trace).Held? || (ResetAfter(b.trace).Lost? && ret != 0)
    ensures ret == 0 ==> b.lost == old(b.lost)
    ensures b.reached == old(b.reached) + {Powered}
    ensures Flawless(b.env) ==> ret == 0
  {
    hide Replay, PowerAfter, Requested, ResetAfter, Board.Valid, Below, Supported;
    BelowMore(b.open);
    ret := WritePower(b, RADIO_ON);
    if ret == 0 {
      ret := ReadPower(b, RADIO_ON);
    }
    if ret == 0 {
      ret := CheckReset(b, 0);
    }
    if ret == 0 {
      ret := Call(b.env);
    }
  }
}
