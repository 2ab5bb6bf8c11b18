/** The temporary DART device and its device tree node (a1625_dart_lifetime.h, lines 18-144). */
module DartLifetime {
  import opened Errno
  import opened BoardState
  import opened ProbeOptions
  import RadioStage

  /** What runs while the device is bound. */
  datatype Inside = Nothing | MapPage | PowerRadio

  /** The milestones of a DART lifetime with this inside it. */
  function DartMarks(o: Options, inside: Inside): set<Milestone> {
    {Opened(Dart)} + if inside.PowerRadio? then RadioStage.RadioMarks(o) else {}
  }

  /** What is inside finds everything it needs. */
  predicate InsideReady(hw: Hardware, o: Options, inside: Inside, msi: bool) {
    inside.PowerRadio? ==> RadioStage.Published(o, true, msi) && RadioStage.RadioReady(hw, true)
  }

  /** The node while it lives; `applied` says whether the changeset went in completely. */
  method Attach(b: Board, inside: Inside) returns (ret: int, applied: bool)
    requires b.Valid() && !b.hw.dartNode
    modifies b`hw
    ensures b.Valid() && b.hw == old(b.hw).(dartNode := b.hw.dartNode)
    ensures ret == 0 ==> applied && b.hw.dartNode
    ensures Flawless(b.env) ==> ret == 0
  {
    hide Replay, PowerAfter, Requested, ResetAfter, Board.Valid;
    applied := false;
    ret := Call(b.env);
    if ret == 0 && !inside.Nothing? {
      ret := Call(b.env);
    }
    if ret != 0 {
      return;
    }
    ret := Call(b.env);
    var attached := Choose();
    if ret == 0 {
      applied, attached := true, true;
    }
    b.hw := b.hw.(dartNode := attached);
  }

  /** Revert the changeset, and detach whatever is still attached. If detaching works the node is gone. */
  method Detach(b: Board, applied: bool) returns (cleanup: int)
    requires b.Valid() && Below(b.open, Dart)
    modifies b`hw, b`trace
    ensures b.Valid() && b.hw == old(b.hw).(dartNode := b.hw.dartNode)
    ensures cleanup == 0 || b.env.detaches ==> !b.hw.dartNode
    ensures Flawless(b.env) ==> cleanup == 0
  {
    hide Replay, PowerAfter, Requested, ResetAfter, Board.Valid;
    b.Note(WriteBack(Dart));
    cleanup := 0;
    if applied {
      cleanup := Call(b.env);
      var stays := Choose();
      b.hw := b.hw.(dartNode := b.hw.dartNode && (cleanup != 0 || stays));
    }
    if b.hw.dartNode {
      var detached := Detaching(b.env);
      if detached != 0 {
        cleanup := detached;
      } else {
        b.hw := b.hw.(dartNode := false);
      }
    }
  }

  /** The callback, with the device published to the PCI scan while the radio is up. */
  method Operate(b: Board, o: Options, inside: Inside) returns (ret: int)
    requires b.Valid() && Below(b.open, Radio) && Phy in b.open && Dart in b.open && !b.scanDart
    requires b.scanMsi ==> MsiDomain in b.open
    modifies b`hw, b`writes, b`open, b`trace, b`lost, b`around, b`owed, b`reached, b`scanDart
    ensures b.Valid() && b.open == old(b.open) && b.owed == old(b.owed) && !b.scanDart
    ensures b.hw == old(b.hw).(ltssm := b.hw.ltssm, buses := b.hw.buses, hostNode := b.hw.hostNode,
                               perst := b.hw.perst, radio := b.hw.radio)
    ensures ret == 0 || (Orderly(b.env) && RadioStage.Tellable(old(b.hw.ltssm))) ==> b.hw == old(b.hw)
    ensures ret == 0 ==> b.lost == old(b.lost)
    ensures StillAround(old(b.around), b.around, b.open, {})
    ensures RadioStage.Came(old(b.reached), b.reached, if inside.PowerRadio? then RadioStage.RadioMarks(o) else {}, ret)
    ensures (Flawless(b.env) && InsideReady(old(b.hw), o, inside, b.scanMsi)) ==> ret == 0
  {
    hide Replay, PowerAfter, Requested, ResetAfter, Board.Valid, StillAround, RadioStage.RadioMarks, RadioStage.Published, RadioStage.RadioReady;
    SameAround(b.around, b.open);
    match inside {
      case Nothing =>
        ret := 0;
      case MapPage =>
        ret := Call(b.env);
      case PowerRadio =>
        b.scanDart := true;
        ret := RadioStage.Pulse(b, o, true);
        b.scanDart := false;
    }
  }

  /** Register the device, run the callback, and take everything down again. Whatever happens the device is gone at
      the end; the node is gone too when the result is 0 or detaching works. */
  method WithDart(b: Board, o: Options, inside: Inside) returns (ret: int)
    requires b.Valid() && Below(b.open, Dart) && Phy in b.open && !b.scanDart
    requires b.scanMsi ==> MsiDomain in b.open
    modifies b`hw, b`writes, b`open, b`trace, b`lost, b`around, b`owed, b`reached, b`scanDart
    ensures b.Valid() && b.open == old(b.open) && b.owed == old(b.owed) && !b.scanDart
    ensures b.hw == old(b.hw).(ltssm := b.hw.ltssm, buses := b.hw.buses, hostNode := b.hw.hostNode,
                               perst := b.hw.perst, radio := b.hw.radio, dartNode := b.hw.dartNode)
    ensures ret == 0 || (Orderly(b.env) && RadioStage.Tellable(old(b.hw.ltssm))) ==> b.hw == old(b.hw)
    ensures ret == 0 ==> b.lost == old(b.lost)
    ensures StillAround(old(b.around), b.around, b.open, {Dart})
    ensures RadioStage.Came(old(b.reached), b.reached, DartMarks(o, inside), ret)
    ensures (Flawless(b.env) && !old(b.hw.dartNode) && InsideReady(old(b.hw), o, inside, b.scanMsi)) ==> ret == 0
  {
    hide Replay, PowerAfter, Requested, ResetAfter, Board.Valid, Below, Supported, StillAround, DartMarks, RadioStage.Tellable;
    StillSame(b.around, b.open);
    if b.hw.dartNode {
      return EBUSY;
    }
    ret := Call(b.env);
    if ret != 0 {
      return;
    }
    var applied;
    ret, applied := Attach(b, inside);
    SameInside(old(b.hw), b.hw.dartNode, o, inside, b.scanMsi);
    if ret == 0 {
      ret := Bound(b, o, inside);
    }
    var cleanup := Detach(b, applied);
    if cleanup != 0 {
      ret := cleanup;
    }
    SameNode(old(b.hw));
  }

  lemma StillSame(around: set<Layer>, stack: seq<Layer>)
    ensures StillAround(around, around, stack, {Dart})
  {
  }

  lemma SameInside(hw: Hardware, node: bool, o: Options, inside: Inside, msi: bool)
    ensures InsideReady(hw.(dartNode := node), o, inside, msi) == InsideReady(hw, o, inside, msi)
  {
  }

  /** The platform device from creation to unregistration. */
  method Bound(b: Board, o: Options, inside: Inside) returns (ret: int)
    requires b.Valid() && Below(b.open, Dart) && Phy in b.open && !b.scanDart
    requires b.scanMsi ==> MsiDomain in b.open
    modifies b`hw, b`writes, b`open, b`trace, b`lost, b`around, b`owed, b`reached, b`scanDart
    ensures b.Valid() && b.open == old(b.open) && b.owed == old(b.owed) && !b.scanDart
    ensures b.hw == old(b.hw).(ltssm := b.hw.ltssm, buses := b.hw.buses, hostNode := b.hw.hostNode,
                               perst := b.hw.perst, radio := b.hw.radio)
    ensures ret == 0 || (Orderly(b.env) && RadioStage.Tellable(old(b.hw.ltssm))) ==> b.hw == old(b.hw)
    ensures ret == 0 ==> b.lost == old(b.lost)
    ensures StillAround(old(b.around), b.around, b.open, {Dart})
    ensures RadioStage.Came(old(b.reached), b.reached, DartMarks(o, inside), ret)
    ensures (Flawless(b.env) && InsideReady(old(b.hw), o, inside, b.scanMsi)) ==> ret == 0
  {
    hide Replay, PowerAfter, Requested, ResetAfter, Board.Valid, RadioStage.Tellable, InsideReady, RadioStage.RadioMarks, Orderly,
         StillAround, RadioStage.Came, Below, Supported;
    ghost var marks := if inside.PowerRadio? then RadioStage.RadioMarks(o) else {};
    RadioStage.CameNowhere(b.reached, DartMarks(o, inside), ENODEV);
    StillSame(b.around, b.open);
    ret := Call(b.env);
    if ret != 0 {
      RadioStage.CameAnyway(b.reached, b.reached, DartMarks(o, inside), ENODEV, ret);
      return;
    }
    var created := Check(b.env);
    if !created {
      return ENODEV;
    }
    ghost var stack := b.open;
    DeviceOpens(stack);
    b.Enter(Dart);
    ret := Call(b.env);
    SameAround(b.around, b.open);
    RadioStage.CameNowhere(b.reached, marks, ret);
    if ret == 0 {
      ret := Operate(b, o, inside);
    }
    RadioStage.CameInside(old(b.reached), Opened(Dart), b.reached, marks, ret);
    AroundInside(old(b.around), b.around, stack, Dart);
    b.Leave(Dart);
  }

  lemma DeviceOpens(stack: seq<Layer>)
    requires Below(stack, Dart) && Phy in stack
    ensures Supported(stack, Dart) && Below(stack + [Dart], Radio) && Dart in stack + [Dart] && Phy in stack + [Dart]
    ensures MsiDomain in stack ==> MsiDomain in stack + [Dart]
  {
  }

  lemma SameNode(h: Hardware)
    ensures h.(dartNode := h.dartNode) == h
  {
  }
}
