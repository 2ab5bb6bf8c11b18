/** The MSI domain of port 1 and its self test (a1625_msi.h, lines 108-213). */
module MsiPort {
  import opened Errno
  import opened BoardState
  import opened ProbeOptions
  import opened MsiAllocator
  import DartLifetime
  import RadioStage

  const ENABLE: Word := 0x31
  const VECTORS: Word := 0x0008_0008

  /** A number under which no interrupt is known. */
  method Unused(hwirq: Numbers) returns (virq: nat)
    ensures virq !in hwirq
  {
    virq := 0;
    ghost var rest := hwirq.Keys;
    while virq in hwirq
      invariant forall v :: v in hwirq && v >= virq ==> v in rest
      decreases |rest|
    {
      rest := rest - {virq};
      virq := virq + 1;
    }
  }

  /** irq_domain_alloc_irqs for one interrupt, under some number the kernel has not handed out: the lowest slot. */
  method AllocOne(e: Environment, msi: Msi) returns (ret: int, virq: nat)
    requires msi.Valid()
    modifies msi
    ensures msi.Valid() && ret <= 0
    ensures ret == 0 ==> virq !in old(msi.hwirq) && virq in msi.hwirq && msi.hwirq.Keys == old(msi.hwirq).Keys + {virq}
    ensures ret == 0 ==> forall n: nat :: n < SLOTS && FirstUsed(old(msi.used), n) ==>
      FirstUsed(msi.used, n + 1) && msi.hwirq[virq] == 8 + n
    ensures ret != 0 ==> msi.hwirq == old(msi.hwirq) && msi.used == old(msi.used)
    ensures msi.handed == old(msi.handed) + if ret == 0 then 1 else 0
    ensures e.smooth && (exists n: nat :: n < SLOTS && FirstUsed(msi.used, n)) ==> ret == 0
  {
    hide Wired, Owned, Whole, Room, FreeRegion, FirstUsed;
    virq := Unused(msi.hwirq);
    virq :| virq !in msi.hwirq;
    var parent := Call(e);
    ghost var r;
    ret, r := msi.Alloc(virq, 1, parent);
    forall n: nat | n < SLOTS && FirstUsed(old(msi.used), n)
      ensures Room(old(msi.used), 1)
      ensures ret == 0 ==> r.slot == n && FirstUsed(msi.used, n + 1)
    {
      LowestIsNext(old(msi.used), n);
      if ret == 0 {
        NextSlot(old(msi.used), n, r);
      }
    }
  }

  /** Exactly the first n slots are used. */
  predicate FirstUsed(used: Used, n: nat) {
    forall k :: 0 <= k < SLOTS ==> (used[k] <==> k < n)
  }

  lemma LowestIsNext(used: Used, n: nat)
    requires n < SLOTS && FirstUsed(used, n)
    ensures FreeRegion(used, Region(n, 1)) && Room(used, 1)
  {
    assert FreeRegion(used, Region(n, 1));
  }

  lemma NextSlot(used: Used, n: nat, r: Region)
    requires n < SLOTS && FirstUsed(used, n) && FreeRegion(used, r) && r.count == 1
    requires forall p: nat :: p < r.slot ==> !FreeRegion(used, Region(p, 1))
    ensures r.slot == n && FirstUsed(Mark(used, r, true), n + 1)
  {
    LowestIsNext(used, n);
    assert !used[r.slot];
  }

  /** The numbers from the i-th on are all the live interrupts. */
  ghost predicate Left(hwirq: Numbers, irqs: seq<nat>, i: nat) {
    && i <= |irqs|
    && (forall j :: i <= j < |irqs| ==> irqs[j] in hwirq)
    && (forall j, k :: i <= j < k < |irqs| ==> irqs[j] != irqs[k])
    && (forall v :: v in hwirq ==> exists j :: i <= j < |irqs| && irqs[j] == v)
  }

  lemma OneGone(hwirq: Numbers, irqs: seq<nat>, i: nat)
    requires Left(hwirq, irqs, i) && i < |irqs|
    ensures irqs[i] in hwirq && Left(Without(hwirq, irqs[i], 1), irqs, i + 1)
  {
  }

  lemma OneMoreLeft(before: Numbers, after: Numbers, irqs: seq<nat>, v: nat)
    requires Left(before, irqs, 0) && v !in before && after.Keys == before.Keys + {v}
    ensures Left(after, irqs + [v], 0)
  {
    var all := irqs + [v];
    assert all[|irqs|] == v;
    forall w | w in after ensures exists j :: 0 <= j < |all| && all[j] == w {
      if w != v {
        var j :| 0 <= j < |irqs| && irqs[j] == w;
        assert all[j] == w;
      }
    }
  }

  lemma NoneLeft(hwirq: Numbers, irqs: seq<nat>)
    ensures hwirq == map[] ==> Left(hwirq, [], 0)
    ensures Left(hwirq, irqs, |irqs|) ==> hwirq == map[]
  {
  }

  /** Give back every interrupt of the test, in order. */
  method FreeAll(msi: Msi, irqs: seq<nat>)
    requires msi.Valid() && Left(msi.hwirq, irqs, 0)
    modifies msi
    ensures msi.Valid() && msi.hwirq == map[] && msi.handed == old(msi.handed)
  {
    hide Msi.Valid, Left, Without, Gone, Cleared, Unfreed, Whole;
    for i := 0 to |irqs|
      invariant msi.Valid() && Left(msi.hwirq, irqs, i) && msi.handed == old(msi.handed)
    {
      OneGone(msi.hwirq, irqs, i);
      msi.Free(irqs[i], 1);
    }
    NoneLeft(msi.hwirq, irqs);
  }

  /** Eight single allocations, each checked, then all freed whatever the checks said. The messages are always the
      expected ones: only the kernel can make the test fail. */
  method SelfTest(e: Environment, msi: Msi) returns (ret: int)
    requires msi.Valid() && msi.hwirq == map[]
    modifies msi
    ensures msi.Valid() && msi.hwirq == map[]
    ensures ret == 0 ==> msi.handed == old(msi.handed) + 8
    ensures e.smooth ==> ret == 0
  {
    hide Msi.Valid, Left, FirstUsed;
    var irqs: seq<nat> := [];
    NoneLeft(msi.hwirq, []);
    NoneUsed(msi);
    ret := 0;
    while ret == 0 && |irqs| < 8
      invariant msi.Valid() && Left(msi.hwirq, irqs, 0) && |irqs| <= 8
      invariant FirstUsed(msi.used, |irqs|) && (e.smooth ==> ret == 0)
      invariant ret == 0 ==> msi.handed == old(msi.handed) + |irqs|
      decreases if ret == 0 then 9 - |irqs| else 0
    {
      ghost var before := msi.hwirq;
      var virq;
      ret, virq := AllocOne(e, msi);
      if ret == 0 {
        OneMoreLeft(before, msi.hwirq, irqs, virq);
        var message := msi.hwirq[virq];
        assert message == 8 + |irqs|;
        var composed := Check(e);
        if message != 8 + |irqs| || !composed {
          ret := EIO;
        }
        irqs := irqs + [virq];
      }
    }
    FreeAll(msi, irqs);
  }

  lemma NoneUsed(msi: Msi)
    requires msi.Valid() && msi.hwirq == map[]
    ensures FirstUsed(msi.used, 0)
  {
    UnusedIffNothingLive(msi.used, msi.hwirq);
  }

  /** What the endpoint and its driver may have left allocated. */
  method Leftovers(e: Environment, msi: Msi)
    requires msi.Valid()
    modifies msi
    ensures msi.Valid() && msi.handed >= old(msi.handed)
    ensures e.smooth ==> msi.hwirq == old(msi.hwirq)
  {
    hide Wired, Owned, Whole;
    for i := 0 to SLOTS
      invariant msi.Valid() && msi.handed >= old(msi.handed)
      invariant e.smooth ==> msi.hwirq == old(msi.hwirq)
    {
      var freed := Check(e);
      if !freed {
        var ret, virq := AllocOne(e, msi);
      }
    }
  }

  /** The domain has handed out all eight interrupts at least once, and none is left. */
  ghost predicate Tested(msi: Msi?)
    reads msi
  {
    msi != null && msi.hwirq == map[] && msi.handed >= 8
  }

  /** msi.used at the end of the domain's life. */
  method Leaked(msi: Msi) returns (leaked: bool)
    requires msi.Valid()
    ensures leaked <==> msi.hwirq != map[]
  {
    leaked := false;
    for i := 0 to SLOTS
      invariant leaked <==> exists k :: 0 <= k < i && msi.used[k]
    {
      leaked := leaked || msi.used[i];
    }
    UnusedIffNothingLive(msi.used, msi.hwirq);
  }

  /** The milestones of an MSI domain's life. */
  function MsiMarks(o: Options, operate: bool): set<Milestone> {
    {Opened(MsiDomain)} + if operate then DartLifetime.DartMarks(o, DartLifetime.PowerRadio) else {}
  }

  /** Hardware that the MSI domain and what runs inside it accept. */
  predicate MsiReady(hw: Hardware, o: Options, operate: bool) {
    && hw.msiControl == 0 && hw.msiBase == 0
    && (operate ==> !hw.dartNode && DartLifetime.InsideReady(hw, o, DartLifetime.PowerRadio, true))
  }

  /** Write the two port registers; `ok` says that both read back. */
  method Program(b: Board) returns (ok: bool)
    requires b.Valid() && Phy in b.open && MsiControl !in b.owed && MsiBase !in b.owed
    modifies b`hw, b`writes, b`trace, b`owed
    ensures b.Valid() && b.hw == old(b.hw).(msiControl := b.hw.msiControl, msiBase := b.hw.msiBase)
    ensures b.owed == old(b.owed)[MsiControl := 0][MsiBase := 0]
    ensures ok ==> b.hw.msiControl == ENABLE && b.hw.msiBase == VECTORS
    ensures Orderly(b.env) ==> ok
  {
    hide Replay, PowerAfter, Requested, ResetAfter, Board.Valid;
    b.ChangeReg(MsiControl, 0, ENABLE);
    b.ChangeReg(MsiBase, 0, VECTORS);
    var observed := Sample(b.env, b.hw.msiControl);
    var also := Sample(b.env, b.hw.msiBase);
    return observed == ENABLE && also == VECTORS;
  }

  /** Write both port registers back; `ok` says that both read back. */
  method Unprogram(b: Board) returns (ok: bool)
    requires b.Valid() && Phy in b.open && Below(b.open, MsiDomain)
    requires MsiControl in b.owed && b.owed[MsiControl] == 0 && MsiBase in b.owed && b.owed[MsiBase] == 0
    modifies b`hw, b`writes, b`trace, b`owed
    ensures b.Valid() && b.hw == old(b.hw).(msiControl := b.hw.msiControl, msiBase := b.hw.msiBase)
    ensures b.owed == old(b.owed) - {MsiControl, MsiBase}
    ensures ok || Orderly(b.env) ==> b.hw.msiControl == 0 && b.hw.msiBase == 0
    ensures Orderly(b.env) ==> ok
  {
    hide Replay, PowerAfter, Requested, ResetAfter, Board.Valid;
    b.UndoReg(MsiControl, 0);
    b.UndoReg(MsiBase, 0);
    var observed := Sample(b.env, b.hw.msiControl);
    var also := Sample(b.env, b.hw.msiBase);
    return observed == 0 && also == 0;
  }

  /** The domain and the port registers from creation to restoration. A result of 0 means that the registers are
      as they were and that no interrupt of the domain is left. */
  method WithMsi(b: Board, o: Options, operate: bool) returns (ret: int, msi: Msi?)
    requires b.Valid() && Below(b.open, MsiDomain) && Phy in b.open && !b.scanDart && !b.scanMsi
    requires MsiControl !in b.owed && MsiBase !in b.owed
    modifies b`hw, b`writes, b`open, b`trace, b`lost, b`around, b`owed, b`reached, b`scanDart, b`scanMsi
    ensures b.Valid() && b.open == old(b.open) && b.owed == old(b.owed) && !b.scanDart && !b.scanMsi
    ensures b.hw == old(b.hw).(ltssm := b.hw.ltssm, buses := b.hw.buses, hostNode := b.hw.hostNode, perst := b.hw.perst,
                               radio := b.hw.radio, dartNode := b.hw.dartNode, msiControl := b.hw.msiControl, msiBase := b.hw.msiBase)
    ensures ret == 0 ==> b.hw == old(b.hw) && Tested(msi)
    ensures Orderly(b.env) && RadioStage.Tellable(old(b.hw.ltssm)) ==> b.hw == old(b.hw)
    ensures ret == 0 ==> b.lost == old(b.lost)
    ensures StillAround(old(b.around), b.around, b.open, {Dart, MsiDomain})
    ensures RadioStage.Came(old(b.reached), b.reached, MsiMarks(o, operate), ret)
    ensures (Flawless(b.env) && MsiReady(old(b.hw), o, operate) && RadioStage.Tellable(old(b.hw.ltssm))) ==> ret == 0
  {
    hide Replay, PowerAfter, Requested, ResetAfter, Board.Valid, Msi.Valid, StillAround, MsiMarks, RadioStage.Tellable,
         DartLifetime.InsideReady, Below, Supported;
    StillSame(b.around, b.open);
    SamePort(b.hw);
    msi := null;
    var control := Sample(b.env, b.hw.msiControl);
    var base := Sample(b.env, b.hw.msiBase);
    var compatible := Check(b.env);
    if !compatible || control != 0 || base != 0 {
      return EBUSY, msi;
    }
    ret := Call(b.env);
    if ret == 0 {
      ret, msi := Lifetime(b, o, operate);
    }
  }

  /** From the domain's creation to the registers' restoration. */
  method Lifetime(b: Board, o: Options, operate: bool) returns (ret: int, msi: Msi?)
    requires b.Valid() && Below(b.open, MsiDomain) && Phy in b.open && !b.scanDart && !b.scanMsi
    requires MsiControl !in b.owed && MsiBase !in b.owed && b.hw.msiControl == 0 && b.hw.msiBase == 0
    modifies b`hw, b`writes, b`open, b`trace, b`lost, b`around, b`owed, b`reached, b`scanDart, b`scanMsi
    ensures b.Valid() && b.open == old(b.open) && b.owed == old(b.owed) && !b.scanDart && !b.scanMsi
    ensures b.hw == old(b.hw).(ltssm := b.hw.ltssm, buses := b.hw.buses, hostNode := b.hw.hostNode, perst := b.hw.perst,
                               radio := b.hw.radio, dartNode := b.hw.dartNode, msiControl := b.hw.msiControl, msiBase := b.hw.msiBase)
    ensures ret == 0 ==> b.hw == old(b.hw) && Tested(msi)
    ensures Orderly(b.env) && RadioStage.Tellable(old(b.hw.ltssm)) ==> b.hw == old(b.hw)
    ensures ret == 0 ==> b.lost == old(b.lost)
    ensures StillAround(old(b.around), b.around, b.open, {Dart, MsiDomain})
    ensures RadioStage.Came(old(b.reached), b.reached, MsiMarks(o, operate), ret)
    ensures (Flawless(b.env) && MsiReady(old(b.hw), o, operate) && RadioStage.Tellable(old(b.hw.ltssm))) ==> ret == 0
  {
    hide Replay, PowerAfter, Requested, ResetAfter, Board.Valid, Msi.Valid, RadioStage.Tellable, DartLifetime.DartMarks, MsiReady,
         Below, Supported, Orderly;
    DomainOpens(b.open);
    SamePort(b.hw);
    b.Enter(MsiDomain);
    ret, msi := Live(b, o, operate);
    b.Leave(MsiDomain);
    var ok := Unprogram(b);
    if !ok {
      ret := EIO;
    }
  }

  lemma DomainOpens(stack: seq<Layer>)
    requires Below(stack, MsiDomain) && Phy in stack
    ensures Supported(stack, MsiDomain) && Below(stack + [MsiDomain], Dart)
  {
  }

  lemma StillSame(around: set<Layer>, stack: seq<Layer>)
    ensures StillAround(around, around, stack, {Dart, MsiDomain})
  {
  }

  /** The life of the domain itself. */
  method Live(b: Board, o: Options, operate: bool) returns (ret: int, msi: Msi?)
    requires b.Valid() && Below(b.open, Dart) && Phy in b.open && MsiDomain in b.open && !b.scanDart && !b.scanMsi
    requires MsiControl !in b.owed && MsiBase !in b.owed
    modifies b`hw, b`writes, b`open, b`trace, b`lost, b`around, b`owed, b`reached, b`scanDart, b`scanMsi
    ensures b.Valid() && b.open == old(b.open) && b.owed == old(b.owed)[MsiControl := 0][MsiBase := 0] && !b.scanDart && !b.scanMsi
    ensures b.hw == old(b.hw).(ltssm := b.hw.ltssm, buses := b.hw.buses, hostNode := b.hw.hostNode, perst := b.hw.perst,
                               radio := b.hw.radio, dartNode := b.hw.dartNode, msiControl := b.hw.msiControl, msiBase := b.hw.msiBase)
    ensures ret == 0 ==> Tested(msi)
    ensures ret == 0 || (Orderly(b.env) && RadioStage.Tellable(old(b.hw.ltssm))) ==>
      b.hw == old(b.hw).(msiControl := b.hw.msiControl, msiBase := b.hw.msiBase)
    ensures ret == 0 ==> b.lost == old(b.lost)
    ensures StillAround(old(b.around), b.around, b.open, {Dart})
    ensures RadioStage.Came(old(b.reached), b.reached, if operate then DartLifetime.DartMarks(o, DartLifetime.PowerRadio) else {}, ret)
    ensures (Flawless(b.env) && MsiReady(old(b.hw), o, operate)) ==> ret == 0
  {
    hide Replay, PowerAfter, Requested, ResetAfter, Board.Valid, Msi.Valid, StillAround, RadioStage.Tellable, DartLifetime.DartMarks,
         Below, Supported;
    SameHere(b.around, b.open);
    var domain := new Msi();
    msi := domain;
    var ok := Program(b);
    ret := EIO;
    if ok {
      ret := SelfTest(b.env, domain);
      if ret == 0 && operate {
        b.scanMsi := true;
        ret := DartLifetime.WithDart(b, o, DartLifetime.PowerRadio);
        b.scanMsi := false;
        Leftovers(b.env, domain);
      }
    }
    var leaked := Leaked(domain);
    var unmapped := Check(b.env);
    if leaked || !unmapped {
      ret := EIO;
    }
  }

  lemma SameHere(around: set<Layer>, stack: seq<Layer>)
    ensures StillAround(around, around, stack, {Dart})
  {
  }

  lemma SamePort(h: Hardware)
    ensures h.(msiControl := h.msiControl, msiBase := h.msiBase) == h
  {
  }
}
