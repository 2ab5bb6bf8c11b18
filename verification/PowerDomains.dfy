/** The three power domains from baseline to verified release, and the module's entry point
    (a1625_pcie_domains.h, lines 26-184; a1625_pcie_domains.c, lines 521-584). */
module PowerDomains {
  import opened BoardState
  import opened ConfigSpace
  import opened Errno
  import opened ProbeOptions
  import PhyStage
  import PhySteps
  import RadioStage

  /** Any of the bits 0x900004ff: target or actual state, RESET, AUTO or DISABLE. */
  predicate Busy(reg: U32) {
    reg[31] || reg[28] || reg[10] || exists k :: 0 <= k < 8 && reg[k]
  }

  /** Target state on, and neither RESET nor DISABLE. */
  predicate Resumed(reg: U32) {
    reg[0] && reg[1] && reg[2] && reg[3] && !reg[31] && !reg[10]
  }

  predicate FullyOn(reg: U32) {
    forall k :: 0 <= k < 8 ==> reg[k]
  }

  /** The AUTO bit of a register's value. */
  function AutoOf(reg: U32): Word {
    if reg[28] then AUTO else 0
  }

  /** What the probe remembers of one domain. */
  datatype Probe = Probe(consumer: bool, attached: bool, resumed: bool, forced: bool, savedAuto: Word)

  const FRESH: Probe := Probe(false, false, false, false, 0)

  /** The layers of the first r domains. */
  function Stack(r: nat): seq<Layer>
    requires r <= 3
  {
    [Domain(0), Domain(1), Domain(2)][..r]
  }

  lemma StackMore(r: nat)
    requires r < 3
    ensures Stack(r + 1) == Stack(r) + [Domain(r)] && Below(Stack(r), Domain(r)) && Supported(Stack(r), Domain(r))
  {
    assert r > 0 ==> Stack(r)[r - 1] == Domain(r - 1);
  }

  /** The layer that comes after domain i. */
  function Further(i: nat): Layer {
    if i >= 2 then Phy else Domain(i + 1)
  }

  lemma StackBelow(i: nat)
    requires i < 3
    ensures Below(Stack(i + 1), Further(i))
  {
  }

  /** The first r domains are powered; consumers of the probe are new and registered. */
  ghost predicate Holding(ps: seq<Probe>, was: Consumers, now: Consumers, r: nat) {
    && |ps| == 3 && r <= 3
    && (forall j :: 0 <= j < 3 ==> (ps[j].resumed <==> j < r))
    && (forall j :: 0 <= j < 3 ==> (ps[j].resumed || ps[j].attached ==> ps[j].consumer) && (ps[j].forced ==> ps[j].resumed))
    && (forall j :: 0 <= j < 3 ==> if ps[j].consumer then now[j] && !was[j] else now[j] == was[j])
  }

  /** Exactly the forced ones of the first i domains owe their AUTO bit, with what it was. */
  ghost predicate Owing(ps: seq<Probe>, owed: map<Reg, Word>, i: nat) {
    && |ps| == 3 && i <= 3
    && (forall r :: r in owed ==> r.Auto? && r.domain < i)
    && (forall j :: 0 <= j < i ==>
          (ps[j].forced <==> Auto(j) in owed) && (ps[j].forced ==> owed[Auto(j)] == ps[j].savedAuto))
  }

  lemma OwedNothing(owed: map<Reg, Word>, ps: seq<Probe>)
    ensures Owing(ps, owed, 0) ==> owed == map[]
  {
  }

  lemma OwingMore(ps: seq<Probe>, owed: map<Reg, Word>, i: nat, q: Probe, value: Word)
    requires Owing(ps, owed, 3) && i < 3 && !ps[i].forced && q.forced && q.savedAuto == value
    ensures Auto(i) !in owed && Owing(ps[i := q], owed[Auto(i) := value], 3)
  {
  }

  lemma OwingLess(ps: seq<Probe>, owed: map<Reg, Word>, i: nat)
    requires i < 3 && Owing(ps, owed, i + 1)
    ensures Owing(ps, owed - {Auto(i)}, i)
    ensures !ps[i].forced ==> owed - {Auto(i)} == owed
    ensures ps[i].forced ==> Auto(i) in owed && owed[Auto(i)] == ps[i].savedAuto
  {
    if !ps[i].forced {
      assert Auto(i) !in owed;
    }
  }

  lemma OwingSame(ps: seq<Probe>, owed: map<Reg, Word>, i: nat, q: Probe)
    requires Owing(ps, owed, 3) && i < 3 && q.forced == ps[i].forced && q.savedAuto == ps[i].savedAuto
    ensures Owing(ps[i := q], owed, 3)
  {
  }

  /** The milestones of the first r domains. */
  function DomainMarks(r: nat): set<Milestone>
    requires r <= 3
  {
    set j: nat | j < r :: Opened(Domain(j))
  }

  lemma DomainMarksMore(r: nat)
    requires r < 3
    ensures DomainMarks(r + 1) == DomainMarks(r) + {Opened(Domain(r))}
    ensures DomainMarks(0) == {}
  {
  }

  /** The milestones of a whole run with these options. */
  function RunMarks(o: Options): set<Milestone> {
    DomainMarks(3) + if o.snapshot then PhyStage.PhyMarks(o) else {}
  }

  /** Which option asks for what: the domains always, and for each further layer the stage that opens it. */
  predicate Asked(o: Options, m: Milestone) {
    match m
    case Powered => o.pulseRadio
    case Opened(Domain(i)) => i < 3
    case Opened(Phy) => o.preparePort
    case Opened(MsiDomain) => o.probeMsi || o.scanMsi
    case Opened(Dart) => o.probeDart || o.scanIommu
    case Opened(Radio) => o.pulseRadio
    case Opened(Link) => o.trainLink
    case Opened(Host) => o.scanPci
    case Opened(Driver) => o.bindFirmware
  }

  /** In a run with accepted options, whatever is asked for at any depth is reached, and nothing else. */
  lemma RunMarksIff(o: Options, m: Milestone)
    requires Accepted(o)
    ensures m in RunMarks(o) <==> Asked(o, m)
  {
    FirmwareBringsEverything(o);
    PulseMarksIff(o, m);
  }

  lemma PulseMarksIff(o: Options, m: Milestone)
    requires Accepted(o)
    ensures o.pulseRadio ==> (m in RadioStage.RadioMarks(o) <==>
      (m == Powered || m == Opened(Radio) || (m == Opened(Link) && o.trainLink) || (m == Opened(Host) && o.scanPci)
       || (m == Opened(Driver) && o.bindFirmware)))
  {
  }

  // ---------- One domain ----------

  /** Look a domain up, register a consumer and attach it. */
  method AttachDomain(b: Board, p: Probe, i: nat) returns (ret: int, q: Probe)
    requires b.Valid() && i < 3 && p == FRESH
    modifies b`hw
    ensures b.Valid() && b.hw == old(b.hw).(consumers := b.hw.consumers)
    ensures b.hw.consumers == if q.consumer then old(b.hw.consumers)[i := true] else old(b.hw.consumers)
    ensures q.consumer ==> !old(b.hw.consumers[i])
    ensures q == FRESH.(consumer := q.consumer, attached := q.attached) && (q.attached ==> q.consumer)
    ensures ret == 0 ==> q.consumer && q.attached
    ensures Flawless(b.env) && !old(b.hw.consumers[i]) ==> ret == 0
  {
    hide Replay, PowerAfter, Requested, ResetAfter, Board.Valid;
    q := p;
    ret := Call(b.env);
    if ret != 0 {
      return;
    }
    if b.hw.consumers[i] {
      return EBUSY, q;
    }
    b.hw := b.hw.(consumers := b.hw.consumers[i := true]);
    q := q.(consumer := true);
    ret := Call(b.env);
    if ret == 0 {
      q := q.(attached := true);
    }
  }

  /** Power a domain and check that it came up. Power management may touch any of the three registers. */
  method ResumeDomain(b: Board, p: Probe, i: nat) returns (ret: int, q: Probe)
    requires b.Valid() && i < 3 && b.open == Stack(i) && !p.resumed && p.consumer
    requires i > 0 ==> b.reached == DomainMarks(i)
    modifies b`hw, b`open, b`trace, b`reached
    ensures b.Valid() && b.hw == old(b.hw).(domains := b.hw.domains)
    ensures q == p.(resumed := q.resumed) && b.open == if q.resumed then Stack(i + 1) else Stack(i)
    ensures b.reached == if q.resumed then DomainMarks(i + 1) else old(b.reached)
    ensures ret == 0 ==> q.resumed && Resumed(b.hw.domains[i])
    ensures Flawless(b.env) ==> ret == 0
  {
    hide Replay, PowerAfter, Requested, ResetAfter, Board.Valid, Stack, Resumed, DomainMarks;
    q := p;
    DomainMarksMore(i);
    StackSize(i);
    ManagePower(b, i, true);
    ret := Call(b.env);
    if ret != 0 {
      return;
    }
    StackMore(i);
    b.Enter(Domain(i));
    q := q.(resumed := true);
    var reg := b.hw.domains[i];
    ret := Access(b.env);
    if ret == 0 && !Resumed(reg) {
      ret := EIO;
    }
  }

  lemma StackSize(r: nat)
    requires r <= 3
    ensures |Stack(r)| == r
  {
  }

  /** A register that the hardware may have changed by itself. */
  method AnyWord() returns (w: U32) {
    w := *;
  }

  /** Runtime power management of domain i, up or down: it may touch all three registers. In a smooth run the domain comes
      up, or goes down and later ones are left alone. */
  method ManagePower(b: Board, i: nat, up: bool)
    requires i < 3
    modifies b`hw
    ensures b.hw == old(b.hw).(domains := b.hw.domains)
    ensures b.env.smooth && up ==> Resumed(b.hw.domains[i])
    ensures b.env.smooth && !up ==> !Busy(b.hw.domains[i]) && forall j :: i < j < 3 ==> b.hw.domains[j] == old(b.hw.domains[j])
  {
    if b.env.smooth {
      var on: U32 := Mask(k => k < 4);
      var off: U32 := Mask(_ => false);
      b.hw := b.hw.(domains := b.hw.domains[i := if up then on else off]);
    } else {
      var x: U32, y: U32, z: U32 := *, *, *;
      b.hw := b.hw.(domains := [x, y, z]);
    }
  }

  /** Suppress automatic clock gating of one domain and wait until it is fully on. */
  method ForceDomain(b: Board, p: Probe, i: nat, ghost ps: seq<Probe>) returns (ret: int, q: Probe)
    requires b.Valid() && i < 3 && Domain(i) in b.open && Owing(ps, b.owed, 3) && ps[i] == p && !p.forced
    modifies b`hw, b`writes, b`trace, b`owed
    ensures b.Valid() && b.hw == old(b.hw).(domains := old(b.hw.domains)[i := b.hw.domains[i]])
    ensures q == p.(forced := q.forced, savedAuto := q.savedAuto) && Owing(ps[i := q], b.owed, 3)
    ensures q.forced ==> q.savedAuto == AutoOf(old(b.hw.domains[i]))
    ensures ret == 0 ==> q.forced && FullyOn(b.hw.domains[i])
    ensures Flawless(b.env) ==> ret == 0
  {
    hide Replay, PowerAfter, Requested, ResetAfter, Board.Valid, FullyOn, Owing;
    q := p;
    OwingSame(ps, b.owed, i, q);
    ret := Access(b.env);
    if ret != 0 {
      return;
    }
    q := q.(savedAuto := AutoOf(b.hw.domains[i]), forced := true);
    OwingMore(ps, b.owed, i, q, q.savedAuto);
    b.ChangeReg(Auto(i), q.savedAuto, 0);
    ret := Access(b.env);
    if ret != 0 {
      return;
    }
    var later := ComesOn(b.env);
    b.hw := b.hw.(domains := b.hw.domains[i := later]);
    ret := Access(b.env);
    if ret == 0 && !FullyOn(later) {
      ret := ETIMEDOUT;
    }
  }

  /** What the register of a forced domain becomes. */
  method ComesOn(e: Environment) returns (later: U32)
    ensures e.smooth ==> FullyOn(later)
  {
    later := AnyWord();
    if e.smooth {
      later := Mask(k => k < 8);
    }
  }

  /** Undo what was done to one domain: AUTO, power, attachment, consumer, each whatever failed before. A consumer that
      cannot be detached stays. */
  method ReleaseDomain(b: Board, p: Probe, i: nat, before: int, ghost ps: seq<Probe>) returns (ret: int)
    requires b.Valid() && i < 3 && p.consumer && b.hw.consumers[i] && (p.resumed ==> b.open == Stack(i + 1))
    requires (p.forced ==> p.resumed) && Owing(ps, b.owed, i + 1) && ps[i] == p
    modifies b`hw, b`writes, b`open, b`trace, b`owed
    ensures b.Valid() && Owing(ps, b.owed, i)
    ensures b.hw == old(b.hw).(domains := b.hw.domains, consumers := old(b.hw.consumers)[i := b.hw.consumers[i]])
    ensures b.open == if p.resumed then Stack(i) else old(b.open)
    ensures ret == 0 ==> before == 0 && !b.hw.consumers[i]
    ensures !p.attached || b.env.detaches ==> !b.hw.consumers[i]
    ensures Flawless(b.env) ==> ret == before
    ensures b.env.smooth && p.resumed ==> !Busy(b.hw.domains[i]) && forall j :: i < j < 3 ==> b.hw.domains[j] == old(b.hw.domains[j])
  {
    hide Replay, PowerAfter, Requested, ResetAfter, Board.Valid, Stack, Below, Supported, Owing, Busy;
    ret := before;
    OwingLess(ps, b.owed, i);
    if p.forced {
      ret := GiveAutoBack(b, i, p.savedAuto, ret);
    }
    if p.resumed {
      AutoIsFree(ps, b.owed, i);
      ret := SuspendDomain(b, i, ret);
    }
    if p.attached {
      var cleanup := Detaching(b.env);
      if cleanup != 0 {
        return cleanup;
      }
    }
    b.hw := b.hw.(consumers := b.hw.consumers[i := false]);
  }

  /** Write the AUTO bit back. */
  method GiveAutoBack(b: Board, i: nat, saved: Word, before: int) returns (ret: int)
    requires b.Valid() && i < 3 && b.open == Stack(i + 1) && Auto(i) in b.owed && b.owed[Auto(i)] == saved
    modifies b`hw, b`writes, b`trace, b`owed
    ensures b.Valid() && b.owed == old(b.owed) - {Auto(i)}
    ensures b.hw == old(b.hw).(domains := old(b.hw.domains)[i := b.hw.domains[i]])
    ensures ret == 0 ==> before == 0
    ensures Flawless(b.env) ==> ret == before
  {
    hide Replay, PowerAfter, Requested, ResetAfter, Board.Valid, Stack, Below;
    ret := before;
    StackBelow(i);
    StackMore(i);
    b.UndoReg(Auto(i), saved);
    var cleanup := Access(b.env);
    if cleanup != 0 {
      ret := cleanup;
    }
  }

  lemma AutoIsFree(ps: seq<Probe>, owed: map<Reg, Word>, i: nat)
    requires Owing(ps, owed, i)
    ensures Free(owed, Domain(i))
  {
  }

  method SuspendDomain(b: Board, i: nat, before: int) returns (ret: int)
    requires b.Valid() && i < 3 && b.open == Stack(i + 1) && Free(b.owed, Domain(i))
    modifies b`hw, b`open, b`trace
    ensures b.Valid() && b.hw == old(b.hw).(domains := b.hw.domains) && b.open == Stack(i)
    ensures ret == 0 ==> before == 0
    ensures Flawless(b.env) ==> ret == before
    ensures b.env.smooth ==> !Busy(b.hw.domains[i]) && forall j :: i < j < 3 ==> b.hw.domains[j] == old(b.hw.domains[j])
  {
    hide Replay, PowerAfter, Requested, ResetAfter, Board.Valid, Stack, Below, Supported, Free, Busy;
    ret := before;
    StackMore(i);
    ManagePower(b, i, false);
    var cleanup := Call(b.env);
    if cleanup < 0 {
      ret := cleanup;
    }
    b.Leave(Domain(i));
  }

  // ---------- All three ----------

  /** Read the three registers; with `cycle` each must be off, without AUTO, RESET or DISABLE. */
  method Baseline(b: Board, cycle: bool) returns (ret: int)
    ensures ret == 0 && cycle ==> forall i :: 0 <= i < 3 ==> !Busy(b.hw.domains[i])
    ensures (b.env.responsive && forall i :: 0 <= i < 3 ==> !Busy(b.hw.domains[i])) ==> ret == 0
  {
    ret := 0;
    for i := 0 to 3
      invariant cycle ==> forall j :: 0 <= j < i ==> !Busy(b.hw.domains[j])
      invariant ret == 0
    {
      ret := Access(b.env);
      if ret != 0 {
        return;
      }
      if cycle && Busy(b.hw.domains[i]) {
        return EBUSY;
      }
    }
  }

  /** Attach all, power all in order, then force all. */
  method Acquire(b: Board, force: bool, probes: array<Probe>) returns (ret: int, ghost r: nat)
    requires b.Valid() && b.open == [] && b.owed == map[] && probes.Length == 3 && forall i :: 0 <= i < 3 ==> probes[i] == FRESH
    modifies b`hw, b`writes, b`open, b`trace, b`owed, b`reached, probes
    ensures b.Valid() && Holding(probes[..], old(b.hw.consumers), b.hw.consumers, r) && b.open == Stack(r)
    ensures Owing(probes[..], b.owed, 3)
    ensures b.hw == old(b.hw).(domains := b.hw.domains, consumers := b.hw.consumers)
    ensures r > 0 ==> b.reached == DomainMarks(r)
    ensures ret == 0 ==> r == 3
    ensures ret == 0 && force ==> forall i :: 0 <= i < 3 ==> FullyOn(b.hw.domains[i])
    ensures (Flawless(b.env) && forall i :: 0 <= i < 3 ==> !old(b.hw.consumers[i])) ==> ret == 0
  {
    hide Replay, PowerAfter, Requested, ResetAfter, Board.Valid, Stack, Below, Supported, FullyOn, Resumed, Owing, DomainMarks;
    r := 0;
    NoStack();
    for i := 0 to 3
      invariant b.Valid() && b.open == Stack(0) && b.owed == map[]
      invariant Holding(probes[..], old(b.hw.consumers), b.hw.consumers, 0)
      invariant forall j :: i <= j < 3 ==> probes[j] == FRESH
      invariant forall j :: 0 <= j < 3 ==> !probes[j].forced
      invariant forall j :: 0 <= j < i ==> probes[j].consumer
      invariant b.hw == old(b.hw).(domains := b.hw.domains, consumers := b.hw.consumers)
    {
      var q;
      ret, q := AttachDomain(b, probes[i], i);
      probes[i] := q;
      if ret != 0 {
        OwingNothing(probes[..]);
        return;
      }
    }
    OwingNothing(probes[..]);
    ret, r := PowerAll(b, probes, old(b.hw.consumers));
    if ret == 0 && force {
      ret := ForceAll(b, probes, old(b.hw.consumers));
    }
  }

  lemma OwingNothing(ps: seq<Probe>)
    requires |ps| == 3 && forall j :: 0 <= j < 3 ==> !ps[j].forced
    ensures Owing(ps, map[], 3)
  {
  }

  lemma NoStack()
    ensures Stack(0) == []
  {
  }

  method PowerAll(b: Board, probes: array<Probe>, ghost was: Consumers) returns (ret: int, ghost r: nat)
    requires b.Valid() && b.open == Stack(0) && probes.Length == 3 && Holding(probes[..], was, b.hw.consumers, 0)
    requires forall i :: 0 <= i < 3 ==> probes[i].consumer && !probes[i].forced
    modifies b`hw, b`open, b`trace, b`reached, probes
    ensures b.Valid() && Holding(probes[..], was, b.hw.consumers, r) && b.open == Stack(r)
    ensures b.hw == old(b.hw).(domains := b.hw.domains)
    ensures forall i :: 0 <= i < 3 ==> probes[i] == old(probes[i]).(resumed := probes[i].resumed)
    ensures Owing(probes[..], map[], 3)
    ensures r > 0 ==> b.reached == DomainMarks(r)
    ensures ret == 0 ==> r == 3
    ensures Flawless(b.env) ==> ret == 0
  {
    hide Replay, PowerAfter, Requested, ResetAfter, Board.Valid, Stack, Below, Supported, Resumed, Owing, DomainMarks;
    ret, r := 0, 0;
    for i := 0 to 3
      invariant b.Valid() && r == i && b.open == Stack(i) && Holding(probes[..], was, b.hw.consumers, i)
      invariant b.hw == old(b.hw).(domains := b.hw.domains)
      invariant forall j :: 0 <= j < 3 ==> probes[j].consumer && !probes[j].forced
      invariant forall j :: 0 <= j < 3 ==> probes[j] == old(probes[j]).(resumed := probes[j].resumed)
      invariant i > 0 ==> b.reached == DomainMarks(i)
      invariant ret == 0
    {
      var q;
      ret, q := ResumeDomain(b, probes[i], i);
      probes[i] := q;
      if q.resumed {
        r := i + 1;
      }
      if ret != 0 {
        OwingNothing(probes[..]);
        return;
      }
    }
    OwingNothing(probes[..]);
  }

  method ForceAll(b: Board, probes: array<Probe>, ghost was: Consumers) returns (ret: int)
    requires b.Valid() && probes.Length == 3 && Holding(probes[..], was, b.hw.consumers, 3) && b.open == Stack(3)
    requires Owing(probes[..], b.owed, 3) && forall i :: 0 <= i < 3 ==> !probes[i].forced
    modifies b`hw, b`writes, b`trace, b`owed, probes
    ensures b.Valid() && Holding(probes[..], was, b.hw.consumers, 3) && Owing(probes[..], b.owed, 3)
    ensures b.hw == old(b.hw).(domains := b.hw.domains)
    ensures ret == 0 ==> forall i :: 0 <= i < 3 ==> FullyOn(b.hw.domains[i])
    ensures Flawless(b.env) ==> ret == 0
  {
    hide Replay, PowerAfter, Requested, ResetAfter, Board.Valid, FullyOn, Owing, Stack;
    ret := 0;
    for i := 0 to 3
      invariant b.Valid() && Holding(probes[..], was, b.hw.consumers, 3) && Owing(probes[..], b.owed, 3)
      invariant b.hw == old(b.hw).(domains := b.hw.domains)
      invariant forall j :: i <= j < 3 ==> !probes[j].forced
      invariant forall j :: 0 <= j < i ==> FullyOn(b.hw.domains[j])
      invariant ret == 0
    {
      var q;
      InFullStack(i);
      ghost var ps := probes[..];
      ret, q := ForceDomain(b, probes[i], i, ps);
      probes[i] := q;
      assert probes[..] == ps[i := q];
      if ret != 0 {
        return;
      }
    }
  }

  lemma InFullStack(i: nat)
    requires i < 3
    ensures Domain(i) in Stack(3)
  {
    assert Stack(3)[i] == Domain(i);
  }

  /** Release in reverse, whatever was reached. */
  method Release(b: Board, probes: array<Probe>, before: int, ghost was: Consumers, ghost r: nat) returns (ret: int)
    requires b.Valid() && probes.Length == 3 && Holding(probes[..], was, b.hw.consumers, r) && b.open == Stack(r)
    requires Owing(probes[..], b.owed, 3)
    modifies b`hw, b`writes, b`open, b`trace, b`owed
    ensures b.Valid() && b.open == [] && b.owed == map[]
    ensures b.hw == old(b.hw).(domains := b.hw.domains, consumers := b.hw.consumers)
    ensures ret == 0 ==> before == 0
    ensures ret == 0 || b.env.detaches ==> b.hw.consumers == was
    ensures Flawless(b.env) ==> ret == before
    ensures b.env.smooth && r == 3 ==> forall i :: 0 <= i < 3 ==> !Busy(b.hw.domains[i])
  {
    hide Replay, PowerAfter, Requested, ResetAfter, Board.Valid, Stack, Owing, Busy;
    ret := before;
    var i := 3;
    while i > 0
      invariant i <= 3 && b.Valid() && b.open == Stack(if r < i then r else i) && Owing(probes[..], b.owed, i)
      invariant b.hw == old(b.hw).(domains := b.hw.domains, consumers := b.hw.consumers)
      invariant forall j :: 0 <= j < i ==> b.hw.consumers[j] == old(b.hw.consumers[j])
      invariant ret == 0 ==> before == 0
      invariant ret == 0 || b.env.detaches ==> forall j :: i <= j < 3 ==> b.hw.consumers[j] == was[j]
      invariant Flawless(b.env) ==> ret == before
      invariant b.env.smooth && r == 3 ==> forall j :: i <= j < 3 ==> !Busy(b.hw.domains[j])
    {
      i := i - 1;
      if probes[i].consumer {
        ret := ReleaseDomain(b, probes[i], i, ret, probes[..]);
      } else {
        OwingLess(probes[..], b.owed, i);
      }
    }
    NoStack();
    OwedNothing(b.owed, probes[..]);
  }

  /** The closing check: every register must read as off again. */
  method Verify(b: Board, before: int) returns (ret: int)
    ensures ret == 0 ==> before == 0 && forall i :: 0 <= i < 3 ==> !Busy(b.hw.domains[i])
    ensures (b.env.responsive && forall i :: 0 <= i < 3 ==> !Busy(b.hw.domains[i])) ==> ret == before
  {
    ret := before;
    for i := 0 to 3
      invariant ret == 0 ==> before == 0 && forall j :: 0 <= j < i ==> !Busy(b.hw.domains[j])
      invariant (b.env.responsive && forall j :: 0 <= j < 3 ==> !Busy(b.hw.domains[j])) ==> ret == before
    {
      var cleanup := Access(b.env);
      if cleanup != 0 {
        ret := cleanup;
      } else if Busy(b.hw.domains[i]) {
        ret := EIO;
      }
    }
  }

  /** Everything but the domain registers is as it was, and those are off. */
  ghost predicate BackToRest(before: Hardware, after: Hardware) {
    OnlyDomains(before, after) && forall i :: 0 <= i < 3 ==> !Busy(after.domains[i])
  }

  /** Everything but the domain registers is as it was. */
  predicate OnlyDomains(before: Hardware, after: Hardware) {
    after == before.(domains := after.domains)
  }

  /** The board as a run with these options wants to find it: domains off, no consumers, the inner hardware at rest, and
      PHY registers that never read as all ones. */
  ghost predicate Welcoming(hw: Hardware, bank: PhySteps.Bank, o: Options) {
    && (forall i :: 0 <= i < 3 ==> !Busy(hw.domains[i]) && !hw.consumers[i])
    && PhyStage.AtRest(hw) && PhyStage.CoreVisible(bank, o)
  }

  /** a1625_with_pcie_domains. Without `cycle` nothing is changed; with it a result of 0 means that every layer's
      hardware is back at its entry value and every domain is off. */
  method WithDomains(b: Board, o: Options) returns (ret: int)
    requires b.Valid() && Accepted(o) && b.open == [] && !b.scanDart && !b.scanMsi
    modifies b`hw, b`writes, b`open, b`trace, b`lost, b`around, b`owed, b`reached, b`scanDart, b`scanMsi, b.bank
    ensures b.Valid() && b.open == [] && b.owed == map[] && !b.scanDart && !b.scanMsi && b.bank.Length == PhySteps.WORDS
    ensures !o.cycle ==> b.hw == old(b.hw) && b.bank[..] == old(b.bank[..]) && b.trace == old(b.trace)
    ensures ret == 0 && o.cycle ==> BackToRest(old(b.hw), b.hw) && b.bank[..] == old(b.bank[..])
    ensures Orderly(b.env) && RadioStage.Tellable(old(b.hw.ltssm)) ==> OnlyDomains(old(b.hw), b.hw)
    ensures Orderly(b.env) && PhyStage.CoreVisible(old(b.bank[..]), o) ==> b.bank[..] == old(b.bank[..])
    ensures ret == 0 ==> b.lost == old(b.lost)
    ensures PhyStage.Sheltered(o, old(b.around), b.around)
    ensures ret == 0 && o.cycle ==> b.reached == RunMarks(o)
    ensures (Flawless(b.env) && Welcoming(old(b.hw), old(b.bank[..]), o)) ==> ret == 0
  {
    hide Replay, PowerAfter, Requested, ResetAfter, AroundHosts, OwedIn, ReachedIn, Accepted, Stack, Busy, FullyOn, PhyStage.Sheltered,
         PhyStage.CoreVisible, PhyStage.AtRest, RunMarks, RadioStage.Tellable;
    PhyStage.SameShelter(o, b.around);
    NoneOwed(b);
    SameBoard(b.hw);
    CycleNeeded(o);
    if !o.cycle && (o.forceActive || o.snapshot) {
      return EINVAL;
    }
    ret := Call(b.env);
    if ret != 0 {
      return;
    }
    ret := Baseline(b, o.cycle);
    if ret != 0 || !o.cycle {
      return;
    }
    ret := Cycle(b, o);
  }

  lemma NoneOwed(b: Board)
    requires b.Valid() && b.open == []
    ensures b.owed == map[]
  {
    hide Replay, OwedIn;
    if r :| r in b.owed {
      OwedIsLive(b.trace, r);
      assert false;
    }
  }

  lemma SameBoard(hw: Hardware)
    ensures OnlyDomains(hw, hw)
  {
  }

  lemma CycleNeeded(o: Options)
    requires Accepted(o)
    ensures o.forceActive || o.snapshot ==> o.cycle
  {
  }

  lemma FullStack()
    ensures Below(Stack(3), Phy) && Domain(2) in Stack(3)
  {
    assert Stack(3)[2] == Domain(2);
  }

  method Cycle(b: Board, o: Options) returns (ret: int)
    requires b.Valid() && Accepted(o) && b.open == [] && b.owed == map[] && !b.scanDart && !b.scanMsi
    modifies b`hw, b`writes, b`open, b`trace, b`lost, b`around, b`owed, b`reached, b`scanDart, b`scanMsi, b.bank
    ensures b.Valid() && b.open == [] && b.owed == map[] && !b.scanDart && !b.scanMsi && b.bank.Length == PhySteps.WORDS
    ensures ret == 0 ==> BackToRest(old(b.hw), b.hw) && b.bank[..] == old(b.bank[..])
    ensures Orderly(b.env) && RadioStage.Tellable(old(b.hw.ltssm)) ==> OnlyDomains(old(b.hw), b.hw)
    ensures Orderly(b.env) && PhyStage.CoreVisible(old(b.bank[..]), o) ==> b.bank[..] == old(b.bank[..])
    ensures ret == 0 ==> b.lost == old(b.lost)
    ensures PhyStage.Sheltered(o, old(b.around), b.around)
    ensures ret == 0 ==> b.reached == RunMarks(o)
    ensures (Flawless(b.env) && Welcoming(old(b.hw), old(b.bank[..]), o)) ==> ret == 0
  {
    hide Replay, PowerAfter, Requested, ResetAfter, AroundHosts, OwedIn, ReachedIn, Accepted, Stack, Busy, FullyOn, Holding, Owing, Below,
         Supported, PhyStage.Sheltered, PhyStage.CoreVisible, PhyStage.AtRest, PhyStage.PhyMarks, DomainMarks, RadioStage.Tellable;
    PhyStage.SameShelter(o, b.around);
    var probes := new Probe[3](_ => FRESH);
    ghost var r;
    ret, r := Acquire(b, o.forceActive, probes);
    SameRest(old(b.hw), b.hw);
    if ret == 0 && o.snapshot {
      FullStack();
      ret := PhyStage.WithPhy(b, o);
    }
    ret := Release(b, probes, ret, old(b.hw.consumers), r);
    ret := Verify(b, ret);
  }

  /** Powering domains does not touch the inner hardware. */
  lemma SameRest(before: Hardware, after: Hardware)
    requires after == before.(domains := after.domains, consumers := after.consumers)
    ensures PhyStage.AtRest(after) == PhyStage.AtRest(before)
  {
  }

  lemma NeverLost(b: Board)
    requires b.Valid() && !b.lost
    ensures AlwaysUnderReset(b.trace)
  {
    hide Replay, AlwaysUnderReset;
    NeverLostAlwaysHeld(b.trace);
  }

  lemma UnderEveryHost(b: Board)
    requires b.Valid()
    ensures forall l :: l in b.around ==> HostsUnder(b.trace, l)
  {
    hide Replay, HostsUnder, AroundHosts;
    forall l | l in b.around ensures HostsUnder(b.trace, l) {
      AroundEveryHost(b.trace, l);
    }
  }

  /** The module's entry: the gate on the options, then the run, which never leaves the module loaded.
      An internal result of 0 also means that every stage the options ask for has run, and no other, and that the radio's
      power was changed under a PERST seen low only. Whatever the result, with scan_iommu the DART device, and with
      scan_msi the MSI domain, is live whenever a PCI host is. If registers take and answer and clean-up succeeds, the
      hardware is back whatever else failed; if nothing fails on a board at rest, the result is 0. */
  method Init(b: Board, o: Options) returns (ret: int, internal: int)
    requires b.Valid() && b.open == [] && !b.scanDart && !b.scanMsi
    modifies b`hw, b`writes, b`open, b`trace, b`lost, b`around, b`owed, b`reached, b`scanDart, b`scanMsi, b.bank
    ensures b.Valid() && b.open == [] && b.owed == map[] && b.bank.Length == PhySteps.WORDS
    ensures !Accepted(o) ==> ret == internal == EINVAL && b.hw == old(b.hw) && b.bank[..] == old(b.bank[..]) && b.trace == old(b.trace)
    ensures Accepted(o) && !o.cycle ==> b.hw == old(b.hw) && b.bank[..] == old(b.bank[..]) && b.trace == old(b.trace)
    ensures Accepted(o) && o.cycle && internal == 0 ==> BackToRest(old(b.hw), b.hw) && b.bank[..] == old(b.bank[..])
    ensures Orderly(b.env) && RadioStage.Tellable(old(b.hw.ltssm)) ==> OnlyDomains(old(b.hw), b.hw)
    ensures Orderly(b.env) && PhyStage.CoreVisible(old(b.bank[..]), o) ==> b.bank[..] == old(b.bank[..])
    ensures ret == if internal == 0 then ECANCELED else internal
    ensures internal == 0 && o.cycle ==> forall m :: m in b.reached <==> Asked(o, m)
    ensures (Flawless(b.env) && Accepted(o) && Welcoming(old(b.hw), old(b.bank[..]), o)) ==> internal == 0
    ensures internal == 0 && !old(b.lost) ==> AlwaysUnderReset(b.trace)
    ensures o.scanIommu && Dart in old(b.around) ==> HostsUnder(b.trace, Dart)
    ensures o.scanMsi && MsiDomain in old(b.around) ==> HostsUnder(b.trace, MsiDomain)
  {
    hide Replay, PowerAfter, Requested, ResetAfter, AroundHosts, OwedIn, ReachedIn, Accepted, BackToRest, AlwaysUnderReset, HostsUnder,
         Welcoming, RunMarks, Asked, OnlyDomains, PhyStage.CoreVisible, RadioStage.Tellable;
    NoneOwed(b);
    SameBoard(b.hw);
    internal := Gate(o);
    UnderEveryHost(b);
    if internal != 0 {
      return internal, internal;
    }
    internal := WithDomains(b, o);
    UnderEveryHost(b);
    forall m ensures m in RunMarks(o) <==> Asked(o, m) {
      RunMarksIff(o, m);
    }
    ret := if internal == 0 then ECANCELED else internal;
    if !b.lost {
      NeverLost(b);
    }
  }
}
