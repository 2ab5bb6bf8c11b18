/** The hardware and kernel objects the layered probe holds on to, and the order in which it may
    (a1625_pcie_domains.c, lines 384-530). Every kernel call may fail, a device may ignore a write or read as
    all ones. */
module BoardState {
  import opened ConfigSpace
  import opened Errno
  import PhySteps

  type Word = n: nat | n < 0x1_0000_0000

  const ALL_ONES: Word := 0xffff_ffff

  /** The pin configuration of a PERST line that is driven low. */
  const PERST_LOW: Word := 0x76202

  /** The one pin configuration and the one value of WL_REG_ON a run may start from and must come back to. */
  const PERST_SAVED: Word := 0x76200
  const RADIO_ON: Word := 2

  /** The PMGR registers of the three power domains, and whether the probe's consumer of each is registered. */
  type Domains = s: seq<U32> | |s| == 3 ghost witness seq(3, _ => seq(32, _ => false))
  type Consumers = s: seq<bool> | |s| == 3 witness [false, false, false]

  /** What a run may change, except the PHY registers. `perst` and `radio` are the pin configuration of the
      reset line and the PMU register of WL_REG_ON, `buses` the bus number register of the root port. */
  datatype Hardware = Hardware(domains: Domains, consumers: Consumers, ltssm: Word, msiControl: Word, msiBase: Word,
                               perst: Word, radio: Word, buses: Word, dartNode: bool, hostNode: bool)

  /** The AUTO and history bits of a power domain's register. */
  function AutoMask(): U32 {
    Mask(k => k == 28 || k == 9 || k == 8)
  }

  /** The AUTO bit alone. */
  const AUTO: Word := 0x1000_0000

  function AutoBits(value: Word): U32 {
    if value == 0 then Mask(_ => false) else Mask(k => k == 28)
  }

  // ---------- Registers that are changed and written back ----------

  /** `Route` and `BusNumbers` are the bus number register of the root port, written back by the endpoint stage and by the
      PCI scan inside it; `Auto(i)` is the AUTO bit of a power domain. */
  datatype Reg = Ltssm | Route | BusNumbers | MsiControl | MsiBase | Auto(domain: nat)

  /** The layer that must have written the register back when it closes. */
  function Owner(r: Reg): Layer {
    match r
    case Ltssm | Route | BusNumbers => Link
    case MsiControl | MsiBase => Phy
    case Auto(i) => Domain(i)
  }

  /** This layer and those further in must be gone before the register is written back. */
  function Guard(r: Reg): Layer {
    match r
    case Ltssm | Route | BusNumbers => Host
    case MsiControl | MsiBase => MsiDomain
    case Auto(i) => if i >= 2 then Phy else Domain(i + 1)
  }

  /** The value a register is changed to. */
  predicate Meant(r: Reg, was: Word, value: Word) {
    match r
    case Ltssm => was % 2 == 0 && value == was + 1
    case Route => was % 0x100_0000 == 0 && value == was + 0x01_0100
    case BusNumbers => true
    case MsiControl => value == 0x31
    case MsiBase => value == 0x0008_0008
    case Auto(_) => value == 0
  }

  /** The hardware with this value in the register. */
  function With(hw: Hardware, r: Reg, value: Word): Hardware
    requires r.Auto? ==> r.domain < 3
  {
    match r
    case Ltssm => hw.(ltssm := value)
    case Route | BusNumbers => hw.(buses := value)
    case MsiControl => hw.(msiControl := value)
    case MsiBase => hw.(msiBase := value)
    case Auto(i) => hw.(domains := hw.domains[i := PhySteps.Blend(hw.domains[i], AutoMask(), AutoBits(value))])
  }

  // ---------- Layers ----------

  datatype Layer = Domain(i: nat) | Phy | MsiDomain | Dart | Radio | Link | Host | Driver

  /** Layers further in have a higher rank. */
  function Rank(l: Layer): nat {
    match l
    case Domain(i) => if i < 3 then i else 3
    case Phy => 4
    case MsiDomain => 5
    case Dart => 6
    case Radio => 7
    case Link => 8
    case Host => 9
    case Driver => 10
  }

  /** What must be live when a layer opens. */
  function Needs(l: Layer): set<Layer> {
    match l
    case Domain(i) => if i == 1 then {Domain(0)} else if i == 2 then {Domain(1)} else {}
    case Phy => {Domain(2)}
    case MsiDomain => {Phy}
    case Dart => {Phy}
    case Radio => {Phy}
    case Link => {Radio}
    case Host => {Link}
    case Driver => {Host, Dart, MsiDomain}
  }

  /** Everything below the firmware driver. */
  const OUTER: set<Layer> := {Domain(0), Domain(1), Domain(2), Phy, MsiDomain, Dart, Radio, Link, Host}

  /** What is recorded of a run. `Change` and `Undo` are writes to a register, `was` what it held before; `Mute` says that it
      reads as all ones when it is to be written back. `WriteBack(l)` undoes other hardware changes on which layer l and
      everything further in depend. `DriveReset` asks the GPIO driver to drive the PERST line; `ResetHeld` is a
      readback that shows it driven low, `ResetLost` a request or a readback to that end that failed;
      `PerstRestored` gives it its saved configuration back. */
  datatype Event =
    | Open(layer: Layer) | Close(layer: Layer) | WriteBack(layer: Layer)
    | PowerWrite(value: Word) | PowerRead(value: Word)
    | DriveReset(high: bool) | ResetHeld | ResetLost | PerstRestored
    | Change(reg: Reg, was: Word, to: Word) | Undo(reg: Reg, back: Word) | Mute(reg: Reg)

  predicate Below(stack: seq<Layer>, l: Layer) {
    forall i :: 0 <= i < |stack| ==> Rank(stack[i]) < Rank(l)
  }

  predicate Supported(stack: seq<Layer>, l: Layer) {
    forall n :: n in Needs(l) ==> n in stack
  }

  /** What is known of WL_REG_ON after a trace. */
  datatype Power = Untouched | Off | Unverified

  function PowerAfter(trace: seq<Event>): Power {
    if trace == [] then Untouched
    else match trace[|trace| - 1]
      case PowerWrite(_) => Unverified
      case PowerRead(v) => if v == 0 then Off else Unverified
      case _ => PowerAfter(trace[..|trace| - 1])
  }

  /** The value last asked of WL_REG_ON, whether or not the write took; it starts at 0. */
  function Requested(trace: seq<Event>): Word {
    if trace == [] then 0
    else if trace[|trace| - 1].PowerWrite? then trace[|trace| - 1].value
    else Requested(trace[..|trace| - 1])
  }

  /** What is known of PERST: nothing was asked, a level was asked, it was seen low, or holding it low failed. */
  datatype Reset = Idle | Driven(high: bool) | Held | Lost

  function ResetAfter(trace: seq<Event>): Reset {
    if trace == [] then Idle
    else match trace[|trace| - 1]
      case DriveReset(high) => Driven(high)
      case ResetHeld => Held
      case ResetLost => Lost
      case PerstRestored => Idle
      case _ => ResetAfter(trace[..|trace| - 1])
  }

  /** The registers that have been changed and neither written back nor found mute, with what they held before. */
  function OwedIn(trace: seq<Event>): map<Reg, Word> {
    if trace == [] then map[]
    else
      OwedAfter(OwedIn(trace[..|trace| - 1]), trace[|trace| - 1])
  }

  function OwedAfter(owed: map<Reg, Word>, e: Event): map<Reg, Word> {
    if e.Change? then owed[e.reg := e.was] else if e.Undo? || e.Mute? then owed - {e.reg} else owed
  }

  /** When an event may happen, given the live layers and what happened before. */
  predicate Proper(e: Event, stack: seq<Layer>, trace: seq<Event>) {
    match e
    case Open(l) => Below(stack, l) && Supported(stack, l) && (l == Host ==> BusNumbers in OwedIn(trace))
    case Close(l) =>
      && stack != [] && stack[|stack| - 1] == l
      && (l == Radio ==> Requested(trace) == 0 && (PowerAfter(trace).Unverified? <==> !ResetAfter(trace).Idle?))
      && (l == Link ==> ResetAfter(trace).Held? || ResetAfter(trace).Lost?)
      && (forall r :: r in OwedIn(trace) ==> Owner(r) != l)
    case WriteBack(l) => Below(stack, l)
    case PowerWrite(v) =>
      && Radio in stack && Below(stack, Link)
      && ((v == RADIO_ON && ResetAfter(trace).Held?) || (v == 0 && (ResetAfter(trace).Held? || ResetAfter(trace).Lost?)))
    case PowerRead(_) => true
    case DriveReset(high) => Radio in stack && Below(stack, Host) && (high ==> Link in stack)
    case ResetHeld | ResetLost =>
      && Radio in stack && Below(stack, Host)
      && (ResetAfter(trace) == Driven(false) || ResetAfter(trace).Held?)
    case PerstRestored => Radio in stack && Below(stack, Link) && !PowerAfter(trace).Unverified?
    case Change(_, was, to) => Owner(e.reg) in stack && e.reg !in OwedIn(trace) && Meant(e.reg, was, to)
    case Undo(_, back) =>
      Owner(e.reg) in stack && Below(stack, Guard(e.reg)) && e.reg in OwedIn(trace) && OwedIn(trace)[e.reg] == back
    case Mute(_) => Owner(e.reg) in stack && e.reg in OwedIn(trace)
  }

  function Next(e: Event, stack: seq<Layer>): seq<Layer> {
    match e
    case Open(l) => stack + [l]
    case Close(l) => if stack == [] then [] else stack[..|stack| - 1]
    case _ => stack
  }

  /** The layers live after a trace, or None if some event in it was not proper. */
  function Replay(trace: seq<Event>): Option<seq<Layer>> {
    if trace == [] then Some([])
    else
      var before := trace[..|trace| - 1];
      match Replay(before)
      case None => None
      case Some(stack) =>
        if Proper(trace[|trace| - 1], stack, before) then Some(Next(trace[|trace| - 1], stack)) else None
  }

  // ---------- What a lawful trace means ----------

  /** Whatever a live layer needs is live below it. */
  ghost predicate Grounded(stack: seq<Layer>) {
    forall i :: 0 <= i < |stack| ==> Supported(stack[..i], stack[i])
  }

  lemma {:induction false} ReplayIsGrounded(trace: seq<Event>)
    requires Replay(trace).Some?
    ensures Grounded(Replay(trace).value)
  {
    hide Supported, Below;
    if trace != [] {
      var o := trace[..|trace| - 1];
      ReplayIsGrounded(o);
      var before, stack := Replay(o).value, Replay(trace).value;
      forall i | 0 <= i < |stack| ensures Supported(stack[..i], stack[i]) {
        if i < |before| {
          assert stack[..i] == before[..i];
        } else {
          assert trace[|trace| - 1].Open? && stack[..i] == before;
        }
      }
    }
  }

  lemma NeedIsLive(stack: seq<Layer>, l: Layer, n: Layer)
    requires Grounded(stack) && l in stack && n in Needs(l)
    ensures n in stack
  {
    var i :| 0 <= i < |stack| && stack[i] == l;
    assert n in stack[..i];
  }

  /** Safety over every run: at every moment at which the firmware driver may be bound, all nine layers
      below it are live; and at every moment at which a PCI device exists, link, radio, PHY and domains are. */
  lemma {:induction false} DriverIsCovered(trace: seq<Event>, k: nat)
    requires k <= |trace| && Replay(trace).Some?
    ensures Replay(trace[..k]).Some?
    ensures Driver in Replay(trace[..k]).value ==> forall l :: l in OUTER ==> l in Replay(trace[..k]).value
    ensures Host in Replay(trace[..k]).value ==>
      forall l :: l in OUTER - {MsiDomain, Dart, Host} ==> l in Replay(trace[..k]).value
    decreases |trace|
  {
    if k < |trace| {
      assert trace[..|trace| - 1][..k] == trace[..k];
      DriverIsCovered(trace[..|trace| - 1], k);
    } else {
      assert trace[..k] == trace;
      ReplayIsGrounded(trace);
      Covered(Replay(trace).value);
    }
  }

  lemma Covered(stack: seq<Layer>)
    requires Grounded(stack)
    ensures Driver in stack ==> forall l :: l in OUTER ==> l in stack
    ensures Host in stack ==> forall l :: l in OUTER - {MsiDomain, Dart, Host} ==> l in stack
  {
    hide Grounded;
    if Driver in stack {
      NeedIsLive(stack, Driver, Host);
      NeedIsLive(stack, Driver, Dart);
      NeedIsLive(stack, Driver, MsiDomain);
    }
    if Host in stack {
      NeedIsLive(stack, Host, Link);
      NeedIsLive(stack, Link, Radio);
      NeedIsLive(stack, Radio, Phy);
      NeedIsLive(stack, Phy, Domain(2));
      NeedIsLive(stack, Domain(2), Domain(1));
      NeedIsLive(stack, Domain(1), Domain(0));
    }
  }

  // ---------- Nesting ----------

  /** From after event j up to event k the layers `base` are live, as the lowest ones. */
  ghost predicate LiveSince(trace: seq<Event>, base: seq<Layer>, j: nat, k: nat)
    requires k <= |trace|
  {
    forall m :: j < m <= k ==> Replay(trace[..m]).Some? && base <= Replay(trace[..m]).value
  }

  lemma ReplayStep(trace: seq<Event>, k: nat)
    requires k < |trace| && Replay(trace[..k + 1]).Some?
    ensures Replay(trace[..k]).Some?
    ensures Replay(trace[..k + 1]).value == Next(trace[k], Replay(trace[..k]).value)
    ensures trace[k].Close? ==> Replay(trace[..k]).value != [] && trace[k].layer == Last(Replay(trace[..k]).value)
  {
    hide Supported, Below, PowerAfter, ResetAfter, Requested;
    assert trace[..k + 1][..k] == trace[..k];
  }

  function Last(stack: seq<Layer>): Layer
    requires stack != []
  {
    stack[|stack| - 1]
  }

  /** Each live layer was opened on top of exactly the layers below it, and these have all been live since. */
  lemma {:induction false} OpenedAt(trace: seq<Event>, k: nat, i: nat) returns (j: nat)
    requires k <= |trace| && Replay(trace[..k]).Some? && i < |Replay(trace[..k]).value|
    ensures j < k && trace[j] == Open(Replay(trace[..k]).value[i])
    ensures Replay(trace[..j]) == Some(Replay(trace[..k]).value[..i])
    ensures LiveSince(trace, Replay(trace[..k]).value[..i + 1], j, k)
    decreases k
  {
    hide Replay;
    var stack := Replay(trace[..k]).value;
    assert trace[..0] == [];
    ReplayNone();
    ReplayStep(trace, k - 1);
    var before := Replay(trace[..k - 1]).value;
    if trace[k - 1].Open? && i == |before| {
      j := k - 1;
      assert stack[..i] == before && stack[..i + 1] == stack;
    } else {
      assert stack[..i + 1] == before[..i + 1] && stack[..i] == before[..i];
      j := OpenedAt(trace, k - 1, i);
    }
  }

  /** The layer closed at k was opened at j, and between the two everything opened in it was closed again. */
  ghost predicate Brackets(trace: seq<Event>, j: nat, k: nat) {
    && j < k < |trace| && trace[k].Close? && trace[j] == Open(trace[k].layer)
    && Replay(trace[..j]).Some? && Replay(trace[..k + 1]) == Replay(trace[..j])
    && LiveSince(trace, Replay(trace[..j]).value + [trace[k].layer], j, k)
  }

  /** Strict nesting: every closing has its opening before it. The layers live around the pair are the same before
      and after it, and with the layer itself they are live all the time between. */
  lemma CloseHasOpen(trace: seq<Event>, k: nat) returns (j: nat)
    requires k < |trace| && Replay(trace).Some? && trace[k].Close?
    ensures Brackets(trace, j, k)
  {
    hide Replay, LiveSince;
    PrefixLawful(trace, k + 1);
    ReplayStep(trace, k);
    var stack := Replay(trace[..k]).value;
    j := OpenedAt(trace, k, |stack| - 1);
    assert stack[..|stack| - 1 + 1] == stack == stack[..|stack| - 1] + [trace[k].layer];
  }

  lemma {:induction false} PrefixLawful(trace: seq<Event>, k: nat)
    requires k <= |trace| && Replay(trace).Some?
    ensures Replay(trace[..k]).Some?
    decreases |trace|
  {
    if k < |trace| {
      assert trace[..|trace| - 1][..k] == trace[..k];
      PrefixLawful(trace[..|trace| - 1], k);
    } else {
      assert trace[..k] == trace;
    }
  }

  /** The layers below the driver that were live whenever a PCI host was opened. */
  ghost function AroundHosts(trace: seq<Event>): set<Layer> {
    if trace == [] then OUTER
    else
      var before := trace[..|trace| - 1];
      if trace[|trace| - 1] == Open(Host) then AroundHosts(before) * Around(before) else AroundHosts(before)
  }

  ghost function Around(trace: seq<Event>): set<Layer> {
    match Replay(trace)
    case None => {}
    case Some(stack) => set l | l in stack
  }

  /** At every moment at which a PCI host exists, the layer l is live. */
  ghost predicate HostsUnder(trace: seq<Event>, l: Layer) {
    forall k :: 0 <= k <= |trace| && Replay(trace[..k]).Some? && Host in Replay(trace[..k]).value ==>
      l in Replay(trace[..k]).value
  }

  /** The layer l lies below every PCI host. */
  ghost predicate LiesUnder(stack: seq<Layer>, l: Layer) {
    forall i :: 0 <= i < |stack| && stack[i] == Host ==> l in stack[..i]
  }

  lemma {:induction false} AroundIsUnder(trace: seq<Event>, l: Layer)
    requires Replay(trace).Some? && l in AroundHosts(trace)
    ensures LiesUnder(Replay(trace).value, l)
  {
    hide Proper;
    if trace != [] {
      var o := trace[..|trace| - 1];
      AroundIsUnder(o, l);
      var before, stack := Replay(o).value, Replay(trace).value;
      forall i | 0 <= i < |stack| && stack[i] == Host ensures l in stack[..i] {
        if i < |before| {
          assert stack[..i] == before[..i];
        } else {
          assert trace[|trace| - 1] == Open(Host) && stack[..i] == before;
        }
      }
    }
  }

  lemma {:induction false} AroundStays(trace: seq<Event>, k: nat)
    requires k <= |trace|
    ensures AroundHosts(trace) <= AroundHosts(trace[..k])
    decreases |trace|
  {
    hide Replay, Around;
    if k < |trace| {
      assert trace[..|trace| - 1][..k] == trace[..k];
      AroundStays(trace[..|trace| - 1], k);
    } else {
      assert trace[..k] == trace;
    }
  }

  /** A layer that was live at every opening of a PCI host is live as long as any host exists. */
  lemma AroundEveryHost(trace: seq<Event>, l: Layer)
    requires Replay(trace).Some? && l in AroundHosts(trace)
    ensures HostsUnder(trace, l)
  {
    hide Replay, AroundHosts;
    forall k | 0 <= k <= |trace| && Replay(trace[..k]).Some? && Host in Replay(trace[..k]).value
      ensures l in Replay(trace[..k]).value
    {
      AroundStays(trace, k);
      AroundIsUnder(trace[..k], l);
      var stack := Replay(trace[..k]).value;
      var i :| 0 <= i < |stack| && stack[i] == Host;
      assert l in stack[..i];
    }
  }

  /** What was live around earlier hosts and is live now, or is one of `more`, was also live around the new ones. */
  ghost predicate StillAround(before: set<Layer>, after: set<Layer>, stack: seq<Layer>, more: set<Layer>) {
    forall l :: l in before && (l in stack || l in more) ==> l in after
  }

  /** What holds inside a layer holds around it. */
  lemma AroundInside(before: set<Layer>, after: set<Layer>, stack: seq<Layer>, l: Layer)
    requires StillAround(before, after, stack + [l], {})
    ensures StillAround(before, after, stack, {}) && StillAround(before, after, stack, {l})
  {
    assert (stack + [l])[|stack|] == l;
    forall i | 0 <= i < |stack| ensures stack[i] in stack + [l] {
      assert (stack + [l])[i] == stack[i];
    }
  }

  lemma SameAround(around: set<Layer>, stack: seq<Layer>)
    ensures StillAround(around, around, stack, {})
  {
  }

  // ---------- How far a run came ----------

  /** A layer that was opened, or the radio powered on. */
  datatype Milestone = Opened(layer: Layer) | Powered

  /** The milestones since a layer was last opened with no other live. */
  function ReachedIn(trace: seq<Event>): set<Milestone> {
    if trace == [] then {}
    else
      var before := trace[..|trace| - 1];
      match trace[|trace| - 1]
      case Open(l) => (if Replay(before) == Some([]) then {} else ReachedIn(before)) + {Opened(l)}
      case PowerWrite(v) => if v == 0 then ReachedIn(before) else ReachedIn(before) + {Powered}
      case _ => ReachedIn(before)
  }

  // ---------- What comes back whatever happens ----------

  /** No register of this layer is still to be written back. */
  predicate Free(owed: map<Reg, Word>, l: Layer) {
    forall r :: r in owed ==> Owner(r) != l
  }

  /** What is owed belongs to live layers. */
  lemma {:induction false} OwedIsLive(trace: seq<Event>, r: Reg)
    requires Replay(trace).Some? && r in OwedIn(trace)
    ensures Owner(r) in Replay(trace).value
  {
    hide Below, Supported, PowerAfter, ResetAfter, Requested, Owner;
    var o, e := trace[..|trace| - 1], trace[|trace| - 1];
    if r in OwedIn(o) {
      OwedIsLive(o, r);
      Kept(e, Replay(o).value, Owner(r));
    }
  }

  lemma NothingOwed(trace: seq<Event>, l: Layer)
    requires Replay(trace).Some? && l !in Replay(trace).value
    ensures Free(OwedIn(trace), l)
  {
    hide Replay, OwedIn;
    forall r | r in OwedIn(trace) ensures Owner(r) != l {
      OwedIsLive(trace, r);
    }
  }

  /** A changed register is written back with what it held, or found mute. */
  ghost predicate ComesBack(trace: seq<Event>, d: nat, k: nat, r: Reg, was: Word) {
    exists u :: d < u < k <= |trace| && (trace[u] == Undo(r, was) || trace[u] == Mute(r))
  }

  lemma {:induction false} OwedSince(trace: seq<Event>, d: nat)
    requires d < |trace| && Replay(trace).Some? && trace[d].Change?
    ensures var r, was := trace[d].reg, trace[d].was;
      ComesBack(trace, d, |trace|, r, was) || (r in OwedIn(trace) && OwedIn(trace)[r] == was)
  {
    hide Below, Supported, PowerAfter, ResetAfter, Requested, Next;
    var n := |trace| - 1;
    var o, e, r, was := trace[..n], trace[n], trace[d].reg, trace[d].was;
    if d < n {
      OwedSince(o, d);
      if ComesBack(o, d, n, r, was) {
        var u :| d < u < n && (o[u] == Undo(r, was) || o[u] == Mute(r));
        assert trace[u] == o[u];
      } else if e == Undo(r, was) || e == Mute(r) {
        assert trace[n] == e;
      }
    }
  }

  /** For every lawful run, whatever its result: when a layer closes, each register it changed has been written back with
      the value it had before, unless it was found to read as all ones. */
  lemma RegistersComeBack(trace: seq<Event>, d: nat, k: nat)
    requires d < k < |trace| && Replay(trace).Some? && trace[d].Change? && trace[k] == Close(Owner(trace[d].reg))
    ensures ComesBack(trace, d, k, trace[d].reg, trace[d].was)
  {
    hide Replay, Below, PowerAfter, ResetAfter, Requested, OwedIn;
    ProperAt(trace, k);
    var t := trace[..k];
    OwedSince(t, d);
    var u :| d < u < k && (t[u] == Undo(trace[d].reg, trace[d].was) || t[u] == Mute(trace[d].reg));
    assert trace[u] == t[u];
  }

  /** After event d the radio was last known to be on, or not known to be off, and it was not seen off until k. */
  predicate NotSeenOff(trace: seq<Event>, d: nat, k: nat) {
    && d < k <= |trace|
    && (trace[d].PowerWrite? || (trace[d].PowerRead? && trace[d].value != 0))
    && forall r :: d < r < k ==> trace[r] != PowerRead(0)
  }

  lemma {:induction false} UnverifiedSince(trace: seq<Event>) returns (d: nat)
    requires PowerAfter(trace).Unverified?
    ensures NotSeenOff(trace, d, |trace|)
  {
    var n := |trace| - 1;
    if trace[n].PowerWrite? || trace[n].PowerRead? {
      d := n;
    } else {
      d := UnverifiedSince(trace[..n]);
    }
  }

  lemma {:induction false} IdleSince(trace: seq<Event>, d: nat)
    requires d < |trace| && trace[d].DriveReset? && ResetAfter(trace).Idle?
    ensures exists u :: d < u < |trace| && trace[u].PerstRestored?
  {
    var n := |trace| - 1;
    if trace[n].PerstRestored? {
      assert d < n;
    } else {
      IdleSince(trace[..n], d);
      var u :| d < u < n && trace[..n][u].PerstRestored?;
      assert trace[u].PerstRestored?;
    }
  }

  /** For every lawful run, whatever its result: when the radio layer closes, PERST has been given its saved configuration
      back since it was last driven, exactly unless the radio has not been seen off. */
  lemma PerstComesBackIff(trace: seq<Event>, d: nat, k: nat)
    requires d < k < |trace| && Replay(trace).Some? && trace[k] == Close(Radio)
    requires trace[d].DriveReset? && forall e :: d < e < k ==> !trace[e].DriveReset?
    ensures (exists u :: d < u < k && trace[u].PerstRestored?) <==> !(exists w: nat :: NotSeenOff(trace, w, k))
  {
    hide Replay, Below, Supported;
    ProperAt(trace, k);
    var t := trace[..k];
    if PowerAfter(t).Unverified? {
      var w := UnverifiedSince(t);
      assert NotSeenOff(trace, w, k);
      if u :| d < u < k && trace[u].PerstRestored? {
        RestoredStays(t, u);
      }
    } else {
      IdleSince(t, d);
      var u :| d < u < k && t[u].PerstRestored?;
      assert trace[u].PerstRestored?;
      forall w: nat ensures !NotSeenOff(trace, w, k) {
        if w < k && (trace[w].PowerWrite? || (trace[w].PowerRead? && trace[w].value != 0)) {
          SeenOff(t, w);
          var r :| w < r < k && t[r] == PowerRead(0);
          assert trace[r] == PowerRead(0);
        }
      }
    }
  }

  lemma {:induction false} RestoredStays(trace: seq<Event>, u: nat)
    requires u < |trace| && Replay(trace).Some? && trace[u].PerstRestored?
    requires forall e :: u < e < |trace| ==> !trace[e].DriveReset?
    ensures ResetAfter(trace).Idle?
  {
    hide Below, Supported, PowerAfter, Requested, OwedIn, Next;
    var n := |trace| - 1;
    if u < n {
      RestoredStays(trace[..n], u);
    }
  }

  /** The radio is not Unverified although it was: it has been seen off. */
  lemma {:induction false} SeenOff(trace: seq<Event>, w: nat)
    requires w < |trace| && !PowerAfter(trace).Unverified?
    requires trace[w].PowerWrite? || (trace[w].PowerRead? && trace[w].value != 0)
    ensures exists r :: w < r < |trace| && trace[r] == PowerRead(0)
  {
    var n := |trace| - 1;
    if trace[n] == PowerRead(0) {
      assert n > w;
    } else {
      SeenOff(trace[..n], w);
      var r :| w < r < n && trace[..n][r] == PowerRead(0);
      assert trace[r] == PowerRead(0);
    }
  }

  // ---------- Radio power and PERST ----------

  lemma {:induction false} ProperAt(trace: seq<Event>, k: nat)
    requires k < |trace| && Replay(trace).Some?
    ensures Replay(trace[..k]).Some? && Proper(trace[k], Replay(trace[..k]).value, trace[..k])
    decreases |trace|
  {
    hide Proper, Next;
    var o := trace[..|trace| - 1];
    if k < |o| {
      ProperAt(o, k);
      assert o[..k] == trace[..k];
    }
  }

  lemma {:induction false} OffSince(trace: seq<Event>, w: nat)
    requires w < |trace| && trace[w].PowerWrite? && !PowerAfter(trace).Unverified?
    ensures exists r :: w < r < |trace| && trace[r] == PowerRead(0)
  {
    var n := |trace| - 1;
    if trace[n] == PowerRead(0) {
      assert n > w;
    } else {
      OffSince(trace[..n], w);
      var r :| w < r < n && trace[..n][r] == PowerRead(0);
      assert trace[r] == PowerRead(0);
    }
  }

  /** PERST's saved configuration is written back only after the radio has read as off since its last power write. */
  lemma PerstNeedsRadioOff(trace: seq<Event>, k: nat, w: nat)
    requires w < k < |trace| && Replay(trace).Some? && trace[k].PerstRestored? && trace[w].PowerWrite?
    ensures exists r :: w < r < k && trace[r] == PowerRead(0)
  {
    hide Replay, PowerAfter, Below;
    ProperAt(trace, k);
    OffSince(trace[..k], w);
    var r :| w < r < k && trace[..k][r] == PowerRead(0);
    assert trace[r] == PowerRead(0);
  }

  /** An event that says something new about PERST. */
  predicate AboutReset(e: Event) {
    e.DriveReset? || e.ResetHeld? || e.ResetLost? || e.PerstRestored?
  }

  /** PERST was seen driven low at d, and nothing has been done or seen to it from then until k. */
  predicate HeldFrom(trace: seq<Event>, d: nat, k: nat) {
    d < k <= |trace| && trace[d].ResetHeld? && forall e :: d < e < k ==> !AboutReset(trace[e])
  }

  /** Holding PERST low failed at d, and nothing has been done or seen to it from then until k. */
  predicate LostFrom(trace: seq<Event>, d: nat, k: nat) {
    d < k <= |trace| && trace[d].ResetLost? && forall e :: d < e < k ==> !AboutReset(trace[e])
  }

  lemma {:induction false} ResetSince(trace: seq<Event>, k: nat) returns (d: nat)
    requires k <= |trace|
    requires ResetAfter(trace[..k]).Held? || ResetAfter(trace[..k]).Lost?
    ensures if ResetAfter(trace[..k]).Held? then HeldFrom(trace, d, k) else LostFrom(trace, d, k)
    decreases k
  {
    var t := trace[..k];
    assert t[k - 1] == trace[k - 1] && t[..k - 1] == trace[..k - 1];
    if AboutReset(trace[k - 1]) {
      d := k - 1;
    } else {
      d := ResetSince(trace, k - 1);
    }
  }

  /** The radio is powered on only while PERST has been seen driven low. */
  lemma PowerOnUnderReset(trace: seq<Event>, k: nat)
    requires k < |trace| && Replay(trace).Some? && trace[k].PowerWrite? && trace[k].value != 0
    ensures exists d: nat :: HeldFrom(trace, d, k)
  {
    hide Replay, ResetAfter, Below;
    ProperAt(trace, k);
    var d := ResetSince(trace, k);
  }

  /** It is powered off under a PERST seen low exactly when the last attempt to hold PERST did not fail. */
  lemma PowerOffUnderResetIff(trace: seq<Event>, k: nat)
    requires k < |trace| && Replay(trace).Some? && trace[k] == PowerWrite(0)
    ensures (exists d: nat :: HeldFrom(trace, d, k)) <==> !(exists d: nat :: LostFrom(trace, d, k))
  {
    hide Replay, ResetAfter, Below;
    ProperAt(trace, k);
    var d := ResetSince(trace, k);
    forall a: nat, b: nat | HeldFrom(trace, a, k) ensures !LostFrom(trace, b, k) {
      assert AboutReset(trace[a]);
    }
  }

  /** Every power write happens while PERST has been seen low. */
  ghost predicate AlwaysUnderReset(trace: seq<Event>) {
    forall k: nat :: k < |trace| && trace[k].PowerWrite? ==> exists d: nat :: HeldFrom(trace, d, k)
  }

  /** A run in which holding PERST never failed changes the radio's power under a held PERST only. */
  lemma NeverLostAlwaysHeld(trace: seq<Event>)
    requires Replay(trace).Some? && ResetLost !in trace
    ensures AlwaysUnderReset(trace)
  {
    hide Replay, ResetAfter, Below;
    forall k: nat | k < |trace| && trace[k].PowerWrite? ensures exists d: nat :: HeldFrom(trace, d, k) {
      ProperAt(trace, k);
      var d := ResetSince(trace, k);
    }
  }

  /** The start of a run up to the radio's power-off, in which driving PERST low again fails after the link was up. */
  function Unheld(): seq<Event> {
    [Open(Domain(0)), Open(Domain(1)), Open(Domain(2)), Open(Phy), PowerRead(0), Open(Radio), DriveReset(false), ResetHeld,
     PowerWrite(2), PowerRead(2), ResetHeld, Open(Link), DriveReset(true), DriveReset(false), ResetLost, Close(Link)]
  }

  /** Such a run is lawful, and its power-off happens with PERST not known to be low. */
  lemma PowerOffCanBeUnheld()
    ensures Replay(Unheld()).Some? && Replay(Unheld() + [PowerWrite(0)]).Some?
    ensures LostFrom(Unheld() + [PowerWrite(0)], 14, 16)
  {
    hide Replay, ResetAfter, PowerAfter, Requested, OwedIn, Next;
    var t := UnheldLost();
    assert t == Unheld();
    assert RadioUp()[4] == Radio;
    Continue(t, RadioUp(), PowerWrite(0));
  }

  /** A lawful trace with these layers live goes on with a proper event. */
  lemma Continue(t: seq<Event>, stack: seq<Layer>, e: Event)
    requires Replay(t) == Some(stack) && Proper(e, stack, t)
    ensures Replay(t + [e]) == Some(Next(e, stack))
    ensures ResetAfter(t + [e]) == (match e
      case DriveReset(high) => Driven(high) case ResetHeld => Held case ResetLost => Lost case PerstRestored => Idle
      case _ => ResetAfter(t))
    ensures !e.Change? && !e.Undo? && !e.Mute? ==> OwedIn(t + [e]) == OwedIn(t)
  {
    OneMore(t, e);
  }

  lemma ReplayNone()
    ensures Replay([]) == Some([]) && OwedIn([]) == map[]
  {
  }

  lemma UnheldDomains() returns (t: seq<Event>)
    ensures t == [Open(Domain(0)), Open(Domain(1)), Open(Domain(2))]
    ensures Replay(t) == Some([Domain(0), Domain(1), Domain(2)]) && OwedIn(t) == map[]
  {
    hide Replay, ResetAfter, PowerAfter, Requested, OwedIn;
    ReplayNone();
    t := [];
    assert [] + [Domain(0)] == [Domain(0)];
    Continue(t, [], Open(Domain(0)));
    t := t + [Open(Domain(0))];
    assert [Domain(0)] + [Domain(1)] == [Domain(0), Domain(1)];
    Continue(t, [Domain(0)], Open(Domain(1)));
    t := t + [Open(Domain(1))];
    assert [Domain(0), Domain(1)] + [Domain(2)] == [Domain(0), Domain(1), Domain(2)];
    Continue(t, [Domain(0), Domain(1)], Open(Domain(2)));
    t := t + [Open(Domain(2))];
  }

  lemma UnheldPowered() returns (t: seq<Event>)
    ensures t == [Open(Domain(0)), Open(Domain(1)), Open(Domain(2)), Open(Phy), PowerRead(0), Open(Radio), DriveReset(false), ResetHeld]
    ensures Replay(t) == Some([Domain(0), Domain(1), Domain(2), Phy, Radio]) && ResetAfter(t).Held? && OwedIn(t) == map[]
  {
    hide Replay, ResetAfter, PowerAfter, Requested, OwedIn;
    t := UnheldDomains();
    var stack := [Domain(0), Domain(1), Domain(2)];
    Continue(t, stack, Open(Phy));
    t := t + [Open(Phy)];
    stack := stack + [Phy];
    assert stack == [Domain(0), Domain(1), Domain(2), Phy];
    Continue(t, stack, PowerRead(0));
    t := t + [PowerRead(0)];
    assert stack[3] == Phy;
    Continue(t, stack, Open(Radio));
    t := t + [Open(Radio)];
    stack := stack + [Radio];
    assert stack == [Domain(0), Domain(1), Domain(2), Phy, Radio];
    assert stack[4] == Radio;
    Continue(t, stack, DriveReset(false));
    t := t + [DriveReset(false)];
    Continue(t, stack, ResetHeld);
    t := t + [ResetHeld];
  }

  /** The layers of that run, without and with the link. */
  function RadioUp(): seq<Layer> {
    [Domain(0), Domain(1), Domain(2), Phy, Radio]
  }

  function LinkUp(): seq<Layer> {
    [Domain(0), Domain(1), Domain(2), Phy, Radio, Link]
  }

  lemma UnheldLinked() returns (t: seq<Event>)
    ensures t == Unheld()[..12]
    ensures Replay(t) == Some(LinkUp()) && ResetAfter(t).Held? && OwedIn(t) == map[]
  {
    hide Replay, ResetAfter, PowerAfter, Requested, OwedIn;
    t := UnheldPowered();
    assert RadioUp()[4] == Radio && RadioUp() + [Link] == LinkUp();
    Continue(t, RadioUp(), PowerWrite(2));
    t := t + [PowerWrite(2)];
    Continue(t, RadioUp(), PowerRead(2));
    t := t + [PowerRead(2)];
    Continue(t, RadioUp(), ResetHeld);
    t := t + [ResetHeld];
    Continue(t, RadioUp(), Open(Link));
    t := t + [Open(Link)];
  }

  lemma UnheldLost() returns (t: seq<Event>)
    ensures t == Unheld()
    ensures Replay(t) == Some(RadioUp()) && ResetAfter(t).Lost? && OwedIn(t) == map[]
  {
    hide Replay, ResetAfter, PowerAfter, Requested, OwedIn;
    t := UnheldLinked();
    assert LinkUp()[4] == Radio && LinkUp()[5] == Link && LinkUp()[..5] == RadioUp();
    Continue(t, LinkUp(), DriveReset(true));
    t := t + [DriveReset(true)];
    Continue(t, LinkUp(), DriveReset(false));
    t := t + [DriveReset(false)];
    Continue(t, LinkUp(), ResetLost);
    t := t + [ResetLost];
    Continue(t, LinkUp(), Close(Link));
    t := t + [Close(Link)];
  }

  /** Outside the radio layer the last value asked of WL_REG_ON is 0, on every path. */
  lemma {:induction false} RadioLeftOff(trace: seq<Event>)
    requires Replay(trace).Some? && Radio !in Replay(trace).value
    ensures Requested(trace) == 0
  {
    hide Below, Supported, ResetAfter, PowerAfter;
    if trace != [] {
      var o := trace[..|trace| - 1];
      var stack := Replay(o).value;
      var e := trace[|trace| - 1];
      if Radio !in stack {
        RadioLeftOff(o);
      } else if !e.Close? || stack == [] || stack[|stack| - 1] != Radio {
        Kept(e, stack, Radio);
      }
    }
  }

  lemma Kept(e: Event, stack: seq<Layer>, l: Layer)
    requires l in stack && !(e.Close? && stack[|stack| - 1] == l)
    ensures l in Next(e, stack)
  {
    var i :| 0 <= i < |stack| && stack[i] == l;
    if e.Close? {
      assert stack[..|stack| - 1][i] == l;
    } else {
      assert Next(e, stack)[i] == l;
    }
  }

  lemma OneMore(trace: seq<Event>, e: Event)
    requires Replay(trace).Some? && Proper(e, Replay(trace).value, trace)
    ensures Replay(trace + [e]) == Some(Next(e, Replay(trace).value))
    ensures PowerAfter(trace + [e]) == (match e
      case PowerWrite(_) => Unverified
      case PowerRead(v) => (if v == 0 then Off else Unverified)
      case _ => PowerAfter(trace))
    ensures Requested(trace + [e]) == if e.PowerWrite? then e.value else Requested(trace)
    ensures ResetAfter(trace + [e]) == (match e
      case DriveReset(high) => Driven(high)
      case ResetHeld => Held
      case ResetLost => Lost
      case PerstRestored => Idle
      case _ => ResetAfter(trace))
    ensures AroundHosts(trace + [e]) == if e == Open(Host) then AroundHosts(trace) * Around(trace) else AroundHosts(trace)
    ensures OwedIn(trace + [e]) == OwedAfter(OwedIn(trace), e)
    ensures ReachedIn(trace + [e]) == (match e
      case Open(l) => (if Replay(trace) == Some([]) then {} else ReachedIn(trace)) + {Opened(l)}
      case PowerWrite(v) => (if v == 0 then ReachedIn(trace) else ReachedIn(trace) + {Powered})
      case _ => ReachedIn(trace))
  {
    hide Proper, Next, Around;
    assert (trace + [e])[..|trace + [e]| - 1] == trace;
  }

  // ---------- The surroundings of a run ----------

  /** What may go wrong in a run. Of the register writes those with `takes(n)` are taken, counted from the first. If
      `responsive`, registers answer: they do not read as all ones, and accesses through a register map succeed. If
      `detaches`, device tree nodes and domain consumers can be detached. If `smooth`, no other kernel call fails and every
      check of something that is not modelled passes. `core` is the PHY's register block. */
  datatype Environment = Environment(takes: nat -> bool, responsive: bool, detaches: bool, smooth: bool, core: Device)

  /** Whatever fails on the way, registers take and answer and clean-up succeeds. */
  ghost predicate Orderly(e: Environment) {
    e.responsive && e.detaches && Perfect(e.core) && forall n: nat :: e.takes(n)
  }

  /** Nothing goes wrong. */
  ghost predicate Flawless(e: Environment) {
    Orderly(e) && e.smooth
  }

  // ---------- The board ----------

  class Board {
    const env: Environment
    var hw: Hardware
    /** The registers of the shared PHY. */
    const bank: array<U32>
    /** The device and domain that an inner layer hands to the PCI scan. */
    var scanDart: bool
    var scanMsi: bool
    /** How many register writes there have been. */
    var writes: nat
    ghost var open: seq<Layer>
    ghost var trace: seq<Event>
    /** Holding PERST low has failed at some time. */
    ghost var lost: bool
    /** The layers below the driver that have been live at every opening of a PCI host. */
    ghost var around: set<Layer>
    /** The registers still to be written back, with what they held. */
    ghost var owed: map<Reg, Word>
    /** How far the run has come. */
    ghost var reached: set<Milestone>

    ghost predicate Valid()
      reads this`open, this`trace, this`lost, this`around, this`owed, this`reached
    {
      && Replay(trace) == Some(open) && (lost <==> ResetLost in trace) && around == AroundHosts(trace)
      && owed == OwedIn(trace) && reached == ReachedIn(trace) && bank.Length == PhySteps.WORDS
    }

    constructor (hw: Hardware, bank: array<U32>, env: Environment)
      requires bank.Length == PhySteps.WORDS
      ensures Valid() && this.hw == hw && this.bank == bank && this.env == env && open == [] && trace == []
      ensures !scanDart && !scanMsi && !lost && around == OUTER && owed == map[] && reached == {}
    {
      this.hw, this.bank, this.env := hw, bank, env;
      scanDart, scanMsi, writes := false, false, 0;
      open, trace, lost, around, owed, reached := [], [], false, OUTER, map[], {};
    }

    ghost method Enter(l: Layer)
      requires Valid() && Below(open, l) && Supported(open, l) && l != Host
      modifies this`open, this`trace, this`reached
      ensures Valid() && open == old(open) + [l] && trace == old(trace) + [Open(l)]
      ensures PowerAfter(trace) == PowerAfter(old(trace)) && Requested(trace) == Requested(old(trace))
      ensures ResetAfter(trace) == ResetAfter(old(trace))
      ensures reached == (if old(open) == [] then {} else old(reached)) + {Opened(l)}
    {
      hide Replay, PowerAfter, Requested, ResetAfter, AroundHosts, OwedIn, ReachedIn, Below, Supported;
      OneMore(trace, Open(l));
      reached := (if open == [] then {} else reached) + {Opened(l)};
      open, trace := open + [l], trace + [Open(l)];
    }

    /** From here on the scan may write the bus numbers: what they are now must be written back. */
    ghost method Expose()
      requires Valid() && Link in open && BusNumbers !in owed
      modifies this`trace, this`owed
      ensures Valid() && owed == old(owed)[BusNumbers := hw.buses] && trace == old(trace) + [Change(BusNumbers, hw.buses, hw.buses)]
      ensures PowerAfter(trace) == PowerAfter(old(trace)) && Requested(trace) == Requested(old(trace))
      ensures ResetAfter(trace) == ResetAfter(old(trace))
    {
      hide Replay, PowerAfter, Requested, ResetAfter, AroundHosts, OwedIn, ReachedIn, Below, Supported;
      OneMore(trace, Change(BusNumbers, hw.buses, hw.buses));
      owed, trace := owed[BusNumbers := hw.buses], trace + [Change(BusNumbers, hw.buses, hw.buses)];
    }

    ghost method EnterHost()
      requires Valid() && Below(open, Host) && Supported(open, Host) && BusNumbers in owed
      modifies this`open, this`trace, this`around, this`reached
      ensures Valid() && open == old(open) + [Host] && trace == old(trace) + [Open(Host)]
      ensures PowerAfter(trace) == PowerAfter(old(trace)) && Requested(trace) == Requested(old(trace))
      ensures ResetAfter(trace) == ResetAfter(old(trace))
      ensures StillAround(old(around), around, old(open), {})
      ensures old(open) != [] ==> reached == old(reached) + {Opened(Host)}
    {
      hide Replay, PowerAfter, Requested, ResetAfter, AroundHosts, OwedIn, ReachedIn, Below, Supported;
      OneMore(trace, Open(Host));
      around := around * Around(trace);
      reached := (if open == [] then {} else reached) + {Opened(Host)};
      open, trace := open + [Host], trace + [Open(Host)];
    }

    /** Only the innermost live layer can be left, with the registers it owns written back or found mute; the radio with
        power-off requested, and with PERST given back exactly unless the radio has not been seen off; the link with an
        attempt to hold PERST made and its outcome known. */
    ghost method Leave(l: Layer)
      requires Valid() && open != [] && open[|open| - 1] == l
      requires l == Radio ==> Requested(trace) == 0 && (PowerAfter(trace).Unverified? <==> !ResetAfter(trace).Idle?)
      requires l == Link ==> ResetAfter(trace).Held? || ResetAfter(trace).Lost?
      requires l == Link || l == Phy || l.Domain? ==> Free(owed, l)
      modifies this`open, this`trace
      ensures Valid() && open == old(open)[..|old(open)| - 1] && trace == old(trace) + [Close(l)]
      ensures PowerAfter(trace) == PowerAfter(old(trace)) && Requested(trace) == Requested(old(trace))
      ensures ResetAfter(trace) == ResetAfter(old(trace))
    {
      hide Replay, PowerAfter, Requested, ResetAfter, AroundHosts, OwedIn, ReachedIn, Below, Supported;
      OneMore(trace, Close(l));
      open, trace := open[..|open| - 1], trace + [Close(l)];
    }

    /** Record an event that is not a register write. What a readback shows is what is there. */
    ghost method Note(e: Event)
      requires Valid() && Proper(e, open, trace)
      requires e.WriteBack? || e.PowerRead? || e.DriveReset? || e.ResetHeld?
      requires (e.PowerRead? ==> e.value == hw.radio) && (e.ResetHeld? ==> hw.perst == PERST_LOW)
      modifies this`trace
      ensures Valid() && trace == old(trace) + [e]
      ensures PowerAfter(trace) ==
        if e.PowerRead? then (if e.value == 0 then Off else Unverified) else PowerAfter(old(trace))
      ensures Requested(trace) == Requested(old(trace))
      ensures ResetAfter(trace) == (match e case DriveReset(high) => Driven(high)
                                            case ResetHeld => Held
                                            case _ => ResetAfter(old(trace)))
    {
      hide Replay, PowerAfter, Requested, ResetAfter, AroundHosts, OwedIn, ReachedIn, Below, Supported, Proper;
      OneMore(trace, e);
      trace := trace + [e];
    }

    ghost method NoteLost()
      requires Valid() && Proper(ResetLost, open, trace)
      modifies this`trace, this`lost
      ensures Valid() && lost && trace == old(trace) + [ResetLost] && ResetAfter(trace) == Lost
      ensures PowerAfter(trace) == PowerAfter(old(trace)) && Requested(trace) == Requested(old(trace))
    {
      hide Replay, PowerAfter, Requested, ResetAfter, AroundHosts, OwedIn, ReachedIn, Below, Supported, Proper;
      OneMore(trace, ResetLost);
      trace, lost := trace + [ResetLost], true;
    }

    // Register writes: each is recorded, and the device takes it or not.

    /** Change a register; what it held is owed from now on. */
    method ChangeReg(r: Reg, was: Word, value: Word)
      requires Valid() && Owner(r) in open && r !in owed && Meant(r, was, value) && (r.Auto? ==> r.domain < 3)
      modifies this`hw, this`writes, this`trace, this`owed
      ensures Valid() && owed == old(owed)[r := was] && trace == old(trace) + [Change(r, was, value)]
      ensures hw == if env.takes(old(writes)) then With(old(hw), r, value) else old(hw)
      ensures PowerAfter(trace) == PowerAfter(old(trace)) && Requested(trace) == Requested(old(trace))
      ensures ResetAfter(trace) == ResetAfter(old(trace))
    {
      hide Replay, PowerAfter, Requested, ResetAfter, AroundHosts, OwedIn, ReachedIn, Below, Supported, Meant;
      if env.takes(writes) {
        hw := With(hw, r, value);
      }
      writes := writes + 1;
      OneMore(trace, Change(r, was, value));
      owed, trace := owed[r := was], trace + [Change(r, was, value)];
    }

    /** Write a register's former value back. */
    method UndoReg(r: Reg, value: Word)
      requires Valid() && Owner(r) in open && Below(open, Guard(r)) && r in owed && owed[r] == value && (r.Auto? ==> r.domain < 3)
      modifies this`hw, this`writes, this`trace, this`owed
      ensures Valid() && owed == old(owed) - {r} && trace == old(trace) + [Undo(r, value)]
      ensures hw == if env.takes(old(writes)) then With(old(hw), r, value) else old(hw)
      ensures PowerAfter(trace) == PowerAfter(old(trace)) && Requested(trace) == Requested(old(trace))
      ensures ResetAfter(trace) == ResetAfter(old(trace))
    {
      hide Replay, PowerAfter, Requested, ResetAfter, AroundHosts, OwedIn, ReachedIn, Below, Supported;
      if env.takes(writes) {
        hw := With(hw, r, value);
      }
      writes := writes + 1;
      OneMore(trace, Undo(r, value));
      owed, trace := owed - {r}, trace + [Undo(r, value)];
    }

    /** Read a changed register before it is written back; all ones end its story. */
    method Alive(r: Reg) returns (alive: bool)
      requires Valid() && Owner(r) in open && r in owed && !r.Auto?
      modifies this`trace, this`owed
      ensures Valid() && owed == (if alive then old(owed) else old(owed) - {r})
      ensures trace == (if alive then old(trace) else old(trace) + [Mute(r)])
      ensures env.responsive ==> (alive <==> WordOf(hw, r) != ALL_ONES)
      ensures PowerAfter(trace) == PowerAfter(old(trace)) && Requested(trace) == Requested(old(trace))
      ensures ResetAfter(trace) == ResetAfter(old(trace))
    {
      hide Replay, PowerAfter, Requested, ResetAfter, AroundHosts, OwedIn, ReachedIn, Below, Supported;
      var v := Sample(env, WordOf(hw, r));
      alive := v != ALL_ONES;
      if !alive {
        OneMore(trace, Mute(r));
        owed, trace := owed - {r}, trace + [Mute(r)];
      }
    }

    /** Write WL_REG_ON. */
    method SetPower(value: Word)
      requires Valid() && Proper(PowerWrite(value), open, trace)
      modifies this`hw, this`writes, this`trace, this`reached
      ensures Valid() && trace == old(trace) + [PowerWrite(value)]
      ensures hw == if env.takes(old(writes)) then old(hw).(radio := value) else old(hw)
      ensures reached == old(reached) + if value == 0 then {} else {Powered}
      ensures PowerAfter(trace).Unverified? && Requested(trace) == value && ResetAfter(trace) == ResetAfter(old(trace))
    {
      hide Replay, PowerAfter, Requested, ResetAfter, AroundHosts, OwedIn, ReachedIn, Below, Supported, Proper;
      if env.takes(writes) {
        hw := hw.(radio := value);
      }
      writes := writes + 1;
      OneMore(trace, PowerWrite(value));
      reached := reached + if value == 0 then {} else {Powered};
      trace := trace + [PowerWrite(value)];
    }

    /** Give PERST its saved configuration back. */
    method GivePerstBack()
      requires Valid() && Proper(PerstRestored, open, trace)
      modifies this`hw, this`writes, this`trace
      ensures Valid() && trace == old(trace) + [PerstRestored]
      ensures hw == if env.takes(old(writes)) then old(hw).(perst := PERST_SAVED) else old(hw)
      ensures PowerAfter(trace) == PowerAfter(old(trace)) && Requested(trace) == Requested(old(trace))
      ensures ResetAfter(trace).Idle?
    {
      hide Replay, PowerAfter, Requested, ResetAfter, AroundHosts, OwedIn, ReachedIn, Below, Supported, Proper;
      if env.takes(writes) {
        hw := hw.(perst := PERST_SAVED);
      }
      writes := writes + 1;
      OneMore(trace, PerstRestored);
      trace := trace + [PerstRestored];
    }
  }

  /** What a port register holds. */
  function WordOf(hw: Hardware, r: Reg): Word
    requires !r.Auto?
  {
    match r
    case Ltssm => hw.ltssm
    case Route | BusNumbers => hw.buses
    case MsiControl => hw.msiControl
    case MsiBase => hw.msiBase
  }

  // ---------- Calls that may fail, devices that may not answer ----------

  /** A kernel call: zero or a negative error. */
  method Call(e: Environment) returns (ret: int)
    ensures ret <= 0 && (e.smooth ==> ret == 0)
  {
    ret := 0;
    if !e.smooth {
      ret :| ret <= 0;
    }
  }

  /** A check of something that is not modelled. */
  method Check(e: Environment) returns (passes: bool)
    ensures e.smooth ==> passes
  {
    passes := *;
    passes := passes || e.smooth;
  }

  /** An access through a register map, or one that must not fail for hardware to be put back. */
  method Access(e: Environment) returns (ret: int)
    ensures ret <= 0 && (e.responsive ==> ret == 0)
  {
    ret := 0;
    if !e.responsive {
      ret :| ret <= 0;
    }
  }

  /** Detaching a node or a consumer. */
  method Detaching(e: Environment) returns (ret: int)
    ensures ret <= 0 && (e.detaches ==> ret == 0)
  {
    ret := 0;
    if !e.detaches {
      ret :| ret <= 0;
    }
  }

  method Choose() returns (b: bool) {
    b := *;
  }

  /** A register read through MMIO. */
  method Sample(e: Environment, w: Word) returns (v: Word)
    ensures v == w || v == ALL_ONES
    ensures e.responsive ==> v == w
  {
    var silent := Choose();
    v := if silent && !e.responsive then ALL_ONES else w;
  }

  /** A read through a register map: an error, or the value. */
  method RegmapRead(e: Environment, w: Word) returns (ret: int, v: Word)
    ensures ret <= 0 && (ret == 0 ==> v == w) && (e.responsive ==> ret == 0)
  {
    v := w;
    ret := Access(e);
  }

  /** read_equal: an uncached read compared with what is expected. */
  method ReadEqual(e: Environment, w: Word, expected: Word) returns (ret: int)
    ensures ret <= 0 && (ret == 0 ==> w == expected) && (e.responsive && w == expected ==> ret == 0)
  {
    var value;
    ret, value := RegmapRead(e, w);
    if ret == 0 && value != expected {
      ret := EIO;
    }
  }
}
