/** What the readbacks of the restore sequence prove on a device that ignores writes and reads as all ones when it
    does not answer (a1625_pci_scan.h, lines 574-610). */
module ConfigRecovery {
  import opened ConfigSpace
  import opened ConfigFilter
  import opened ConfigRestore

  /** What a register of a device that does not answer reads as. */
  function Dead(size: nat): U32 {
    Mask(i => i < 8 * size)
  }

  /** The register's readback tells its entry value from no answer. */
  predicate Telling(entry: Config, r: Register)
    requires InPage(r.where, r.size)
  {
    And(Dead(r.size), r.mask) != Capture(entry, r).saved
  }

  /** Every register that covers this bit is telling. */
  predicate Told(entry: Config, rs: seq<Register>, bus: nat, k: nat)
    requires AllInPage(rs)
  {
    forall i :: 0 <= i < |rs| && Covers(rs[i], bus, k) ==> Telling(entry, rs[i])
  }

  /** Covered bits that all their registers keep and tell have their entry values. */
  ghost predicate Recovered(entry: Config, space: Config, rs: seq<Register>)
    requires AllInPage(rs)
  {
    forall bus: nat, k: nat :: bus <= 1 && k < PAGE_BITS && Covered(rs, bus, k) && Kept(rs, bus, k) && Told(entry, rs, bus, k)
      ==> space.Page(bus)[k] == entry.Page(bus)[k]
  }

  /** Bits that are not covered have not changed. */
  ghost predicate OnlyCovered(before: Config, after: Config, rs: seq<Register>) {
    forall bus: nat, k: nat :: bus <= 1 && k < PAGE_BITS && !Covered(rs, bus, k) ==> after.Page(bus)[k] == before.Page(bus)[k]
  }

  lemma NothingToRecover(entry: Config, space: Config)
    ensures Recovered(entry, space, []) && OnlyCovered(space, space, [])
  {
  }

  lemma CoveredParts(a: seq<Register>, b: seq<Register>, bus: nat, k: nat)
    ensures Covered(a + b, bus, k) <==> Covered(a, bus, k) || Covered(b, bus, k)
    ensures Kept(a + b, bus, k) <==> Kept(a, bus, k) && Kept(b, bus, k)
  {
    var all := a + b;
    if i :| 0 <= i < |a| && Covers(a[i], bus, k) {
      assert Covers(all[i], bus, k);
    }
    if i :| 0 <= i < |b| && Covers(b[i], bus, k) {
      assert Covers(all[|a| + i], bus, k);
    }
    if Kept(all, bus, k) {
      assert forall i :: 0 <= i < |a| ==> all[i] == a[i];
      assert forall i :: 0 <= i < |b| ==> all[|a| + i] == b[i];
    }
  }

  lemma ToldParts(entry: Config, a: seq<Register>, b: seq<Register>, bus: nat, k: nat)
    requires AllInPage(a) && AllInPage(b)
    ensures AllInPage(a + b)
    ensures Told(entry, a + b, bus, k) <==> Told(entry, a, bus, k) && Told(entry, b, bus, k)
  {
    hide Telling;
    var all := a + b;
    assert forall i :: 0 <= i < |a| ==> all[i] == a[i];
    assert forall i :: 0 <= i < |b| ==> all[|a| + i] == b[i];
  }

  /** Restoring more registers keeps what was recovered, up to what the later ones cover. */
  lemma RecoveredMore(entry: Config, before: Config, after: Config, a: seq<Register>, b: seq<Register>)
    requires AllInPage(a) && AllInPage(b)
    requires Recovered(entry, before, a) && OnlyCovered(before, after, b) && Recovered(entry, after, b)
    ensures AllInPage(a + b) && Recovered(entry, after, a + b)
  {
    hide Covered, Kept, Told;
    forall bus: nat, k: nat | bus <= 1 && k < PAGE_BITS
      && Covered(a + b, bus, k) && Kept(a + b, bus, k) && Told(entry, a + b, bus, k)
      ensures after.Page(bus)[k] == entry.Page(bus)[k]
    {
      CoveredParts(a, b, bus, k);
      ToldParts(entry, a, b, bus, k);
    }
  }

  lemma OnlyCoveredMore(before: Config, middle: Config, after: Config, a: seq<Register>, b: seq<Register>)
    requires OnlyCovered(before, middle, a) && OnlyCovered(middle, after, b)
    ensures OnlyCovered(before, after, a + b)
  {
    hide Covered;
    forall bus: nat, k: nat | bus <= 1 && k < PAGE_BITS && !Covered(a + b, bus, k)
      ensures after.Page(bus)[k] == before.Page(bus)[k]
    {
      CoveredParts(a, b, bus, k);
    }
  }

  /** A write to a register that shares no bit with another leaves the other recovered. */
  lemma RecoveredApart(entry: Config, before: Config, after: Config, r: Register, g: Register)
    requires InPage(r.where, r.size) && AllInPage([r]) && Recovered(entry, before, [r]) && OnlyCovered(before, after, [g])
    requires r.bus != g.bus || r.where + r.size <= g.where || g.where + g.size <= r.where
    ensures Recovered(entry, after, [r])
  {
    hide Kept, Told;
    forall bus: nat, k: nat | bus <= 1 && k < PAGE_BITS
      && Covered([r], bus, k) && Kept([r], bus, k) && Told(entry, [r], bus, k)
      ensures after.Page(bus)[k] == entry.Page(bus)[k]
    {
      assert Covers(r, bus, k) && !Covers(g, bus, k);
      assert !Covered([g], bus, k);
    }
  }

  /** Registers recovered one by one are recovered together. */
  lemma {:induction false} RecoveredEach(entry: Config, space: Config, rs: seq<Register>)
    requires AllInPage(rs) && forall i :: 0 <= i < |rs| ==> AllInPage([rs[i]]) && Recovered(entry, space, [rs[i]])
    ensures Recovered(entry, space, rs)
  {
    hide Recovered;
    if rs == [] {
      NothingToRecover(entry, space);
    } else {
      var front, last := rs[..|rs| - 1], rs[|rs| - 1];
      RecoveredEach(entry, space, front);
      Unmoved(space, [last]);
      RecoveredMore(entry, space, space, front, [last]);
      assert front + [last] == rs;
    }
  }

  lemma Unmoved(space: Config, rs: seq<Register>)
    ensures OnlyCovered(space, space, rs)
  {
  }

  /** The registers that the sequence reads back at once: the base addresses. */
  predicate ReadAtOnce(f: nat) {
    2 <= f < 10
  }

  lemma FixedApart(f: nat, g: nat)
    requires f < |FixedRegisters()| && g < |FixedRegisters()| && f != g
    ensures var r, q := FixedRegisters()[f], FixedRegisters()[g];
      r.bus != q.bus || r.where + r.size <= q.where || q.where + q.size <= r.where
  {
  }

  /** Writing one register, taken or not, changes nothing else. */
  lemma WriteStays(space: Config, r: Register, v: U32)
    requires InPage(r.where, r.size) && r.bus <= 1
    ensures OnlyCovered(space, space.Write(r.bus, r.where, r.size, v), [r])
  {
    forall bus: nat, k: nat | bus <= 1 && k < PAGE_BITS && !Covered([r], bus, k)
      ensures space.Write(r.bus, r.where, r.size, v).Page(bus)[k] == space.Page(bus)[k]
    {
      assert [r][0] == r && !Covers(r, bus, k);
      WriteBit(space, r.bus, r.where, r.size, v, bus, k);
    }
  }

  /** A readback that shows the saved value proves every kept bit of a telling register. */
  lemma ReadbackProves(entry: Config, space: Config, r: Register, observed: U32)
    requires InPage(r.where, r.size) && r.bus <= 1
    requires observed == space.Read(r.bus, r.where, r.size) || observed == Dead(r.size)
    requires And(observed, r.mask) == Capture(entry, r).saved
    ensures Recovered(entry, space, [r])
  {
    forall bus: nat, k: nat | bus <= 1 && k < PAGE_BITS
      && Covered([r], bus, k) && Kept([r], bus, k) && Told(entry, [r], bus, k)
      ensures space.Page(bus)[k] == entry.Page(bus)[k]
    {
      assert [r][0] == r && Covers([r][0], bus, k) && Telling(entry, r);
      var at := k - 8 * r.where;
      assert r.mask[at];
      CapturedBit(entry, r, k);
      ReadBit(space, r.bus, r.where, r.size, at);
      assert And(observed, r.mask)[at] == observed[at];
    }
  }

  /** Without that the readback proves nothing: a device that does not answer passes it, whatever the register holds. */
  lemma DeadCanPass(entry: Config, r: Register, k: nat) returns (space: Config)
    requires InPage(r.where, r.size) && r.bus <= 1 && !Telling(entry, r)
    requires Covers(r, r.bus, k) && r.mask[k - 8 * r.where]
    ensures And(Dead(r.size), r.mask) == Capture(entry, r).saved
    ensures space.Page(r.bus)[k] != entry.Page(r.bus)[k]
  {
    var at := k - 8 * r.where;
    var zero := Mask(_ => false);
    space := entry.Write(r.bus, r.where, r.size, zero);
    WriteBit(entry, r.bus, r.where, r.size, zero, r.bus, k);
    CapturedBit(entry, r, k);
    assert And(Dead(r.size), r.mask)[at];
  }

  // ---------- The whole sequence ----------

  /** After a run of writes, any of them ignored, and a restore that changed only its own registers and whose readbacks
      all agreed: every bit that its registers keep and tell, and that is covered or not transient, has its entry value. */
  ghost predicate Restored(l: Layout, entry: Config, after: Config)
    requires LayoutInBounds(l) && AllInPage(RestoreOrder(Registers(l)))
  {
    forall bus: nat, k: nat ::
      && bus <= 1 && k < PAGE_BITS
      && Kept(RestoreOrder(Registers(l)), bus, k) && Told(entry, RestoreOrder(Registers(l)), bus, k)
      && (Covered(RestoreOrder(Registers(l)), bus, k) || !Transient(bus, k))
      ==> after.Page(bus)[k] == entry.Page(bus)[k]
  }

  lemma RestoredDespiteLosses(l: Layout, entry: Config, ops: seq<Op>, after: Config)
    requires LayoutInBounds(l) && Admissible(l, ops) && AllInPage(RestoreOrder(Registers(l)))
    requires var order := RestoreOrder(Registers(l));
      && OnlyCovered(Run(SavedControls(l, entry), State(entry, false, false), ops).space, after, order)
      && Recovered(entry, after, order)
    ensures Restored(l, entry, after)
  {
    hide Covered, Kept, Told, Transient, RestoreOrder, Registers;
    var order := RestoreOrder(Registers(l));
    forall bus: nat, k: nat
      | bus <= 1 && k < PAGE_BITS && Kept(order, bus, k) && Told(entry, order, bus, k)
        && (Covered(order, bus, k) || !Transient(bus, k))
      ensures after.Page(bus)[k] == entry.Page(bus)[k]
    {
      if !Covered(order, bus, k) {
        RunLeaves(l, SavedControls(l, entry), State(entry, false, false), ops, bus, k);
      }
    }
  }

  // ---------- The outcome on any device ----------

  /** After the first n of these registers were written back on a device that takes write j exactly if it is so disposed. */
  function WriteBackOn(d: Device, entry: Config, space: Config, rs: seq<Register>, n: nat): Config
    requires AllInPage(rs) && n <= |rs|
  {
    if n == 0 then space
    else
      var before := WriteBackOn(d, entry, space, rs, n - 1);
      if d.takes(n - 1) then Written(entry, before, rs[n - 1]) else before
  }

  /** One register with its saved value. */
  function Written(entry: Config, space: Config, r: Register): Config
    requires InPage(r.where, r.size)
  {
    space.Write(r.bus, r.where, r.size, Capture(entry, r).saved)
  }

  /** The readback of register j agrees with what was saved. */
  predicate Agrees(d: Device, entry: Config, space: Config, r: Register, j: nat)
    requires InPage(r.where, r.size)
  {
    And(if d.answers(j) then space.Read(r.bus, r.where, r.size) else Dead(r.size), r.mask) == Capture(entry, r).saved
  }

  /** Register j of the restore order is read back right after it is written; the others are read at the end. */
  predicate AtOnce(saved: nat, j: nat) {
    j < saved || ReadAtOnce(j - saved)
  }

  /** Its readback, whenever it is made, agrees. */
  predicate Agreed(d: Device, entry: Config, start: Config, rs: seq<Register>, saved: nat, j: nat)
    requires AllInPage(rs) && j < |rs|
  {
    Agrees(d, entry, WriteBackOn(d, entry, start, rs, if AtOnce(saved, j) then j + 1 else |rs|), rs[j], j)
  }

  predicate AllAgree(d: Device, entry: Config, start: Config, rs: seq<Register>, saved: nat)
    requires AllInPage(rs)
  {
    forall j :: 0 <= j < |rs| ==> Agreed(d, entry, start, rs, saved, j)
  }

  lemma {:induction false} PerfectWrites(d: Device, entry: Config, start: Config, rs: seq<Register>, n: nat)
    requires AllInPage(rs) && n <= |rs| && Perfect(d)
    ensures AllInPage(rs[..n]) && WriteBackOn(d, entry, start, rs, n) == WriteBack(entry, start, rs[..n])
  {
    hide Config.Write;
    if n > 0 {
      PerfectWrites(d, entry, start, rs, n - 1);
      assert rs[..n][..n - 1] == rs[..n - 1];
    }
  }
}
