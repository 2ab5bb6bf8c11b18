/** The eight-slot MSI allocator of port 1 (a1625_msi.h, lines 46-90 and 29-34 for composition). */
module MsiAllocator {
  import opened Errno

  const SLOTS: nat := 8

  /** An allocation: `count` neighbouring slots from `slot` on. */
  datatype Region = Region(slot: nat, count: nat) {
    predicate Has(i: nat) {
      slot <= i < slot + count
    }
  }

  predicate PowerOfTwo(n: nat) {
    n == 1 || n == 2 || n == 4 || n == 8
  }

  /** A region the allocator may hand out. */
  predicate Aligned(r: Region) {
    PowerOfTwo(r.count) && r.slot % r.count == 0 && r.slot + r.count <= SLOTS
  }

  type Used = s: seq<bool> | |s| == SLOTS witness [false, false, false, false, false, false, false, false]

  predicate FreeRegion(used: Used, r: Region) {
    Aligned(r) && forall i :: r.slot <= i < r.slot + r.count ==> !used[i]
  }

  /** The bitmap with the slots of a region set or cleared. */
  function Mark(used: Used, r: Region, value: bool): (u: Used)
    requires r.slot + r.count <= SLOTS
    ensures forall i :: 0 <= i < SLOTS ==> u[i] == if r.Has(i) then value else used[i]
  {
    seq(SLOTS, i requires 0 <= i < SLOTS => if r.Has(i) then value else used[i])
  }

  /** The bitmap with the slots of these hardware numbers cleared. */
  function Cleared(used: Used, gone: set<nat>): (u: Used)
    ensures forall i :: 0 <= i < SLOTS ==> u[i] == (used[i] && 8 + i !in gone)
  {
    seq(SLOTS, i requires 0 <= i < SLOTS => used[i] && 8 + i !in gone)
  }

  // ---------- The allocator's state ----------

  /** The hardware number of every live virtual interrupt. */
  type Numbers = map<nat, nat>

  /** Allocations, by their first virtual interrupt, of which nothing has been freed yet. */
  type Allocations = map<nat, Region>

  /** The message number and the parent interrupt index of the k-th interrupt of a region. */
  function Message(r: Region, k: nat): nat {
    8 + r.slot + k
  }

  function ParentIndex(r: Region, k: nat): nat {
    232 + r.slot + k
  }

  /** Interrupt x belongs to the allocation that starts at v. */
  predicate Owns(live: Allocations, v: nat, x: nat) {
    v in live && v <= x < v + live[v].count
  }

  /** Live interrupts have different messages among 8..15, and the bitmap has exactly their slots. */
  ghost predicate Wired(used: Used, hwirq: Numbers) {
    && (forall x :: x in hwirq ==> 8 <= hwirq[x] < 8 + SLOTS)
    && (forall x, y :: x in hwirq && y in hwirq && hwirq[x] == hwirq[y] ==> x == y)
    && (forall i: nat :: i < SLOTS ==> (used[i] <==> exists x :: x in hwirq && hwirq[x] == 8 + i))
  }

  /** Untouched allocations are aligned, their interrupts have their slots' messages, and no two share an interrupt. */
  ghost predicate Owned(hwirq: Numbers, live: Allocations) {
    && (forall v :: v in live ==> Aligned(live[v]))
    && (forall v: nat, x: nat :: Owns(live, v, x) ==> x in hwirq && hwirq[x] == Message(live[v], x - v))
    && (forall v: nat, w: nat, x: nat :: Owns(live, v, x) && Owns(live, w, x) ==> v == w)
  }

  /** Every live interrupt belongs to an untouched allocation: nothing has been freed in part. */
  ghost predicate Whole(hwirq: Numbers, live: Allocations) {
    forall x :: x in hwirq ==> exists v: nat :: Owns(live, v, x)
  }

  /** Port 1 owns messages 8..15 and parent interrupts 232..239; the two differ by 224. */
  lemma MessagesInRange(hwirq: Numbers, live: Allocations, v: nat, k: nat)
    requires Owned(hwirq, live) && v in live && k < live[v].count
    ensures v + k in hwirq && hwirq[v + k] == Message(live[v], k) && 8 <= hwirq[v + k] <= 15
    ensures ParentIndex(live[v], k) == hwirq[v + k] + 224
  {
    assert Owns(live, v, v + k);
  }

  /** Untouched allocations have disjoint slots. */
  lemma RegionsDisjoint(used: Used, hwirq: Numbers, live: Allocations, v: nat, w: nat, i: nat)
    requires Wired(used, hwirq) && Owned(hwirq, live) && v in live && w in live
    requires live[v].Has(i) && live[w].Has(i)
    ensures v == w
  {
    var x, y := v + (i - live[v].slot), w + (i - live[w].slot);
    assert Owns(live, v, x) && Owns(live, w, y);
    assert hwirq[x] == hwirq[y];
  }

  /** If nothing has been freed in part, the allocations' slots are exactly what the bitmap has. */
  lemma UnionIsUsed(used: Used, hwirq: Numbers, live: Allocations, i: nat)
    requires Wired(used, hwirq) && Owned(hwirq, live) && Whole(hwirq, live) && i < SLOTS
    ensures used[i] <==> exists v :: v in live && live[v].Has(i)
  {
    if used[i] {
      var x :| x in hwirq && hwirq[x] == 8 + i;
      var v: nat :| Owns(live, v, x);
      assert live[v].Has(i);
    }
    if v :| v in live && live[v].Has(i) {
      var x := v + (i - live[v].slot);
      assert Owns(live, v, x);
    }
  }

  /** The bitmap reads as zero exactly when no interrupt is live: the leak test at the end of the domain's life. */
  lemma UnusedIffNothingLive(used: Used, hwirq: Numbers)
    requires Wired(used, hwirq)
    ensures (forall i :: 0 <= i < SLOTS ==> !used[i]) <==> hwirq == map[]
  {
    if hwirq.Keys != {} {
      var x :| x in hwirq.Keys;
      assert used[hwirq[x] - 8];
    } else {
      assert hwirq == map[];
      assert forall x :: x !in hwirq;
    }
  }

  // ---------- Allocating ----------

  /** After some of a region's interrupts have their numbers. */
  ghost predicate Numbered(before: Numbers, after: Numbers, virq: nat, slot: nat, count: nat) {
    && (forall x :: x in after <==> x in before || virq <= x < virq + count)
    && (forall x :: x in after ==> after[x] == if virq <= x < virq + count then 8 + slot + (x - virq) else before[x])
  }

  ghost predicate Unknown(hwirq: Numbers, virq: nat, count: nat) {
    forall x :: virq <= x < virq + count ==> x !in hwirq
  }

  /** New interrupts in a free region share no message with the others. */
  lemma Adding(used: Used, hwirq: Numbers, after: Numbers, v: nat, r: Region)
    requires Wired(used, hwirq) && FreeRegion(used, r) && Unknown(hwirq, v, r.count)
    requires Numbered(hwirq, after, v, r.slot, r.count)
    ensures Wired(Mark(used, r, true), after)
  {
    var marked := Mark(used, r, true);
    forall x, y | x in after && y in after && after[x] == after[y] ensures x == y {
      Apart(used, hwirq, after, v, r, x, y);
      Apart(used, hwirq, after, v, r, y, x);
    }
    forall i: nat | i < SLOTS ensures marked[i] <==> exists x :: x in after && after[x] == 8 + i {
      MarkedBit(used, hwirq, after, v, r, i);
    }
  }

  lemma MarkedBit(used: Used, hwirq: Numbers, after: Numbers, v: nat, r: Region, i: nat)
    requires Wired(used, hwirq) && FreeRegion(used, r) && Unknown(hwirq, v, r.count) && i < SLOTS
    requires Numbered(hwirq, after, v, r.slot, r.count)
    ensures Mark(used, r, true)[i] <==> exists x :: x in after && after[x] == 8 + i
  {
    if r.Has(i) {
      assert after[v + (i - r.slot)] == 8 + i;
    } else if used[i] {
      var x :| x in hwirq && hwirq[x] == 8 + i;
      assert x in after && after[x] == 8 + i;
    }
  }

  /** An interrupt that was there does not have a new interrupt's message. */
  lemma Apart(used: Used, hwirq: Numbers, after: Numbers, v: nat, r: Region, x: nat, y: nat)
    requires Wired(used, hwirq) && FreeRegion(used, r) && Unknown(hwirq, v, r.count)
    requires Numbered(hwirq, after, v, r.slot, r.count)
    requires x in after && y in after
    ensures v <= x < v + r.count && !(v <= y < v + r.count) ==> after[x] != after[y]
  {
    if !(v <= y < v + r.count) {
      assert y in hwirq && used[hwirq[y] - 8];
    }
  }

  /** A new allocation is aligned and owns what the others do not. */
  lemma Numbering(hwirq: Numbers, live: Allocations, after: Numbers, v: nat, r: Region)
    requires Owned(hwirq, live) && Aligned(r) && Unknown(hwirq, v, r.count) && Numbered(hwirq, after, v, r.slot, r.count)
    ensures v !in live && Owned(after, live[v := r])
    ensures Whole(hwirq, live) ==> Whole(after, live[v := r])
  {
    if v in live {
      assert Owns(live, v, v);
    }
    var more := live[v := r];
    forall w: nat, x: nat | Owns(more, w, x)
      ensures (w != v ==> Owns(live, w, x)) && x in after && after[x] == Message(more[w], x - w)
    {
      if w != v {
        assert Owns(live, w, x);
      }
    }
    if Whole(hwirq, live) {
      forall x | x in after ensures exists w: nat :: Owns(more, w, x) {
        if v <= x < v + r.count {
          assert Owns(more, v, x);
        } else {
          var w: nat :| Owns(live, w, x);
          assert Owns(more, w, x);
        }
      }
    }
  }

  // ---------- Freeing ----------

  /** The numbers after these interrupts are reset. */
  function Without(hwirq: Numbers, virq: nat, count: nat): Numbers {
    map x | x in hwirq && !(virq <= x < virq + count) :: hwirq[x]
  }

  /** The hardware numbers of a range of interrupts. */
  function Gone(hwirq: Numbers, virq: nat, count: nat): set<nat> {
    set x | x in hwirq && virq <= x < virq + count :: hwirq[x]
  }

  /** The allocations that keep all their interrupts. */
  ghost function Unfreed(live: Allocations, virq: nat, count: nat): Allocations {
    map v | v in live && (v + live[v].count <= virq || virq + count <= v) :: live[v]
  }

  /** Freeing any live interrupts, a whole allocation or a part, keeps the others as they are. */
  lemma Removing(used: Used, hwirq: Numbers, virq: nat, count: nat)
    requires Wired(used, hwirq)
    ensures Wired(Cleared(used, Gone(hwirq, virq, count)), Without(hwirq, virq, count))
  {
    var after, gone := Without(hwirq, virq, count), Gone(hwirq, virq, count);
    forall i: nat | i < SLOTS ensures Cleared(used, gone)[i] <==> exists x :: x in after && after[x] == 8 + i {
      if used[i] {
        var x :| x in hwirq && hwirq[x] == 8 + i;
        assert 8 + i in gone <==> virq <= x < virq + count;
        if 8 + i !in gone {
          assert x in after && after[x] == 8 + i;
        }
      }
    }
  }

  /** Allocations of which nothing was freed stay aligned and apart. */
  lemma Resetting(hwirq: Numbers, live: Allocations, virq: nat, count: nat)
    requires Owned(hwirq, live)
    ensures Owned(Without(hwirq, virq, count), Unfreed(live, virq, count))
    ensures Whole(hwirq, live) && virq in live && live[virq].count == count ==>
      Whole(Without(hwirq, virq, count), Unfreed(live, virq, count))
  {
    hide Aligned, Message;
    var after, fewer := Without(hwirq, virq, count), Unfreed(live, virq, count);
    forall v: nat, x: nat | Owns(fewer, v, x) ensures Owns(live, v, x) && x in after && after[x] == hwirq[x] {
      assert Owns(live, v, x);
    }
    if Whole(hwirq, live) && virq in live && live[virq].count == count {
      forall x | x in after ensures exists v: nat :: Owns(fewer, v, x) {
        var v: nat :| Owns(live, v, x);
        KeptApart(hwirq, live, virq, v, x);
        assert Owns(fewer, v, x);
      }
    }
  }

  /** Two different allocations lie on one side of each other. */
  lemma KeptApart(hwirq: Numbers, live: Allocations, virq: nat, v: nat, x: nat)
    requires Owned(hwirq, live) && virq in live && Owns(live, v, x) && !Owns(live, virq, x)
    ensures v + live[v].count <= virq || virq + live[virq].count <= v
  {
    if v < virq < v + live[v].count && live[virq].count > 0 {
      assert Owns(live, v, virq) && Owns(live, virq, virq);
    } else if virq <= v < virq + live[virq].count {
      assert Owns(live, virq, v) && Owns(live, v, v);
    } else {
      assert Aligned(live[virq]);
    }
  }

  // ---------- The allocator at work ----------

  /** There is room for `count` neighbouring aligned slots. */
  ghost predicate Room(used: Used, count: nat) {
    exists p: nat :: FreeRegion(used, Region(p, count))
  }

  class Msi {
    var used: Used
    var hwirq: Numbers
    ghost var live: Allocations
    /** How many interrupts have ever been handed out. */
    ghost var handed: nat

    ghost predicate Valid()
      reads this
    {
      Wired(used, hwirq) && Owned(hwirq, live)
    }

    constructor ()
      ensures Valid() && hwirq == map[] && live == map[]
    {
      used := [false, false, false, false, false, false, false, false];
      hwirq, live, handed := map[], map[], 0;
    }

    /** bitmap_find_free_region: the lowest aligned free region, marked as used. */
    method FindFreeRegion(count: nat) returns (slot: int)
      requires PowerOfTwo(count)
      modifies this`used
      ensures slot >= 0 <==> Room(old(used), count)
      ensures slot >= 0 ==> FreeRegion(old(used), Region(slot, count)) && used == Mark(old(used), Region(slot, count), true)
      ensures slot >= 0 ==> forall p: nat :: p < slot ==> !FreeRegion(old(used), Region(p, count))
      ensures slot < 0 ==> slot == ENOMEM && used == old(used)
    {
      var pos := 0;
      while pos + count <= SLOTS
        invariant 0 <= pos && pos % count == 0 && used == old(used)
        invariant forall p: nat :: p < pos ==> !FreeRegion(used, Region(p, count))
      {
        var free := RegionIsFree(pos, count);
        if free {
          used := Mark(used, Region(pos, count), true);
          return pos;
        }
        NoneBetween(used, pos, count);
        pos := pos + count;
      }
      return ENOMEM;
    }

    method RegionIsFree(pos: nat, count: nat) returns (free: bool)
      requires PowerOfTwo(count) && pos % count == 0 && pos + count <= SLOTS
      ensures free <==> FreeRegion(used, Region(pos, count))
    {
      free := true;
      for i := pos to pos + count
        invariant free <==> forall k :: pos <= k < i ==> !used[k]
      {
        free := free && !used[i];
      }
    }

    /** Allocate `count` interrupts from `virq` on; `parent` is what the parent domain reports.
        It fails for space only when no aligned free region exists, and a failure changes nothing. */
    method Alloc(virq: nat, count: nat, parent: int) returns (ret: int, ghost r: Region)
      requires Valid() && parent <= 0 && Unknown(hwirq, virq, count)
      modifies this
      ensures Valid()
      ensures ret == (if !PowerOfTwo(count) then EINVAL else if !Room(old(used), count) then ENOMEM else parent)
      ensures ret == 0 ==> FreeRegion(old(used), r) && r.count == count && used == Mark(old(used), r, true)
      ensures ret == 0 ==> forall p: nat :: p < r.slot ==> !FreeRegion(old(used), Region(p, count))
      ensures ret == 0 ==> Numbered(old(hwirq), hwirq, virq, r.slot, count)
      ensures ret == 0 ==> virq !in old(live) && live == old(live)[virq := r]
      ensures old(Whole(hwirq, live)) ==> Whole(hwirq, live)
      ensures ret != 0 ==> used == old(used) && live == old(live) && hwirq == old(hwirq)
      ensures handed == old(handed) + if ret == 0 then count else 0
    {
      hide Wired, Owned, Numbered, FreeRegion, Room, Whole, Unknown;
      r := Region(0, 0);
      if count == 0 || count > 8 || !(count == 1 || count == 2 || count == 4 || count == 8) {
        return EINVAL, r;
      }
      var slot := FindFreeRegion(count);
      if slot < 0 {
        return slot, r;
      }
      r := Region(slot, count);
      Unmarking(old(used), r);
      if parent != 0 {
        used := Mark(used, Region(slot, count), false);
        return parent, r;
      }
      SetNumbers(virq, slot, count);
      Adding(old(used), old(hwirq), hwirq, virq, r);
      Numbering(old(hwirq), live, hwirq, virq, r);
      live, handed := live[virq := r], handed + count;
      return 0, r;
    }

    /** irq_domain_set_hwirq_and_chip for each interrupt. */
    method SetNumbers(virq: nat, slot: nat, count: nat)
      modifies this`hwirq
      ensures Numbered(old(hwirq), hwirq, virq, slot, count)
    {
      for i := 0 to count
        invariant Numbered(old(hwirq), hwirq, virq, slot, i)
      {
        hwirq := hwirq[virq + i := 8 + slot + i];
      }
    }

    /** Free any range of live interrupts, whole allocations or not: the bits by hardware number first, the interrupt
        data last. */
    method Free(virq: nat, count: nat)
      requires Valid() && forall i :: virq <= i < virq + count ==> i in hwirq
      modifies this
      ensures Valid()
      ensures hwirq == Without(old(hwirq), virq, count) && used == Cleared(old(used), Gone(old(hwirq), virq, count))
      ensures live == Unfreed(old(live), virq, count) && handed == old(handed)
      ensures old(Whole(hwirq, live) && virq in live && live[virq].count == count) ==> Whole(hwirq, live)
    {
      hide Wired, Owned, Whole, Without, Gone, Cleared, Unfreed;
      Removing(used, hwirq, virq, count);
      Resetting(hwirq, live, virq, count);
      ClearBits(virq, count);
      hwirq, live := Without(hwirq, virq, count), Unfreed(live, virq, count);
    }

    method ClearBits(virq: nat, count: nat)
      requires Valid() && forall i :: virq <= i < virq + count ==> i in hwirq
      modifies this`used
      ensures used == Cleared(old(used), Gone(hwirq, virq, count))
    {
      for i := 0 to count
        invariant forall k :: 0 <= k < SLOTS ==> used[k] == (old(used)[k] && 8 + k !in Gone(hwirq, virq, i))
      {
        GoneMore(hwirq, virq, i);
        used := used[hwirq[virq + i] - 8 := false];
      }
    }
  }

  lemma GoneMore(hwirq: Numbers, virq: nat, i: nat)
    requires virq + i in hwirq
    ensures Gone(hwirq, virq, i + 1) == Gone(hwirq, virq, i) + {hwirq[virq + i]}
  {
    var more := Gone(hwirq, virq, i + 1);
    assert hwirq[virq + i] in more;
  }

  /** Releasing a region that was free gives the bitmap back. */
  lemma Unmarking(used: Used, r: Region)
    requires FreeRegion(used, r)
    ensures Aligned(r) && Mark(Mark(used, r, true), r, false) == used
  {
  }

  /** If the aligned region at `pos` is not free, no region starts before the next aligned place. */
  lemma NoneBetween(used: Used, pos: nat, count: nat)
    requires PowerOfTwo(count) && pos % count == 0 && !FreeRegion(used, Region(pos, count))
    ensures (pos + count) % count == 0
    ensures forall p: nat :: pos <= p < pos + count ==> !FreeRegion(used, Region(p, count))
  {
  }
}
