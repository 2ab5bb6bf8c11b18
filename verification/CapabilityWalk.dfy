/** The bounded walks over PCI capability lists (a1625_pci_scan.h, lines 36-66). */
module CapabilityWalk {
  import opened Errno
  import opened Octets

  /** One 4 KiB configuration page, byte by byte. */
  type Bytes = s: seq<Byte> | |s| == 4096 ghost witness seq(4096, _ => 0)

  // ---------- Legacy capability list ----------

  const BOUND := 48

  /** The 48 places a capability may start at: 0x40, 0x44, ..., 0xfc. */
  predicate Legal(pos: nat) {
    0x40 <= pos <= 0xfc && pos % 4 == 0
  }

  /** The n-th pointer met when following the list; it stays put at the first pointer that is not legal. */
  function Pointer(cfg: Bytes, n: nat): nat {
    if n == 0 then cfg[0x34]
    else
      var p := Pointer(cfg, n - 1);
      if Legal(p) then cfg[p + 1] else p
  }

  /** The n-th pointer leads to a capability with this id. */
  predicate Match(cfg: Bytes, id: nat, n: nat) {
    var p := Pointer(cfg, n);
    Legal(p) && cfg[p] == id
  }

  /** Some capability with this id can be reached through legal pointers, however long that takes. */
  ghost predicate Present(cfg: Bytes, id: nat) {
    exists n: nat :: Match(cfg, id, n)
  }

  /** The n-th pointer is the first to be neither legal nor the terminating zero, and no match comes before it. */
  ghost predicate FirstIllegal(cfg: Bytes, id: nat, n: nat) {
    && Pointer(cfg, n) != 0 && !Legal(Pointer(cfg, n))
    && forall k: nat :: k < n ==> Passed(cfg, id, k)
  }

  /** The first match is at `pos`. */
  ghost predicate FirstAt(cfg: Bytes, id: nat, pos: nat) {
    exists n: nat :: Match(cfg, id, n) && pos == Pointer(cfg, n) && forall k: nat :: k < n ==> Passed(cfg, id, k)
  }

  /** The n-th pointer is followed and its capability is another one. */
  predicate Passed(cfg: Bytes, id: nat, n: nat) {
    var p := Pointer(cfg, n);
    Legal(p) && cfg[p] != id
  }

  method ScanCap(cfg: Bytes, id: nat) returns (r: int)
    ensures r >= 0 <==> Present(cfg, id)
    ensures r >= 0 ==> Legal(r) && FirstAt(cfg, id, r)
    ensures r == EINVAL <==> exists n: nat :: n < BOUND && FirstIllegal(cfg, id, n)
    ensures r < 0 ==> r == EINVAL || r == ENOENT
  {
    var pos := cfg[0x34];
    var count := 0;
    while count < BOUND && pos != 0
      invariant count <= BOUND
      invariant pos == Pointer(cfg, count)
      invariant forall k: nat :: k < count ==> Passed(cfg, id, k)
    {
      if pos < 0x40 || pos > 0xfc || pos % 4 != 0 {
        assert FirstIllegal(cfg, id, count);
        NothingAfterStop(cfg, id, count);
        return EINVAL;
      }
      if cfg[pos] == id {
        Found(cfg, id, count);
        return pos;
      }
      pos := cfg[pos + 1];
      count := count + 1;
    }
    NotFound(cfg, id, count);
    return ENOENT;
  }

  lemma Found(cfg: Bytes, id: nat, count: nat)
    requires Match(cfg, id, count)
    requires forall k: nat :: k < count ==> Passed(cfg, id, k)
    ensures FirstAt(cfg, id, Pointer(cfg, count))
    ensures forall n: nat :: !FirstIllegal(cfg, id, n)
  {
    forall n: nat ensures !FirstIllegal(cfg, id, n) {
      if n < count {
        assert Passed(cfg, id, n);
      } else if n > count {
        assert !Passed(cfg, id, count);
      }
    }
  }

  /** Leaving the loop at the terminating zero or at the bound means there is nothing to find. */
  lemma NotFound(cfg: Bytes, id: nat, count: nat)
    requires count <= BOUND
    requires forall k: nat :: k < count ==> Passed(cfg, id, k)
    requires count == BOUND || Pointer(cfg, count) == 0
    ensures !Present(cfg, id)
    ensures forall n: nat :: n < BOUND ==> !FirstIllegal(cfg, id, n)
  {
    forall m: nat | m < BOUND ensures !Match(cfg, id, m) {
      if m < count {
        assert Passed(cfg, id, m);
      } else {
        StaysPut(cfg, count, m);
      }
    }
    forall n: nat ensures !Match(cfg, id, n) {
      if Match(cfg, id, n) {
        var m := Shorten(cfg, id, n);
        assert false;
      }
    }
    forall n: nat | n < BOUND ensures !FirstIllegal(cfg, id, n) {
      if n < count {
        assert Passed(cfg, id, n);
      } else {
        StaysPut(cfg, count, n);
      }
    }
  }

  /** Nothing is found once the walk has met a pointer it cannot follow. */
  lemma {:induction false} StaysPut(cfg: Bytes, n: nat, m: nat)
    requires !Legal(Pointer(cfg, n)) && n <= m
    ensures Pointer(cfg, m) == Pointer(cfg, n)
  {
    if n < m {
      StaysPut(cfg, n, m - 1);
    }
  }

  lemma NothingAfterStop(cfg: Bytes, id: nat, n: nat)
    requires !Legal(Pointer(cfg, n))
    requires forall k: nat :: k < n ==> Passed(cfg, id, k)
    ensures !Present(cfg, id)
  {
    forall m: nat ensures !Match(cfg, id, m) {
      if n <= m {
        StaysPut(cfg, n, m);
      } else {
        assert Passed(cfg, id, m);
      }
    }
  }

  /** A walk that comes back to a place repeats itself from there. */
  lemma {:induction false} Repeats(cfg: Bytes, i: nat, j: nat, d: nat)
    requires Pointer(cfg, i) == Pointer(cfg, j)
    ensures Pointer(cfg, i + d) == Pointer(cfg, j + d)
  {
    if d > 0 {
      Repeats(cfg, i, j, d - 1);
    }
  }

  /** More than 48 numbers below 48 cannot all differ. */
  lemma {:induction false} Pigeonhole(s: seq<nat>, holes: nat) returns (i: nat, j: nat)
    requires |s| > holes
    requires forall k :: 0 <= k < |s| ==> s[k] < holes
    ensures i < j < |s| && s[i] == s[j]
    decreases holes
  {
    if a :| 0 <= a < |s| - 1 && s[a] == s[|s| - 1] {
      i, j := a, |s| - 1;
    } else {
      // Nobody else sits in the last one's hole; move the top hole's tenants into it.
      var last := s[|s| - 1];
      var t := seq(|s| - 1, k requires 0 <= k < |s| - 1 => if s[k] == holes - 1 then last else s[k]);
      i, j := Pigeonhole(t, holes - 1);
    }
  }

  /** Every match has one among the first 48 pointers: a longer walk has been somewhere twice. */
  lemma {:induction false} Shorten(cfg: Bytes, id: nat, n: nat) returns (m: nat)
    requires Match(cfg, id, n)
    ensures m < BOUND && Match(cfg, id, m)
    decreases n
  {
    if n < BOUND {
      return n;
    }
    forall k | 0 <= k <= n ensures Legal(Pointer(cfg, k)) {
      if !Legal(Pointer(cfg, k)) {
        StaysPut(cfg, k, n);
      }
    }
    var s := seq(n + 1, k requires 0 <= k <= n => (Pointer(cfg, k) - 0x40) / 4);
    var i, j := Pigeonhole(s, BOUND);
    assert Pointer(cfg, i) == Pointer(cfg, j);
    Repeats(cfg, i, j, n - j);
    m := Shorten(cfg, id, i + (n - j));
  }

  /** The bound cuts off one thing only: an illegal pointer that is the 49th, behind all 48 places. */
  lemma {:induction false} IllegalWithinBound(cfg: Bytes, id: nat, n: nat)
    requires FirstIllegal(cfg, id, n)
    ensures n <= BOUND
  {
    if n > BOUND {
      forall k: nat | k < n ensures Legal(Pointer(cfg, k)) {
        assert Passed(cfg, id, k);
      }
      var s := seq(n, k requires 0 <= k < n => (Pointer(cfg, k) - 0x40) / 4);
      var i, j := Pigeonhole(s, BOUND);
      assert Pointer(cfg, i) == Pointer(cfg, j);
      Repeats(cfg, i, j, n - j);
    }
  }

  /** All 48 places in a row, the last one pointing to 0x41; no capability has an id other than 0. */
  function LateIllegal(): Bytes {
    seq(4096, a requires 0 <= a < 4096 =>
      if a == 0x34 then 0x40 else if a == 0xfd then 0x41 else if 0x40 <= a < 0xfc && a % 4 == 1 then a + 3 else 0)
  }

  lemma {:induction false} LatePointer(n: nat)
    requires n <= BOUND
    ensures Pointer(LateIllegal(), n) == if n < BOUND then 0x40 + 4 * n else 0x41
  {
    if n > 0 {
      LatePointer(n - 1);
    }
  }

  /** Such a list exists: malformed, yet no illegal pointer is among the first 48, so the answer is "not found". */
  lemma MalformedYetMissed(id: nat)
    requires id > 0
    ensures FirstIllegal(LateIllegal(), id, BOUND)
    ensures forall n: nat :: n < BOUND ==> !FirstIllegal(LateIllegal(), id, n)
    ensures !Present(LateIllegal(), id)
  {
    hide Pointer;
    var cfg := LateIllegal();
    LatePointer(BOUND);
    forall n: nat | n < BOUND ensures Passed(cfg, id, n) && !FirstIllegal(cfg, id, n) {
      LatePointer(n);
    }
    NothingAfterStop(cfg, id, BOUND);
  }

  // ---------- Extended capability list ----------

  const EXT_BOUND := 256

  predicate ExtLegal(pos: nat) {
    0x100 <= pos <= 0xffc && pos % 4 == 0
  }

  /** The header at `pos` is neither zero nor all ones. */
  predicate ExtHeader(cfg: Bytes, pos: nat)
    requires ExtLegal(pos)
  {
    && !(cfg[pos] == 0 && cfg[pos + 1] == 0 && cfg[pos + 2] == 0 && cfg[pos + 3] == 0)
    && !(cfg[pos] == 0xff && cfg[pos + 1] == 0xff && cfg[pos + 2] == 0xff && cfg[pos + 3] == 0xff)
  }

  function ExtId(cfg: Bytes, pos: nat): nat
    requires ExtLegal(pos)
  {
    cfg[pos] as nat + 0x100 * (cfg[pos + 1] as nat)
  }

  /** Bits 31..20 of the header with the two lowest cleared. */
  function ExtNext(cfg: Bytes, pos: nat): nat
    requires ExtLegal(pos)
  {
    var n := cfg[pos + 2] as nat / 16 + 16 * (cfg[pos + 3] as nat);
    n - n % 4
  }

  /** The n-th pointer of the extended list, staying put where the list cannot be followed. */
  function ExtPointer(cfg: Bytes, n: nat): nat {
    if n == 0 then 0x100
    else
      var p := ExtPointer(cfg, n - 1);
      if ExtLegal(p) && ExtHeader(cfg, p) then ExtNext(cfg, p) else p
  }

  predicate ExtMatch(cfg: Bytes, id: nat, n: nat) {
    var p := ExtPointer(cfg, n);
    ExtLegal(p) && ExtHeader(cfg, p) && ExtId(cfg, p) == id
  }

  /** The n-th pointer leads to a header that is followed and does not carry the id. */
  predicate ExtPassed(cfg: Bytes, id: nat, n: nat) {
    var p := ExtPointer(cfg, n);
    ExtLegal(p) && ExtHeader(cfg, p) && ExtId(cfg, p) != id
  }

  /** The n-th pointer is the first that cannot be followed, and it is neither in range nor the terminating zero. */
  ghost predicate ExtFirstIllegal(cfg: Bytes, id: nat, n: nat) {
    && ExtPointer(cfg, n) != 0 && !ExtLegal(ExtPointer(cfg, n))
    && forall k: nat :: k < n ==> ExtPassed(cfg, id, k)
  }

  /** The first match is at `pos`. */
  ghost predicate ExtFirstAt(cfg: Bytes, id: nat, pos: nat) {
    exists n: nat :: ExtMatch(cfg, id, n) && pos == ExtPointer(cfg, n) && forall k: nat :: k < n ==> ExtPassed(cfg, id, k)
  }

  /** Sound everywhere, complete exactly for lists whose first match is among the first 256 pointers. */
  method ScanExtCap(cfg: Bytes, id: nat) returns (r: int)
    ensures r >= 0 <==> exists n: nat :: n < EXT_BOUND && ExtMatch(cfg, id, n)
    ensures r >= 0 ==> ExtLegal(r) && ExtFirstAt(cfg, id, r)
    ensures r < 0 ==> r == EINVAL || r == ENOENT
    ensures r == EINVAL <==> exists n: nat :: n < EXT_BOUND && ExtFirstIllegal(cfg, id, n)
  {
    var pos, count := 0x100, 0;
    while count < EXT_BOUND && pos != 0
      invariant count <= EXT_BOUND
      invariant pos == ExtPointer(cfg, count)
      invariant forall k: nat :: k < count ==> ExtPassed(cfg, id, k)
    {
      if pos < 0x100 || pos > 0xffc || pos % 4 != 0 {
        ExtNothingAfterStop(cfg, id, count);
        assert ExtFirstIllegal(cfg, id, count);
        return EINVAL;
      }
      if !ExtHeader(cfg, pos) {
        break;
      }
      if ExtId(cfg, pos) == id {
        assert ExtMatch(cfg, id, count);
        ExtFound(cfg, id, count);
        return pos;
      }
      pos := ExtNext(cfg, pos);
      count := count + 1;
    }
    ExtNotFound(cfg, id, count);
    return ENOENT;
  }

  lemma ExtFound(cfg: Bytes, id: nat, count: nat)
    requires ExtMatch(cfg, id, count)
    requires forall k: nat :: k < count ==> ExtPassed(cfg, id, k)
    ensures forall n: nat :: !ExtFirstIllegal(cfg, id, n)
  {
    forall n: nat ensures !ExtFirstIllegal(cfg, id, n) {
      if n < count {
        assert ExtPassed(cfg, id, n);
      } else if n > count {
        assert !ExtPassed(cfg, id, count);
      }
    }
  }

  /** Leaving the loop at the terminating zero, an unusable header or the bound means ENOENT is the answer. */
  lemma ExtNotFound(cfg: Bytes, id: nat, count: nat)
    requires count <= EXT_BOUND
    requires forall k: nat :: k < count ==> ExtPassed(cfg, id, k)
    requires var p := ExtPointer(cfg, count);
      count == EXT_BOUND || p == 0 || (ExtLegal(p) && !ExtHeader(cfg, p))
    ensures forall n: nat :: n < EXT_BOUND ==> !ExtMatch(cfg, id, n) && !ExtFirstIllegal(cfg, id, n)
  {
    forall n: nat | n < EXT_BOUND
      ensures !ExtMatch(cfg, id, n) && !ExtFirstIllegal(cfg, id, n)
    {
      if n < count {
        assert ExtPassed(cfg, id, n);
      } else {
        ExtStaysPut(cfg, count, n);
      }
    }
  }

  lemma {:induction false} ExtStaysPut(cfg: Bytes, n: nat, m: nat)
    requires n <= m
    requires var p := ExtPointer(cfg, n); !(ExtLegal(p) && ExtHeader(cfg, p))
    ensures ExtPointer(cfg, m) == ExtPointer(cfg, n)
  {
    if n < m {
      ExtStaysPut(cfg, n, m - 1);
    }
  }

  lemma ExtNothingAfterStop(cfg: Bytes, id: nat, n: nat)
    requires var p := ExtPointer(cfg, n); !(ExtLegal(p) && ExtHeader(cfg, p))
    requires forall k: nat :: k < n ==> ExtPassed(cfg, id, k)
    ensures forall m: nat :: !ExtMatch(cfg, id, m)
  {
    forall m: nat ensures !ExtMatch(cfg, id, m) {
      if n <= m {
        ExtStaysPut(cfg, n, m);
      } else {
        assert ExtPassed(cfg, id, m);
      }
    }
  }
}
