/** Configuration space of the two PCI functions as plain little-endian memory, down to its bits. */
module ConfigSpace {
  import opened CapabilityWalk
  import opened Octets

  /** One 4 KiB page: bit `k` of byte `a` is `page[8 * a + k]`. */
  const PAGE_BITS := 32768
  type Page = s: seq<bool> | |s| == PAGE_BITS ghost witness seq(PAGE_BITS, _ => false)

  /** A 32-bit value, lowest bit first. */
  type U32 = s: seq<bool> | |s| == 32 witness seq(32, _ => false)

  function Bit(b: bool, weight: nat): nat {
    if b then weight else 0
  }

  function ByteAt(page: Page, a: nat): (b: Byte)
    requires a < 4096
  {
    Bit(page[8 * a], 1) + Bit(page[8 * a + 1], 2) + Bit(page[8 * a + 2], 4) + Bit(page[8 * a + 3], 8)
    + Bit(page[8 * a + 4], 16) + Bit(page[8 * a + 5], 32) + Bit(page[8 * a + 6], 64) + Bit(page[8 * a + 7], 128)
  }

  /** The page as a byte reader sees it. */
  function BytesOf(page: Page): Bytes {
    seq(4096, a requires 0 <= a < 4096 => ByteAt(page, a))
  }

  /** The number these bits stand for. */
  function Number(v: seq<bool>): nat {
    if v == [] then 0 else Bit(v[0], 1) + 2 * Number(v[1..])
  }

  function Mask(keeps: nat -> bool): U32 {
    seq(32, i requires 0 <= i < 32 => keeps(i))
  }

  function And(v: U32, m: U32): U32 {
    seq(32, i requires 0 <= i < 32 => v[i] && m[i])
  }

  /** A 16- or 32-bit access that stays inside the page. */
  predicate InPage(where: int, size: int) {
    (size == 2 || size == 4) && 0 <= where && where + size <= 4096
  }

  predicate Aligned(where: int, size: int) {
    if size == 4 then where % 4 == 0 else where % 2 == 0
  }

  function ReadPage(page: Page, where: nat, size: nat): U32
    requires InPage(where, size)
  {
    seq(32, i requires 0 <= i < 32 => i < 8 * size && page[8 * where + i])
  }

  function WritePage(page: Page, where: nat, size: nat, v: U32): Page
    requires InPage(where, size)
  {
    seq(PAGE_BITS, k requires 0 <= k < PAGE_BITS =>
      if 8 * where <= k < 8 * (where + size) then v[k - 8 * where] else page[k])
  }

  /** Root port (bus 0) and endpoint (bus 1). */
  datatype Config = Config(rc: Page, ep: Page) {
    function Page(bus: nat): Page {
      if bus == 0 then rc else ep
    }

    function Read(bus: nat, where: nat, size: nat): U32
      requires InPage(where, size)
    {
      ReadPage(Page(bus), where, size)
    }

    function Write(bus: nat, where: nat, size: nat, v: U32): Config
      requires InPage(where, size)
    {
      if bus == 0 then this.(rc := WritePage(rc, where, size, v))
      else this.(ep := WritePage(ep, where, size, v))
    }
  }

  lemma WriteBit(c: Config, bus: nat, where: nat, size: nat, v: U32, b: nat, k: nat)
    requires InPage(where, size) && bus <= 1 && b <= 1 && k < PAGE_BITS
    ensures c.Write(bus, where, size, v).Page(b)[k] ==
      if bus == b && 8 * where <= k < 8 * (where + size) then v[k - 8 * where] else c.Page(b)[k]
  {
    WritePageBit(c.Page(bus), where, size, v, k);
  }

  lemma WritePageBit(page: Page, where: nat, size: nat, v: U32, k: nat)
    requires InPage(where, size) && k < PAGE_BITS
    ensures WritePage(page, where, size, v)[k] ==
      if 8 * where <= k < 8 * (where + size) then v[k - 8 * where] else page[k]
  {
  }

  lemma ReadBit(c: Config, bus: nat, where: nat, size: nat, i: nat)
    requires InPage(where, size) && i < 8 * size
    ensures c.Read(bus, where, size)[i] == c.Page(bus)[8 * where + i]
  {
  }

  // ---------- A device that may not cooperate ----------

  /** Which accesses to a device succeed, by their number: whether a write is taken, whether a read is answered. A read
      that is not answered shows all ones. */
  datatype Device = Device(takes: nat -> bool, answers: nat -> bool)

  /** It takes every write and answers every read. */
  ghost predicate Perfect(d: Device) {
    (forall n: nat :: d.takes(n)) && (forall n: nat :: d.answers(n))
  }
}
