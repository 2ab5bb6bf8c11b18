/** The snapshot archive validator (A1625RamState.psm1, lines 65-126) and its test writer
    (tests/A1625RamState.Tests.ps1, lines 16-43). */
module SafeTar {
  import opened Errno
  import opened Octets
  import opened ArchivePath
  import opened UstarHeader

  const MAX_TOTAL: nat := 0x2000_0000
  const MAX_TRAILER: nat := 0x10_0000
  const MAX_ENTRIES: nat := 4096
  const BUFFER: nat := 8192

  /** A validated entry; `hashed` is what went into its SHA-256 digest. */
  datatype File = File(path: Path, bytes: nat, kind: Byte, hashed: Bytes)

  datatype Report = Report(entries: nat, expanded: nat, tarBytes: nat, files: seq<File>)

  // ---------- The verdict on a whole stream ----------

  /** What the validator knows between two entries. */
  datatype Progress = Progress(seen: set<Path>, files: seq<File>, expanded: nat, tarBytes: nat)

  const START: Progress := Progress({}, [], 0, 0)

  predicate AllZero(s: Bytes) {
    forall i :: 0 <= i < |s| ==> s[i] == 0
  }

  /** Data rounded up to whole blocks. */
  function Padded(size: nat): (n: nat)
    ensures size <= n < size + 512 && n % 512 == 0
  {
    (size + 511) / 512 * 512
  }

  /** The entry at `pos`, with its header already read. */
  function Accept(s: Bytes, pos: nat, head: Head, p: Progress): Option<Progress>
    requires pos <= |s|
  {
    var key := TrimEnd(head.path, SLASH);
    var data := pos + Padded(head.size);
    if key in p.seen || p.expanded + head.size > MAX_TOTAL || data > |s| || |p.files| == MAX_ENTRIES then None
    else Some(Progress(p.seen + {key}, p.files + [File(head.path, head.size, head.kind, s[pos..pos + head.size])],
                       p.expanded + head.size, p.tarBytes + 512 + Padded(head.size)))
  }

  function Finish(s: Bytes, pos: nat, p: Progress): Option<Report>
    requires pos <= |s|
  {
    var tail := |s| - pos;
    if tail > MAX_TRAILER || !AllZero(s[pos..]) || tail < 512 || tail % 512 != 0 || p.files == [] then None
    else Some(Report(|p.files|, p.expanded, p.tarBytes + 512 + tail, p.files))
  }

  /** The verdict on the stream from `pos` on. */
  function Scan(s: Bytes, pos: nat, p: Progress): Option<Report>
    requires pos <= |s|
    decreases |s| - pos
  {
    if pos + 512 > |s| then None
    else if AllZero(s[pos..pos + 512]) then Finish(s, pos + 512, p)
    else match Read(s[pos..pos + 512])
      case None => None
      case Some(head) =>
        match Accept(s, pos + 512, head, p)
        case None => None
        case Some(q) => Scan(s, pos + 512 + Padded(head.size), q)
  }

  function Verdict(s: Bytes): Option<Report> {
    Scan(s, 0, START)
  }

  // ---------- What acceptance guarantees ----------

  function Key(f: File): Path {
    TrimEnd(f.path, SLASH)
  }

  function Total(files: seq<File>): nat {
    if files == [] then 0 else Total(files[..|files| - 1]) + files[|files| - 1].bytes
  }

  function Blocks(files: seq<File>): nat {
    if files == [] then 0 else Blocks(files[..|files| - 1]) + 512 + Padded(files[|files| - 1].bytes)
  }

  predicate Harmless(f: File) {
    Allowed(f.path) && f.kind in {0, 48, 53} && (f.kind == 53 ==> f.bytes == 0) && f.bytes <= MAX_FILE && |f.hashed| == f.bytes
  }

  /** All entries are harmless and their paths differ even without trailing slashes. */
  ghost predicate Safe(files: seq<File>) {
    && (forall i :: 0 <= i < |files| ==> Harmless(files[i]))
    && (forall i, j :: 0 <= i < j < |files| ==> Key(files[i]) != Key(files[j]))
  }

  ghost predicate Sound(p: Progress, pos: nat) {
    && Safe(p.files) && |p.files| <= MAX_ENTRIES
    && p.expanded == Total(p.files) <= MAX_TOTAL
    && p.tarBytes == Blocks(p.files) == pos
    && (forall i :: 0 <= i < |p.files| ==> Key(p.files[i]) in p.seen)
  }

  lemma ReadIsHarmless(h: Block)
    requires Read(h).Some?
    ensures var r := Read(h).value; Allowed(r.path) && r.kind in {0, 48, 53} && (r.kind == 53 ==> r.size == 0) && r.size <= MAX_FILE
  {
    hide Number, Required, Named, Sum, Unsigned, Allowed;
  }

  lemma HarmlessEntry(s: Bytes, pos: nat, head: Head)
    requires pos + head.size <= |s|
    requires Allowed(head.path) && head.kind in {0, 48, 53} && (head.kind == 53 ==> head.size == 0) && head.size <= MAX_FILE
    ensures Harmless(File(head.path, head.size, head.kind, s[pos..pos + head.size]))
  {
    hide Allowed;
  }

  lemma SafeMore(files: seq<File>, f: File)
    requires Safe(files) && Harmless(f) && forall i :: 0 <= i < |files| ==> Key(files[i]) != Key(f)
    ensures Safe(files + [f])
  {
    hide Harmless, Key;
  }

  lemma SumsMore(files: seq<File>, f: File)
    ensures Total(files + [f]) == Total(files) + f.bytes
    ensures Blocks(files + [f]) == Blocks(files) + 512 + Padded(f.bytes)
  {
    hide Padded;
    assert (files + [f])[..|files|] == files;
  }

  lemma AcceptKeepsSound(s: Bytes, pos: nat, head: Head, p: Progress)
    requires pos <= |s| && pos >= 512 && Sound(p, pos - 512) && Accept(s, pos, head, p).Some?
    requires Allowed(head.path) && head.kind in {0, 48, 53} && (head.kind == 53 ==> head.size == 0) && head.size <= MAX_FILE
    ensures Sound(Accept(s, pos, head, p).value, pos + Padded(head.size))
  {
    hide Allowed, TrimEnd, Padded, Safe, Total, Blocks, Harmless;
    var q := Accept(s, pos, head, p).value;
    var f := q.files[|q.files| - 1];
    HarmlessEntry(s, pos, head);
    SafeMore(p.files, f);
    SumsMore(p.files, f);
  }

  /** The bytes counted are exactly the stream: headers, rounded data, end marker and trailer. */
  ghost predicate Accounted(r: Report, length: nat) {
    && r.entries == |r.files| && 1 <= r.entries <= MAX_ENTRIES
    && r.expanded == Total(r.files) <= MAX_TOTAL
    && r.tarBytes == length && length % 512 == 0
    && Blocks(r.files) + 1024 <= length <= Blocks(r.files) + 512 + MAX_TRAILER
  }

  lemma {:induction false} BlocksWhole(files: seq<File>)
    ensures Blocks(files) % 512 == 0
  {
    if files != [] {
      BlocksWhole(files[..|files| - 1]);
    }
  }

  lemma {:induction false} ScanIsSound(s: Bytes, pos: nat, p: Progress)
    requires pos <= |s| && Sound(p, pos) && Scan(s, pos, p).Some?
    ensures var r := Scan(s, pos, p).value; Safe(r.files) && Accounted(r, |s|)
    ensures AllZero(s[Blocks(Scan(s, pos, p).value.files)..])
    decreases |s| - pos
  {
    hide Read, Accept, Allowed, Safe, Blocks, Total;
    var h := s[pos..pos + 512];
    if AllZero(h) {
      BlocksWhole(p.files);
      assert s[pos..] == h + s[pos + 512..];
    } else {
      var head := Read(h).value;
      ReadIsHarmless(h);
      AcceptKeepsSound(s, pos + 512, head, p);
      ScanIsSound(s, pos + 512 + Padded(head.size), Accept(s, pos + 512, head, p).value);
    }
  }

  /** An accepted archive holds only harmless entries with distinct paths, within every limit, every byte of the
      stream is accounted for, and nothing but zeros follows the entries. */
  lemma AcceptedIsSafe(s: Bytes)
    ensures match Verdict(s)
      case None => true
      case Some(r) => Safe(r.files) && Accounted(r, |s|) && Blocks(r.files) <= |s| && AllZero(s[Blocks(r.files)..])
  {
    hide *;
    StartIsSound();
    VerdictIs(s);
    if Verdict(s).Some? {
      ScanIsSound(s, 0, START);
      BlocksWithin(Verdict(s).value, |s|);
    }
  }

  lemma BlocksWithin(r: Report, length: nat)
    requires Accounted(r, length)
    ensures Blocks(r.files) <= length
  {
  }

  lemma StartIsSound()
    ensures Sound(START, 0)
  {
  }

  lemma VerdictIs(s: Bytes)
    ensures Verdict(s) == Scan(s, 0, START)
  {
  }

  /** Unpacking an accepted archive writes below run/work or to a listed home file, nowhere else. */
  lemma UnpacksInside(s: Bytes)
    ensures match Verdict(s)
      case None => true
      case Some(r) => forall f :: f in r.files ==>
        f.path in HomeFiles() || [Text("run"), Text("work")] <= Follow(Split(f.path))
  {
    hide Verdict, Follow, Split, Allowed, HomeFiles, Text;
    AcceptedIsSafe(s);
    if Verdict(s).Some? {
      forall f | f in Verdict(s).value.files
        ensures f.path in HomeFiles() || [Text("run"), Text("work")] <= Follow(Split(f.path))
      {
        StaysInside(f.path);
      }
    }
  }

  // ---------- The validator at work ----------

  /** The decompressor: each read returns some of what is left, and nothing only at the end. */
  class Gzip {
    const data: Bytes
    var pos: nat

    predicate Valid()
      reads this
    {
      pos <= |data|
    }

    constructor (data: Bytes)
      ensures Valid() && pos == 0 && this.data == data
    {
      this.data, pos := data, 0;
    }

    method Read(count: nat) returns (chunk: Bytes)
      requires Valid() && count > 0
      modifies this`pos
      ensures Valid() && old(pos) <= pos && chunk == data[old(pos)..pos] && |chunk| <= count
      ensures chunk == [] <==> old(pos) == |data|
    {
      var most := if count < |data| - pos then count else |data| - pos;
      var n: nat :| n <= most && (n == 0 ==> most == 0);
      chunk := data[pos..pos + n];
      pos := pos + n;
    }
  }

  /** Fill one header block, or fail at the end of the stream. */
  method ReadHeader(gzip: Gzip) returns (h: Option<Block>)
    requires gzip.Valid()
    modifies gzip`pos
    ensures gzip.Valid()
    ensures h.Some? <==> old(gzip.pos) + 512 <= |gzip.data|
    ensures h.Some? ==> gzip.pos == old(gzip.pos) + 512 && h.value == gzip.data[old(gzip.pos)..gzip.pos]
  {
    var header: Bytes := [];
    while |header| < 512
      invariant gzip.Valid() && |header| <= 512
      invariant gzip.pos == old(gzip.pos) + |header| && header == gzip.data[old(gzip.pos)..gzip.pos]
    {
      var chunk := gzip.Read(512 - |header|);
      if chunk == [] {
        return None;
      }
      header := header + chunk;
    }
    return Some(header);
  }

  /** Consume the trailer to the end of the stream. */
  method ReadTrailer(gzip: Gzip) returns (length: Option<nat>)
    requires gzip.Valid()
    modifies gzip`pos
    ensures var tail := gzip.data[old(gzip.pos)..];
      length == if |tail| > MAX_TRAILER || !AllZero(tail) || |tail| < 512 || |tail| % 512 != 0 then None else Some(|tail|)
  {
    var tailBytes: nat := 0;
    ghost var start := gzip.pos;
    ghost var tail := gzip.data[start..];
    while true
      invariant gzip.Valid() && gzip.pos == start + tailBytes && tailBytes <= MAX_TRAILER
      invariant AllZero(tail[..tailBytes])
      decreases |gzip.data| - gzip.pos
    {
      var chunk := gzip.Read(BUFFER);
      if chunk == [] {
        break;
      }
      assert chunk == tail[tailBytes..tailBytes + |chunk|];
      tailBytes := tailBytes + |chunk|;
      if tailBytes > MAX_TRAILER {
        return None;
      }
      for i := 0 to |chunk|
        invariant AllZero(tail[..tailBytes - |chunk| + i])
      {
        if chunk[i] != 0 {
          assert tail[tailBytes - |chunk| + i] != 0;
          return None;
        }
      }
    }
    assert tail[..tailBytes] == tail;
    if tailBytes < 512 || tailBytes % 512 != 0 {
      return None;
    }
    return Some(tailBytes);
  }

  /** Read an entry's blocks, giving the digest only the data and not the padding. */
  method ReadData(gzip: Gzip, size: nat) returns (hashed: Option<Bytes>)
    requires gzip.Valid()
    modifies gzip`pos
    ensures gzip.Valid()
    ensures hashed.Some? <==> old(gzip.pos) + Padded(size) <= |gzip.data|
    ensures hashed.Some? ==> gzip.pos == old(gzip.pos) + Padded(size) && hashed.value == gzip.data[old(gzip.pos)..old(gzip.pos) + size]
  {
    var skip := Padded(size);
    var remaining := size;
    var digest: Bytes := [];
    ghost var start := gzip.pos;
    while skip > 0
      invariant gzip.Valid() && gzip.pos == start + Padded(size) - skip && 0 <= skip <= Padded(size)
      invariant remaining == if gzip.pos < start + size then start + size - gzip.pos else 0
      invariant digest == gzip.data[start..start + size - remaining]
    {
      var chunk := gzip.Read(if BUFFER < skip then BUFFER else skip);
      if chunk == [] {
        return None;
      }
      var count := if remaining < |chunk| then remaining else |chunk|;
      digest := digest + chunk[..count];
      remaining := remaining - count;
      skip := skip - |chunk|;
    }
    return Some(digest);
  }

  /** The checksum loop over the header bytes, the checksum field counted as spaces. */
  method HeaderSum(h: Block) returns (sum: nat)
    ensures sum == Sum(Unsigned(h))
  {
    sum := 0;
    var u := Unsigned(h);
    for i := 0 to 512
      invariant sum == Sum(u[..i])
    {
      sum := sum + if 148 <= i < 156 then 32 else h[i];
      assert u[..i + 1][..i] == u[..i];
    }
    assert u[..512] == u;
  }

  /** One step of the scan. */
  lemma ScanStep(s: Bytes, pos: nat, p: Progress)
    requires pos <= |s|
    ensures pos + 512 > |s| ==> Scan(s, pos, p) == None
    ensures pos + 512 <= |s| ==>
      var h := s[pos..pos + 512];
      Scan(s, pos, p) == if AllZero(h) then Finish(s, pos + 512, p)
      else if Read(h).None? || Accept(s, pos + 512, Read(h).value, p).None? then None
      else Scan(s, pos + 512 + Padded(Read(h).value.size), Accept(s, pos + 512, Read(h).value, p).value)
  {
    hide Read, Finish, AllZero;
  }

  lemma FinishIs(s: Bytes, pos: nat, p: Progress)
    requires pos <= |s|
    ensures var tail := s[pos..];
      Finish(s, pos, p) == if |tail| > MAX_TRAILER || !AllZero(tail) || |tail| < 512 || |tail| % 512 != 0 || p.files == [] then None
                           else Some(Report(|p.files|, p.expanded, p.tarBytes + 512 + |tail|, p.files))
  {
  }

  lemma AcceptIs(s: Bytes, pos: nat, head: Head, p: Progress)
    requires pos <= |s|
    ensures Accept(s, pos, head, p) ==
      if TrimEnd(head.path, SLASH) in p.seen || p.expanded + head.size > MAX_TOTAL || pos + Padded(head.size) > |s| || |p.files| == MAX_ENTRIES
      then None
      else Some(Progress(p.seen + {TrimEnd(head.path, SLASH)}, p.files + [File(head.path, head.size, head.kind, s[pos..pos + head.size])],
                         p.expanded + head.size, p.tarBytes + 512 + Padded(head.size)))
  {
  }

  /** The verdict does not depend on how the decompressor splits its reads. */
  method Validate(gzip: Gzip) returns (report: Option<Report>)
    requires gzip.Valid() && gzip.pos == 0
    modifies gzip`pos
    ensures report == Verdict(gzip.data)
  {
    hide Read, Padded, TrimEnd, AllZero, Verdict, Scan, Finish, Accept;
    VerdictIs(gzip.data);
    var p := START;
    while true
      invariant gzip.Valid() && Scan(gzip.data, gzip.pos, p) == Verdict(gzip.data)
      decreases |gzip.data| - gzip.pos
    {
      var pos := gzip.pos;
      ScanStep(gzip.data, pos, p);
      var h := ReadHeader(gzip);
      if h.None? {
        return None;
      }
      if AllZero(h.value) {
        FinishIs(gzip.data, gzip.pos, p);
        var tail := ReadTrailer(gzip);
        if tail.None? || p.files == [] {
          return None;
        }
        return Some(Report(|p.files|, p.expanded, p.tarBytes + 512 + tail.value, p.files));
      }
      var head := CheckHeader(h.value);
      if head.Some? {
        AcceptIs(gzip.data, gzip.pos, head.value, p);
      }
      if head.None? || TrimEnd(head.value.path, SLASH) in p.seen || p.expanded + head.value.size > MAX_TOTAL {
        return None;
      }
      var hashed := ReadData(gzip, head.value.size);
      if hashed.None? || |p.files| == MAX_ENTRIES {
        return None;
      }
      var f := File(head.value.path, head.value.size, head.value.kind, hashed.value);
      p := Progress(p.seen + {TrimEnd(f.path, SLASH)}, p.files + [f], p.expanded + f.bytes,
                    p.tarBytes + 512 + Padded(f.bytes));
    }
  }

  /** The checks on one header, in the order they are made. */
  method CheckHeader(h: Block) returns (head: Option<Head>)
    ensures head == Read(h)
  {
    hide Allowed, Sum, Unsigned, Number;
    var checksum := Required(h[148..156]);
    if checksum.None? {
      return None;
    }
    var sum := HeaderSum(h);
    if sum != checksum.value {
      return None;
    }
    var path := Named(h);
    var size := Number(h[124..136]);
    if path.None? || size.None? || !Allowed(path.value) {
      return None;
    }
    var mode := Required(h[100..108]);
    if mode.None? || mode.value / 512 % 8 != 0 {
      return None;
    }
    var kind := h[156];
    if kind !in {0, 48, 53} || (kind == 53 && size.value != 0) || size.value > MAX_FILE {
      return None;
    }
    return Some(Head(path.value, size.value, kind));
  }
}
