/** One 512-byte header: what the validator reads from it (A1625RamState.psm1, lines 90-107) and what the
    test writer puts in it (tests/A1625RamState.Tests.ps1, lines 13-36). */
module UstarHeader {
  import opened Errno
  import opened Octets
  import opened ArchivePath

  const MAX_FILE: nat := 0x400_0000

  type Bytes = seq<Byte>

  // ---------- Trimming ----------

  predicate AllIn(s: Bytes, blank: set<Byte>) {
    forall i :: 0 <= i < |s| ==> s[i] in blank
  }

  function FirstKept(s: Bytes, blank: set<Byte>, i: nat): (k: nat)
    requires i <= |s|
    ensures i <= k <= |s| && (k < |s| ==> s[k] !in blank)
    ensures forall j :: i <= j < k ==> s[j] in blank
    decreases |s| - i
  {
    if i == |s| || s[i] !in blank then i else FirstKept(s, blank, i + 1)
  }

  function LastKept(s: Bytes, blank: set<Byte>, n: nat): (k: nat)
    requires n <= |s|
    ensures k <= n && (k > 0 ==> s[k - 1] !in blank)
    ensures forall j :: k <= j < n ==> s[j] in blank
  {
    if n == 0 || s[n - 1] !in blank then n else LastKept(s, blank, n - 1)
  }

  /** The bytes between the outermost ones that are not blank. */
  function Trim(s: Bytes, blank: set<Byte>): Bytes {
    var a, b := FirstKept(s, blank, 0), LastKept(s, blank, |s|);
    if a < b then s[a..b] else []
  }

  /** Blanks around a text that has none at its ends disappear, and nothing else does. */
  lemma TrimPadded(a: Bytes, m: Bytes, b: Bytes, blank: set<Byte>)
    requires AllIn(a, blank) && AllIn(b, blank)
    requires m != [] ==> m[0] !in blank && m[|m| - 1] !in blank
    ensures Trim(a + m + b, blank) == m
  {
    var s := a + m + b;
    var i, k := FirstKept(s, blank, 0), LastKept(s, blank, |s|);
    if m == [] {
      assert AllIn(s, blank);
    } else {
      assert s[|a|] == m[0] && s[|a| + |m| - 1] == m[|m| - 1];
      assert forall j :: 0 <= j < |a| ==> s[j] in blank;
      assert forall j :: |a| + |m| <= j < |s| ==> s[j] in blank;
      assert i == |a| && k == |a| + |m|;
    }
  }

  /** What trimming keeps and what it drops. */
  lemma TrimSplits(s: Bytes, blank: set<Byte>) returns (a: Bytes, b: Bytes)
    ensures s == a + Trim(s, blank) + b && AllIn(a, blank) && AllIn(b, blank)
    ensures var m := Trim(s, blank); m != [] ==> m[0] !in blank && m[|m| - 1] !in blank
  {
    hide FirstKept, LastKept;
    var i, k := FirstKept(s, blank, 0), LastKept(s, blank, |s|);
    if i < k {
      a, b := s[..i], s[k..];
    } else {
      a, b := s, [];
    }
  }

  /** Zero padding after a text does not change what trimming zeros leaves. */
  lemma TrimTail(s: Bytes, n: nat)
    ensures Trim(s + Zeros(n), {0}) == Trim(s, {0})
  {
    hide Trim;
    var a, b := TrimSplits(s, {0});
    assert s + Zeros(n) == a + Trim(s, {0}) + (b + Zeros(n));
    TrimPadded(a, Trim(s, {0}), b + Zeros(n), {0});
  }

  // ---------- Octal ----------

  predicate OctalDigits(s: Bytes) {
    forall i :: 0 <= i < |s| ==> 48 <= s[i] <= 55
  }

  function OctalValue(s: Bytes): nat
    requires OctalDigits(s)
  {
    if s == [] then 0 else 8 * OctalValue(s[..|s| - 1]) + (s[|s| - 1] - 48)
  }

  function Pow8(k: nat): (n: nat)
    ensures n > 0
  {
    if k == 0 then 1 else 8 * Pow8(k - 1)
  }

  /** A number in exactly `width` octal digits. */
  function OctalText(n: nat, width: nat): (s: Bytes)
    requires n < Pow8(width)
    ensures |s| == width && OctalDigits(s)
  {
    if width == 0 then [] else OctalText(n / 8, width - 1) + [48 + n % 8]
  }

  lemma {:induction false} OctalRoundTrip(n: nat, width: nat)
    requires n < Pow8(width)
    ensures OctalValue(OctalText(n, width)) == n
  {
    if width > 0 {
      OctalRoundTrip(n / 8, width - 1);
      var s := OctalText(n, width);
      assert s[..|s| - 1] == OctalText(n / 8, width - 1);
    }
  }

  lemma {:induction false} OctalBounded(s: Bytes)
    requires OctalDigits(s)
    ensures OctalValue(s) < Pow8(|s|)
  {
    if s != [] {
      OctalBounded(s[..|s| - 1]);
    }
  }

  /** A numeric field: octal digits between zeros and spaces. */
  function Number(field: Bytes): Option<nat> {
    var text := Trim(field, {0, 32});
    if OctalDigits(text) then Some(OctalValue(text)) else None
  }

  /** No numeric field is too large for the validator's 64-bit integers: 12 octal digits at most. */
  lemma NumberFits(field: Bytes)
    requires |field| <= 12
    ensures Number(field).Some? ==> Number(field).value < 0x8000_0000_0000_0000
  {
    hide OctalValue, Pow8;
    var text := Trim(field, {0, 32});
    if OctalDigits(text) {
      OctalBounded(text);
      Pow8Grows(|text|, 12);
      Pow8Twelve();
    }
  }

  lemma {:induction false} Pow8Grows(a: nat, b: nat)
    requires a <= b
    ensures Pow8(a) <= Pow8(b)
  {
    if a < b {
      Pow8Grows(a, b - 1);
    }
  }

  lemma Pow8Twelve()
    ensures Pow8(12) == 0x10_0000_0000
  {
    assert Pow8(4) == 0x1000;
    assert Pow8(8) == 0x100_0000;
  }

  /** A field that must not be blank. */
  function Required(field: Bytes): Option<nat> {
    if Trim(field, {0, 32}) == [] then None else Number(field)
  }

  lemma NumberWritten(n: nat, width: nat, pad: Bytes)
    requires width > 0 && n < Pow8(width) && AllIn(pad, {0, 32})
    ensures Number(OctalText(n, width) + pad) == Required(OctalText(n, width) + pad) == Some(n)
  {
    hide OctalText, OctalValue, Trim;
    var t := OctalText(n, width);
    assert t[0] !in {0, 32} && t[|t| - 1] !in {0, 32};
    assert [] + t + pad == t + pad;
    TrimPadded([], t, pad, {0, 32});
    OctalRoundTrip(n, width);
  }

  // ---------- UTF-8 ----------

  predicate Tail(s: Bytes, i: nat, n: nat) {
    i + n <= |s| && forall j :: i <= j < i + n ==> 0x80 <= s[j] < 0xc0
  }

  /** Well-formed UTF-8 as the strict decoder takes it: no overlong form, no surrogate, nothing above U+10FFFF. */
  predicate Utf8From(s: Bytes, i: nat)
    requires i <= |s|
    decreases |s| - i
  {
    if i == |s| then true
    else if s[i] < 0x80 then Utf8From(s, i + 1)
    else if 0xc2 <= s[i] < 0xe0 then Tail(s, i + 1, 1) && Utf8From(s, i + 2)
    else if 0xe0 <= s[i] < 0xf0 then
      && Tail(s, i + 1, 2)
      && (s[i] == 0xe0 ==> s[i + 1] >= 0xa0) && (s[i] == 0xed ==> s[i + 1] < 0xa0)
      && Utf8From(s, i + 3)
    else if 0xf0 <= s[i] < 0xf5 then
      && Tail(s, i + 1, 3)
      && (s[i] == 0xf0 ==> s[i + 1] >= 0x90) && (s[i] == 0xf4 ==> s[i + 1] < 0x90)
      && Utf8From(s, i + 4)
    else false
  }

  predicate Utf8(s: Bytes) {
    Utf8From(s, 0)
  }

  lemma {:induction false} AsciiIsUtf8(s: Bytes, i: nat)
    requires i <= |s| && Ascii(s)
    ensures Utf8From(s, i)
    decreases |s| - i
  {
    if i < |s| {
      AsciiIsUtf8(s, i + 1);
    }
  }

  // ---------- Checksum ----------

  function Sum(s: Bytes): nat {
    if s == [] then 0 else Sum(s[..|s| - 1]) + s[|s| - 1]
  }

  lemma {:induction false} SumBounded(s: Bytes)
    ensures Sum(s) <= 255 * |s|
  {
    if s != [] {
      SumBounded(s[..|s| - 1]);
    }
  }

  type Block = s: Bytes | |s| == 512 witness Zeros(512)

  /** The header with its checksum field read as spaces. */
  function Unsigned(h: Block): Bytes {
    h[..148] + Spaces(8) + h[156..]
  }

  lemma {:induction false} SumConcat(a: Bytes, b: Bytes)
    ensures Sum(a + b) == Sum(a) + Sum(b)
  {
    if b == [] {
      assert a + b == a;
    } else {
      assert (a + b)[..|a + b| - 1] == a + b[..|b| - 1];
      SumConcat(a, b[..|b| - 1]);
    }
  }

  lemma {:induction false} SumSpaces(n: nat)
    ensures Sum(Spaces(n)) == 32 * n
  {
    if n > 0 {
      assert Spaces(n)[..n - 1] == Spaces(n - 1);
      SumSpaces(n - 1);
    }
  }

  /** The checksum is the sum of all bytes outside its own field, and 256 for that field. */
  lemma ChecksumCounts(h: Block)
    ensures Sum(Unsigned(h)) + Sum(h[148..156]) == Sum(h) + 256
    ensures forall b: Byte :: Sum([b]) == b
  {
    hide Sum, Spaces;
    SumConcat(h[..148] + Spaces(8), h[156..]);
    SumConcat(h[..148], Spaces(8));
    SumSpaces(8);
    SumConcat(h[..148] + h[148..156], h[156..]);
    SumConcat(h[..148], h[148..156]);
    assert h == h[..148] + h[148..156] + h[156..];
    forall b: Byte ensures Sum([b]) == b {
      SumOne(b);
    }
  }

  lemma SumOne(b: Byte)
    ensures Sum([b]) == b
  {
    assert [b][..0] == [];
  }

  function Spaces(n: nat): (s: Bytes)
    ensures |s| == n
    ensures forall i :: 0 <= i < n ==> s[i] == 32
  {
    seq(n, _ => 32)
  }

  // ---------- Reading a header ----------

  /** An accepted header. */
  datatype Head = Head(path: Path, size: nat, kind: Byte)

  function Joined(name: Bytes, prefix: Bytes): Path {
    if prefix == [] then name else prefix + [SLASH] + name
  }

  /** What does not depend on other entries: safe mode bits, a plain kind, an empty directory, the size limit. */
  predicate Permitted(path: Path, mode: nat, kind: Byte, size: nat) {
    && Allowed(path)
    && mode / 512 % 8 == 0
    && kind in {0, 48, 53}
    && (kind == 53 ==> size == 0)
    && size <= MAX_FILE
  }

  function Named(h: Block): Option<Path> {
    if !Utf8(h[..100]) || !Utf8(h[345..500]) then None
    else Some(Joined(Trim(h[..100], {0}), Trim(h[345..500], {0})))
  }

  function Read(h: Block): Option<Head> {
    var checksum, path := Required(h[148..156]), Named(h);
    var size, mode := Number(h[124..136]), Required(h[100..108]);
    if checksum.None? || path.None? || size.None? || mode.None? then None
    else if checksum.value != Sum(Unsigned(h)) || !Permitted(path.value, mode.value, h[156], size.value) then None
    else Some(Head(path.value, size.value, h[156]))
  }

  // ---------- Writing a header ----------

  /** A file or directory to store; name and prefix are ASCII texts that fit their fields. */
  datatype Entry = Entry(name: Bytes, prefix: Bytes, mode: nat, kind: Byte, data: Bytes) {
    predicate Fits() {
      && Ascii(name) && |name| <= 100 && Ascii(prefix) && |prefix| <= 155
      && mode < Pow8(7) && |data| < Pow8(11)
    }

    /** The path as the validator names it. */
    function Path(): ArchivePath.Path {
      Joined(Trim(name, {0}), Trim(prefix, {0}))
    }
  }

  type Writable = e: Entry | e.Fits() witness Entry([], [], 0, 48, [])

  function Octal(n: nat, width: nat): (s: Bytes)
    requires n < Pow8(width)
    ensures |s| == width + 1
  {
    OctalText(n, width) + [0]
  }

  /** Name, mode, owner, group, size and time: the 148 bytes before the checksum. */
  function Front(e: Writable): (s: Bytes)
    ensures |s| == 148
  {
    e.name + Zeros(100 - |e.name|) + Octal(e.mode, 7) + Zeros(16) + Octal(|e.data|, 11) + Clock()
  }

  function Clock(): (s: Bytes)
    ensures |s| == 12
  {
    assert Pow8(11) > 0;
    Octal(0, 11)
  }

  /** Kind, link name, magic, owner names, device numbers and prefix: the 356 bytes after it. */
  function Back(e: Writable): (s: Bytes)
    ensures |s| == 356
  {
    [e.kind] + Zeros(100) + Text("ustar") + Zeros(83) + e.prefix + Zeros(155 - |e.prefix|) + Zeros(12)
  }

  function Signature(e: Writable): nat {
    Sum(Front(e) + Spaces(8) + Back(e))
  }

  lemma SignatureFits(e: Writable)
    ensures Signature(e) < Pow8(6)
  {
    SumBounded(Front(e) + Spaces(8) + Back(e));
    assert Pow8(6) == 262144;
  }

  function Write(e: Writable): Block {
    SignatureFits(e);
    Front(e) + (OctalText(Signature(e), 6) + [0, 32]) + Back(e)
  }

  lemma Middle(a: Bytes, m: Bytes, b: Bytes)
    ensures (a + m + b)[|a|..|a| + |m|] == m
  {
  }

  /** A field of the front part of a written header, and one of the back part. */
  lemma FrontField(e: Writable, a: Bytes, m: Bytes, b: Bytes)
    requires Front(e) == a + m + b
    ensures Write(e)[|a|..|a| + |m|] == m
  {
    hide Front, Back, OctalText, Signature;
    SignatureFits(e);
    var rest := b + ((OctalText(Signature(e), 6) + [0, 32]) + Back(e));
    assert Write(e) == a + m + rest;
    Middle(a, m, rest);
  }

  lemma BackField(e: Writable, a: Bytes, m: Bytes, b: Bytes)
    requires Back(e) == a + m + b
    ensures Write(e)[156 + |a|..156 + |a| + |m|] == m
  {
    hide Front, Back, OctalText, Signature;
    SignatureFits(e);
    var before := Front(e) + (OctalText(Signature(e), 6) + [0, 32]) + a;
    assert Write(e) == before + m + b;
    Middle(before, m, b);
  }

  lemma ChecksumWritten(e: Writable)
    ensures Required(Write(e)[148..156]) == Some(Sum(Unsigned(Write(e))))
  {
    hide Front, Back, OctalText, Signature, Required, Sum;
    SignatureFits(e);
    var field := OctalText(Signature(e), 6) + [0, 32];
    Middle(Front(e), field, Back(e));
    var h := Write(e);
    assert h[..148] == Front(e) && h[156..] == Back(e);
    NumberWritten(Signature(e), 6, [0, 32]);
    SignatureIs(e);
  }

  lemma SignatureIs(e: Writable)
    ensures Signature(e) == Sum(Front(e) + Spaces(8) + Back(e))
  {
  }

  lemma PathWritten(e: Writable)
    ensures Named(Write(e)) == Some(e.Path())
  {
    hide Trim, Octal, Clock, Write, Utf8From, Text;
    var h := Write(e);
    var name, prefix := e.name + Zeros(100 - |e.name|), e.prefix + Zeros(155 - |e.prefix|);
    var rest := Octal(e.mode, 7) + Zeros(16) + Octal(|e.data|, 11) + Clock();
    assert Front(e) == [] + name + rest;
    FrontField(e, [], name, rest);
    var before := [e.kind] + Zeros(100) + Text("ustar") + Zeros(83);
    assert Back(e) == before + prefix + Zeros(12);
    BackField(e, before, prefix, Zeros(12));
    assert h[..100] == name && h[345..500] == prefix;
    AsciiIsUtf8(name, 0);
    AsciiIsUtf8(prefix, 0);
    TrimTail(e.name, 100 - |e.name|);
    TrimTail(e.prefix, 155 - |e.prefix|);
  }

  lemma NumbersWritten(e: Writable)
    ensures Required(Write(e)[100..108]) == Some(e.mode) && Number(Write(e)[124..136]) == Some(|e.data|)
    ensures Write(e)[156] == e.kind
  {
    hide OctalText, Clock, Write, Text, Required, Number;
    var h := Write(e);
    var name := e.name + Zeros(100 - |e.name|);
    var rest := Octal(|e.data|, 11) + Clock();
    assert Front(e) == name + Octal(e.mode, 7) + (Zeros(16) + rest);
    FrontField(e, name, Octal(e.mode, 7), Zeros(16) + rest);
    var before := name + Octal(e.mode, 7) + Zeros(16);
    assert Front(e) == before + Octal(|e.data|, 11) + Clock();
    FrontField(e, before, Octal(|e.data|, 11), Clock());
    NumberWritten(e.mode, 7, [0]);
    NumberWritten(|e.data|, 11, [0]);
    assert |Back(e)| == 356;
    var after := Back(e)[1..];
    assert Back(e) == [] + [e.kind] + after;
    BackField(e, [], [e.kind], after);
    assert h[156..157][0] == e.kind;
  }

  /** Reading a written header gives its entry back, unless the entry is one a snapshot may not hold. */
  lemma ReadWritten(e: Writable)
    ensures Read(Write(e)) == if Permitted(e.Path(), e.mode, e.kind, |e.data|) then Some(Head(e.Path(), |e.data|, e.kind)) else None
  {
    hide Write, Required, Number, Named, Permitted, Sum, Unsigned, Trim;
    ChecksumWritten(e);
    PathWritten(e);
    NumbersWritten(e);
  }

  /** A written header is not the end marker. */
  lemma WrittenIsNotZero(e: Writable)
    ensures exists i :: 0 <= i < 512 && Write(e)[i] != 0
  {
    hide Write, Zeros;
    var a := [e.kind] + Zeros(100);
    var b := Zeros(83) + e.prefix + Zeros(155 - |e.prefix|) + Zeros(12);
    assert Back(e) == a + Text("ustar") + b;
    BackField(e, a, Text("ustar"), b);
    assert Write(e)[257] == Write(e)[257..262][0] == 117;
  }
}
