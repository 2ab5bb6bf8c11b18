/** Validating what the writer writes (tests/A1625RamState.Tests.ps1, lines 16-43, against
    A1625RamState.psm1, lines 65-126). */
module UstarRoundTrip {
  import opened Errno
  import opened Octets
  import opened ArchivePath
  import opened UstarHeader
  import opened SafeTar

  type Entries = seq<Writable>

  /** One entry in the archive: header, data, padding to a whole block. */
  function Member(e: Writable): Bytes {
    Write(e) + (e.data + Zeros(Padded(|e.data|) - |e.data|))
  }

  function MembersFrom(es: Entries, i: nat): Bytes
    requires i <= |es|
    decreases |es| - i
  {
    if i == |es| then [] else Member(es[i]) + MembersFrom(es, i + 1)
  }

  function Archive(es: Entries): Bytes {
    Trailed(es, 512)
  }

  /** The members, the end marker and this many more zeros. */
  function Trailed(es: Entries, tail: nat): Bytes {
    MembersFrom(es, 0) + Zeros(512 + tail)
  }

  // ---------- What the validator should say ----------

  function FileOf(e: Writable): File {
    File(e.Path(), |e.data|, e.kind, e.data)
  }

  function Files(es: Entries): (r: seq<File>)
    ensures |r| == |es|
  {
    seq(|es|, i requires 0 <= i < |es| => FileOf(es[i]))
  }

  predicate Fine(e: Writable) {
    Permitted(e.Path(), e.mode, e.kind, |e.data|)
  }

  /** A snapshot may hold these entries. */
  ghost predicate Storable(es: Entries) {
    && 1 <= |es| <= MAX_ENTRIES
    && (forall i :: 0 <= i < |es| ==> Fine(es[i]))
    && (forall i, j :: 0 <= i < j < |es| ==> Key(FileOf(es[i])) != Key(FileOf(es[j])))
    && Total(Files(es)) <= MAX_TOTAL
  }

  // ---------- The validator's progress over written entries ----------

  function Extend(p: Progress, e: Writable): Progress {
    Progress(p.seen + {Key(FileOf(e))}, p.files + [FileOf(e)], p.expanded + |e.data|, p.tarBytes + 512 + Padded(|e.data|))
  }

  function After(es: Entries, n: nat): Progress
    requires n <= |es|
  {
    if n == 0 then START else Extend(After(es, n - 1), es[n - 1])
  }

  predicate Taken(p: Progress, e: Writable) {
    Fine(e) && Key(FileOf(e)) !in p.seen && p.expanded + |e.data| <= MAX_TOTAL && |p.files| < MAX_ENTRIES
  }

  /** The first n entries are all taken. */
  predicate Admitted(es: Entries, n: nat)
    requires n <= |es|
  {
    n == 0 || (Admitted(es, n - 1) && Taken(After(es, n - 1), es[n - 1]))
  }

  lemma AdmittedStep(es: Entries, n: nat)
    requires n <= |es|
    ensures n == 0 ==> Admitted(es, n) && After(es, n) == START
    ensures n > 0 ==> (Admitted(es, n) <==> Admitted(es, n - 1) && Taken(After(es, n - 1), es[n - 1]))
    ensures n > 0 ==> After(es, n) == Extend(After(es, n - 1), es[n - 1])
  {
    hide Taken, Extend, Entry.Fits;
  }

  lemma {:induction false} AdmittedPrefix(es: Entries, k: nat, n: nat)
    requires k <= n <= |es| && Admitted(es, n)
    ensures Admitted(es, k)
  {
    hide *;
    if k < n {
      AdmittedStep(es, n);
      AdmittedPrefix(es, k, n - 1);
    }
  }

  lemma FilesUpTo(es: Entries, n: nat)
    requires n <= |es|
    ensures n == 0 ==> Files(es)[..n] == [] && Total(Files(es)[..n]) == 0
    ensures n > 0 ==> Files(es)[..n] == Files(es)[..n - 1] + [FileOf(es[n - 1])]
    ensures n > 0 ==> Total(Files(es)[..n]) == Total(Files(es)[..n - 1]) + |es[n - 1].data|
  {
    hide Entry.Fits, Entry.Path;
    if n > 0 {
      assert Files(es)[..n][..n - 1] == Files(es)[..n - 1];
    }
  }

  /** The paths of the first n entries, without trailing slashes. */
  ghost function Keys(es: Entries, n: nat): set<Path>
    requires n <= |es|
  {
    set i | 0 <= i < n :: Key(FileOf(es[i]))
  }

  lemma KeysMore(es: Entries, n: nat)
    requires 0 < n <= |es|
    ensures Keys(es, n) == Keys(es, n - 1) + {Key(FileOf(es[n - 1]))}
  {
    hide FileOf, Key, Entry.Fits;
  }

  lemma {:induction false} AfterIs(es: Entries, n: nat)
    requires n <= |es|
    ensures After(es, n).files == Files(es)[..n]
    ensures After(es, n).expanded == Total(Files(es)[..n])
    ensures After(es, n).seen == Keys(es, n)
  {
    hide FileOf, Key, Total, Files, After, Entry.Fits, Keys;
    FilesUpTo(es, n);
    AdmittedStep(es, n);
    if n > 0 {
      AfterIs(es, n - 1);
      KeysMore(es, n);
    } else {
      NoKeys(es);
    }
  }

  lemma NoKeys(es: Entries)
    ensures Keys(es, 0) == {}
  {
  }

  /** The first n entries are fine and their paths differ. */
  ghost predicate AllFine(es: Entries, n: nat)
    requires n <= |es|
  {
    && (forall i :: 0 <= i < n ==> Fine(es[i]))
    && (forall i, j :: 0 <= i < j < n ==> Key(FileOf(es[i])) != Key(FileOf(es[j])))
  }

  lemma AllFineMore(es: Entries, n: nat)
    requires 0 < n <= |es|
    ensures AllFine(es, n) <==> AllFine(es, n - 1) && Fine(es[n - 1]) && Key(FileOf(es[n - 1])) !in Keys(es, n - 1)
  {
    hide Fine, FileOf, Key, Entry.Fits;
  }

  lemma {:induction false} AdmittedIs(es: Entries, n: nat)
    requires n <= |es|
    ensures Admitted(es, n) <==> n <= MAX_ENTRIES && AllFine(es, n) && Total(Files(es)[..n]) <= MAX_TOTAL
  {
    hide Fine, FileOf, Key, Total, Files, After, Admitted, AllFine, Entry.Fits, Keys, Extend;
    AdmittedStep(es, n);
    FilesUpTo(es, n);
    if n == 0 {
      NoneFine(es);
    } else {
      AdmittedIs(es, n - 1);
      AfterIs(es, n - 1);
      AllFineMore(es, n);
    }
  }

  lemma NoneFine(es: Entries)
    ensures AllFine(es, 0)
  {
  }

  function ReportOf(es: Entries, tail: nat): Report {
    var p := After(es, |es|);
    Report(|p.files|, p.expanded, p.tarBytes + 512 + tail, p.files)
  }

  /** A trailer of whole blocks, at least one and at most 1 MiB. */
  predicate Ends(tail: nat) {
    512 <= tail <= MAX_TRAILER && tail % 512 == 0
  }

  lemma MembersAre(es: Entries, i: nat)
    requires i < |es|
    ensures MembersFrom(es, i) == Write(es[i]) + (es[i].data + Zeros(Padded(|es[i].data|) - |es[i].data|)) + MembersFrom(es, i + 1)
  {
    hide Write, Padded, Entry.Fits;
  }

  lemma MemberAt(s: Bytes, pos: nat, es: Entries, i: nat, end: Bytes)
    requires pos <= |s| && i < |es| && s[pos..] == MembersFrom(es, i) + end
    ensures pos + 512 + Padded(|es[i].data|) <= |s| && s[pos..pos + 512] == Write(es[i])
    ensures s[pos + 512..pos + 512 + |es[i].data|] == es[i].data
    ensures s[pos + 512 + Padded(|es[i].data|)..] == MembersFrom(es, i + 1) + end
  {
    hide Write, Padded, MembersFrom, Entry.Fits;
    var e := es[i];
    var pad := Zeros(Padded(|e.data|) - |e.data|);
    var rest := MembersFrom(es, i + 1) + end;
    MembersAre(es, i);
    assert s[pos..] == Write(e) + e.data + (pad + rest);
    Cut(s, pos, Write(e), e.data, pad + rest);
    assert s[pos + 512..] == e.data + pad + rest by {
      assert s[pos + 512..] == s[pos..][512..];
    }
    Cut(s, pos + 512, e.data, pad, rest);
  }

  lemma Cut(s: Bytes, pos: nat, a: Bytes, b: Bytes, c: Bytes)
    requires pos <= |s| && s[pos..] == a + b + c
    ensures pos + |a| + |b| <= |s|
    ensures s[pos..pos + |a|] == a && s[pos + |a|..pos + |a| + |b|] == b && s[pos + |a| + |b|..] == c
  {
    var t := s[pos..];
    assert s[pos..pos + |a|] == t[..|a|];
    assert s[pos + |a|..pos + |a| + |b|] == t[|a|..|a| + |b|];
    assert s[pos + |a| + |b|..] == t[|a| + |b|..];
  }

  lemma AcceptWritten(s: Bytes, pos: nat, e: Writable, p: Progress)
    requires pos + Padded(|e.data|) <= |s| && s[pos..pos + |e.data|] == e.data && Fine(e) && |p.files| <= MAX_ENTRIES
    ensures Accept(s, pos, Head(e.Path(), |e.data|, e.kind), p) == if Taken(p, e) then Some(Extend(p, e)) else None
  {
    hide Padded, Permitted, TrimEnd;
  }

  lemma {:induction false} ScanMembers(s: Bytes, pos: nat, es: Entries, i: nat, tail: nat)
    requires pos <= |s| && i <= |es| && s[pos..] == MembersFrom(es, i) + Zeros(512 + tail)
    requires Admitted(es, i)
    ensures Scan(s, pos, After(es, i)) ==
      if es != [] && Admitted(es, |es|) && Ends(tail) then Some(ReportOf(es, tail)) else None
    decreases |es| - i
  {
    hide Scan, Read, Write, Accept, Finish, Fine, Permitted, FileOf, MembersFrom, Taken, Total, Padded, Entry.Fits,
         After, Admitted, Entry.Path, Keys, Files, AllFine, Extend;
    var p := After(es, i);
    AdmittedStep(es, i);
    ScanStep(s, pos, p);
    AfterIs(es, i);
    if i == |es| {
      NoMembers(es);
      EndMarker(s, pos, tail);
      FinishIs(s, pos + 512, p);
    } else {
      var e := es[i];
      MemberAt(s, pos, es, i, Zeros(512 + tail));
      WrittenIsNotZero(e);
      ReadWritten(e);
      FineIs(e, After(es, i));
      AdmittedIs(es, i);
      if Fine(e) {
        AcceptWritten(s, pos + 512, e, p);
      }
      AdmittedStep(es, i + 1);
      if Admitted(es, i + 1) {
        ScanMembers(s, pos + 512 + Padded(|e.data|), es, i + 1, tail);
      } else if Admitted(es, |es|) {
        AdmittedPrefix(es, i + 1, |es|);
      }
    }
  }

  /** Nothing is left but the end marker and the trailer. */
  lemma EndMarker(s: Bytes, pos: nat, tail: nat)
    requires pos <= |s| && s[pos..] == [] + Zeros(512 + tail)
    ensures pos + 512 <= |s| && AllZero(s[pos..pos + 512])
    ensures s[pos + 512..] == Zeros(tail) && AllZero(s[pos + 512..])
  {
    assert s[pos..] == Zeros(512 + tail);
    assert s[pos..pos + 512] == s[pos..][..512];
    assert s[pos + 512..] == s[pos..][512..];
  }

  lemma NoMembers(es: Entries)
    ensures MembersFrom(es, |es|) == []
  {
  }

  lemma FineIs(e: Writable, p: Progress)
    ensures Fine(e) <==> Permitted(e.Path(), e.mode, e.kind, |e.data|)
    ensures Taken(p, e) ==> Fine(e)
  {
  }

  /** The round trip: an archive of any writable entries, with any number of zeros after its end marker, is accepted
      exactly when they are storable and the zeros are a trailer; then the report lists exactly their paths, sizes, kinds
      and data, and counts every byte. */
  lemma RoundTripTrailed(es: Entries, tail: nat)
    ensures Verdict(Trailed(es, tail)) ==
      if Storable(es) && Ends(tail) then Some(Report(|es|, Total(Files(es)), |Trailed(es, tail)|, Files(es))) else None
  {
    hide Verdict, Trailed, Admitted, Total, FileOf, Key, Fine, Accounted, After, Entry.Fits, Files, Scan, Keys, Ends;
    var n, s := |es|, Trailed(es, tail);
    TrailedIs(es, tail);
    AdmittedStep(es, 0);
    VerdictIs(s);
    ScanMembers(s, 0, es, 0, tail);
    AdmittedIs(es, n);
    AfterIs(es, n);
    assert Files(es)[..n] == Files(es);
    if Storable(es) && Ends(tail) {
      AcceptedIsSafe(s);
      AccountedIs(Verdict(s).value, |s|);
    }
  }

  /** So with the two blocks of zeros that the writer puts at the end. */
  lemma RoundTrip(es: Entries)
    ensures Verdict(Archive(es)) ==
      if Storable(es) then Some(Report(|es|, Total(Files(es)), |Archive(es)|, Files(es))) else None
  {
    hide Verdict, Trailed, Total, Storable;
    RoundTripTrailed(es, 512);
  }

  lemma TrailedIs(es: Entries, tail: nat)
    ensures Trailed(es, tail)[0..] == MembersFrom(es, 0) + Zeros(512 + tail) && Admitted(es, 0)
  {
  }

  lemma AccountedIs(r: Report, length: nat)
    requires Accounted(r, length)
    ensures r.tarBytes == length
  {
  }
}
