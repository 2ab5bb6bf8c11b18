/** Which paths and which archives a snapshot may consist of, written out in full (A1625RamState.psm1, lines 60-64 and
    90-120). */
module ArchiveLaws {
  import opened Errno
  import opened Octets
  import opened ArchivePath
  import opened UstarHeader
  import opened SafeTar
  import opened UstarRoundTrip

  // ---------- Paths ----------

  /** These segments, each after a slash. */
  function Tail(segments: seq<Path>): Path {
    if segments == [] then []
    else Tail(segments[..|segments| - 1]) + [SLASH] + segments[|segments| - 1]
  }

  /** run/work and these segments below it. */
  function Under(segments: seq<Path>): Path {
    Text("run/work") + Tail(segments)
  }

  predicate NoSlash(w: Path) {
    forall i :: 0 <= i < |w| ==> w[i] != 47
  }

  /** No backslash and no control character. */
  predicate Printable(w: Path) {
    forall i :: 0 <= i < |w| ==> w[i] != 92 && w[i] >= 32 && w[i] != 127
  }

  predicate Segment(w: Path) {
    NoSlash(w) && Printable(w) && w != [46] && w != [46, 46]
  }

  /** Segments of a permitted path: only the last may be empty. */
  predicate Segments(segments: seq<Path>) {
    && (forall i :: 0 <= i < |segments| ==> Segment(segments[i]))
    && (forall i :: 0 <= i < |segments| - 1 ==> segments[i] != [])
  }

  /** What is demanded of every path. */
  predicate Clean(p: Path) {
    && (forall i :: 0 <= i < |p| ==> !Forbidden(p[i]))
    && (forall i :: 0 <= i < |p| ==> !DotsAt(p, i))
    && (forall i :: 0 < i < |p| ==> !(p[i - 1] == SLASH && p[i] == SLASH))
  }

  predicate EndsInSlash(p: Path) {
    p != [] && p[|p| - 1] == SLASH
  }

  /** Dots before the new segment are where they were; in it they must fill it. */
  lemma DotsAppended(q: Path, w: Path, i: nat)
    requires NoSlash(w) && i < |q| + 1 + |w|
    ensures var p := q + [SLASH] + w;
      DotsAt(p, i) <==> (i < |q| && DotsAt(q, i)) || (i == |q| + 1 && (w == [DOT] || w == [DOT, DOT]))
  {
    var p := q + [SLASH] + w;
    assert p[|q|] == SLASH;
    assert forall j :: 0 <= j < |q| ==> p[j] == q[j];
    assert forall j :: 0 <= j < |w| ==> p[|q| + 1 + j] == w[j];
    if i == |q| + 1 {
      assert DotsAt(p, i) <==> w[0] == DOT && (|w| == 1 || (w[1] == DOT && |w| == 2));
    }
  }

  /** One more segment. */
  lemma CleanMore(q: Path, w: Path)
    requires NoSlash(w)
    ensures Clean(q + [SLASH] + w) <==> Clean(q) && !EndsInSlash(q) && Segment(w)
  {
    hide DotsAt;
    var p := q + [SLASH] + w;
    assert forall j :: 0 <= j < |q| ==> p[j] == q[j];
    assert forall j :: 0 <= j < |w| ==> p[|q| + 1 + j] == w[j];
    forall i | 0 <= i < |p|
      ensures DotsAt(p, i) <==> (i < |q| && DotsAt(q, i)) || (i == |q| + 1 && (w == [DOT] || w == [DOT, DOT]))
    {
      DotsAppended(q, w, i);
    }
    BytesAppended(q, w);
    SlashesAppended(q, w);
    if w == [DOT] || w == [DOT, DOT] {
      assert DotsAt(p, |q| + 1);
    }
    if Clean(p) {
      forall i | 0 <= i < |q| ensures !DotsAt(q, i) {
        assert !DotsAt(p, i);
      }
    }
  }

  lemma BytesAppended(q: Path, w: Path)
    ensures var p := q + [SLASH] + w;
      (forall i :: 0 <= i < |p| ==> !Forbidden(p[i])) <==> (forall i :: 0 <= i < |q| ==> !Forbidden(q[i])) && Printable(w)
  {
    var p := q + [SLASH] + w;
    assert forall j :: 0 <= j < |q| ==> p[j] == q[j];
    assert forall j :: 0 <= j < |w| ==> p[|q| + 1 + j] == w[j];
  }

  predicate NoDouble(p: Path) {
    forall i :: 0 < i < |p| ==> !(p[i - 1] == SLASH && p[i] == SLASH)
  }

  lemma SlashesAppended(q: Path, w: Path)
    requires NoSlash(w)
    ensures NoDouble(q + [SLASH] + w) <==> NoDouble(q) && !EndsInSlash(q)
  {
    var p := q + [SLASH] + w;
    assert p[|q|] == SLASH;
    assert forall j :: 0 <= j < |q| ==> p[j] == q[j];
    assert forall j :: 0 <= j < |w| ==> p[|q| + 1 + j] == w[j];
    assert q != [] ==> p[|q| - 1] == q[|q| - 1];
  }

  lemma CleanWork()
    ensures Clean(Text("run/work")) && !EndsInSlash(Text("run/work"))
  {
    hide DotsAt;
    NoDotsIn([], Text("run"));
    assert Text("run/work") == ([] + [SLASH] + Text("run"))[1..] + [SLASH] + Text("work");
    CleanWord(Text("run"));
    CleanMore(Text("run"), Text("work"));
  }

  lemma NoDotsIn(q: Path, w: Path)
    ensures ([] + [SLASH] + w)[1..] == w
  {
  }

  /** A single segment is clean. */
  lemma CleanWord(w: Path)
    requires Segment(w)
    ensures Clean(w) && !EndsInSlash(w)
  {
    assert |w| == 1 && w[0] == DOT ==> w == [46];
    assert |w| == 2 && w[0] == DOT && w[1] == DOT ==> w == [46, 46];
  }

  lemma UnderMore(front: seq<Path>, w: Path)
    ensures Under(front + [w]) == Under(front) + [SLASH] + w
    ensures Under([]) == Text("run/work")
  {
    hide Text;
    assert (front + [w])[..|front|] == front;
  }

  lemma SegmentsMore(front: seq<Path>, w: Path)
    ensures Segments(front + [w]) <==> Segments(front) && (front != [] ==> front[|front| - 1] != []) && Segment(w)
  {
    hide Segment;
    var all := front + [w];
    assert all[|front|] == w && forall i :: 0 <= i < |front| ==> all[i] == front[i];
  }

  lemma {:induction false} CleanUnder(segments: seq<Path>)
    requires forall i :: 0 <= i < |segments| ==> NoSlash(segments[i])
    ensures Clean(Under(segments)) <==> Segments(segments)
    ensures EndsInSlash(Under(segments)) <==> segments != [] && segments[|segments| - 1] == []
  {
    hide Clean, Segment, Text, Under, Segments, NoSlash;
    if segments == [] {
      CleanWork();
      UnderMore([], []);
      NoSegments();
    } else {
      var n := |segments| - 1;
      var front, w := segments[..n], segments[n];
      assert front + [w] == segments;
      CleanUnder(front);
      UnderMore(front, w);
      SegmentsMore(front, w);
      CleanMore(Under(front), w);
      LastOf(Under(front), w);
    }
  }

  lemma NoSegments()
    ensures Segments([])
  {
  }

  lemma LastOf(q: Path, w: Path)
    requires NoSlash(w)
    ensures EndsInSlash(q + [SLASH] + w) <==> w == []
  {
    var p := q + [SLASH] + w;
    assert w != [] ==> p[|p| - 1] == w[|w| - 1];
  }

  /** Below run/work a path is permitted exactly if no byte is a backslash or a control character, no segment is "." or
      "..", and no segment but the last is empty. */
  lemma UnderIff(segments: seq<Path>)
    requires forall i :: 0 <= i < |segments| ==> NoSlash(segments[i])
    ensures Allowed(Under(segments)) <==> Segments(segments)
  {
    hide Text, Segments, HomeFiles, DotsAt, Forbidden;
    CleanUnder(segments);
    var p := Under(segments);
    if segments == [] {
      assert p == Work();
    } else {
      StartsBelow(segments);
    }
  }

  lemma {:induction false} StartsBelow(segments: seq<Path>)
    requires segments != []
    ensures Work() + [SLASH] <= Under(segments)
  {
    hide Text;
    var front := segments[..|segments| - 1];
    assert Under(segments) == Under(front) + [SLASH] + segments[|segments| - 1];
    if front == [] {
      assert Under(front) == Work();
    } else {
      StartsBelow(front);
    }
  }

  /** Splitting and joining. */
  lemma TailMore(front: seq<Path>, w: Path)
    ensures Tail(front + [w]) == Tail(front) + [SLASH] + w
  {
    assert (front + [w])[..|front|] == front;
  }

  lemma NoTail()
    ensures Split([]) == [[]] && Tail([[]]) == [SLASH]
  {
    var one: seq<Path> := [[]];
    assert one[..0] == [];
  }

  /** One more byte, in the last segment or as a slash after it. */
  lemma ByteMore(o: seq<Path>, q: Path, b: Byte)
    requires o != [] && Tail(o) == [SLASH] + q
    ensures Tail(o + [[]]) == [SLASH] + (q + [SLASH])
    ensures Tail(o[..|o| - 1] + [o[|o| - 1] + [b]]) == [SLASH] + (q + [b])
  {
    hide Tail;
    TailMore(o, []);
    var front, last := o[..|o| - 1], o[|o| - 1];
    assert front + [last] == o;
    TailMore(front, last);
    TailMore(front, last + [b]);
    assert Tail(front) + [SLASH] + (last + [b]) == (Tail(front) + [SLASH] + last) + [b];
    assert ([SLASH] + q) + [b] == [SLASH] + (q + [b]) && ([SLASH] + q) + [SLASH] == [SLASH] + (q + [SLASH]);
    assert Tail(o) + [SLASH] + [] == Tail(o) + [SLASH];
  }

  lemma {:induction false} JoinSplit(p: Path)
    ensures Tail(Split(p)) == [SLASH] + p
  {
    hide Split, Tail;
    NoTail();
    if p != [] {
      var q, b := p[..|p| - 1], p[|p| - 1];
      assert q + [b] == p;
      JoinSplit(q);
      SplitMore(q, b);
      ByteMore(Split(q), q, b);
    }
  }

  ghost predicate NoSlashes(segments: seq<Path>) {
    forall i :: 0 <= i < |segments| ==> NoSlash(segments[i])
  }

  lemma SlashFree(o: seq<Path>, b: Byte)
    requires o != [] && NoSlashes(o)
    ensures NoSlashes(o + [[]])
    ensures b != SLASH ==> NoSlashes(o[..|o| - 1] + [o[|o| - 1] + [b]])
  {
    assert b != SLASH ==> NoSlash(o[|o| - 1] + [b]);
  }

  lemma {:induction false} SplitSlashFree(p: Path)
    ensures NoSlashes(Split(p))
  {
    hide Split, NoSlashes;
    if p == [] {
      NoTail();
      assert NoSlashes([[]]) by {
        OneEmpty();
      }
    } else {
      var q, b := p[..|p| - 1], p[|p| - 1];
      assert q + [b] == p;
      SplitSlashFree(q);
      SplitMore(q, b);
      SlashFree(Split(q), b);
    }
  }

  lemma OneEmpty()
    ensures NoSlashes([[]])
  {
  }

  /** The listed files of the codex home. */
  predicate OfHome(p: Path) {
    || p == Text("run/codex-home/auth.json") || p == Text("run/codex-home/config.toml")
    || p == Text("run/codex-home/.gitconfig") || p == Text("run/codex-home/.ssh/config")
    || p == Text("run/codex-home/.ssh/known_hosts") || p == Text("run/codex-home/.ssh/id_ed25519")
    || p == Text("run/codex-home/.ssh/id_ed25519.pub")
  }

  lemma OfHomeIs(p: Path)
    ensures OfHome(p) <==> p in HomeFiles()
  {
    hide Text;
  }

  /** Three or four segments. */
  lemma CleanThree(a: Path, b: Path, c: Path)
    requires Segment(a) && Segment(b) && b != [] && Segment(c)
    ensures Clean(a + [SLASH] + b + [SLASH] + c)
    ensures c != [] ==> !EndsInSlash(a + [SLASH] + b + [SLASH] + c)
  {
    hide Clean;
    CleanWord(a);
    CleanMore(a, b);
    CleanMore(a + [SLASH] + b, c);
  }

  lemma CleanFour(a: Path, b: Path, c: Path, d: Path)
    requires Segment(a) && Segment(b) && b != [] && Segment(c) && c != [] && Segment(d)
    ensures Clean(a + [SLASH] + b + [SLASH] + c + [SLASH] + d)
  {
    hide Clean;
    CleanThree(a, b, c);
    CleanMore(a + [SLASH] + b + [SLASH] + c, d);
  }

  lemma TextMore(a: string, b: string)
    ensures Text(a + b) == Text(a) + Text(b)
  {
  }

  lemma Directories()
    ensures Text("run/codex-home/") == Text("run") + [SLASH] + Text("codex-home") + [SLASH]
    ensures Text("/") == [SLASH] && Segment(Text("run")) && Segment(Text("codex-home")) && Text("codex-home") != []
  {
  }

  lemma SshDirectory()
    ensures Text(".ssh/") == Text(".ssh") + [SLASH] && Segment(Text(".ssh")) && Text(".ssh") != []
    ensures "run/codex-home/" + ".ssh/" == "run/codex-home/.ssh/"
  {
  }

  lemma CleanHome(f: string)
    requires Segment(Text(f))
    ensures Clean(Text("run/codex-home/" + f))
  {
    hide Clean, Text, Segment;
    Directories();
    TextMore("run/codex-home/", f);
    CleanThree(Text("run"), Text("codex-home"), Text(f));
  }

  lemma CleanSsh(f: string)
    requires Segment(Text(f))
    ensures Clean(Text("run/codex-home/.ssh/" + f))
  {
    hide Clean, Text, Segment;
    Directories();
    SshDirectory();
    TextMore("run/codex-home/.ssh/", f);
    TextMore("run/codex-home/", ".ssh/");
    CleanFour(Text("run"), Text("codex-home"), Text(".ssh"), Text(f));
    assert Text("run/codex-home/.ssh/" + f) == Text("run") + [SLASH] + Text("codex-home") + [SLASH] + Text(".ssh") + [SLASH] + Text(f);
  }

  lemma PlainNames()
    ensures Clean(Text("run/codex-home/auth.json")) && Clean(Text("run/codex-home/config.toml"))
    ensures Clean(Text("run/codex-home/.gitconfig"))
  {
    hide Clean, Text;
    PlainWords();
    CleanHome("auth.json");
    CleanHome("config.toml");
    CleanHome(".gitconfig");
    assert "run/codex-home/" + "auth.json" == "run/codex-home/auth.json";
    assert "run/codex-home/" + "config.toml" == "run/codex-home/config.toml";
    assert "run/codex-home/" + ".gitconfig" == "run/codex-home/.gitconfig";
  }

  lemma PlainWords()
    ensures Segment(Text("auth.json")) && Segment(Text("config.toml")) && Segment(Text(".gitconfig"))
  {
  }

  lemma SshNames()
    ensures Clean(Text("run/codex-home/.ssh/config")) && Clean(Text("run/codex-home/.ssh/known_hosts"))
    ensures Clean(Text("run/codex-home/.ssh/id_ed25519")) && Clean(Text("run/codex-home/.ssh/id_ed25519.pub"))
  {
    hide Clean, Text;
    SshWords();
    KeyWords();
    CleanSsh("config");
    CleanSsh("known_hosts");
    CleanSsh("id_ed25519");
    CleanSsh("id_ed25519.pub");
    assert "run/codex-home/.ssh/" + "config" == "run/codex-home/.ssh/config";
    assert "run/codex-home/.ssh/" + "known_hosts" == "run/codex-home/.ssh/known_hosts";
    assert "run/codex-home/.ssh/" + "id_ed25519" == "run/codex-home/.ssh/id_ed25519";
    assert "run/codex-home/.ssh/" + "id_ed25519.pub" == "run/codex-home/.ssh/id_ed25519.pub";
  }

  lemma SshWords()
    ensures Segment(Text("config")) && Segment(Text("known_hosts"))
  {
  }

  lemma KeyWords()
    ensures Segment(Text("id_ed25519")) && Segment(Text("id_ed25519.pub"))
  {
  }

  lemma HomeIsClean(p: Path)
    requires OfHome(p)
    ensures Clean(p)
  {
    hide Clean, Text;
    PlainNames();
    SshNames();
  }

  /** A path of the work directory or one of the listed home files. */
  ghost predicate InSnapshot(p: Path) {
    OfHome(p) || exists segments :: Segments(segments) && p == Under(segments)
  }

  /** These are exactly the permitted paths. */
  lemma PermittedIff(p: Path)
    ensures Allowed(p) <==> InSnapshot(p)
  {
    hide Text, OfHome, HomeFiles, Split, DotsAt, Forbidden, Segments;
    OfHomeIs(p);
    if OfHome(p) {
      HomeIsClean(p);
    } else if Allowed(p) {
      if p == Work() {
        CleanUnder([]);
        assert p == Under([]);
      } else {
        var rest := p[9..];
        JoinSplit(rest);
        SplitSlashFree(rest);
        assert p == Work() + ([SLASH] + rest);
        assert p == Under(Split(rest));
        CleanUnder(Split(rest));
      }
    } else if segments :| Segments(segments) && p == Under(segments) {
      SegmentsHaveNoSlash(segments);
      UnderIff(segments);
    }
  }

  lemma SegmentsHaveNoSlash(segments: seq<Path>)
    requires Segments(segments)
    ensures forall i :: 0 <= i < |segments| ==> NoSlash(segments[i])
  {
  }

  // ---------- Archives ----------

  /** An entry a snapshot may hold: a file or an empty directory without special mode bits and of at most 64 MiB. */
  ghost predicate Holdable(e: Writable) {
    && InSnapshot(e.Path()) && e.mode / 512 % 8 == 0
    && (e.kind == 0 || e.kind == 48 || (e.kind == 53 && e.data == [])) && |e.data| <= 67_108_864
  }

  /** 1 to 4096 such entries of at most 512 MiB, no two of which have the same path up to trailing slashes. */
  ghost predicate Snapshot(es: Entries) {
    && 1 <= |es| <= 4096
    && (forall i :: 0 <= i < |es| ==> Holdable(es[i]))
    && (forall i, j :: 0 <= i < j < |es| ==> TrimEnd(es[i].Path(), 47) != TrimEnd(es[j].Path(), 47))
    && Size(es) <= 536_870_912
  }

  /** The bytes of all files. */
  function Size(es: Entries): nat {
    if es == [] then 0 else Size(es[..|es| - 1]) + |es[|es| - 1].data|
  }

  lemma {:induction false} SizeIsTotal(es: Entries, n: nat)
    requires n <= |es|
    ensures Total(Files(es)[..n]) == Size(es[..n])
  {
    hide Entry.Path, Entry.Fits, Total;
    FilesUpTo(es, n);
    if n > 0 {
      SizeIsTotal(es, n - 1);
      assert es[..n][..n - 1] == es[..n - 1];
    }
  }

  lemma HoldableIff(e: Writable)
    ensures Fine(e) <==> Holdable(e)
  {
    hide Allowed, InSnapshot, Entry.Path, Entry.Fits;
    PermittedIff(e.Path());
  }

  lemma SnapshotIff(es: Entries)
    ensures Storable(es) <==> Snapshot(es)
  {
    hide Fine, Holdable, Entry.Path, Entry.Fits, Total, Size;
    forall e: Writable ensures Fine(e) <==> Holdable(e) {
      HoldableIff(e);
    }
    SizeIsTotal(es, |es|);
    assert es[..|es|] == es && Files(es)[..|es|] == Files(es);
  }

  /** An archive as the writer makes it, with `tail` zeros after the end marker, is accepted exactly if it is a snapshot
      and the zeros are 1 to 2048 whole blocks; the report then lists its entries. */
  lemma AcceptedIff(es: Entries, tail: nat)
    ensures Verdict(Trailed(es, tail)) ==
      if Snapshot(es) && 512 <= tail <= 1_048_576 && tail % 512 == 0
      then Some(Report(|es|, Size(es), |Trailed(es, tail)|, Files(es))) else None
  {
    hide Verdict, Trailed, Storable, Snapshot, Total, Size, Files, Entry.Fits, Entry.Path;
    SnapshotIff(es);
    RoundTripTrailed(es, tail);
    WholeSize(es);
  }

  lemma WholeSize(es: Entries)
    ensures Total(Files(es)) == Size(es)
  {
    hide Total, Size;
    SizeIsTotal(es, |es|);
    assert es[..|es|] == es && Files(es)[..|es|] == Files(es);
  }
}
