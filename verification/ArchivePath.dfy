/** Paths a snapshot may contain (A1625RamState.psm1, lines 60-64), on the bytes of the UTF-8 text. */
module ArchivePath {
  import opened Octets

  const SLASH: Byte := 47
  const DOT: Byte := 46
  const BACKSLASH: Byte := 92

  type Path = seq<Byte>

  /** The bytes of a text in ASCII, where any other character becomes a question mark. */
  function Text(s: string): (p: Path)
    ensures |p| == |s|
  {
    seq(|s|, i requires 0 <= i < |s| => if s[i] < 128 as char then s[i] as int else 63)
  }

  predicate Forbidden(b: Byte) {
    b == BACKSLASH || b < 32 || b == 127
  }

  /** Position i is the end of the path or a slash. */
  predicate SegmentEnd(p: Path, i: nat) {
    i == |p| || (i < |p| && p[i] == SLASH)
  }

  /** A segment "." or ".." starts at i. */
  predicate DotsAt(p: Path, i: nat) {
    && i < |p|
    && (i == 0 || p[i - 1] == SLASH)
    && p[i] == DOT
    && (SegmentEnd(p, i + 1) || (i + 1 < |p| && p[i + 1] == DOT && SegmentEnd(p, i + 2)))
  }

  /** The files of the codex home that belong in a snapshot. */
  function HomeFiles(): seq<Path> {
    [Text("run/codex-home/auth.json"), Text("run/codex-home/config.toml"), Text("run/codex-home/.ssh/config"),
     Text("run/codex-home/.ssh/known_hosts"), Text("run/codex-home/.ssh/id_ed25519"),
     Text("run/codex-home/.ssh/id_ed25519.pub"), Text("run/codex-home/.gitconfig")]
  }

  function Work(): Path {
    Text("run/work")
  }

  predicate Allowed(p: Path) {
    && (forall i :: 0 <= i < |p| ==> !Forbidden(p[i]))
    && (forall i :: 0 <= i < |p| ==> !DotsAt(p, i))
    && (forall i :: 0 < i < |p| ==> !(p[i - 1] == SLASH && p[i] == SLASH))
    && (p == Work() || Work() + [SLASH] <= p || p in HomeFiles())
  }

  // ---------- What extraction makes of a path ----------

  /** The segments between slashes, by the last one. */
  function Split(p: Path): (r: seq<Path>)
    ensures |r| > 0
  {
    if p == [] then [[]]
    else
      var r := Split(p[..|p| - 1]);
      if p[|p| - 1] == SLASH then r + [[]] else r[..|r| - 1] + [r[|r| - 1] + [p[|p| - 1]]]
  }

  /** Follow segments from the extraction root: "." and an empty segment stay, ".." goes up. */
  function Follow(segments: seq<Path>): seq<Path> {
    if segments == [] then []
    else
      var here := Follow(segments[..|segments| - 1]);
      var s := segments[|segments| - 1];
      if s == [] || s == [DOT] then here
      else if s == [DOT, DOT] then (if here == [] then here else here[..|here| - 1])
      else here + [s]
  }

  /** Where the last segment starts. */
  function LastStart(p: Path): (i: nat)
    ensures i <= |p| && (i == 0 || p[i - 1] == SLASH)
    ensures forall j :: i <= j < |p| ==> p[j] != SLASH
  {
    if p == [] || p[|p| - 1] == SLASH then |p| else LastStart(p[..|p| - 1])
  }

  lemma {:induction false} LastSegment(p: Path)
    ensures Split(p)[|Split(p)| - 1] == p[LastStart(p)..]
  {
    if p != [] && p[|p| - 1] != SLASH {
      LastSegment(p[..|p| - 1]);
    }
  }

  /** No ".." and no "." in the path up to a segment end. */
  ghost predicate NoDots(p: Path) {
    forall i :: 0 <= i < |p| ==> !DotsAt(p, i)
  }

  ghost predicate Plain(segments: seq<Path>) {
    forall i :: 0 <= i < |segments| ==> segments[i] != [DOT] && segments[i] != [DOT, DOT]
  }

  /** A last segment that is complete in a longer path without dots is no dot segment. */
  lemma LastSegmentPlain(p: Path, q: Path)
    requires p <= q && NoDots(q) && SegmentEnd(q, |p|)
    ensures p[LastStart(p)..] != [DOT] && p[LastStart(p)..] != [DOT, DOT]
  {
    var i := LastStart(p);
    if p[i..] == [DOT] {
      assert q[i] == p[i..][0] && DotsAt(q, i);
    } else if p[i..] == [DOT, DOT] {
      assert q[i] == p[i..][0] && q[i + 1] == p[i..][1] && DotsAt(q, i);
    }
  }

  /** The segments before the last, in terms of the path without its last byte. */
  lemma SplitFront(p: Path)
    requires p != []
    ensures var r, o := Split(p), Split(p[..|p| - 1]);
      r[..|r| - 1] == if p[|p| - 1] == SLASH then o else o[..|o| - 1]
  {
    hide Split;
    var front, b := p[..|p| - 1], p[|p| - 1];
    assert front + [b] == p;
    SplitMore(front, b);
    var o := Split(front);
    if b == SLASH {
      FrontOf(o, []);
    } else {
      FrontOf(o[..|o| - 1], o[|o| - 1] + [b]);
    }
  }

  lemma FrontOf(segments: seq<Path>, last: Path)
    ensures var r := segments + [last]; r[..|r| - 1] == segments
  {
  }

  lemma PlainLast(r: seq<Path>)
    requires r != [] && Plain(r[..|r| - 1]) && r[|r| - 1] != [DOT] && r[|r| - 1] != [DOT, DOT]
    ensures Plain(r)
  {
    var front := r[..|r| - 1];
    assert forall i :: 0 <= i < |front| ==> r[i] == front[i];
  }

  lemma PlainNone()
    ensures Plain(Split([])[..|Split([])| - 1])
  {
  }

  /** Every segment but the last is complete, so dots there would show in the whole path. */
  lemma {:induction false} EarlierSegmentsPlain(p: Path, q: Path)
    requires p <= q && NoDots(q)
    ensures Plain(Split(p)[..|Split(p)| - 1])
    ensures SegmentEnd(q, |p|) ==> Plain(Split(p))
  {
    hide NoDots, LastStart, DotsAt, Split, Plain;
    if p == [] {
      PlainNone();
    } else {
      SplitFront(p);
      EarlierSegmentsPlain(p[..|p| - 1], q);
    }
    if SegmentEnd(q, |p|) {
      LastSegment(p);
      LastSegmentPlain(p, q);
      PlainLast(Split(p));
    }
  }

  /** Without dot segments following a path only ever goes down. */
  lemma {:induction false} FollowGrows(a: seq<Path>, b: seq<Path>)
    requires a <= b && Plain(b)
    ensures Follow(a) <= Follow(b)
  {
    if a == b {
    } else {
      assert a <= b[..|b| - 1];
      FollowGrows(a, b[..|b| - 1]);
    }
  }

  lemma {:induction false} SplitGrows(p: Path, q: Path)
    requires p <= q && SegmentEnd(q, |p|)
    ensures Split(p) <= Split(q)
    ensures |p| < |q| ==> |Split(p)| < |Split(q)|
    decreases |q|
  {
    if p == q {
    } else {
      var r := q[..|q| - 1];
      assert p <= r;
      if p != r {
        assert SegmentEnd(r, |p|);
        SplitGrows(p, r);
      }
    }
  }

  lemma SplitMore(p: Path, b: Byte)
    ensures b == SLASH ==> Split(p + [b]) == Split(p) + [[]]
    ensures b != SLASH ==> Split(p + [b]) == Split(p)[..|Split(p)| - 1] + [Split(p)[|Split(p)| - 1] + [b]]
  {
    assert (p + [b])[..|p|] == p;
  }

  lemma {:induction false} SplitWord(p: Path, word: Path)
    requires forall i :: 0 <= i < |word| ==> word[i] != SLASH
    requires Split(p)[|Split(p)| - 1] == []
    ensures Split(p + word) == Split(p)[..|Split(p)| - 1] + [word]
  {
    hide Split;
    if word == [] {
      assert p + word == p;
    } else {
      var w := word[..|word| - 1];
      SplitWord(p, w);
      SplitMore(p + w, word[|word| - 1]);
      assert p + word == p + w + [word[|word| - 1]];
      assert w + [word[|word| - 1]] == word;
    }
  }

  predicate Word(w: Path) {
    w != [] && w != [DOT] && w != [DOT, DOT] && forall i :: 0 <= i < |w| ==> w[i] != SLASH
  }

  lemma FollowMore(segments: seq<Path>, w: Path)
    requires Word(w)
    ensures Follow(segments + [w]) == Follow(segments) + [w]
  {
    assert (segments + [w])[..|segments|] == segments;
  }

  lemma NothingSplit()
    ensures Split([]) == [[]] && Follow([]) == []
  {
  }

  lemma FollowTwo(a: Path, b: Path)
    requires Word(a) && Word(b)
    ensures Follow(Split(a + [SLASH] + b)) == [a, b]
  {
    hide Split, Follow;
    NothingSplit();
    SplitWord([], a);
    assert [] + a == a;
    assert Split(a) == [] + [a];
    SplitMore(a, SLASH);
    SplitWord(a + [SLASH], b);
    assert Split(a + [SLASH] + b) == [] + [a] + [b];
    FollowMore([], a);
    FollowMore([] + [a], b);
  }

  lemma FollowWork()
    ensures Follow(Split(Work())) == [Text("run"), Text("work")]
  {
    hide Follow, Split;
    assert Text("run") == [114, 117, 110] && Text("work") == [119, 111, 114, 107];
    assert Work() == Text("run") + [SLASH] + Text("work");
    FollowTwo(Text("run"), Text("work"));
  }

  /** A path the test lets through never leaves run/work, unless it is one of the listed home files. */
  lemma StaysInside(p: Path)
    requires Allowed(p)
    ensures p in HomeFiles() || [Text("run"), Text("work")] <= Follow(Split(p))
  {
    if p !in HomeFiles() {
      assert Work() <= p && SegmentEnd(p, 8) by {
        if p != Work() {
          assert p[8] == (Work() + [SLASH])[8];
        }
      }
      EarlierSegmentsPlain(p, p);
      SplitGrows(Work(), p);
      FollowGrows(Split(Work()), Split(p));
      FollowWork();
    }
  }
}
