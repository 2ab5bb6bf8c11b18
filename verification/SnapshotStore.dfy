/** The host's content-addressed snapshot store: generation file first, then the pointer to it, each
    written beside its place and renamed (Save-A1625RamState.ps1, lines 21-23; A1625CodexState.psm1,
    lines 150-177), and what the reader accepts (A1625RamState.psm1, lines 43-48). */
module SnapshotStore {
  import opened Errno

  /** File names to contents; bytes are written as characters. */
  type Files = map<string, string>

  /** The SHA-256 of a file in upper-case hexadecimal, left uninterpreted. */
  type Hash = string -> string

  ghost predicate IsHash(h: Hash) {
    forall x: string :: |h(x)| == 64
  }

  const CURRENT: string := "current"
  const NEXT: string := ".next"
  const PREVIOUS: string := ".previous"

  /** The name a generation with this content has. */
  function GenerationName(h: Hash, cipher: string): string
    requires |h(cipher)| == 64
  {
    "state-" + h(cipher)[..32] + ".dpapi"
  }

  /** The shape of the name; that its digits are hexadecimal follows from the comparison with the hash. */
  predicate IsGenerationName(name: string) {
    |name| == 44 && name[..6] == "state-" && name[38..] == ".dpapi"
  }

  lemma NamedRight(h: Hash, cipher: string)
    requires |h(cipher)| == 64
    ensures IsGenerationName(GenerationName(h, cipher))
    ensures Trimmed(GenerationName(h, cipher)) == GenerationName(h, cipher)
  {
    var name := GenerationName(h, cipher);
    assert name[0] == 's' && name[43] == 'i';
  }

  // ---------- The pointer's text ----------

  /** What Trim takes off a text that was decoded from ASCII. */
  predicate Blank(c: char) {
    '\t' <= c <= '\r' || c == ' '
  }

  function TrimFront(s: string): string {
    if s != "" && Blank(s[0]) then TrimFront(s[1..]) else s
  }

  function TrimBack(s: string): string {
    if s != "" && Blank(s[|s| - 1]) then TrimBack(s[..|s| - 1]) else s
  }

  function Trimmed(s: string): string {
    TrimBack(TrimFront(s))
  }

  ghost predicate AllBlank(s: string) {
    forall i :: 0 <= i < |s| ==> Blank(s[i])
  }

  /** The text is this word with nothing but blanks around it. */
  ghost predicate Says(text: string, word: string) {
    exists a: string, b: string :: Padded(text, word, a, b)
  }

  ghost predicate Padded(text: string, word: string, a: string, b: string) {
    text == a + word + b && AllBlank(a) && AllBlank(b)
  }

  lemma {:induction false} TrimFrontSplits(s: string) returns (a: string)
    ensures AllBlank(a) && s == a + TrimFront(s)
  {
    a := "";
    if s != "" && Blank(s[0]) {
      var t := TrimFrontSplits(s[1..]);
      a := [s[0]] + t;
      assert s == [s[0]] + s[1..];
    }
  }

  lemma {:induction false} TrimBackSplits(s: string) returns (b: string)
    ensures AllBlank(b) && s == TrimBack(s) + b
  {
    b := "";
    if s != "" && Blank(s[|s| - 1]) {
      var t := TrimBackSplits(s[..|s| - 1]);
      b := t + [s[|s| - 1]];
      assert s == s[..|s| - 1] + [s[|s| - 1]];
    }
  }

  lemma {:induction false} TrimFrontPadded(a: string, rest: string)
    requires AllBlank(a) && (rest == "" || !Blank(rest[0]))
    ensures TrimFront(a + rest) == rest
  {
    if a == "" {
      assert a + rest == rest;
    } else {
      assert (a + rest)[1..] == a[1..] + rest;
      TrimFrontPadded(a[1..], rest);
    }
  }

  lemma {:induction false} TrimBackPadded(rest: string, b: string)
    requires AllBlank(b) && (rest == "" || !Blank(rest[|rest| - 1]))
    ensures TrimBack(rest + b) == rest
  {
    if b == "" {
      assert rest + b == rest;
    } else {
      assert (rest + b)[..|rest + b| - 1] == rest + b[..|b| - 1];
      TrimBackPadded(rest, b[..|b| - 1]);
    }
  }

  /** Trimming finds exactly the word between the blanks. */
  lemma TrimmedIff(text: string, word: string)
    requires word != "" && !Blank(word[0]) && !Blank(word[|word| - 1])
    ensures Trimmed(text) == word <==> Says(text, word)
  {
    if Trimmed(text) == word {
      var a := TrimFrontSplits(text);
      var b := TrimBackSplits(TrimFront(text));
      assert Padded(text, word, a, b);
    }
    if Says(text, word) {
      var a: string, b: string :| Padded(text, word, a, b);
      assert text == a + (word + b) && (word + b)[0] == word[0];
      TrimFrontPadded(a, word + b);
      TrimBackPadded(word, b);
    }
  }

  // ---------- One atomic write ----------

  /** The steps of an atomic write that a crash can separate. */
  const WRITE_STEPS := 4

  /** The files after the first `n` steps of writing `data` to `path`: create the neighbour, write part
      of it, complete and flush it, rename it into place. */
  function Written(f: Files, path: string, data: string, n: nat): Files {
    if n == 0 then f
    else if n == 1 then f[path + NEXT := ""]
    else if n == 2 then f[path + NEXT := data[..|data| / 2]]
    else if n == 3 then f[path + NEXT := data]
    else if path in f then f[path + NEXT := data][path + PREVIOUS := f[path]][path := data] - {path + NEXT}
    else f[path := data] - {path + NEXT}
  }

  /** Until the last step the file is what it was; then it holds the new data, with what it held before
      beside it, and nothing else has changed. */
  lemma WrittenOnlyAtLast(f: Files, path: string, data: string, n: nat)
    requires n <= WRITE_STEPS
    ensures var g := Written(f, path, data, n);
      && (forall x :: x != path && x != path + NEXT && x != path + PREVIOUS ==>
            ((x in g <==> x in f) && (x in f ==> g[x] == f[x])))
      && (n < WRITE_STEPS ==> (path in g <==> path in f) && (path in f ==> g[path] == f[path]))
      && (n == WRITE_STEPS ==> path in g && g[path] == data && path + NEXT !in g)
      && (n == WRITE_STEPS && path in f ==> path + PREVIOUS in g && g[path + PREVIOUS] == f[path])
  {
    assert |path + NEXT| == |path| + 5 && |path + PREVIOUS| == |path| + 9;
  }

  // ---------- A save ----------

  /** The files after a save that crashes after `n` steps (or completes). */
  function Saved(h: Hash, f: Files, cipher: string, n: nat): Files
    requires |h(cipher)| == 64
  {
    var name := GenerationName(h, cipher);
    if n <= WRITE_STEPS then Written(f, name, cipher, n)
    else Written(Written(f, name, cipher, WRITE_STEPS), CURRENT, name, n - WRITE_STEPS)
  }

  /** What the reader takes from the store: the pointer must name a generation that is there and whose
      content hashes to its name. */
  function Current(h: Hash, f: Files): Option<string> {
    if CURRENT !in f then None
    else
      var name := Trimmed(f[CURRENT]);
      if !IsGenerationName(name) || name !in f then None
      else
        var cipher := f[name];
        if |h(cipher)| == 64 && name == GenerationName(h, cipher) then Some(cipher) else None
  }

  /** A snapshot is current exactly if the file `current` holds its name, blanks aside, and the file of that
      name holds it. */
  lemma CurrentIff(h: Hash, f: Files, cipher: string)
    requires |h(cipher)| == 64
    ensures Current(h, f) == Some(cipher) <==>
      var name := "state-" + h(cipher)[..32] + ".dpapi";
      "current" in f && Says(f["current"], name) && name in f && f[name] == cipher
  {
    var name := GenerationName(h, cipher);
    NamedRight(h, cipher);
    assert name[0] == 's' && name[|name| - 1] == 'i';
    if CURRENT in f {
      TrimmedIff(f[CURRENT], name);
    }
  }

  /** The pointer, if there, names a complete generation, and every generation fits its name. */
  ghost predicate Consistent(h: Hash, f: Files) {
    && (CURRENT in f ==> Current(h, f).Some?)
    && (forall n :: n in f && IsGenerationName(n) ==> |h(f[n])| == 64 && n == GenerationName(h, f[n]))
  }

  /** Names that a save touches beside the generation and the pointer are neither. */
  lemma NeighboursDiffer(path: string)
    requires path == CURRENT || IsGenerationName(path)
    ensures !IsGenerationName(path + NEXT) && !IsGenerationName(path + PREVIOUS)
    ensures path + NEXT != CURRENT && path + PREVIOUS != CURRENT
    ensures !IsGenerationName(CURRENT)
    ensures path + NEXT != path + PREVIOUS
  {
    assert |path + NEXT| == |path| + 5 && |path + PREVIOUS| == |path| + 9;
    assert |CURRENT| == 7;
  }

  /** Writing a generation, however far it gets, keeps the store consistent and what is current. */
  lemma GenerationWrite(h: Hash, f: Files, cipher: string, n: nat)
    requires IsHash(h) && Consistent(h, f) && n <= WRITE_STEPS
    ensures var g := Written(f, GenerationName(h, cipher), cipher, n);
      && Consistent(h, g)
      && (Current(h, g) == Current(h, f) || Current(h, g) == Some(cipher))
      && (n == WRITE_STEPS ==> GenerationName(h, cipher) in g && g[GenerationName(h, cipher)] == cipher)
  {
    hide Trimmed;
    var name := GenerationName(h, cipher);
    NamedRight(h, cipher);
    NeighboursDiffer(name);
    NeighboursDiffer(CURRENT);
    var g := Written(f, name, cipher, n);
    if n == 0 {
      assert g == f;
    } else {
      assert forall x :: x in f && x != name && x != name + NEXT && x != name + PREVIOUS ==> x in g && g[x] == f[x];
    }
  }

  /** Moving the pointer, however far it gets, keeps the store consistent. */
  lemma PointerWrite(h: Hash, f: Files, cipher: string, n: nat)
    requires IsHash(h) && Consistent(h, f) && n <= WRITE_STEPS
    requires GenerationName(h, cipher) in f && f[GenerationName(h, cipher)] == cipher
    ensures var g := Written(f, CURRENT, GenerationName(h, cipher), n);
      && Consistent(h, g)
      && Current(h, g) == if n == WRITE_STEPS then Some(cipher) else Current(h, f)
  {
    hide Trimmed;
    var name := GenerationName(h, cipher);
    NamedRight(h, cipher);
    NeighboursDiffer(CURRENT);
    NeighboursDiffer(name);
    var g := Written(f, CURRENT, name, n);
    assert forall x :: x in f && x != CURRENT && x != CURRENT + NEXT && x != CURRENT + PREVIOUS ==> x in g && g[x] == f[x];
    assert forall x :: x in g && IsGenerationName(x) ==> x in f;
  }

  /** A save that crashes anywhere leaves a consistent store whose current snapshot is the old one or the
      new one; a completed save makes the new one current. */
  lemma SaveIsAtomic(h: Hash, f: Files, cipher: string, n: nat)
    requires IsHash(h) && Consistent(h, f) && n <= 2 * WRITE_STEPS
    ensures var g := Saved(h, f, cipher, n);
      && Consistent(h, g)
      && (Current(h, g) == Current(h, f) || Current(h, g) == Some(cipher))
      && (n == 2 * WRITE_STEPS ==> Current(h, g) == Some(cipher))
  {
    if n <= WRITE_STEPS {
      GenerationWrite(h, f, cipher, n);
    } else {
      GenerationWrite(h, f, cipher, WRITE_STEPS);
      PointerWrite(h, Written(f, GenerationName(h, cipher), cipher, WRITE_STEPS), cipher, n - WRITE_STEPS);
    }
  }

  // ---------- Any history ----------

  /** A save and the step after which it crashed; 8 for a completed one. */
  datatype Attempt = Attempt(cipher: string, steps: nat)

  function History(h: Hash, f: Files, attempts: seq<Attempt>): Files
    requires forall x: string :: |h(x)| == 64
  {
    if attempts == [] then f
    else
      var a := attempts[|attempts| - 1];
      Saved(h, History(h, f, attempts[..|attempts| - 1]), a.cipher, a.steps)
  }

  /** After any sequence of completed and interrupted saves the current snapshot is the one of the first
      store or one that was saved, whole; after a completed save there is one. */
  lemma {:induction false} EveryHistory(h: Hash, f: Files, attempts: seq<Attempt>)
    requires IsHash(h) && Consistent(h, f)
    requires forall i :: 0 <= i < |attempts| ==> attempts[i].steps <= 2 * WRITE_STEPS
    ensures var g := History(h, f, attempts);
      && Consistent(h, g)
      && (Current(h, g) == Current(h, f) || exists i :: 0 <= i < |attempts| && Current(h, g) == Some(attempts[i].cipher))
      && ((exists i :: 0 <= i < |attempts| && attempts[i].steps == 2 * WRITE_STEPS) ==> Current(h, g).Some?)
  {
    hide Saved, Current, Consistent;
    if attempts != [] {
      var n := |attempts| - 1;
      EveryHistory(h, f, attempts[..n]);
      SaveIsAtomic(h, History(h, f, attempts[..n]), attempts[n].cipher, attempts[n].steps);
    }
  }

  /** A completed save is superseded by later ones only: the current snapshot is its own or that of a later attempt. */
  lemma {:induction false} NeverGoesBack(h: Hash, f: Files, attempts: seq<Attempt>, i: nat) returns (j: nat)
    requires IsHash(h) && Consistent(h, f)
    requires forall k :: 0 <= k < |attempts| ==> attempts[k].steps <= 2 * WRITE_STEPS
    requires i < |attempts| && attempts[i].steps == 2 * WRITE_STEPS
    ensures i <= j < |attempts| && Current(h, History(h, f, attempts)) == Some(attempts[j].cipher)
  {
    hide Saved, Current, Consistent;
    var n := |attempts| - 1;
    EveryHistory(h, f, attempts[..n]);
    SaveIsAtomic(h, History(h, f, attempts[..n]), attempts[n].cipher, attempts[n].steps);
    j := n;
    if i < n && Current(h, History(h, f, attempts)) != Some(attempts[n].cipher) {
      j := NeverGoesBack(h, f, attempts[..n], i);
    }
  }

  // ---------- The store at work ----------

  class Store {
    var files: Files
    const h: Hash

    constructor (f: Files, h: Hash)
      ensures files == f && this.h == h
    {
      files := f;
      this.h := h;
    }

    /** Write beside the file, flush, and rename; `steps` is how far it gets before the machine stops. */
    method WriteAtomicBytes(path: string, data: string, steps: nat) returns (done: bool)
      modifies this
      ensures files == Written(old(files), path, data, steps)
      ensures done <==> steps >= WRITE_STEPS
    {
      var nextPath, backupPath := path + NEXT, path + PREVIOUS;
      if steps == 0 {
        return false;
      }
      files := files[nextPath := ""];
      if steps == 1 {
        return false;
      }
      files := files[nextPath := data[..|data| / 2]];
      if steps == 2 {
        assert files == old(files)[nextPath := data[..|data| / 2]];
        return false;
      }
      files := files[nextPath := data];
      assert files == old(files)[nextPath := data];
      if steps == 3 {
        return false;
      }
      if path in files {
        files := files[backupPath := files[path]][path := data] - {nextPath};
      } else {
        files := files[path := data] - {nextPath};
      }
      return true;
    }

    /** The generation, then the pointer. */
    method Save(cipher: string, steps: nat)
      requires |h(cipher)| == 64
      modifies this
      ensures files == Saved(h, old(files), cipher, steps)
    {
      var name := GenerationName(h, cipher);
      var done := WriteAtomicBytes(name, cipher, steps);
      if !done || steps == WRITE_STEPS {
        return;
      }
      done := WriteAtomicBytes(CURRENT, name, steps - WRITE_STEPS);
    }

    /** The reader's checks. */
    method ReadCurrent() returns (r: Option<string>)
      ensures r == Current(h, files)
    {
      if CURRENT !in files {
        return None;
      }
      var name := Trimmed(files[CURRENT]);
      if !IsGenerationName(name) || name !in files {
        return None;
      }
      var cipher := files[name];
      if |h(cipher)| != 64 || name != GenerationName(h, cipher) {
        return None;
      }
      return Some(cipher);
    }
  }
}
