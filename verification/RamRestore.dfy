/** The restore transaction the device runs: stage, overlay, swap, and a rollback trap
    (A1625RamState.psm1, lines 180-232). */
module RamRestore {
  import opened Errno
  import ArchivePath

  /** The names of one file inside a directory: a file with one name is its own, files with several names are numbered. */
  datatype Share = Own | Shared(n: nat)

  datatype Node = Regular(data: string, private: bool, share: Share) | Link(target: string) | Special

  /** A directory as its files by relative path. */
  type Tree = map<string, Node>

  /** What a path under /run holds. `NonDirectory` is everything that is neither a directory nor a link: a regular
      file, a FIFO, a socket or a device node, told apart by `node`. */
  datatype Item = Absent | Dir(tree: Tree) | NonDirectory(node: string) | Symlink

  /** What unpacking the received archive yields below run/. */
  datatype Snapshot = Snapshot(work: Item, home: Tree)

  /** The home files a snapshot may replace, in the order they are copied. */
  const ALLOWED: seq<string> := ["auth.json", "config.toml", ".gitconfig", ".ssh/config",
                                 ".ssh/known_hosts", ".ssh/id_ed25519", ".ssh/id_ed25519.pub"]

  function HomePath(f: string): ArchivePath.Path {
    ArchivePath.Text("run/codex-home/" + f)
  }

  /** What the archive calls the allowed files. */
  lemma HomeNames()
    ensures "run/codex-home/" + ALLOWED[0] == "run/codex-home/auth.json"
    ensures "run/codex-home/" + ALLOWED[1] == "run/codex-home/config.toml"
    ensures "run/codex-home/" + ALLOWED[2] == "run/codex-home/.gitconfig"
  {
  }

  lemma SshNames()
    ensures "run/codex-home/" + ALLOWED[3] == "run/codex-home/.ssh/config"
    ensures "run/codex-home/" + ALLOWED[4] == "run/codex-home/.ssh/known_hosts"
    ensures "run/codex-home/" + ALLOWED[5] == "run/codex-home/.ssh/id_ed25519"
    ensures "run/codex-home/" + ALLOWED[6] == "run/codex-home/.ssh/id_ed25519.pub"
  {
  }

  /** The overlay copies exactly the home files the archive test lets into a snapshot. */
  lemma AllowlistsAgree(p: ArchivePath.Path)
    ensures p in ArchivePath.HomeFiles() <==> exists f :: f in ALLOWED && HomePath(f) == p
  {
    hide ArchivePath.Text, ArchivePath.HomeFiles, HomePath;
    var home := ArchivePath.HomeFiles();
    HomePaths();
    if p in home {
      var i :| 0 <= i < |home| && home[i] == p;
      assert ALLOWED[[0, 1, 3, 4, 5, 6, 2][i]] in ALLOWED;
    }
  }

  lemma HomePaths()
    ensures ArchivePath.HomeFiles() == [HomePath(ALLOWED[0]), HomePath(ALLOWED[1]), HomePath(ALLOWED[3]), HomePath(ALLOWED[4]),
                                        HomePath(ALLOWED[5]), HomePath(ALLOWED[6]), HomePath(ALLOWED[2])]
  {
    hide ArchivePath.Text;
    HomeNames();
    SshNames();
  }

  /** The commands of the script, in order; the loop over the allowed files has one per file. */
  datatype Command =
    | Guard | Lock | Capacity | Receive | Unpack | Screen | TakeWork | CopyHome | ScreenHome
    | Overlay(i: nat) | Permissions | SaveWork | SaveHome | PlaceWork | PlaceHome | Discard | Report

  // ---------- The new home ----------

  predicate UnderSsh(f: string) {
    |f| >= 5 && f[..5] == ".ssh/"
  }

  /** Copying to this path fails: it is a link, or its directory is not one. */
  predicate Blocked(home: Tree, f: string) {
    (f in home && home[f].Link?) || (UnderSsh(f) && ".ssh" in home)
  }

  /** Two names of one file. */
  predicate SameFile(home: Tree, f: string, g: string) {
    && f in home && g in home && home[f].Regular? && home[g].Regular?
    && home[f].share == home[g].share && home[f].share.Shared?
  }

  /** Copying over `f` writes into the file it names. */
  predicate Writes(home: Tree, f: string, g: string) {
    g == f || SameFile(home, f, g)
  }

  function Data(n: Node): string {
    if n.Regular? then n.data else ""
  }

  /** The copied file, with as many names as the one it is written into. */
  function Copied(home: Tree, g: string, from: Node): Node {
    Regular(Data(from), true, if g in home && home[g].Regular? then home[g].share else Own)
  }

  /** After copying a file over `f`, in place if it exists, and making it private. */
  function CopyOver(home: Tree, f: string, from: Node): Tree {
    map g | g in home.Keys + {f} :: if Writes(home, f, g) then Copied(home, g, from) else home[g]
  }

  /** The old home with the first `n` allowed files of the snapshot copied over it. */
  function Overlaid(home: Tree, snap: Tree, n: nat): Tree
    requires n <= |ALLOWED|
  {
    if n == 0 then home
    else
      var before := Overlaid(home, snap, n - 1);
      var f := ALLOWED[n - 1];
      if f in snap then CopyOver(before, f, snap[f]) else before
  }

  function NewHome(home: Tree, snap: Tree): Tree {
    Overlaid(home, snap, |ALLOWED|)
  }

  /** The last of the first `n` copies that wrote into the file `g` names. */
  function LastCopy(home: Tree, snap: Tree, g: string, n: nat): (r: Option<nat>)
    requires n <= |ALLOWED|
    ensures r.Some? ==> r.value < n && ALLOWED[r.value] in snap && Writes(home, ALLOWED[r.value], g)
  {
    if n == 0 then None
    else if ALLOWED[n - 1] in snap && Writes(home, ALLOWED[n - 1], g) then Some(n - 1)
    else LastCopy(home, snap, g, n - 1)
  }

  function HomeNode(home: Tree, g: string): Option<Node> {
    if g in home then Some(home[g]) else None
  }

  /** The overlay at a name: what the last copy into its file brought, made private, and else the old home. */
  predicate OverlayIs(home: Tree, snap: Tree, n: nat, g: string)
    requires n <= |ALLOWED|
  {
    HomeNode(Overlaid(home, snap, n), g) == match LastCopy(home, snap, g, n)
      case None => HomeNode(home, g)
      case Some(i) => Some(Copied(home, g, snap[ALLOWED[i]]))
  }

  lemma {:induction false} OverlayIsExact(home: Tree, snap: Tree, n: nat, g: string)
    requires n <= |ALLOWED|
    ensures OverlayIs(home, snap, n, g)
  {
    if n > 0 {
      var before, f := Overlaid(home, snap, n - 1), ALLOWED[n - 1];
      OverlayIsExact(home, snap, n - 1, g);
      if f in snap {
        OverlayIsExact(home, snap, n - 1, f);
        OverlayKeepsNames(home, snap, n - 1, f, g);
      }
    }
  }

  /** Copying never joins or separates the names of a file that was there. */
  lemma OverlayKeepsNames(home: Tree, snap: Tree, n: nat, f: string, g: string)
    requires n <= |ALLOWED|
    requires OverlayIs(home, snap, n, f) && OverlayIs(home, snap, n, g)
    ensures Writes(Overlaid(home, snap, n), f, g) <==> Writes(home, f, g)
  {
  }

  /** What a name is meant to hold: an allowed file of the snapshot, made private, and else what the old home has. */
  predicate AsMeant(home: Tree, snap: Tree, g: string) {
    var r := HomeNode(NewHome(home, snap), g);
    if g in ALLOWED && g in snap then r.Some? && r.value == Copied(home, g, snap[g]) else r == HomeNode(home, g)
  }

  /** A copy to another name has the last word on this one, and leaves something else in it. */
  predicate Spoiled(home: Tree, snap: Tree, g: string) {
    var last := LastCopy(home, snap, g, |ALLOWED|);
    && last.Some? && ALLOWED[last.value] != g
    && (if g in ALLOWED && g in snap then Data(snap[ALLOWED[last.value]]) != Data(snap[g])
        else home[g] != Copied(home, g, snap[ALLOWED[last.value]]))
  }

  lemma MeantUnlessSpoiled(home: Tree, snap: Tree, g: string)
    ensures AsMeant(home, snap, g) <==> !Spoiled(home, snap, g)
  {
    hide NewHome, LastCopy, Overlaid;
    NewHomeIs(home, snap, g);
    if g in ALLOWED && g in snap {
      SomeCopy(home, snap, g, g, |ALLOWED|);
    }
  }

  lemma NewHomeIs(home: Tree, snap: Tree, g: string)
    ensures NewHome(home, snap) == Overlaid(home, snap, |ALLOWED|) && OverlayIs(home, snap, |ALLOWED|, g)
  {
    OverlayIsExact(home, snap, |ALLOWED|, g);
  }

  /** The overlay changes exactly the allowed files of the snapshot, each to what the snapshot has, exactly when no copy
      writes through another name of a file and leaves something else there. */
  lemma OverlayAsMeantIff(home: Tree, snap: Tree)
    ensures (forall g: string :: AsMeant(home, snap, g)) <==> (forall g: string :: !Spoiled(home, snap, g))
  {
    hide AsMeant, Spoiled;
    forall g: string ensures AsMeant(home, snap, g) <==> !Spoiled(home, snap, g) {
      MeantUnlessSpoiled(home, snap, g);
    }
  }

  /** So it does if no file it writes has a second name in the old home. */
  lemma OverlayAsMeantAlone(home: Tree, snap: Tree)
    requires forall f, g :: f in ALLOWED && f in snap && SameFile(home, f, g) ==> f == g
    ensures forall g: string :: AsMeant(home, snap, g)
  {
    hide AsMeant, LastCopy;
    forall g: string ensures AsMeant(home, snap, g) {
      MeantUnlessSpoiled(home, snap, g);
    }
  }

  /** A file of the old home that is another name of an overlaid one takes the snapshot's content. */
  lemma SecondNameSpoiled(home: Tree, snap: Tree, f: string, g: string)
    requires f in ALLOWED && f in snap && g !in ALLOWED && SameFile(home, f, g)
    requires forall x :: x in ALLOWED && x in snap && SameFile(home, x, g) ==> x == f
    requires home[g].data != Data(snap[f])
    ensures !AsMeant(home, snap, g) && HomeNode(NewHome(home, snap), g) == Some(Copied(home, g, snap[f]))
  {
    hide NewHome, Overlaid;
    NewHomeIs(home, snap, g);
    SomeCopy(home, snap, f, g, |ALLOWED|);
  }

  lemma {:induction false} SomeCopy(home: Tree, snap: Tree, f: string, g: string, n: nat)
    requires n <= |ALLOWED| && f in ALLOWED[..n] && f in snap && Writes(home, f, g)
    ensures LastCopy(home, snap, g, n).Some?
  {
    if ALLOWED[n - 1] != f {
      assert f in ALLOWED[..n - 1];
      SomeCopy(home, snap, f, g, n - 1);
    }
  }

  // ---------- What a run comes to ----------

  datatype Disk = Disk(work: Item, home: Item, locked: bool)

  function OldHome(d: Disk): Tree {
    if d.home.Dir? then d.home.tree else map[]
  }

  /** Nothing but an injected failure can stop a run in this situation. */
  ghost predicate Unobstructed(d: Disk, snap: Snapshot) {
    && !d.locked && !d.work.Symlink? && !d.home.Symlink? && !d.home.NonDirectory?
    && !(".ssh" in OldHome(d) && OldHome(d)[".ssh"].Link?)
    && (forall f :: f in snap.home ==> snap.home[f].Regular?)
    && snap.work.Dir? && (forall f :: f in snap.work.tree ==> snap.work.tree[f].Regular?)
    && (forall f :: f in OldHome(d) ==> !OldHome(d)[f].Special?)
    && (forall f :: f in ALLOWED && f in snap.home ==> !Blocked(OldHome(d), f))
  }

  /** The run reaches its commit point. */
  ghost predicate Commits(d: Disk, snap: Snapshot, failing: Option<Command>) {
    && Unobstructed(d, snap)
    && (failing == None || failing.value.Discard? || failing.value.Report?
        || (failing.value.Overlay? && (failing.value.i >= |ALLOWED| || ALLOWED[failing.value.i] !in snap.home)))
  }

  /** The failure comes after /run/work was moved aside. */
  predicate AfterSaving(failing: Option<Command>) {
    failing.Some? && (failing.value.SaveHome? || failing.value.PlaceWork? || failing.value.PlaceHome?)
  }

  /** The disk after a run in which `failing` is the command that fails, if any. */
  ghost function Outcome(d: Disk, snap: Snapshot, failing: Option<Command>): Disk {
    if Commits(d, snap, failing) then Disk(snap.work, Dir(NewHome(OldHome(d), snap.home)), false)
    else if Unobstructed(d, snap) && d.work.NonDirectory? && AfterSaving(failing) then d.(work := Absent)
    else d
  }

  /** Work and home are both as before or both as in the snapshot. */
  ghost predicate Whole(d: Disk, snap: Snapshot, after: Disk) {
    || (after.work == d.work && after.home == d.home)
    || (after.work == snap.work && after.home == Dir(NewHome(OldHome(d), snap.home)))
  }

  /** Restoring is all or nothing for every failing command exactly when /run/work is absent or a directory,
      or the run cannot get as far as moving it. */
  lemma AtomicIffDirectory(d: Disk, snap: Snapshot)
    ensures (forall failing :: Whole(d, snap, Outcome(d, snap, failing))) <==>
            !Unobstructed(d, snap) || d.work.Absent? || d.work.Dir?
  {
    if Unobstructed(d, snap) && d.work.NonDirectory? {
      assert !Whole(d, snap, Outcome(d, snap, Some(PlaceWork)));
    }
  }

  /** Every overlaid file ends up private; its data are the snapshot's if no other overlaid name shares its file. */
  lemma OverlaidIsPrivate(home: Tree, snap: Tree, f: string)
    requires f in ALLOWED && f in snap && snap[f].Regular?
    ensures f in NewHome(home, snap)
    ensures NewHome(home, snap)[f].Regular? && NewHome(home, snap)[f].private
    ensures (forall g :: g in ALLOWED && g in snap && SameFile(home, g, f) ==> g == f) ==>
      NewHome(home, snap)[f].data == snap[f].data
  {
    hide NewHome, Overlaid;
    NewHomeIs(home, snap, f);
    SomeCopy(home, snap, f, f, |ALLOWED|);
  }

  /** A file that is not in the overlay, and is no other name of a file in it, is kept. */
  lemma OthersAreKept(home: Tree, snap: Tree, g: string)
    requires forall f :: f in ALLOWED && f in snap ==> f != g && !SameFile(home, f, g)
    ensures g in NewHome(home, snap) <==> g in home
    ensures g in home ==> NewHome(home, snap)[g] == home[g]
  {
    hide NewHome, Overlaid;
    NewHomeIs(home, snap, g);
    assert LastCopy(home, snap, g, |ALLOWED|).None?;
  }

  /** The device in a state from which it can be restored: no link in the place of work or home and no special file in the
      home, whose allowed files are regular files with one name each. What is at /run/work does not matter otherwise. */
  predicate Ordinary(d: Disk) {
    && !d.locked && !d.work.Symlink? && (d.home.Absent? || d.home.Dir?)
    && ".ssh" !in OldHome(d) && (forall f :: f in OldHome(d) ==> !OldHome(d)[f].Special?)
    && forall f :: f in OldHome(d) && f in ALLOWED ==> OldHome(d)[f].Regular? && OldHome(d)[f].share.Own?
  }

  /** A snapshot with a work directory and regular files only. */
  predicate Sane(snap: Snapshot) {
    && snap.work.Dir? && (forall f :: f in snap.work.tree ==> snap.work.tree[f].Regular?)
    && forall f :: f in snap.home ==> snap.home[f].Regular?
  }

  /** A restore in which no command fails puts the snapshot's work directory in place, and a home that has the snapshot's
      version, private, of every file named in the list, and otherwise the files it had. */
  lemma OrdinaryRestore(d: Disk, snap: Snapshot)
    requires Ordinary(d) && Sane(snap)
    ensures Commits(d, snap, None)
    ensures var after := Outcome(d, snap, None);
      && after.work == snap.work && !after.locked && after.home.Dir?
      && forall f :: HomeNode(after.home.tree, f) ==
           if f in ALLOWED && f in snap.home then Some(Regular(snap.home[f].data, true, Own)) else HomeNode(OldHome(d), f)
  {
    hide NewHome, Overlaid;
    var home := OldHome(d);
    forall f ensures HomeNode(NewHome(home, snap.home), f) ==
      if f in ALLOWED && f in snap.home then Some(Regular(snap.home[f].data, true, Own)) else HomeNode(home, f)
    {
      NewHomeIs(home, snap.home, f);
      if f in ALLOWED && f in snap.home {
        SomeCopy(home, snap.home, f, f, |ALLOWED|);
      }
    }
  }

  // ---------- The script ----------

  class Device {
    var work: Item
    var home: Item
    var locked: bool
    // Below the transaction directory:
    var stageWork: Item
    var stageHome: Tree
    var nextWork: Item
    var nextHome: Item
    var oldWork: Item
    var oldHome: Item

    const failing: Option<Command>

    ghost function State(): Disk
      reads this`work, this`home, this`locked
    {
      Disk(work, home, locked)
    }

    constructor (d: Disk, failing: Option<Command>)
      ensures State() == d && this.failing == failing
    {
      work, home, locked := d.work, d.home, d.locked;
      stageWork, stageHome, nextWork, nextHome := Absent, map[], Absent, Absent;
      oldWork, oldHome := Absent, Absent;
      this.failing := failing;
    }

    predicate Fails(c: Command) {
      failing == Some(c)
    }

    /** The trap. Its own commands succeed; a directory is moved back only to a place that is free. */
    method Rollback(committed: bool, workNew: bool, homeNew: bool)
      requires !committed && oldWork.Dir? ==> workNew || work.Absent?
      requires !committed && oldHome.Dir? ==> homeNew || home.Absent?
      modifies this
      ensures !locked
      ensures work == if committed then old(work) else Recovered(old(work), old(oldWork), workNew)
      ensures home == if committed then old(home) else Recovered(old(home), old(oldHome), homeNew)
    {
      if !committed {
        if workNew {
          work := Absent;
        }
        if homeNew {
          home := Absent;
        }
        if oldWork.Dir? {
          assert work.Absent?;
          work, oldWork := oldWork, Absent;
        }
        if oldHome.Dir? {
          assert home.Absent?;
          home, oldHome := oldHome, Absent;
        }
      }
      stageWork, stageHome, nextWork, nextHome := Absent, map[], Absent, Absent;
      oldWork, oldHome := Absent, Absent;
      locked := false;
    }

    /** Copy the allowed files of the stage over the copied home, one by one. */
    method OverlayFiles() returns (ok: bool)
      requires nextHome.Dir?
      modifies this`nextHome
      ensures nextHome.Dir?
      ensures ok <==> (forall i :: 0 <= i < |ALLOWED| && ALLOWED[i] in stageHome ==>
                         !Fails(Overlay(i)) && !Blocked(old(nextHome).tree, ALLOWED[i]))
      ensures ok ==> nextHome == Dir(NewHome(old(nextHome).tree, stageHome))
    {
      ghost var start := nextHome.tree;
      for i := 0 to |ALLOWED|
        invariant nextHome == Dir(Overlaid(start, stageHome, i))
        invariant forall j :: 0 <= j < i && ALLOWED[j] in stageHome ==>
                    !Fails(Overlay(j)) && !Blocked(start, ALLOWED[j])
      {
        var f := ALLOWED[i];
        if f in stageHome {
          OverlayKeepsBlocked(start, stageHome, i);
          if Fails(Overlay(i)) || Blocked(nextHome.tree, f) {
            return false;
          }
          nextHome := Dir(CopyOver(nextHome.tree, f, stageHome[f]));
        }
      }
      return true;
    }

    /** Receive, unpack and screen the archive, and take its work directory. */
    method Stage(snap: Snapshot) returns (ok: bool)
      modifies this`stageWork, this`stageHome, this`nextWork
      ensures ok <==> (snap.work.Dir? && Plain(snap.home) && Plain(snap.work.tree)
                       && !Fails(Capacity) && !Fails(Receive) && !Fails(Unpack) && !Fails(Screen) && !Fails(TakeWork))
      ensures ok ==> nextWork == snap.work && stageHome == snap.home
    {
      hide Plain;
      if Fails(Capacity) || Fails(Receive) || Fails(Unpack) {
        return false;
      }
      stageWork, stageHome := snap.work, snap.home;
      if Fails(Screen) || !Plain(stageHome) || (stageWork.Dir? && !Plain(stageWork.tree)) || stageWork.Symlink? {
        return false;
      }
      if Fails(TakeWork) || !stageWork.Dir? {
        return false;
      }
      nextWork, stageWork := stageWork, Absent;
      return true;
    }

    /** Everything done below the transaction directory; the live directories are only read. */
    method Prepare(snap: Snapshot) returns (ok: bool)
      modifies this`stageWork, this`stageHome, this`nextWork, this`nextHome
      ensures ok <==> Prepared(State(), snap, failing)
      ensures ok ==> nextWork == snap.work && nextHome == Dir(NewHome(OldHome(State()), snap.home))
    {
      hide NewHome, Blocked, Plain;
      ok := Stage(snap);
      if !ok {
        return;
      }
      if Fails(CopyHome) || home.NonDirectory? {
        return false;
      }
      nextHome := Dir(if home.Dir? then home.tree else map[]);
      assert nextHome.tree == OldHome(State());
      if Fails(ScreenHome) || exists f :: f in nextHome.tree && nextHome.tree[f].Special? {
        return false;
      }
      ok := OverlayFiles();
      if !ok {
        ghost var i :| 0 <= i < |ALLOWED| && ALLOWED[i] in stageHome
          && (Fails(Overlay(i)) || Blocked(OldHome(State()), ALLOWED[i]));
        assert ALLOWED[i] in ALLOWED;
      }
      ok := ok && !Fails(Permissions);
    }

    /** The whole script: the final disk is Outcome's, and success is reported only for a committed run. */
    method Restore(snap: Snapshot) returns (ok: bool)
      requires oldWork.Absent? && oldHome.Absent?
      modifies this
      ensures State() == Outcome(old(State()), snap, failing)
      ensures ok <==> Commits(old(State()), snap, failing) && !Fails(Discard) && !Fails(Report)
    {
      if Fails(Guard) || work.Symlink? || home.Symlink? || (home.Dir? && ".ssh" in home.tree && home.tree[".ssh"].Link?) {
        return false;
      }
      if Fails(Lock) || locked {
        return false;
      }
      ghost var d := State();
      locked := true;
      ok := Transaction(snap);
      OutcomeIs(d, snap, failing);
    }

    /** The run from the lock to the end of the trap. */
    method Transaction(snap: Snapshot) returns (ok: bool)
      requires oldWork.Absent? && oldHome.Absent? && !home.Symlink?
      modifies this
      ensures State() == Reached(old(State()), snap, failing)
      ensures ok <==> (Prepared(old(State()), snap, failing) && failing != Some(SaveWork) && !AfterSaving(failing)
                       && !Fails(Discard) && !Fails(Report))
    {
      hide Unobstructed, PreparationFails, NewHome, AfterSaving, Plain, Blocked;
      ok := Prepare(snap);
      var committed, workNew, homeNew := false, false, false;
      if ok {
        committed, workNew, homeNew := Swap();
      }
      Rollback(committed, workNew, homeNew);
      ok := committed && !Fails(Discard) && !Fails(Report);
    }

    /** Move the live directories aside and the prepared ones in. */
    method Swap() returns (committed: bool, workNew: bool, homeNew: bool)
      requires oldWork.Absent? && oldHome.Absent?
      modifies this`work, this`home, this`nextWork, this`nextHome, this`oldWork, this`oldHome
      ensures committed <==> !Fails(SaveWork) && !AfterSaving(failing)
      ensures committed ==> work == old(nextWork) && home == old(nextHome)
      ensures !committed && oldWork.Dir? ==> workNew || work.Absent?
      ensures !committed && oldHome.Dir? ==> homeNew || home.Absent?
      ensures !committed ==> Recovered(home, oldHome, homeNew) == old(home) || old(home).NonDirectory? || old(home).Symlink?
      ensures !committed ==>
        (Recovered(work, oldWork, workNew) == if AfterSaving(failing) && !old(work).Dir? then Absent else old(work))
    {
      committed, workNew, homeNew := false, false, false;
      if Fails(SaveWork) {
        return;
      }
      if !work.Absent? {
        work, oldWork := Absent, work;
      }
      if Fails(SaveHome) {
        return;
      }
      if !home.Absent? {
        home, oldHome := Absent, home;
      }
      if Fails(PlaceWork) {
        return;
      }
      assert work.Absent?;
      work, nextWork, workNew := nextWork, Absent, true;
      if Fails(PlaceHome) {
        return;
      }
      assert home.Absent?;
      home, nextHome, homeNew := nextHome, Absent, true;
      committed := true;
    }
  }

  /** What the trap makes of a live path: the saved directory if there is one, else what was there unless new. */
  function Recovered(live: Item, saved: Item, placed: bool): Item {
    if saved.Dir? then saved else if placed then Absent else live
  }

  predicate Plain(t: Tree) {
    forall f :: f in t ==> t[f].Regular?
  }

  /** The preparation succeeds. */
  ghost predicate Prepared(d: Disk, snap: Snapshot, failing: Option<Command>) {
    && !d.home.NonDirectory? && Plain(snap.home) && snap.work.Dir? && Plain(snap.work.tree)
    && (forall f :: f in OldHome(d) ==> !OldHome(d)[f].Special?)
    && (forall f :: f in ALLOWED && f in snap.home ==> !Blocked(OldHome(d), f))
    && !PreparationFails(snap, failing)
  }

  predicate PreparationFails(snap: Snapshot, failing: Option<Command>) {
    failing.Some? &&
    match failing.value
    case Capacity | Receive | Unpack | Screen | TakeWork | CopyHome | ScreenHome | Permissions => true
    case Overlay(i) => i < |ALLOWED| && ALLOWED[i] in snap.home
    case _ => false
  }

  /** What a run that has the lock leaves. */
  ghost function Reached(d: Disk, snap: Snapshot, failing: Option<Command>): Disk {
    if !Prepared(d, snap, failing) then d.(locked := false)
    else if failing != Some(SaveWork) && !AfterSaving(failing) then Disk(snap.work, Dir(NewHome(OldHome(d), snap.home)), false)
    else if AfterSaving(failing) && !d.work.Dir? then Disk(Absent, d.home, false)
    else d.(locked := false)
  }

  lemma OutcomeIs(d: Disk, snap: Snapshot, failing: Option<Command>)
    requires !d.locked && !d.work.Symlink? && !d.home.Symlink?
    requires !(".ssh" in OldHome(d) && OldHome(d)[".ssh"].Link?)
    requires failing != Some(Guard) && failing != Some(Lock)
    ensures Reached(d.(locked := true), snap, failing) == Outcome(d, snap, failing)
    ensures Commits(d, snap, failing) <==>
      Prepared(d.(locked := true), snap, failing) && failing != Some(SaveWork) && !AfterSaving(failing)
  {
    hide Unobstructed, Prepared, NewHome, Plain;
    PreparedMeans(d, snap, failing);
    PreparedUnlocked(d.(locked := true), d, snap, failing);
  }

  /** Holding the lock changes nothing about the preparation. */
  lemma PreparedUnlocked(a: Disk, b: Disk, snap: Snapshot, failing: Option<Command>)
    requires a.work == b.work && a.home == b.home
    ensures Prepared(a, snap, failing) == Prepared(b, snap, failing)
  {
    assert OldHome(a) == OldHome(b);
  }

  lemma PreparedMeans(d: Disk, snap: Snapshot, failing: Option<Command>)
    ensures Unobstructed(d, snap) && !PreparationFails(snap, failing) <==>
      Prepared(d, snap, failing) && !d.locked && !d.work.Symlink? && !d.home.Symlink?
      && !(".ssh" in OldHome(d) && OldHome(d)[".ssh"].Link?)
  {
  }

  /** Copying earlier files does not block or unblock a later one. */
  lemma {:induction false} OverlayKeepsBlocked(home: Tree, snap: Tree, n: nat)
    requires n < |ALLOWED|
    ensures Blocked(Overlaid(home, snap, n), ALLOWED[n]) <==> Blocked(home, ALLOWED[n])
  {
    hide Overlaid;
    OverlayIsExact(home, snap, n, ALLOWED[n]);
    OverlayIsExact(home, snap, n, ".ssh");
    AllowedDiffer(n);
  }

  lemma AllowedDiffer(n: nat)
    requires n < |ALLOWED|
    ensures ALLOWED[n] !in ALLOWED[..n] && ".ssh" !in ALLOWED[..n]
  {
  }
}
