/** The tool-layer install transaction the device runs, with its cleanup trap
    (Install-A1625DevelopmentTools.ps1, lines 106-208). */
module ToolInstall {
  import opened Errno

  // ---------- Names ----------

  /** The wrappers the transaction may touch. */
  datatype Tool =
    | A1625Tool | A1625Git | Git | Ssh | SshKeygen | Scp | Sftp | Cc | Gcc | CPlusPlus | GPlusPlus | Cpp
    | Make | Pkgconf | PkgConfig | Ar | As | Ld | Nm | Ranlib | Strip | Objcopy | Objdump | Size
    | Strings | FileTool | Patch

  function Wrappers(): (w: seq<Tool>)
    ensures |w| == 27
  {
    [A1625Tool, A1625Git, Git, Ssh, SshKeygen, Scp, Sftp, Cc, Gcc, CPlusPlus, GPlusPlus, Cpp,
     Make, Pkgconf, PkgConfig, Ar, As, Ld, Nm, Ranlib, Strip, Objcopy, Objdump, Size,
     Strings, FileTool, Patch]
  }

  /** The wrappers that are links to the launcher where the layer has the program. */
  function LinkNames(): (w: seq<Tool>)
    ensures |w| == 24
  {
    Wrappers()[3..]
  }

  /** No wrapper is named twice. */
  predicate Distinct(tools: seq<Tool>) {
    forall i, j :: 0 <= i < j < |tools| ==> tools[i] != tools[j]
  }

  ghost predicate Complete(tools: seq<Tool>) {
    forall t: Tool :: t in tools
  }

  function Ordinal(t: Tool): nat {
    match t
    case A1625Tool => 0 case A1625Git => 1 case Git => 2 case Ssh => 3 case SshKeygen => 4 case Scp => 5
    case Sftp => 6 case Cc => 7 case Gcc => 8 case CPlusPlus => 9 case GPlusPlus => 10 case Cpp => 11
    case Make => 12 case Pkgconf => 13 case PkgConfig => 14 case Ar => 15 case As => 16 case Ld => 17
    case Nm => 18 case Ranlib => 19 case Strip => 20 case Objcopy => 21 case Objdump => 22 case Size => 23
    case Strings => 24 case FileTool => 25 case Patch => 26
  }

  lemma WrapperAt(i: nat)
    requires i < 27
    ensures Ordinal(Wrappers()[i]) == i
  {
  }

  lemma WrapperFor(t: Tool)
    ensures Ordinal(t) < 27 && Wrappers()[Ordinal(t)] == t
  {
  }

  /** The list of wrapper names has every wrapper exactly once. */
  lemma WrappersAreAll()
    ensures Distinct(Wrappers()) && Complete(Wrappers()) && Distinct(LinkNames())
    ensures A1625Tool !in LinkNames() && A1625Git !in LinkNames() && Git !in LinkNames()
  {
    hide Wrappers;
    forall t: Tool ensures t in Wrappers() {
      WrapperFor(t);
    }
    forall i, j | 0 <= i < j < 27 ensures Wrappers()[i] != Wrappers()[j] {
      WrapperAt(i);
      WrapperAt(j);
    }
    forall i | 0 <= i < 24 ensures Ordinal(LinkNames()[i]) == i + 3 {
      WrapperAt(i + 3);
    }
  }

  // ---------- What is on the device ----------

  /** A wrapper in /opt/bin, the layer marker, or any other path, inside /opt/bin or elsewhere. */
  datatype Place = Wrapper(tool: Tool) | Marker | Other(path: string)

  /** The names of one file: a file with one name is its own, files with several names are numbered. */
  datatype Share = Own | Shared(n: nat)

  /** What a path holds. A relative link reads differently from the absolute path of its target; `Special` is a FIFO,
      a socket or a device node; `Nowhere` says that the directory the path lies in does not exist. */
  datatype Entry = Program(data: string, share: Share) | Link(to: Place, relative: bool) | Special | Directory | Nowhere

  type Files = map<Place, Entry>

  datatype Root = NoRoot | RootDir(layer: string) | RootFile

  datatype Disk = Disk(root: Root, previous: Root, files: Files, locked: bool)

  /** A bundle: what it unpacks to and whether every check on it passes. */
  datatype Layer = Layer(name: string, programs: set<Tool>, launcher: string, marker: string, sound: bool)

  const GIT_SCRIPT: string := "a1625-git"

  /** What the launcher's wrappers are. */
  const TO_LAUNCHER: Entry := Link(Wrapper(A1625Tool), false)
  const TO_GIT: Entry := Link(Wrapper(A1625Git), false)

  /** The commands that can fail, in order. Redirecting output opens and empties the file first and fills it
      then; a fill that fails may have written the first `n` characters. */
  datatype Command =
    | Guard | Lock | Space | Backup(i: nat) | BackupMarker | Unpack | SaveRoot | PlaceRoot | DropPackages
    | PlaceLauncher | Relink(i: nat) | OpenGit | FillGit(n: nat) | LinkGit | RunGit | Zram | OpenMarker
    | FillMarker(n: nat) | Discard

  function Lookup(f: Files, p: Place): Option<Entry> {
    if p in f then Some(f[p]) else None
  }

  /** The two agree on this path. */
  predicate Same(a: Files, b: Files, p: Place) {
    Lookup(a, p) == Lookup(b, p)
  }

  /** An entry as it reads, without the other names of its file. */
  function Alone(e: Option<Entry>): Option<Entry> {
    if e.Some? && e.value.Program? then Some(Program(e.value.data, Own)) else e
  }

  /** The two read the same at this path. */
  predicate Alike(a: Files, b: Files, p: Place) {
    Alone(Lookup(a, p)) == Alone(Lookup(b, p))
  }

  function Content(f: Files, p: Place): Option<string> {
    if p in f && f[p].Program? then Some(f[p].data) else None
  }

  /** Two names of one file. */
  predicate SameFile(f: Files, p: Place, q: Place) {
    p in f && q in f && f[p].Program? && f[q].Program? && f[p].share == f[q].share && f[p].share.Shared?
  }

  lemma SameEverywhere(a: Files, b: Files)
    requires forall p: Place :: Same(a, b, p)
    ensures a == b
  {
    assert forall p :: p in a ==> Same(a, b, p);
    assert forall p :: p in b ==> Same(a, b, p);
  }

  /** The kernel follows 40 links and no more. */
  const MAX_LINKS: nat := 40

  /** Where a path leads after at most `n` links. */
  function Resolve(f: Files, p: Place, n: nat): Option<Place>
    decreases n
  {
    if Lookup(f, p).Some? && f[p].Link? then (if n == 0 then None else Resolve(f, f[p].to, n - 1)) else Some(p)
  }

  lemma {:induction false} ResolvesToNoLink(f: Files, p: Place, n: nat)
    ensures var r := Resolve(f, p, n); r.Some? && Lookup(f, r.value).Some? ==> !f[r.value].Link?
    decreases n
  {
    if Lookup(f, p).Some? && f[p].Link? && n > 0 {
      ResolvesToNoLink(f, f[p].to, n - 1);
    }
  }

  function Follow(f: Files, p: Place): Option<Place> {
    Resolve(f, p, MAX_LINKS)
  }

  /** Output can be redirected to where a path leads. */
  predicate CanWrite(f: Files, target: Option<Place>) {
    target.Some? && Lookup(f, target.value) != Some(Directory) && Lookup(f, target.value) != Some(Nowhere)
  }

  /** Writing to p changes what q holds: it is the same path, unless a special file, or another name of the same file. */
  predicate Touches(f: Files, p: Place, q: Place) {
    if q == p then Lookup(f, p) != Some(Special) else SameFile(f, p, q)
  }

  /** After writing there: all names of the file have the data; a special file takes it and stays what it is. */
  function Put(f: Files, p: Place, data: string): Files {
    if Lookup(f, p) == Some(Special) then f
    else if p in f && f[p].Program? then
      map q | q in f :: if q == p || SameFile(f, p, q) then Program(data, f[q].share) else f[q]
    else f[p := Program(data, Own)]
  }

  /** As much of a text as was written. */
  function Prefix(text: string, n: nat): string {
    if n < |text| then text[..n] else text
  }

  // ---------- What a run comes to ----------

  /** After the loop over the first `n` linked wrappers, stopped where it fails. */
  function LoopAt(f: Files, programs: set<Tool>, tools: seq<Tool>, n: nat, failing: Option<Command>): (Files, bool)
    requires n <= |tools|
  {
    if n == 0 then (f, true)
    else
      var (before, ok) := LoopAt(f, programs, tools, n - 1, failing);
      var t := tools[n - 1];
      var failed := failing == Some(Relink(n - 1));
      if !ok then (before, false)
      else if t in programs then (if failed then (before, false) else (before[Wrapper(t) := TO_LAUNCHER], true))
      else if Lookup(before, Wrapper(t)) == Some(TO_LAUNCHER) then (if failed then (before, false) else (before - {Wrapper(t)}, true))
      else (before, true)
  }

  function AfterLoop(f: Files, layer: Layer, failing: Option<Command>): (Files, bool) {
    if failing == Some(PlaceLauncher) then (f, false)
    else LoopAt(f[Wrapper(A1625Tool) := Program(layer.launcher, Own)], layer.programs, LinkNames(), |LinkNames()|, failing)
  }

  /** a1625-git leads to the script just written. */
  predicate Runs(f: Files) {
    var p := Follow(f, Wrapper(A1625Git));
    p.Some? && Content(f, p.value) == Some(GIT_SCRIPT)
  }

  /** Writing the git script through whatever a1625-git is, linking git to it, and trying it. */
  function AfterGit(f: Files, failing: Option<Command>): (Files, bool) {
    var target := Follow(f, Wrapper(A1625Git));
    if failing == Some(OpenGit) || !CanWrite(f, target) then (f, false)
    else if failing.Some? && failing.value.FillGit? then (Put(f, target.value, Prefix(GIT_SCRIPT, failing.value.n)), false)
    else
      var written := Put(f, target.value, GIT_SCRIPT);
      if failing == Some(LinkGit) then (written, false)
      else
        var linked := written[Wrapper(Git) := TO_GIT];
        (linked, failing != Some(RunGit) && Runs(linked) && failing != Some(Zram))
  }

  /** The marker is one line of JSON. */
  function MarkerText(layer: Layer): (s: string)
    ensures s != ""
  {
    layer.marker + "\n"
  }

  function AfterMarker(f: Files, layer: Layer, failing: Option<Command>): (Files, bool) {
    var target := Follow(f, Marker);
    if failing == Some(OpenMarker) || !CanWrite(f, target) then (f, false)
    else if failing.Some? && failing.value.FillMarker? then
      (Put(f, target.value, Prefix(MarkerText(layer), failing.value.n)), false)
    else (Put(f, target.value, MarkerText(layer)), true)
  }

  /** The files after everything that follows the swap of the tool root, and whether all of it succeeded. */
  function Changed(f: Files, layer: Layer, failing: Option<Command>): (Files, bool) {
    var (looped, first) := AfterLoop(f, layer, failing);
    if !first then (looped, false)
    else
      var (linked, second) := AfterGit(looped, failing);
      if !second then (linked, false) else AfterMarker(linked, layer, failing)
  }

  /** The file data the marker leads to, if any: what is copied aside. */
  function Manifest(f: Files): Option<string> {
    var p := Follow(f, Marker);
    if p.Some? then Content(f, p.value) else None
  }

  predicate IsDirectory(f: Files, p: Place) {
    var r := Follow(f, p);
    r.Some? && Lookup(f, r.value) == Some(Directory)
  }

  ghost predicate NoDirectories(f: Files) {
    forall t: Tool :: !IsDirectory(f, Wrapper(t))
  }

  /** Nothing that is on the device stops a run before the tool root is swapped. */
  ghost predicate Unobstructed(d: Disk, layer: Layer) {
    !d.locked && d.previous.NoRoot? && !d.root.RootFile? && layer.sound && NoDirectories(d.files)
  }

  /** The failing command is one that is run before the wrappers change. */
  predicate StopsEarly(d: Disk, failing: Option<Command>) {
    match failing
    case Some(Guard) | Some(Lock) | Some(Space) | Some(Unpack) | Some(PlaceRoot) | Some(DropPackages) => true
    case Some(Backup(i)) => i < |Wrappers()| && Wrapper(Wrappers()[i]) in d.files
    case Some(BackupMarker) => Manifest(d.files).Some?
    case Some(SaveRoot) => d.root.RootDir?
    case _ => false
  }

  ghost predicate Commits(d: Disk, layer: Layer, failing: Option<Command>) {
    Unobstructed(d, layer) && !StopsEarly(d, failing) && Changed(d.files, layer, failing).1
  }

  /** What the trap leaves at a path: every wrapper as it was, as a file of its own; the marker removed and its copy in its place, unless it is
      a directory; any other path as the run left it. */
  function BackAt(f: Files, before: Files, p: Place): Option<Entry> {
    match p
    case Wrapper(_) => Alone(Lookup(before, p))
    case Marker =>
      if Lookup(f, p) == Some(Directory) then Some(Directory)
      else if Manifest(before).Some? then Some(Program(Manifest(before).value, Own))
      else None
    case Other(_) => Lookup(f, p)
  }

  function Back(f: Files, before: Files): Files {
    map p | p in f.Keys + before.Keys + {Marker} && BackAt(f, before, p).Some? :: BackAt(f, before, p).value
  }

  lemma BackIs(f: Files, before: Files, p: Place)
    ensures Lookup(Back(f, before), p) == BackAt(f, before, p)
  {
  }

  /** The disk after a run in which `failing` is the command that fails, if any. A marker that is a directory cannot be
      removed by the trap, which then ends without releasing the lock. */
  ghost function Outcome(d: Disk, layer: Layer, failing: Option<Command>): Disk {
    if !Unobstructed(d, layer) || StopsEarly(d, failing) then d
    else
      var (f, ok) := Changed(d.files, layer, failing);
      if ok then Disk(RootDir(layer.name), if failing == Some(Discard) then d.root else NoRoot, f, false)
      else Disk(d.root, d.previous, Back(f, d.files), Lookup(f, Marker) == Some(Directory))
  }

  // ---------- Where writes go ----------

  /** Writing there creates or changes a file that has a name besides the wrappers and the marker. */
  ghost predicate Hits(f: Files, target: Option<Place>) {
    CanWrite(f, target) && exists path: string :: Touches(f, target.value, Other(path))
  }

  /** The git script is written to such a file. */
  ghost predicate GitEscapes(f: Files, layer: Layer) {
    var looped := AfterLoop(f, layer, None).0;
    Hits(looped, Follow(looped, Wrapper(A1625Git)))
  }

  /** So is the marker, in a run that gets to writing it. */
  ghost predicate MarkerEscapes(f: Files, layer: Layer) {
    var (linked, ok) := AfterGit(AfterLoop(f, layer, None).0, None);
    ok && Hits(linked, Follow(linked, Marker))
  }

  /** The marker is absent or a regular file. */
  predicate PlainMarker(f: Files) {
    Lookup(f, Marker) == None || f[Marker].Program?
  }

  predicate IsLink(f: Files, p: Place) {
    p in f && f[p].Link?
  }

  /** The loop touches the linked wrappers only. */
  lemma {:induction false} LoopKeeps(f: Files, programs: set<Tool>, tools: seq<Tool>, n: nat, failing: Option<Command>, p: Place)
    requires n <= |tools| && (p.Wrapper? ==> p.tool !in tools[..n])
    ensures Same(LoopAt(f, programs, tools, n, failing).0, f, p)
  {
    if n > 0 {
      assert tools[..n] == tools[..n - 1] + [tools[n - 1]];
      LoopKeeps(f, programs, tools, n - 1, failing, p);
    }
  }

  /** A loop that ends is the loop without a failure. */
  lemma {:induction false} LoopEnds(f: Files, programs: set<Tool>, tools: seq<Tool>, n: nat, failing: Option<Command>)
    requires n <= |tools|
    ensures LoopAt(f, programs, tools, n, None).1
    ensures LoopAt(f, programs, tools, n, failing).1 ==> LoopAt(f, programs, tools, n, failing) == LoopAt(f, programs, tools, n, None)
  {
    if n > 0 {
      LoopEnds(f, programs, tools, n - 1, failing);
    }
  }

  /** After the loop a linked wrapper leads to the launcher if the layer has its program, is gone if it led there and the
      layer has not, and is as before otherwise. */
  function LinkFor(f: Files, programs: set<Tool>, t: Tool): Option<Entry> {
    if t in programs then Some(TO_LAUNCHER)
    else if Lookup(f, Wrapper(t)) == Some(TO_LAUNCHER) then None
    else Lookup(f, Wrapper(t))
  }

  lemma {:induction false} LinksFollowPrograms(f: Files, programs: set<Tool>, tools: seq<Tool>, n: nat, i: nat)
    requires i < n <= |tools| && Distinct(tools)
    ensures Lookup(LoopAt(f, programs, tools, n, None).0, Wrapper(tools[i])) == LinkFor(f, programs, tools[i])
  {
    LoopEnds(f, programs, tools, n - 1, None);
    if i < n - 1 {
      LinksFollowPrograms(f, programs, tools, n - 1, i);
    } else {
      assert tools[i] !in tools[..i];
      LoopKeeps(f, programs, tools, i, None, Wrapper(tools[i]));
    }
  }

  /** Before the git script is written nothing but linked wrappers and the launcher has changed. */
  lemma LoopedKeeps(f: Files, layer: Layer, failing: Option<Command>, p: Place)
    requires p == Wrapper(A1625Git) || p == Wrapper(Git) || !p.Wrapper?
    ensures Same(AfterLoop(f, layer, failing).0, f, p)
    ensures AfterLoop(f, layer, failing).1 ==> AfterLoop(f, layer, failing) == AfterLoop(f, layer, None)
  {
    hide LinkNames, LoopAt, Distinct, Complete;
    WrappersAreAll();
    var start := f[Wrapper(A1625Tool) := Program(layer.launcher, Own)];
    assert LinkNames()[..|LinkNames()|] == LinkNames();
    LoopKeeps(start, layer.programs, LinkNames(), |LinkNames()|, failing, p);
    LoopEnds(start, layer.programs, LinkNames(), |LinkNames()|, failing);
  }

  /** What a path holds after a write. */
  lemma PutAt(f: Files, p: Place, data: string, q: Place)
    requires !IsLink(f, p)
    ensures Lookup(Put(f, p, data), q) ==
      if !Touches(f, p, q) then Lookup(f, q)
      else Some(Program(data, if q in f && f[q].Program? then f[q].share else Own))
  {
  }

  /** Writes change only the file they lead to, and never make or remove a directory. */
  lemma PutKeeps(f: Files, target: Option<Place>, data: string, p: Place)
    requires CanWrite(f, target) && !IsLink(f, target.value)
    ensures !Touches(f, target.value, p) ==> Same(Put(f, target.value, data), f, p)
    ensures p.Other? && !Hits(f, target) ==> Same(Put(f, target.value, data), f, p)
    ensures Lookup(Put(f, target.value, data), p) == Some(Directory) <==> Lookup(f, p) == Some(Directory)
  {
    hide Put;
    PutAt(f, target.value, data, p);
    if p.Other? && Touches(f, target.value, p) {
      assert Touches(f, target.value, Other(p.path));
    }
  }

  lemma GitKeeps(f: Files, failing: Option<Command>, p: Place)
    requires !p.Wrapper?
    ensures p.Other? && !Hits(f, Follow(f, Wrapper(A1625Git))) ==> Same(AfterGit(f, failing).0, f, p)
    ensures Lookup(AfterGit(f, failing).0, p) == Some(Directory) <==> Lookup(f, p) == Some(Directory)
    ensures AfterGit(f, failing).1 ==> AfterGit(f, failing) == AfterGit(f, None)
  {
    hide Follow, Put, Runs, Hits, Prefix, Touches;
    var target := Follow(f, Wrapper(A1625Git));
    if CanWrite(f, target) {
      ResolvedPlain(f, Wrapper(A1625Git));
      if failing.Some? && failing.value.FillGit? {
        PutKeeps(f, target, Prefix(GIT_SCRIPT, failing.value.n), p);
      }
      PutKeeps(f, target, GIT_SCRIPT, p);
    }
  }

  lemma ResolvedPlain(f: Files, p: Place)
    ensures Follow(f, p).Some? ==> !IsLink(f, Follow(f, p).value)
  {
    ResolvesToNoLink(f, p, MAX_LINKS);
  }

  lemma MarkerKeeps(f: Files, layer: Layer, failing: Option<Command>, p: Place)
    requires !p.Wrapper?
    ensures p.Other? && !Hits(f, Follow(f, Marker)) ==> Same(AfterMarker(f, layer, failing).0, f, p)
    ensures Lookup(AfterMarker(f, layer, failing).0, p) == Some(Directory) <==> Lookup(f, p) == Some(Directory)
  {
    hide Follow, Put, Hits, MarkerText, Prefix, Touches;
    var target := Follow(f, Marker);
    if CanWrite(f, target) {
      ResolvedPlain(f, Marker);
      if failing.Some? && failing.value.FillMarker? {
        PutKeeps(f, target, Prefix(MarkerText(layer), failing.value.n), p);
      }
      PutKeeps(f, target, MarkerText(layer), p);
    }
  }

  /** Other paths are as before if neither write escapes; a directory stays a directory. */
  lemma ChangedKeeps(f: Files, layer: Layer, failing: Option<Command>, p: Place)
    requires !p.Wrapper?
    ensures p.Other? && !GitEscapes(f, layer) && !MarkerEscapes(f, layer) ==> Same(Changed(f, layer, failing).0, f, p)
    ensures Lookup(Changed(f, layer, failing).0, p) == Some(Directory) <==> Lookup(f, p) == Some(Directory)
  {
    hide AfterLoop, AfterGit, AfterMarker, Hits, Follow;
    LoopedKeeps(f, layer, failing, p);
    var (looped, first) := AfterLoop(f, layer, failing);
    if first {
      GitKeeps(looped, failing, p);
      var (linked, second) := AfterGit(looped, failing);
      MarkerKeeps(linked, layer, failing, p);
    }
  }

  // ---------- Rollback ----------

  /** A path that is no link leads to itself. */
  lemma NoLinkStays(f: Files, p: Place)
    requires !IsLink(f, p)
    ensures Follow(f, p) == Some(p)
  {
  }

  /** A plain marker stays one until it is written. */
  lemma PlainMarkerStays(f: Files, layer: Layer)
    requires PlainMarker(f)
    ensures PlainMarker(AfterGit(AfterLoop(f, layer, None).0, None).0)
    ensures Follow(AfterGit(AfterLoop(f, layer, None).0, None).0, Marker) == Some(Marker)
  {
    hide AfterLoop, Follow, Runs, Put, Touches;
    LoopedKeeps(f, layer, None, Marker);
    var looped := AfterLoop(f, layer, None).0;
    ResolvedPlain(looped, Wrapper(A1625Git));
    var target := Follow(looped, Wrapper(A1625Git));
    if target.Some? {
      PutAt(looped, target.value, GIT_SCRIPT, Marker);
    }
    NoLinkStays(AfterGit(looped, None).0, Marker);
  }

  /** Root, lock and what every path reads as are as before. */
  ghost predicate LooksSame(d: Disk, after: Disk) {
    after.root == d.root && after.previous == d.previous && after.locked == d.locked
    && forall p: Place :: Alike(after.files, d.files, p)
  }

  /** The trap puts everything back if nothing escaped and the marker can be put back. */
  lemma RollbackIsExact(d: Disk, layer: Layer, failing: Option<Command>)
    requires PlainMarker(d.files) && !GitEscapes(d.files, layer) && !MarkerEscapes(d.files, layer)
    requires Unobstructed(d, layer) && !StopsEarly(d, failing) && !Commits(d, layer, failing)
    ensures LooksSame(d, Outcome(d, layer, failing))
  {
    hide Changed, GitEscapes, MarkerEscapes, Back, StopsEarly, Manifest, Follow;
    var f := Changed(d.files, layer, failing).0;
    ChangedKeeps(d.files, layer, failing, Marker);
    PlainManifest(d.files);
    forall p: Place ensures Alike(Back(f, d.files), d.files, p) {
      BackIs(f, d.files, p);
      if p.Other? {
        ChangedKeeps(d.files, layer, failing, p);
      }
    }
  }

  lemma PlainManifest(f: Files)
    requires PlainMarker(f)
    ensures Alone(Lookup(f, Marker)) == if Manifest(f).Some? then Some(Program(Manifest(f).value, Own)) else None
  {
    NoLinkStays(f, Marker);
  }

  /** The first command after the swap fails: the trap has removed the marker and put back what it could. */
  lemma OddMarkerIsLost(d: Disk, layer: Layer)
    requires Unobstructed(d, layer) && !PlainMarker(d.files)
    ensures !Commits(d, layer, Some(PlaceLauncher)) && !LooksSame(d, Outcome(d, layer, Some(PlaceLauncher)))
  {
    hide Back, Manifest;
    BackIs(d.files, d.files, Marker);
    assert !Alike(Back(d.files, d.files), d.files, Marker) || Lookup(d.files, Marker) == Some(Directory);
  }

  /** If the script escapes, one of two failures leaves it visible: the file is empty, or it holds the script. */
  lemma EscapeShows(d: Disk, layer: Layer) returns (failing: Option<Command>, p: Place)
    requires Unobstructed(d, layer) && GitEscapes(d.files, layer)
    ensures !Commits(d, layer, failing) && p.Other? && !Alike(Outcome(d, layer, failing).files, d.files, p)
  {
    hide AfterLoop, AfterMarker, Back, Follow, Runs, Unobstructed, Put, Touches;
    var looped := AfterLoop(d.files, layer, None).0;
    var target := Follow(looped, Wrapper(A1625Git));
    var path: string :| Touches(looped, target.value, Other(path));
    p := Other(path);
    LoopedKeeps(d.files, layer, None, p);
    ResolvedPlain(looped, Wrapper(A1625Git));
    failing := if Content(d.files, p) == Some("") then Some(RunGit) else Some(FillGit(0));
    LoopedUntil(d.files, layer, failing);
    PutAt(looped, target.value, "", p);
    PutAt(looped, target.value, GIT_SCRIPT, p);
    BackIs(Changed(d.files, layer, failing).0, d.files, p);
  }

  /** A failure elsewhere does not disturb the loop. */
  lemma LoopedUntil(f: Files, layer: Layer, failing: Option<Command>)
    requires failing == None || (!failing.value.Relink? && !failing.value.PlaceLauncher?)
    ensures AfterLoop(f, layer, failing) == AfterLoop(f, layer, None) && AfterLoop(f, layer, failing).1
  {
    hide LinkNames;
    LoopUndisturbed(f[Wrapper(A1625Tool) := Program(layer.launcher, Own)], layer.programs, LinkNames(), |LinkNames()|, failing);
  }

  lemma {:induction false} LoopUndisturbed(f: Files, programs: set<Tool>, tools: seq<Tool>, n: nat, failing: Option<Command>)
    requires n <= |tools| && (failing == None || !failing.value.Relink?)
    ensures LoopAt(f, programs, tools, n, failing) == LoopAt(f, programs, tools, n, None) && LoopAt(f, programs, tools, n, None).1
  {
    if n > 0 {
      LoopUndisturbed(f, programs, tools, n - 1, failing);
    }
  }

  /** Every run that does not commit leaves root, lock and what every path reads as unchanged, exactly when the marker is
      absent or a regular file and neither the git script nor the marker's text is written to a file with a name besides
      the wrappers and the marker (or no run gets that far). */
  lemma RollbackIff(d: Disk, layer: Layer)
    ensures (forall failing :: !Commits(d, layer, failing) ==> LooksSame(d, Outcome(d, layer, failing)))
            <==> !Unobstructed(d, layer)
                 || (PlainMarker(d.files) && !GitEscapes(d.files, layer) && !MarkerEscapes(d.files, layer))
  {
    hide Unobstructed, PlainMarker, GitEscapes, MarkerEscapes, Changed, Back, Commits, Outcome, LooksSame;
    if Unobstructed(d, layer) {
      if !PlainMarker(d.files) {
        OddMarkerIsLost(d, layer);
      } else if GitEscapes(d.files, layer) {
        var failing, p := EscapeShows(d, layer);
        Differs(d, Outcome(d, layer, failing), p);
      } else if MarkerEscapes(d.files, layer) {
        var failing, p := MarkerShows(d, layer);
        Differs(d, Outcome(d, layer, failing), p);
      } else {
        forall failing | !Commits(d, layer, failing) ensures LooksSame(d, Outcome(d, layer, failing)) {
          RollbackOrEarly(d, layer, failing);
        }
      }
    } else {
      forall failing ensures LooksSame(d, Outcome(d, layer, failing)) {
        Obstructed(d, layer, failing);
      }
    }
  }

  lemma Differs(d: Disk, after: Disk, p: Place)
    requires !Alike(after.files, d.files, p)
    ensures !LooksSame(d, after)
  {
  }

  lemma RollbackOrEarly(d: Disk, layer: Layer, failing: Option<Command>)
    requires Unobstructed(d, layer) && !Commits(d, layer, failing)
    requires PlainMarker(d.files) && !GitEscapes(d.files, layer) && !MarkerEscapes(d.files, layer)
    ensures LooksSame(d, Outcome(d, layer, failing))
  {
    hide Changed, GitEscapes, MarkerEscapes, Unobstructed, PlainMarker;
    if !StopsEarly(d, failing) {
      RollbackIsExact(d, layer, failing);
    }
  }

  lemma Obstructed(d: Disk, layer: Layer, failing: Option<Command>)
    requires !Unobstructed(d, layer)
    ensures Outcome(d, layer, failing) == d && LooksSame(d, d)
  {
  }

  /** Once the git script is in place, the marker's text shows where it escapes: an emptied file, or the text. */
  lemma MarkerShows(d: Disk, layer: Layer) returns (failing: Option<Command>, p: Place)
    requires Unobstructed(d, layer) && !GitEscapes(d.files, layer) && MarkerEscapes(d.files, layer)
    ensures !Commits(d, layer, failing) && p.Other? && !Alike(Outcome(d, layer, failing).files, d.files, p)
  {
    hide AfterLoop, AfterGit, Back, Follow, Unobstructed, Put, Touches;
    var looped := AfterLoop(d.files, layer, None).0;
    var linked := AfterGit(looped, None).0;
    var target := Follow(linked, Marker);
    var path: string :| Touches(linked, target.value, Other(path));
    p := Other(path);
    var text := MarkerText(layer);
    failing := Some(FillMarker(if Content(d.files, p) == Some("") then |text| else 0));
    LoopedUntil(d.files, layer, failing);
    GitUndisturbed(looped, failing);
    LoopedKeeps(d.files, layer, None, p);
    GitKeeps(looped, None, p);
    ResolvedPlain(linked, Marker);
    PutAt(linked, target.value, "", p);
    PutAt(linked, target.value, text, p);
    BackIs(Changed(d.files, layer, failing).0, d.files, p);
  }

  lemma GitUndisturbed(f: Files, failing: Option<Command>)
    requires failing.Some? && failing.value.FillMarker?
    ensures AfterGit(f, failing) == AfterGit(f, None)
  {
  }

  /** No file with a name besides the wrappers and the marker is ever created or changed, in any run, exactly when neither
      the git script nor the marker's text is written to one. */
  lemma OutsideKeptIff(d: Disk, layer: Layer)
    ensures (forall failing, path :: Alike(Outcome(d, layer, failing).files, d.files, Other(path)))
            <==> !Unobstructed(d, layer) || (!GitEscapes(d.files, layer) && !MarkerEscapes(d.files, layer))
  {
    hide Unobstructed, GitEscapes, MarkerEscapes, Changed, Back, Outcome, Commits;
    if !Unobstructed(d, layer) {
      forall failing, path ensures Alike(Outcome(d, layer, failing).files, d.files, Other(path)) {
        Obstructed(d, layer, failing);
      }
    } else if GitEscapes(d.files, layer) {
      var failing, p := EscapeShows(d, layer);
      assert !Alike(Outcome(d, layer, failing).files, d.files, Other(p.path));
    } else if MarkerEscapes(d.files, layer) {
      var failing, p := MarkerShows(d, layer);
      assert !Alike(Outcome(d, layer, failing).files, d.files, Other(p.path));
    } else {
      forall failing, path ensures Alike(Outcome(d, layer, failing).files, d.files, Other(path)) {
        OtherKept(d, layer, failing, path);
      }
    }
  }

  lemma OtherKept(d: Disk, layer: Layer, failing: Option<Command>, path: string)
    requires !GitEscapes(d.files, layer) && !MarkerEscapes(d.files, layer)
    ensures Alike(Outcome(d, layer, failing).files, d.files, Other(path))
  {
    hide Unobstructed, GitEscapes, MarkerEscapes, Changed, Back;
    ChangedKeeps(d.files, layer, failing, Other(path));
    BackIs(Changed(d.files, layer, failing).0, d.files, Other(path));
  }

  /** No path besides the wrappers and the marker is another name of this file. */
  ghost predicate NoOtherName(f: Files, p: Place) {
    forall path: string :: !SameFile(f, p, Other(path))
  }

  /** Where neither a1625-git nor the marker is a link of either kind to the outside, nothing escapes. */
  lemma NothingEscapesWithoutLinks(f: Files, layer: Layer)
    requires !IsLink(f, Wrapper(A1625Git)) && NoOtherName(f, Wrapper(A1625Git))
    requires !IsLink(f, Marker) && NoOtherName(f, Marker)
    ensures !GitEscapes(f, layer) && !MarkerEscapes(f, layer)
  {
    hide AfterLoop, Follow, Runs, Put;
    LoopedKeeps(f, layer, None, Wrapper(A1625Git));
    var looped := AfterLoop(f, layer, None).0;
    NoLinkStays(looped, Wrapper(A1625Git));
    forall path: string ensures !Touches(looped, Wrapper(A1625Git), Other(path)) {
      LoopedKeeps(f, layer, None, Other(path));
      assert !SameFile(f, Wrapper(A1625Git), Other(path));
    }
    MarkerStaysInside(f, layer);
  }

  lemma MarkerStaysInside(f: Files, layer: Layer)
    requires !IsLink(f, Marker) && NoOtherName(f, Marker) && !GitEscapes(f, layer)
    ensures !MarkerEscapes(f, layer)
  {
    hide AfterLoop, Follow, Runs, Put, GitEscapes;
    var looped := AfterLoop(f, layer, None).0;
    var linked := AfterGit(looped, None).0;
    LoopedKeeps(f, layer, None, Marker);
    MarkerAfterGit(looped);
    NoLinkStays(linked, Marker);
    forall path: string ensures !Touches(linked, Marker, Other(path)) {
      LoopedKeeps(f, layer, None, Other(path));
      NotEscaped(f, layer, path);
      assert !SameFile(f, Marker, Other(path));
    }
  }

  lemma NotEscaped(f: Files, layer: Layer, path: string)
    requires !GitEscapes(f, layer)
    ensures var looped := AfterLoop(f, layer, None).0; Same(AfterGit(looped, None).0, looped, Other(path))
  {
    GitKeeps(AfterLoop(f, layer, None).0, None, Other(path));
  }

  /** Writing the git script leaves the marker's kind and its other names as they are. */
  lemma MarkerAfterGit(f: Files)
    requires !IsLink(f, Marker)
    ensures var after := AfterGit(f, None).0;
      && !IsLink(after, Marker)
      && (Same(after, f, Marker)
          || (Content(after, Marker).Some?
              && (if Content(f, Marker).Some? then after[Marker].share == f[Marker].share else after[Marker].share.Own?)))
  {
    hide Follow, Put, Runs;
    var target := Follow(f, Wrapper(A1625Git));
    ResolvedPlain(f, Wrapper(A1625Git));
    if CanWrite(f, target) {
      PutAt(f, target.value, GIT_SCRIPT, Marker);
    }
  }

  /** A file outside that a1625-git leads to, by a symbolic link or as another name of the same file, is lost, whether
      the run commits or is rolled back. */
  lemma ForeignFileLost(d: Disk, layer: Layer, path: string)
    requires Unobstructed(d, layer) && PlainMarker(d.files)
    requires Content(d.files, Other(path)).Some? && !SameFile(d.files, Marker, Other(path))
    requires SameFile(d.files, Wrapper(A1625Git), Other(path))
      || (IsLink(d.files, Wrapper(A1625Git)) && d.files[Wrapper(A1625Git)].to == Other(path))
    ensures Commits(d, layer, None) && !Commits(d, layer, Some(RunGit))
    ensures Content(Outcome(d, layer, None).files, Other(path)) == Some(GIT_SCRIPT)
    ensures Content(Outcome(d, layer, Some(RunGit)).files, Other(path)) == Some(GIT_SCRIPT)
  {
    hide AfterLoop, Back, Unobstructed, Follow, Put, Touches, AfterMarker, AfterGit;
    LoopedUntil(d.files, layer, Some(RunGit));
    LoopedUntil(d.files, layer, None);
    ScriptReaches(d.files, layer, path);
    var looped := AfterLoop(d.files, layer, None).0;
    var linked := AfterGit(looped, None).0;
    PlainMarkerStays(d.files, layer);
    MarkerMisses(linked, layer, path);
    BackIs(Changed(d.files, layer, Some(RunGit)).0, d.files, Other(path));
  }

  lemma ScriptReaches(f: Files, layer: Layer, path: string)
    requires PlainMarker(f) && Content(f, Other(path)).Some? && !SameFile(f, Marker, Other(path))
    requires SameFile(f, Wrapper(A1625Git), Other(path))
      || (IsLink(f, Wrapper(A1625Git)) && f[Wrapper(A1625Git)].to == Other(path))
    ensures var looped := AfterLoop(f, layer, None).0;
      var linked := AfterGit(looped, None).0;
      && AfterGit(looped, None).1
      && AfterGit(looped, Some(RunGit)) == (linked, false)
      && Content(linked, Other(path)) == Some(GIT_SCRIPT) && !SameFile(linked, Marker, Other(path))
  {
    hide AfterLoop, Follow, Put, Touches;
    LoopedKeeps(f, layer, None, Wrapper(A1625Git));
    LoopedKeeps(f, layer, None, Other(path));
    LoopedKeeps(f, layer, None, Marker);
    var looped := AfterLoop(f, layer, None).0;
    var target := if IsLink(f, Wrapper(A1625Git)) then Other(path) else Wrapper(A1625Git);
    Leads(looped, path);
    var written := Put(looped, target, GIT_SCRIPT);
    WrittenTo(looped, target, path);
    Leads(written[Wrapper(Git) := TO_GIT], path);
  }

  /** Where a1625-git leads in the two cases. */
  lemma Leads(f: Files, path: string)
    requires Content(f, Other(path)).Some?
    requires if IsLink(f, Wrapper(A1625Git)) then f[Wrapper(A1625Git)].to == Other(path) else true
    ensures Follow(f, Wrapper(A1625Git)) == Some(if IsLink(f, Wrapper(A1625Git)) then Other(path) else Wrapper(A1625Git))
  {
    hide Follow;
    if IsLink(f, Wrapper(A1625Git)) {
      LeadsTo(f, Wrapper(A1625Git), Other(path));
    } else {
      NoLinkStays(f, Wrapper(A1625Git));
    }
  }

  lemma WrittenTo(f: Files, target: Place, path: string)
    requires Content(f, Other(path)).Some? && !SameFile(f, Marker, Other(path))
    requires target == (if IsLink(f, Wrapper(A1625Git)) then Other(path) else Wrapper(A1625Git))
    requires !IsLink(f, Wrapper(A1625Git)) ==> SameFile(f, Wrapper(A1625Git), Other(path))
    ensures var written := Put(f, target, GIT_SCRIPT);
      && Content(written, Other(path)) == Some(GIT_SCRIPT) && !SameFile(written, Marker, Other(path))
      && (if IsLink(f, Wrapper(A1625Git)) then Same(written, f, Wrapper(A1625Git))
          else Content(written, Wrapper(A1625Git)) == Some(GIT_SCRIPT))
  {
    hide Put;
    PutAt(f, target, GIT_SCRIPT, Other(path));
    PutAt(f, target, GIT_SCRIPT, Marker);
    PutAt(f, target, GIT_SCRIPT, Wrapper(A1625Git));
  }

  /** A plain marker's text goes to the marker and misses other files. */
  lemma MarkerMisses(f: Files, layer: Layer, path: string)
    requires PlainMarker(f) && Follow(f, Marker) == Some(Marker) && !SameFile(f, Marker, Other(path))
    ensures AfterMarker(f, layer, None).1 && Same(AfterMarker(f, layer, None).0, f, Other(path))
  {
    hide Follow, Put;
    PutAt(f, Marker, MarkerText(layer), Other(path));
  }

  /** One link to something that is no link. */
  lemma LeadsTo(f: Files, p: Place, q: Place)
    requires IsLink(f, p) && f[p].to == q && !IsLink(f, q)
    ensures Follow(f, p) == Some(q)
  {
    assert Resolve(f, q, MAX_LINKS - 1) == Some(q);
  }

  /** A marker that is a directory stops every run after the swap, and the trap cannot release the lock: no later run
      does anything. */
  lemma DirectoryMarkerKeepsLock(d: Disk, layer: Layer, failing: Option<Command>, later: Layer, next: Option<Command>)
    requires Unobstructed(d, layer) && !StopsEarly(d, failing) && Lookup(d.files, Marker) == Some(Directory)
    ensures !Commits(d, layer, failing) && Outcome(d, layer, failing).locked
    ensures Outcome(Outcome(d, layer, failing), later, next) == Outcome(d, layer, failing)
  {
    hide AfterLoop, AfterGit, Back, StopsEarly;
    ChangedKeeps(d.files, layer, failing, Marker);
    LoopedKeeps(d.files, layer, failing, Marker);
    var looped := AfterLoop(d.files, layer, failing).0;
    GitKeeps(looped, failing, Marker);
    NoLinkStays(AfterGit(looped, failing).0, Marker);
  }

  // ---------- Commit ----------

  /** What a wrapper is meant to read as after a committed run. */
  function Meant(before: Files, layer: Layer, t: Tool): Option<Entry> {
    match t
    case A1625Tool => Some(Program(layer.launcher, Own))
    case A1625Git => Some(Program(GIT_SCRIPT, Own))
    case Git => Some(TO_GIT)
    case _ => Alone(LinkFor(before, layer.programs, t))
  }

  ghost predicate AsMeant(before: Files, after: Files, layer: Layer) {
    forall t: Tool :: Alone(Lookup(after, Wrapper(t))) == Meant(before, layer, t)
  }

  /** Writing there changes no wrapper: none is a name of the file, or it holds the text already. */
  ghost predicate Spares(f: Files, p: Place, text: string) {
    forall t: Tool :: Touches(f, p, Wrapper(t)) ==> Content(f, Wrapper(t)) == Some(text)
  }

  /** The git script is not written over a wrapper that stays, besides a1625-git. */
  ghost predicate GitSpares(f: Files, layer: Layer) {
    var looped := AfterLoop(f, layer, None).0;
    forall t: Tool :: t != A1625Git && t != Git && SameFile(looped, Wrapper(A1625Git), Wrapper(t)) ==>
      Content(looped, Wrapper(t)) == Some(GIT_SCRIPT)
  }

  /** The marker's text is not written over a wrapper. */
  ghost predicate MarkerSpares(f: Files, layer: Layer) {
    var linked := AfterGit(AfterLoop(f, layer, None).0, None).0;
    var target := Follow(linked, Marker);
    target.Some? ==> Spares(linked, target.value, MarkerText(layer))
  }

  /** What the loop leaves of the launcher and the linked wrappers. */
  lemma LoopedIsMeant(f: Files, layer: Layer, t: Tool)
    requires t != A1625Git && t != Git
    ensures Alone(Lookup(AfterLoop(f, layer, None).0, Wrapper(t))) == Meant(f, layer, t)
  {
    WrapperFor(t);
    hide Wrappers;
    WrappersAreAll();
    var start := f[Wrapper(A1625Tool) := Program(layer.launcher, Own)];
    if t == A1625Tool {
      assert LinkNames()[..24] == LinkNames();
      LoopKeeps(start, layer.programs, LinkNames(), 24, None, Wrapper(t));
    } else {
      assert LinkNames()[Ordinal(t) - 3] == t;
      LinksFollowPrograms(start, layer.programs, LinkNames(), 24, Ordinal(t) - 3);
    }
  }

  /** Before the marker is written every wrapper is as meant, exactly when a1625-git is no link and its file has no other
      wrapper's name that stays. */
  lemma LinkedIsMeant(f: Files, layer: Layer)
    requires AfterGit(AfterLoop(f, layer, None).0, None).1
    ensures AsMeant(f, AfterGit(AfterLoop(f, layer, None).0, None).0, layer)
            <==> !IsLink(f, Wrapper(A1625Git)) && GitSpares(f, layer)
  {
    hide AfterLoop, Follow, Meant, Put, Runs, AfterGit;
    var looped := AfterLoop(f, layer, None).0;
    var linked := AfterGit(looped, None).0;
    LoopedKeeps(f, layer, None, Wrapper(A1625Git));
    GitIsMeant(f, layer);
    if !IsLink(f, Wrapper(A1625Git)) {
      forall t: Tool | t != A1625Git && t != Git
        ensures Alone(Lookup(linked, Wrapper(t))) == Meant(f, layer, t) <==>
          (SameFile(looped, Wrapper(A1625Git), Wrapper(t)) ==> Content(looped, Wrapper(t)) == Some(GIT_SCRIPT))
      {
        LoopedIsMeant(f, layer, t);
        GitWrites(looped, t);
      }
    }
  }

  /** What the git script's stage leaves of a wrapper. */
  lemma GitWrites(f: Files, t: Tool)
    requires !IsLink(f, Wrapper(A1625Git)) && AfterGit(f, None).1 && t != A1625Git && t != Git
    ensures var linked := AfterGit(f, None).0;
      if SameFile(f, Wrapper(A1625Git), Wrapper(t)) then
        Lookup(linked, Wrapper(t)) == Some(Program(GIT_SCRIPT, f[Wrapper(t)].share)) && SameFile(linked, Wrapper(A1625Git), Wrapper(t))
      else Same(linked, f, Wrapper(t))
  {
    hide Follow, Put, Runs;
    NoLinkStays(f, Wrapper(A1625Git));
    PutAt(f, Wrapper(A1625Git), GIT_SCRIPT, Wrapper(t));
    PutAt(f, Wrapper(A1625Git), GIT_SCRIPT, Wrapper(A1625Git));
    SpecialDoesNotRun(f);
  }

  /** A special file in the place of a1625-git takes the script and does not run. */
  lemma SpecialDoesNotRun(f: Files)
    ensures AfterGit(f, None).1 ==> Lookup(f, Wrapper(A1625Git)) != Some(Special)
  {
    hide Follow;
    if Lookup(f, Wrapper(A1625Git)) == Some(Special) {
      NoLinkStays(f, Wrapper(A1625Git));
      NoLinkStays(f[Wrapper(Git) := TO_GIT], Wrapper(A1625Git));
    }
  }

  /** a1625-git is the script exactly if it is no link; git links to it. */
  lemma GitIsMeant(f: Files, layer: Layer)
    requires AfterGit(AfterLoop(f, layer, None).0, None).1
    ensures var linked := AfterGit(AfterLoop(f, layer, None).0, None).0;
      && Alone(Lookup(linked, Wrapper(Git))) == Meant(f, layer, Git)
      && (IsLink(f, Wrapper(A1625Git)) ==> IsLink(linked, Wrapper(A1625Git)))
      && (Alone(Lookup(linked, Wrapper(A1625Git))) == Meant(f, layer, A1625Git) <==> !IsLink(f, Wrapper(A1625Git)))
  {
    hide AfterLoop, Follow, LinkFor, Put;
    var looped := AfterLoop(f, layer, None).0;
    LoopedKeeps(f, layer, None, Wrapper(A1625Git));
    ResolvedPlain(looped, Wrapper(A1625Git));
    var target := Follow(looped, Wrapper(A1625Git));
    PutAt(looped, target.value, GIT_SCRIPT, Wrapper(A1625Git));
    if !IsLink(f, Wrapper(A1625Git)) {
      NoLinkStays(looped, Wrapper(A1625Git));
      NoLinkStays(AfterGit(looped, None).0, Wrapper(A1625Git));
    }
  }

  /** A committed run leaves every wrapper as meant exactly when a1625-git was not a link of either kind to a wrapper or
      a link to anything, and the marker does not lead to a wrapper whose content its text would replace. */
  lemma CommittedWrappersIff(d: Disk, layer: Layer, failing: Option<Command>)
    requires Commits(d, layer, failing)
    ensures AsMeant(d.files, Outcome(d, layer, failing).files, layer)
            <==> !IsLink(d.files, Wrapper(A1625Git)) && GitSpares(d.files, layer) && MarkerSpares(d.files, layer)
  {
    hide AfterLoop, AfterGit, Follow, AsMeant, Unobstructed, StopsEarly, GitSpares, Spares, Put;
    var f := d.files;
    CommittedRun(f, layer, failing);
    var linked := AfterGit(AfterLoop(f, layer, None).0, None).0;
    var target := Follow(linked, Marker);
    LinkedIsMeant(f, layer);
    ResolvedPlain(linked, Marker);
    if AsMeant(f, linked, layer) {
      MarkerOver(f, linked, layer, target.value);
    } else if IsLink(f, Wrapper(A1625Git)) {
      LinkIsNotMeant(f, layer, target.value);
    } else {
      OverwrittenIsNotMeant(f, layer, target.value);
    }
  }

  lemma LinkIsNotMeant(f: Files, layer: Layer, target: Place)
    requires AfterGit(AfterLoop(f, layer, None).0, None).1 && IsLink(f, Wrapper(A1625Git))
    requires !IsLink(AfterGit(AfterLoop(f, layer, None).0, None).0, target)
    ensures !AsMeant(f, Put(AfterGit(AfterLoop(f, layer, None).0, None).0, target, MarkerText(layer)), layer)
  {
    hide AfterLoop, AfterGit, Follow, LinkFor, Put;
    GitIsMeant(f, layer);
    var linked := AfterGit(AfterLoop(f, layer, None).0, None).0;
    PutAt(linked, target, MarkerText(layer), Wrapper(A1625Git));
    var after := Put(linked, target, MarkerText(layer));
    assert Alone(Lookup(after, Wrapper(A1625Git))) != Meant(f, layer, A1625Git);
  }

  /** A wrapper that the script overwrote is not made good by the marker's text, which would then overwrite a1625-git. */
  lemma OverwrittenIsNotMeant(f: Files, layer: Layer, target: Place)
    requires AfterGit(AfterLoop(f, layer, None).0, None).1 && !IsLink(f, Wrapper(A1625Git)) && !GitSpares(f, layer)
    requires !IsLink(AfterGit(AfterLoop(f, layer, None).0, None).0, target)
    ensures !AsMeant(f, Put(AfterGit(AfterLoop(f, layer, None).0, None).0, target, MarkerText(layer)), layer)
  {
    hide AfterLoop, AfterGit, Follow, LinkFor, Put, MarkerText;
    var looped := AfterLoop(f, layer, None).0;
    var linked := AfterGit(looped, None).0;
    var t: Tool :| t != A1625Git && t != Git && SameFile(looped, Wrapper(A1625Git), Wrapper(t))
      && Content(looped, Wrapper(t)) != Some(GIT_SCRIPT);
    LoopedKeeps(f, layer, None, Wrapper(A1625Git));
    LoopedIsMeant(f, layer, t);
    GitWrites(looped, t);
    var after := Put(linked, target, MarkerText(layer));
    PutAt(linked, target, MarkerText(layer), Wrapper(t));
    PutAt(linked, target, MarkerText(layer), Wrapper(A1625Git));
    assert Alone(Lookup(after, Wrapper(t))) != Meant(f, layer, t) || Alone(Lookup(after, Wrapper(A1625Git))) != Meant(f, layer, A1625Git);
  }

  /** A run that commits is the run without a failure. */
  lemma CommittedRun(f: Files, layer: Layer, failing: Option<Command>)
    requires Changed(f, layer, failing).1
    ensures AfterGit(AfterLoop(f, layer, None).0, None).1
    ensures CanWrite(AfterGit(AfterLoop(f, layer, None).0, None).0, Follow(AfterGit(AfterLoop(f, layer, None).0, None).0, Marker))
    ensures Changed(f, layer, failing) == AfterMarker(AfterGit(AfterLoop(f, layer, None).0, None).0, layer, None)
  {
    hide AfterLoop, AfterGit, Follow;
    LoopedKeeps(f, layer, failing, Marker);
    GitKeeps(AfterLoop(f, layer, None).0, failing, Marker);
  }

  /** Writing the marker's text somewhere keeps wrappers as meant or spoils the one it replaces. */
  lemma MarkerOver(before: Files, linked: Files, layer: Layer, target: Place)
    requires !IsLink(linked, target)
    ensures var after := Put(linked, target, MarkerText(layer));
      AsMeant(before, linked, layer) ==> (AsMeant(before, after, layer) <==> Spares(linked, target, MarkerText(layer)))
  {
    hide Meant, MarkerText, Put;
    var after, text := Put(linked, target, MarkerText(layer)), MarkerText(layer);
    if AsMeant(before, linked, layer) {
      forall t: Tool ensures Alone(Lookup(after, Wrapper(t))) == Meant(before, layer, t) <==>
        (Touches(linked, target, Wrapper(t)) ==> Content(linked, Wrapper(t)) == Some(text))
      {
        assert Alone(Lookup(linked, Wrapper(t))) == Meant(before, layer, t);
        PutAt(linked, target, text, Wrapper(t));
      }
    }
  }

  /** Writing where a path leads does not change where it leads. */
  lemma {:induction false} LeadsThereStill(f: Files, p: Place, n: nat, data: string)
    requires Resolve(f, p, n).Some?
    ensures Resolve(Put(f, Resolve(f, p, n).value, data), p, n) == Resolve(f, p, n)
    decreases n
  {
    hide Put;
    var target := Resolve(f, p, n).value;
    ResolvesToNoLink(f, p, n);
    PutAt(f, target, data, p);
    if IsLink(f, p) {
      LeadsThereStill(f, f[p].to, n - 1, data);
    }
  }

  /** After a committed run the tool root is the new layer, the lock is free, and the marker reads as the layer's line,
      unless it leads to a special file; only a failing last removal leaves the old root. */
  lemma CommittedInstall(d: Disk, layer: Layer, failing: Option<Command>)
    requires Commits(d, layer, failing)
    ensures var after := Outcome(d, layer, failing);
      && after.root == RootDir(layer.name) && !after.locked
      && after.previous == (if failing == Some(Discard) then d.root else NoRoot)
      && (MarkerIsFile(after.files) ==> Manifest(after.files) == Some(layer.marker + "\n"))
  {
    hide AfterLoop, AfterGit, Unobstructed, StopsEarly, Put, Resolve;
    var f := d.files;
    CommittedRun(f, layer, failing);
    var linked := AfterGit(AfterLoop(f, layer, None).0, None).0;
    var target := Follow(linked, Marker).value;
    ResolvedPlain(linked, Marker);
    LeadsThereStill(linked, Marker, MAX_LINKS, MarkerText(layer));
    PutAt(linked, target, MarkerText(layer), target);
  }

  /** The marker's path leads to something other than a special file. */
  predicate MarkerIsFile(f: Files) {
    var p := Follow(f, Marker);
    p.Some? && Lookup(f, p.value) != Some(Special)
  }

  /** A file with one name, or nothing. */
  predicate Simple(e: Option<Entry>) {
    e == None || (e.value.Program? && e.value.share.Own?)
  }

  /** The device as an earlier install, or none, left it: programs with one name, links to the launcher and to a1625-git,
      and nothing that stops an install. */
  ghost predicate Ordinary(d: Disk) {
    && !d.locked && d.previous.NoRoot? && !d.root.RootFile?
    && Simple(Lookup(d.files, Marker)) && Simple(Lookup(d.files, Wrapper(A1625Tool))) && Simple(Lookup(d.files, Wrapper(A1625Git)))
    && forall t: Tool :: SimpleWrapper(d.files, t)
  }

  predicate SimpleWrapper(f: Files, t: Tool) {
    || Simple(Lookup(f, Wrapper(t)))
    || (t != A1625Tool && t != A1625Git && Lookup(f, Wrapper(t)) == Some(if t == Git then TO_GIT else TO_LAUNCHER))
  }

  lemma OrdinaryLeadsNowhereElse(d: Disk)
    requires Ordinary(d)
    ensures NoDirectories(d.files)
  {
    forall t: Tool ensures !IsDirectory(d.files, Wrapper(t)) {
      assert SimpleWrapper(d.files, t);
      assert SimpleWrapper(d.files, A1625Tool) && SimpleWrapper(d.files, A1625Git);
    }
  }

  /** A linked wrapper after an install: a link to the launcher if the layer has the program, nothing if there was such a
      link and the layer has not, and otherwise what was there. */
  function Installed(before: Files, layer: Layer, t: Tool): Option<Entry> {
    var launcher := Some(Link(Wrapper(A1625Tool), false));
    if t in layer.programs then launcher
    else if Lookup(before, Wrapper(t)) == launcher then None
    else Lookup(before, Wrapper(t))
  }

  /** On such a device a sound layer is installed if no command fails: the launcher, the git script and their links are
      in place, every other wrapper follows the layer's programs, the marker names the layer, and no other file changes. */
  lemma OrdinaryInstall(d: Disk, layer: Layer)
    requires Ordinary(d) && layer.sound
    ensures Commits(d, layer, None)
    ensures var after := Outcome(d, layer, None);
      && after.root == RootDir(layer.name) && after.previous.NoRoot? && !after.locked
      && Content(after.files, Marker) == Some(layer.marker + "\n")
      && Content(after.files, Wrapper(A1625Tool)) == Some(layer.launcher)
      && Content(after.files, Wrapper(A1625Git)) == Some(GIT_SCRIPT)
      && Lookup(after.files, Wrapper(Git)) == Some(Link(Wrapper(A1625Git), false))
      && (forall t: Tool :: t in LinkNames() ==> Lookup(after.files, Wrapper(t)) == Installed(d.files, layer, t))
      && (forall path: string :: Lookup(after.files, Other(path)) == Lookup(d.files, Other(path)))
  {
    hide AfterLoop, AfterGit, AfterMarker, LinkNames, NoDirectories, Put, Follow;
    var f := d.files;
    OrdinaryLeadsNowhereElse(d);
    LoopedUntil(f, layer, None);
    var looped := AfterLoop(f, layer, None).0;
    LoopedKeeps(f, layer, None, Marker);
    LoopedKeeps(f, layer, None, Wrapper(A1625Git));
    LaunchedAlone(f, layer);
    ScriptAlone(looped);
    var linked := AfterGit(looped, None).0;
    assert Same(linked, looped, Marker) && Same(linked, looped, Wrapper(A1625Tool));
    MarkerAlone(linked, layer);
    var final := AfterMarker(linked, layer, None).0;
    forall t: Tool | t in LinkNames()
      ensures Lookup(final, Wrapper(t)) == LinkFor(f, layer.programs, t)
    {
      LinkNamesOnly(t);
      LoopedLink(f, layer, t);
      assert Same(final, linked, Wrapper(t)) && Same(linked, looped, Wrapper(t));
    }
    forall path: string ensures Same(final, f, Other(path)) {
      LoopedKeeps(f, layer, None, Other(path));
      assert Same(final, linked, Other(path)) && Same(linked, looped, Other(path));
    }
    assert Same(final, linked, Wrapper(A1625Tool)) && Same(final, linked, Wrapper(A1625Git)) && Same(final, linked, Wrapper(Git));
  }

  lemma LinkNamesOnly(t: Tool)
    requires t in LinkNames()
    ensures t != A1625Tool && t != A1625Git && t != Git
  {
    hide Wrappers, LinkNames, Distinct, Complete;
    WrappersAreAll();
  }

  lemma LoopedLink(f: Files, layer: Layer, t: Tool)
    requires t != A1625Tool && t != A1625Git && t != Git
    ensures Lookup(AfterLoop(f, layer, None).0, Wrapper(t)) == LinkFor(f, layer.programs, t)
  {
    WrapperFor(t);
    hide Wrappers;
    WrappersAreAll();
    assert LinkNames()[Ordinal(t) - 3] == t;
    LinksFollowPrograms(f[Wrapper(A1625Tool) := Program(layer.launcher, Own)], layer.programs, LinkNames(), 24, Ordinal(t) - 3);
  }

  /** With a file of its own in the place of a1625-git, or none, the script is written there and runs. */
  lemma ScriptAlone(f: Files)
    requires Simple(Lookup(f, Wrapper(A1625Git)))
    ensures AfterGit(f, None).1
    ensures var linked := AfterGit(f, None).0;
      && Content(linked, Wrapper(A1625Git)) == Some(GIT_SCRIPT)
      && Lookup(linked, Wrapper(Git)) == Some(TO_GIT)
      && forall p :: p != Wrapper(A1625Git) && p != Wrapper(Git) ==> Same(linked, f, p)
  {
    hide Follow, Put;
    var git := Wrapper(A1625Git);
    NoLinkStays(f, git);
    var written := Put(f, git, GIT_SCRIPT);
    PutAt(f, git, GIT_SCRIPT, git);
    var linked := written[Wrapper(Git) := TO_GIT];
    NoLinkStays(linked, git);
    forall p | p != git && p != Wrapper(Git) ensures Same(linked, f, p) {
      PutAt(f, git, GIT_SCRIPT, p);
    }
  }

  lemma MarkerAlone(f: Files, layer: Layer)
    requires Simple(Lookup(f, Marker))
    ensures AfterMarker(f, layer, None).1
    ensures var after := AfterMarker(f, layer, None).0;
      Content(after, Marker) == Some(layer.marker + "\n") && forall p :: p != Marker ==> Same(after, f, p)
  {
    hide Follow, Put;
    NoLinkStays(f, Marker);
    PutAt(f, Marker, MarkerText(layer), Marker);
    forall p | p != Marker ensures Same(Put(f, Marker, MarkerText(layer)), f, p) {
      PutAt(f, Marker, MarkerText(layer), p);
    }
  }

  /** If a1625-git links to the launcher, the script replaces the launcher and the run commits: every linked program
      now starts the git script. */
  lemma LauncherOverwritten(d: Disk, layer: Layer, relative: bool)
    requires Unobstructed(d, layer) && PlainMarker(d.files)
    requires Lookup(d.files, Wrapper(A1625Git)) == Some(Link(Wrapper(A1625Tool), relative))
    ensures Commits(d, layer, None)
    ensures Content(Outcome(d, layer, None).files, Wrapper(A1625Tool)) == Some(GIT_SCRIPT)
  {
    hide AfterLoop, AfterGit, AfterMarker, Unobstructed, Follow, Put;
    LoopedUntil(d.files, layer, None);
    LauncherGone(d.files, layer);
    var linked := AfterGit(AfterLoop(d.files, layer, None).0, None).0;
    PlainMarkerStays(d.files, layer);
    MarkerMissesLauncher(linked, layer);
  }

  lemma LauncherGone(f: Files, layer: Layer)
    requires IsLink(f, Wrapper(A1625Git)) && f[Wrapper(A1625Git)].to == Wrapper(A1625Tool)
    ensures var looped := AfterLoop(f, layer, None).0;
      AfterGit(looped, None).1 && Lookup(AfterGit(looped, None).0, Wrapper(A1625Tool)) == Some(Program(GIT_SCRIPT, Own))
  {
    hide AfterLoop, Follow, Put, LinkFor;
    var launcher := Wrapper(A1625Tool);
    LaunchedAlone(f, layer);
    LoopedKeeps(f, layer, None, Wrapper(A1625Git));
    var looped := AfterLoop(f, layer, None).0;
    LeadsTo(looped, Wrapper(A1625Git), launcher);
    PutAt(looped, launcher, GIT_SCRIPT, launcher);
    PutAt(looped, launcher, GIT_SCRIPT, Wrapper(A1625Git));
    LeadsTo(Put(looped, launcher, GIT_SCRIPT)[Wrapper(Git) := TO_GIT], Wrapper(A1625Git), launcher);
  }

  /** The launcher is a new file with one name. */
  lemma LaunchedAlone(f: Files, layer: Layer)
    ensures Lookup(AfterLoop(f, layer, None).0, Wrapper(A1625Tool)) == Some(Program(layer.launcher, Own))
  {
    hide Wrappers;
    WrappersAreAll();
    assert LinkNames()[..24] == LinkNames();
    LoopKeeps(f[Wrapper(A1625Tool) := Program(layer.launcher, Own)], layer.programs, LinkNames(), 24, None, Wrapper(A1625Tool));
  }

  lemma MarkerMissesLauncher(f: Files, layer: Layer)
    requires PlainMarker(f) && Follow(f, Marker) == Some(Marker)
    requires Lookup(f, Wrapper(A1625Tool)).Some? && f[Wrapper(A1625Tool)].Program? && f[Wrapper(A1625Tool)].share.Own?
    ensures AfterMarker(f, layer, None).1 && Same(AfterMarker(f, layer, None).0, f, Wrapper(A1625Tool))
  {
    hide Follow, Put;
    PutAt(f, Marker, MarkerText(layer), Wrapper(A1625Tool));
  }

  /** A run that commits but cannot remove the old root blocks every later run. */
  lemma LeftoverRootBlocks(d: Disk, layer: Layer, later: Layer, failing: Option<Command>)
    requires d.root.RootDir? && Commits(d, layer, Some(Discard))
    ensures var after := Outcome(d, layer, Some(Discard));
      after.root == RootDir(layer.name) && Outcome(after, later, failing) == after
  {
    hide Changed, StopsEarly, NoDirectories;
  }

  // ---------- The script ----------

  /** The copies of the wrappers as they were, each a file of its own. */
  ghost predicate BackupOf(f: Files, backup: map<Tool, Entry>) {
    forall t: Tool :: (t in backup <==> Wrapper(t) in f) && (t in backup ==> Some(backup[t]) == Alone(Lookup(f, Wrapper(t))))
  }

  /** All paths but the wrappers agree. */
  ghost predicate OthersSame(a: Files, b: Files) {
    forall p: Place :: !p.Wrapper? ==> Same(a, b, p)
  }

  lemma AllWrappers(f: Files)
    ensures NoDirectories(f) <==> forall i :: 0 <= i < |Wrappers()| ==> !IsDirectory(f, Wrapper(Wrappers()[i]))
  {
    hide Wrappers, IsDirectory;
    WrappersAreAll();
    if !NoDirectories(f) {
      var t: Tool :| IsDirectory(f, Wrapper(t));
      assert t in Wrappers();
    }
  }

  class Host {
    var root: Root
    var previous: Root
    var files: Files
    var locked: bool
    // Below the lock directory:
    var backup: map<Tool, Entry>
    var oldManifest: Option<string>

    const failing: Option<Command>

    ghost function State(): Disk
      reads this`root, this`previous, this`files, this`locked
    {
      Disk(root, previous, files, locked)
    }

    constructor (d: Disk, failing: Option<Command>)
      ensures State() == d && this.failing == failing && backup == map[] && oldManifest == None
    {
      root, previous, files, locked := d.root, d.previous, d.files, d.locked;
      backup, oldManifest := map[], None;
      this.failing := failing;
    }

    predicate Fails(c: Command) {
      failing == Some(c)
    }

    /** Copy every existing wrapper aside; one that leads to a directory stops the run. */
    method BackupWrappers(tools: seq<Tool>) returns (ok: bool)
      requires backup == map[]
      modifies this`backup
      ensures ok <==> forall i :: 0 <= i < |tools| ==>
        !IsDirectory(files, Wrapper(tools[i])) && !(Wrapper(tools[i]) in files && Fails(Backup(i)))
      ensures ok ==> forall t :: t in backup <==> t in tools && Wrapper(t) in files
      ensures ok ==> forall t :: t in backup ==> Some(backup[t]) == Alone(Lookup(files, Wrapper(t)))
    {
      hide IsDirectory;
      for i := 0 to |tools|
        invariant forall j :: 0 <= j < i ==>
          !IsDirectory(files, Wrapper(tools[j])) && !(Wrapper(tools[j]) in files && Fails(Backup(j)))
        invariant forall t :: t in backup <==> t in tools[..i] && Wrapper(t) in files
        invariant forall t :: t in backup ==> Some(backup[t]) == Alone(Lookup(files, Wrapper(t)))
      {
        var t := tools[i];
        if IsDirectory(files, Wrapper(t)) {
          return false;
        }
        if Wrapper(t) in files {
          if Fails(Backup(i)) {
            return false;
          }
          backup := backup[t := Alone(Some(files[Wrapper(t)])).value];
        }
        assert tools[..i + 1] == tools[..i] + [t];
      }
      assert tools[..|tools|] == tools;
      return true;
    }

    /** The loop that links the launcher under the program names. */
    method LinkPrograms(layer: Layer, tools: seq<Tool>) returns (ok: bool)
      modifies this`files
      ensures (files, ok) == LoopAt(old(files), layer.programs, tools, |tools|, failing)
    {
      ok := true;
      var i := 0;
      while i < |tools| && ok
        invariant i <= |tools| && (files, ok) == LoopAt(old(files), layer.programs, tools, i, failing)
      {
        var t := tools[i];
        if t in layer.programs {
          if Fails(Relink(i)) {
            ok := false;
          } else {
            files := files[Wrapper(t) := TO_LAUNCHER];
          }
        } else if Lookup(files, Wrapper(t)) == Some(TO_LAUNCHER) {
          if Fails(Relink(i)) {
            ok := false;
          } else {
            files := files - {Wrapper(t)};
          }
        }
        i := i + 1;
      }
      if !ok {
        StoppedLoop(old(files), layer.programs, tools, i, |tools|, failing);
      }
    }

    /** The cleanup loop: every wrapper is removed, and put back if there was one. */
    method RestoreWrappers(tools: seq<Tool>, ghost before: Files)
      requires Distinct(tools) && Complete(tools) && BackupOf(before, backup)
      modifies this`files, this`backup
      ensures OthersSame(files, old(files)) && forall t: Tool :: Lookup(files, Wrapper(t)) == Alone(Lookup(before, Wrapper(t)))
    {
      ghost var saved := backup;
      for i := 0 to |tools|
        invariant forall j :: 0 <= j < i ==> Lookup(files, Wrapper(tools[j])) == Alone(Lookup(before, Wrapper(tools[j])))
        invariant forall j :: i <= j < |tools| ==> (tools[j] in backup <==> tools[j] in saved)
        invariant forall t :: t in backup ==> t in saved && backup[t] == saved[t]
        invariant OthersSame(files, old(files))
      {
        var t := tools[i];
        files := files - {Wrapper(t)};
        if t in backup {
          files, backup := files[Wrapper(t) := backup[t]], backup - {t};
        }
      }
      forall t: Tool ensures Lookup(files, Wrapper(t)) == Alone(Lookup(before, Wrapper(t))) {
        assert t in tools;
      }
    }

    /** Wrappers and marker in the trap. Removing a marker that is a directory fails, which ends the trap there. */
    method RestoreFiles(ghost before: Files) returns (stuck: bool)
      requires BackupOf(before, backup) && oldManifest == Manifest(before)
      modifies this`files, this`backup, this`oldManifest
      ensures files == Back(old(files), before)
      ensures stuck <==> Lookup(old(files), Marker) == Some(Directory)
    {
      hide Wrappers, Manifest, Distinct, Complete, BackupOf, Back;
      WrappersAreAll();
      ghost var start := files;
      RestoreWrappers(Wrappers(), before);
      stuck := Lookup(files, Marker) == Some(Directory);
      assert Same(files, start, Marker);
      if !stuck {
        files := files - {Marker};
        if oldManifest.Some? {
          files, oldManifest := files[Marker := Program(oldManifest.value, Own)], None;
        }
      }
      forall p: Place ensures Same(files, Back(start, before), p) {
        BackIs(start, before, p);
        if p.Wrapper? {
          assert Lookup(files, Wrapper(p.tool)) == Alone(Lookup(before, Wrapper(p.tool)));
        } else if p.Other? {
          assert Same(files, start, p);
        }
      }
      SameEverywhere(files, Back(start, before));
    }

    /** The trap. Its own commands succeed, but for removing a directory in the place of the marker. */
    method Cleanup(committed: bool, rootChanged: bool, wrappersChanged: bool, ghost before: Files)
      requires !committed && wrappersChanged ==> BackupOf(before, backup) && oldManifest == Manifest(before)
      requires locked
      modifies this
      ensures committed ==> root == old(root) && previous == old(previous) && files == old(files) && !locked
      ensures !committed ==>
        && root == (if old(previous).RootDir? then old(previous) else if rootChanged then NoRoot else old(root))
        && previous == (if old(previous).RootDir? then NoRoot else old(previous))
        && files == (if wrappersChanged then Back(old(files), before) else old(files))
        && (locked <==> wrappersChanged && Lookup(old(files), Marker) == Some(Directory))
    {
      hide Back, Manifest, BackupOf;
      if !committed {
        if previous.RootDir? {
          root, previous := previous, NoRoot;
        } else if rootChanged {
          root := NoRoot;
        }
        if wrappersChanged {
          var stuck := RestoreFiles(before);
          if stuck {
            return;
          }
        }
      }
      backup, oldManifest, locked := map[], None, false;
    }

    /** Everything that is done before the live tool root is touched. */
    method Stage(layer: Layer) returns (ok: bool)
      requires backup == map[] && oldManifest == None
      modifies this`backup, this`oldManifest
      ensures ok <==> layer.sound && NoDirectories(files) && StagePasses(files, failing)
      ensures ok ==> BackupOf(files, backup) && oldManifest == Manifest(files)
    {
      if Fails(Space) {
        return false;
      }
      hide Wrappers, Manifest, IsDirectory;
      WrappersAreAll();
      ok := BackupWrappers(Wrappers());
      AllWrappers(files);
      if !ok {
        return false;
      }
      if Manifest(files).Some? {
        if Fails(BackupMarker) {
          return false;
        }
        oldManifest := Manifest(files);
      }
      return !Fails(Unpack) && layer.sound;
    }

    /** Swap the tool root. */
    method SwapRoot(layer: Layer) returns (ok: bool, rootChanged: bool)
      requires previous.NoRoot?
      modifies this`root, this`previous
      ensures ok <==> !old(root).RootFile? && !(Fails(SaveRoot) && old(root).RootDir?) && !Fails(PlaceRoot) && !Fails(DropPackages)
      ensures ok ==> rootChanged && root == RootDir(layer.name) && previous == old(root)
      ensures (if previous.RootDir? then previous else if rootChanged then NoRoot else root) == old(root)
      ensures !previous.RootFile?
    {
      rootChanged := false;
      if root.RootDir? {
        if Fails(SaveRoot) {
          return false, false;
        }
        previous, root := root, NoRoot;
      }
      if Fails(PlaceRoot) || root.RootFile? {
        return false, false;
      }
      root, rootChanged := RootDir(layer.name), true;
      return !Fails(DropPackages), true;
    }

    /** Redirect output to wherever a path leads: open and empty it, then fill it; `stops` says after how many
        characters the fill fails. */
    method Redirect(p: Place, text: string, open: Command, stops: Option<nat>) returns (ok: bool)
      modifies this`files
      ensures var target := Follow(old(files), p);
        if Fails(open) || !CanWrite(old(files), target) then !ok && files == old(files)
        else if stops.Some? then !ok && files == Put(old(files), target.value, Prefix(text, stops.value))
        else ok && files == Put(old(files), target.value, text)
    {
      hide Follow, Put, Prefix;
      var target := Follow(files, p);
      if Fails(open) || !CanWrite(files, target) {
        return false;
      }
      ghost var before := files;
      ResolvedPlain(files, p);
      files := Put(files, target.value, "");
      var written := if stops.Some? then Prefix(text, stops.value) else text;
      PutTwice(before, target.value, written);
      files := Put(files, target.value, written);
      return stops.None?;
    }

    /** The git script, its link, and trying it. */
    method PlaceGit() returns (ok: bool)
      modifies this`files
      ensures (files, ok) == AfterGit(old(files), failing)
    {
      hide Follow, Put, Runs, CanWrite, Prefix;
      ok := Redirect(Wrapper(A1625Git), GIT_SCRIPT, OpenGit,
                    if failing.Some? && failing.value.FillGit? then Some(failing.value.n) else None);
      if !ok || Fails(LinkGit) {
        return false;
      }
      files := files[Wrapper(Git) := TO_GIT];
      return !Fails(RunGit) && Runs(files) && !Fails(Zram);
    }

    /** Put the wrappers and the marker in place. */
    method ChangeWrappers(layer: Layer) returns (ok: bool)
      modifies this`files
      ensures (files, ok) == Changed(old(files), layer, failing)
    {
      hide LinkNames, LoopAt, Follow, AfterGit, Put, CanWrite, Prefix;
      if Fails(PlaceLauncher) {
        return false;
      }
      files := files[Wrapper(A1625Tool) := Program(layer.launcher, Own)];
      ok := LinkPrograms(layer, LinkNames());
      if !ok {
        return false;
      }
      ok := PlaceGit();
      if !ok {
        return false;
      }
      ok := Redirect(Marker, MarkerText(layer), OpenMarker,
                    if failing.Some? && failing.value.FillMarker? then Some(failing.value.n) else None);
    }

    /** The whole script: the final disk is Outcome's. */
    method Install(layer: Layer) returns (ok: bool)
      requires backup == map[] && oldManifest == None
      modifies this
      ensures State() == Outcome(old(State()), layer, failing)
      ensures ok <==> Commits(old(State()), layer, failing) && !(Fails(Discard) && old(root).RootDir?)
    {
      if Fails(Guard) || !previous.NoRoot? || Fails(Lock) || locked {
        return false;
      }
      hide Wrappers, Changed, Back, Manifest, NoDirectories, BackupOf;
      ghost var before := files;
      StageOrEarly(State(), failing);
      locked := true;
      var committed, rootChanged, wrappersChanged := false, false, false;
      ok := Stage(layer);
      if ok {
        ok, rootChanged := SwapRoot(layer);
        if ok {
          wrappersChanged := true;
          ok := ChangeWrappers(layer);
          committed := ok;
        }
      }
      if committed {
        if Fails(Discard) && previous.RootDir? {
          ok := false;
        } else {
          previous := NoRoot;
        }
      }
      Cleanup(committed, rootChanged, wrappersChanged, before);
    }
  }

  /** A loop that has stopped stays stopped. */
  lemma {:induction false} StoppedLoop(f: Files, programs: set<Tool>, tools: seq<Tool>, i: nat, n: nat, failing: Option<Command>)
    requires i <= n <= |tools| && !LoopAt(f, programs, tools, i, failing).1
    ensures LoopAt(f, programs, tools, n, failing) == LoopAt(f, programs, tools, i, failing)
  {
    if i < n {
      StoppedLoop(f, programs, tools, i, n - 1, failing);
    }
  }

  lemma PutTwice(f: Files, p: Place, text: string)
    requires !IsLink(f, p)
    ensures Put(Put(f, p, ""), p, text) == Put(f, p, text)
  {
    hide Put;
    var once, twice := Put(f, p, text), Put(Put(f, p, ""), p, text);
    forall q: Place ensures Same(twice, once, q) {
      PutAt(f, p, "", q);
      PutAt(f, p, "", p);
      PutAt(Put(f, p, ""), p, text, q);
      PutAt(f, p, text, q);
    }
    SameEverywhere(twice, once);
  }

  /** No injected failure stops the staging commands that are run. */
  predicate StagePasses(f: Files, failing: Option<Command>) {
    match failing
    case Some(Space) => false
    case Some(Unpack) => false
    case Some(BackupMarker) => Manifest(f).None?
    case Some(Backup(i)) => i >= |Wrappers()| || Wrapper(Wrappers()[i]) !in f
    case _ => true
  }

  lemma StageOrEarly(d: Disk, failing: Option<Command>)
    ensures StopsEarly(d, failing) <==>
      || !StagePasses(d.files, failing)
      || failing == Some(Guard) || failing == Some(Lock)
      || failing == Some(PlaceRoot) || failing == Some(DropPackages) || (failing == Some(SaveRoot) && d.root.RootDir?)
  {
    hide Manifest, Wrappers;
  }
}
