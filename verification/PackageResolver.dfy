/** The Alpine dependency resolver: a depth-first search with a seen set and a postorder list over a
    possibly cyclic index (A1625DevelopmentTools.psm1, lines 41-100). */
module PackageResolver {
  import opened Errno

  datatype Package = Package(name: string, version: int, depends: seq<string>, provided: seq<string>)

  // ---------- Atoms ----------

  predicate IsOperator(c: char) {
    c == '<' || c == '>' || c == '=' || c == '~'
  }

  predicate Versioned(atom: string) {
    exists i :: 0 <= i < |atom| && IsOperator(atom[i])
  }

  /** The atom up to its first version operator. */
  function Stem(atom: string): string {
    if atom == "" || IsOperator(atom[0]) then "" else [atom[0]] + Stem(atom[1..])
  }

  /** The name an atom asks for; alternatives are refused. */
  function DependencyName(atom: string): Option<string> {
    if '|' in atom then None else Some(Stem(atom))
  }

  predicate Negative(atom: string) {
    atom != "" && atom[0] == '!'
  }

  /** Supplied by the base system, never resolved. */
  const BASE_ATOM: string := "so:libc.musl-aarch64.so.1"

  // ---------- Index tables ----------

  /** The last package of each name. */
  function ByName(index: seq<Package>): map<string, Package> {
    if index == [] then map[]
    else var p := index[|index| - 1]; ByName(index[..|index| - 1])[p.name := p]
  }

  /** The table with `p` added as a provider of these atoms; None if one of them is an alternative. */
  function AddProvides(t: map<string, seq<Package>>, p: Package, atoms: seq<string>): Option<map<string, seq<Package>>> {
    if atoms == [] then Some(t)
    else
      var n := |atoms| - 1;
      match AddProvides(t, p, atoms[..n])
      case None => None
      case Some(u) =>
        match DependencyName(atoms[n])
        case None => None
        case Some(a) => Some(u[a := (if a in u then u[a] else []) + [p]])
  }

  /** All providers of each name, in index order. */
  function Providers(index: seq<Package>): Option<map<string, seq<Package>>> {
    if index == [] then Some(map[])
    else
      var n := |index| - 1;
      match Providers(index[..n])
      case None => None
      case Some(t) => AddProvides(t, index[n], index[n].provided)
  }

  /** What a search works on. `narrow` is how a versioned atom narrows its providers down. */
  datatype Tables = Tables(
    index: seq<Package>,
    byName: map<string, Package>,
    providers: map<string, seq<Package>>,
    narrow: (string, Package) -> bool)

  predicate Built(t: Tables) {
    t.byName == ByName(t.index) && Providers(t.index) == Some(t.providers)
  }

  // ---------- Looking an atom up ----------

  datatype Target = Skip | Found(package: Package) | Missing

  function Narrowed(ps: seq<Package>, atom: string, narrow: (string, Package) -> bool): seq<Package> {
    if ps == [] then []
    else
      var n := |ps| - 1;
      Narrowed(ps[..n], atom, narrow) + if narrow(atom, ps[n]) then [ps[n]] else []
  }

  function Candidates(t: Tables, atom: string, name: string): seq<Package> {
    var all := if name in t.providers then t.providers[name] else [];
    if Versioned(atom) then Narrowed(all, atom, t.narrow) else all
  }

  /** The first of the highest version. */
  function Newest(ps: seq<Package>): (p: Package)
    requires ps != []
    ensures p in ps
    ensures forall q :: q in ps ==> q.version <= p.version
  {
    var last := ps[|ps| - 1];
    if |ps| == 1 then last
    else
      var p := Newest(ps[..|ps| - 1]);
      if last.version > p.version then last else p
  }

  function Lookup(t: Tables, atom: string): Target {
    if Negative(atom) || atom == BASE_ATOM then Skip
    else
      match DependencyName(atom)
      case None => Missing
      case Some(name) =>
        if name in t.byName then Found(t.byName[name])
        else
          var cs := Candidates(t, atom, name);
          if cs == [] then Missing else Found(Newest(cs))
  }

  lemma {:induction false} ByNameInIndex(index: seq<Package>)
    ensures forall n :: n in ByName(index) ==> ByName(index)[n] in index && ByName(index)[n].name == n
    ensures forall p :: p in index ==> p.name in ByName(index)
  {
    if index != [] {
      ByNameInIndex(index[..|index| - 1]);
      assert index == index[..|index| - 1] + [index[|index| - 1]];
    }
  }

  lemma {:induction false} AddProvidesFrom(t: map<string, seq<Package>>, p: Package, atoms: seq<string>)
    ensures var r := AddProvides(t, p, atoms);
      r.Some? ==> forall n, q :: n in r.value && q in r.value[n] ==> q == p || (n in t && q in t[n])
  {
    if atoms != [] {
      AddProvidesFrom(t, p, atoms[..|atoms| - 1]);
    }
  }

  lemma {:induction false} ProvidersInIndex(index: seq<Package>)
    ensures var r := Providers(index);
      r.Some? ==> forall n, q :: n in r.value && q in r.value[n] ==> q in index
  {
    if index != [] {
      var n := |index| - 1;
      ProvidersInIndex(index[..n]);
      if Providers(index[..n]).Some? {
        AddProvidesFrom(Providers(index[..n]).value, index[n], index[n].provided);
      }
      assert index == index[..n] + [index[n]];
    }
  }

  lemma {:induction false} NarrowedFrom(ps: seq<Package>, atom: string, narrow: (string, Package) -> bool)
    ensures forall q :: q in Narrowed(ps, atom, narrow) <==> q in ps && narrow(atom, q)
  {
    if ps != [] {
      NarrowedFrom(ps[..|ps| - 1], atom, narrow);
      assert ps == ps[..|ps| - 1] + [ps[|ps| - 1]];
    }
  }

  /** Whatever a lookup finds is in the index. */
  lemma FoundInIndex(t: Tables, atom: string)
    requires Built(t)
    ensures Lookup(t, atom).Found? ==> Lookup(t, atom).package in t.index
  {
    ByNameInIndex(t.index);
    ProvidersInIndex(t.index);
    match DependencyName(atom)
    case None =>
    case Some(name) =>
      var all := if name in t.providers then t.providers[name] else [];
      NarrowedFrom(all, atom, t.narrow);
  }

  // ---------- What an atom finds ----------

  /** The name in an atom ends before its first version operator. */
  lemma {:induction false} StemIs(atom: string)
    ensures Stem(atom) <= atom && forall i :: 0 <= i < |Stem(atom)| ==> atom[i] !in "<>=~"
    ensures |Stem(atom)| < |atom| ==> atom[|Stem(atom)|] in "<>=~"
  {
    if atom != "" && !IsOperator(atom[0]) {
      StemIs(atom[1..]);
      assert atom == [atom[0]] + atom[1..];
    }
  }

  /** One of the package's provided atoms has this name. */
  ghost predicate Provides(p: Package, name: string) {
    exists a :: a in p.provided && '|' !in a && Stem(a) == name
  }

  lemma {:induction false} AddProvidesHas(t: map<string, seq<Package>>, p: Package, atoms: seq<string>, name: string, q: Package)
    ensures AddProvides(t, p, atoms) == None <==> exists a :: a in atoms && '|' in a
    ensures var r := AddProvides(t, p, atoms);
      r.Some? ==> (name in r.value && q in r.value[name] <==>
        (name in t && q in t[name]) || (q == p && exists a :: a in atoms && '|' !in a && Stem(a) == name))
  {
    if atoms != [] {
      var n := |atoms| - 1;
      AddProvidesHas(t, p, atoms[..n], name, q);
      assert atoms == atoms[..n] + [atoms[n]];
    }
  }

  /** The table has exactly the providers; there is none exactly if some provided atom is an alternative. */
  lemma {:induction false} ProvidersAre(index: seq<Package>, name: string, q: Package)
    ensures Providers(index) == None <==> exists p, a :: p in index && a in p.provided && '|' in a
    ensures var r := Providers(index);
      r.Some? ==> (name in r.value && q in r.value[name] <==> q in index && Provides(q, name))
  {
    if index != [] {
      var n := |index| - 1;
      var front, last := index[..n], index[n];
      ProvidersAre(front, name, q);
      assert index == front + [last];
      if Providers(front).Some? {
        AddProvidesHas(Providers(front).value, last, last.provided, name, q);
      }
    }
  }

  lemma {:induction false} LastOfName(index: seq<Package>, name: string)
    ensures name in ByName(index) <==> exists p :: p in index && p.name == name
    ensures name in ByName(index) ==>
      exists i :: 0 <= i < |index| && LastNamed(index, name, i) && ByName(index)[name] == index[i]
  {
    if index != [] {
      var n := |index| - 1;
      var front := index[..n];
      assert index == front + [index[n]];
      if index[n].name == name {
        assert LastNamed(index, name, n);
      } else {
        LastOfName(front, name);
        if name in ByName(front) {
          var i :| 0 <= i < n && LastNamed(front, name, i) && ByName(front)[name] == front[i];
          assert LastNamed(index, name, i) && index[i] == front[i];
        }
      }
    }
  }

  /** The last package of this name. */
  predicate LastNamed(index: seq<Package>, name: string, i: nat) {
    i < |index| && index[i].name == name && forall j :: i < j < |index| ==> index[j].name != name
  }

  /** A package that may satisfy the atom by what it provides. */
  ghost predicate Candidate(t: Tables, atom: string, p: Package) {
    p in t.index && Provides(p, Stem(atom)) && ((exists c :: c in "<>=~" && c in atom) ==> t.narrow(atom, p))
  }

  lemma VersionedIff(atom: string)
    ensures Versioned(atom) <==> exists c :: c in "<>=~" && c in atom
  {
    if c :| c in "<>=~" && c in atom {
      var i :| 0 <= i < |atom| && atom[i] == c;
      assert IsOperator(atom[i]);
    }
    if i :| 0 <= i < |atom| && IsOperator(atom[i]) {
      assert atom[i] in "<>=~" && atom[i] in atom;
    }
  }

  lemma CandidatesAre(t: Tables, atom: string, p: Package)
    requires Built(t)
    ensures p in Candidates(t, atom, Stem(atom)) <==> Candidate(t, atom, p)
  {
    var name := Stem(atom);
    VersionedIff(atom);
    ProvidersAre(t.index, name, p);
    var all := if name in t.providers then t.providers[name] else [];
    NarrowedFrom(all, atom, t.narrow);
  }

  /** What an atom that is neither negative nor of the base system finds: nothing if it is an alternative; else the last
      package of its name if there is one; else a candidate of the highest version; and nothing if there is none. */
  lemma FoundExactly(t: Tables, atom: string)
    requires Built(t) && (atom == "" || atom[0] != '!') && atom != "so:libc.musl-aarch64.so.1"
    ensures var named := exists p :: p in t.index && p.name == Stem(atom);
      match Lookup(t, atom)
      case Skip => false
      case Missing => '|' in atom || (!named && !exists p :: Candidate(t, atom, p))
      case Found(p) =>
        && '|' !in atom
        && (named ==> exists i: nat :: LastNamed(t.index, Stem(atom), i) && p == t.index[i])
        && (!named ==> Candidate(t, atom, p) && forall q :: Candidate(t, atom, q) ==> q.version <= p.version)
  {
    hide Candidates, Candidate, Stem, Versioned, Provides;
    var name := Stem(atom);
    LastOfName(t.index, name);
    forall p ensures p in Candidates(t, atom, name) <==> Candidate(t, atom, p) {
      CandidatesAre(t, atom, p);
    }
    if '|' !in atom && name !in t.byName && Candidates(t, atom, name) == [] {
      assert forall p :: p !in Candidates(t, atom, name);
    }
  }

  // ---------- The dependency graph ----------

  predicate Edge(t: Tables, p: Package, q: Package) {
    p in t.index && exists d :: d in p.depends && Lookup(t, d) == Found(q)
  }

  predicate Walk(t: Tables, path: seq<Package>) {
    forall i :: 0 <= i < |path| - 1 ==> Edge(t, path[i], path[i + 1])
  }

  predicate Ends(t: Tables, path: seq<Package>, p: Package) {
    path != [] && Walk(t, path) && path[|path| - 1] == p
  }

  /** Some package named `name` leads to `p` by zero or more dependencies. */
  ghost predicate Leads(t: Tables, name: string, p: Package) {
    exists path: seq<Package> :: Ends(t, path, p) && path[0].name == name
  }

  /** The package is what a root asks for, or follows from it through dependencies. */
  ghost predicate Reachable(t: Tables, roots: seq<string>, p: Package) {
    exists path: seq<Package> :: Ends(t, path, p) && RootTarget(t, roots, path[0])
  }

  predicate RootTarget(t: Tables, roots: seq<string>, p: Package) {
    exists r :: r in roots && Lookup(t, r) == Found(p)
  }

  /** An atom the search has to look up. */
  ghost predicate Wanted(t: Tables, roots: seq<string>, atom: string) {
    atom in roots || exists p :: Reachable(t, roots, p) && p in t.index && atom in p.depends
  }

  function Names(ps: seq<Package>): set<string> {
    set p | p in ps :: p.name
  }

  // ---------- What a resolution is ----------

  /** Dependency `q` of the i-th package comes earlier, or leads back to that package. */
  ghost predicate Settled(t: Tables, ps: seq<Package>, i: nat, q: Package)
    requires i < |ps|
  {
    q.name in Names(ps[..i]) || Leads(t, q.name, ps[i])
  }

  ghost predicate Ordered(t: Tables, ps: seq<Package>) {
    forall i, d :: 0 <= i < |ps| && d in ps[i].depends ==>
      match Lookup(t, d)
      case Skip => true
      case Missing => false
      case Found(q) => Settled(t, ps, i, q)
  }

  predicate Distinct(ps: seq<Package>) {
    forall i, j :: 0 <= i < j < |ps| ==> ps[i].name != ps[j].name
  }

  /** Dependencies of these packages are among the names. */
  predicate Closed(t: Tables, ps: seq<Package>, names: set<string>) {
    forall p, d :: p in ps && d in p.depends ==> Within(t, d, names)
  }

  /** What the atom stands for, if anything, is among the names. */
  predicate Within(t: Tables, atom: string, names: set<string>) {
    match Lookup(t, atom)
    case Skip => true
    case Missing => false
    case Found(q) => q.name in names
  }

  predicate Covers(t: Tables, names: set<string>, atoms: seq<string>) {
    forall r :: r in atoms ==> Within(t, r, names)
  }

  /** A dependency of the form !x that names a member, or that cannot be read. */
  predicate Clash(ps: seq<Package>, d: string) {
    Negative(d) && match DependencyName(d[1..]) case None => true case Some(x) => x in Names(ps)
  }

  predicate Peaceful(ps: seq<Package>) {
    forall p, d :: p in ps && d in p.depends ==> !Clash(ps, d)
  }

  /** A successful resolution. */
  ghost predicate IsResolution(t: Tables, roots: seq<string>, ps: seq<Package>) {
    && Distinct(ps) && Ordered(t, ps) && Peaceful(ps)
    && Closed(t, ps, Names(ps)) && Covers(t, Names(ps), roots)
    && forall p :: p in ps ==> p in t.index && Reachable(t, roots, p)
  }

  // ---------- The search ----------

  /** The state between two visits: `stack` are the packages being visited, outermost first. */
  ghost predicate Invariant(t: Tables, roots: seq<string>, seen: set<string>, resolved: seq<Package>, stack: seq<Package>) {
    && Built(t)
    && Walk(t, stack) && (stack != [] ==> RootTarget(t, roots, stack[0]))
    && (forall p :: p in stack || p in resolved ==> p in t.index)
    && seen == Names(resolved) + Names(stack)
    && Names(resolved) !! Names(stack)
    && Distinct(resolved)
    && Ordered(t, resolved) && Closed(t, resolved, seen)
    && forall p :: p in resolved ==> Reachable(t, roots, p)
  }

  /** Atoms that may be visited with this stack: roots, or dependencies of the package on top. */
  predicate Askable(roots: seq<string>, stack: seq<Package>, atom: string) {
    if stack == [] then atom in roots else atom in stack[|stack| - 1].depends
  }

  lemma StackReaches(t: Tables, roots: seq<string>, stack: seq<Package>)
    requires stack != [] && Walk(t, stack) && RootTarget(t, roots, stack[0])
    ensures Reachable(t, roots, stack[|stack| - 1])
  {
    assert Ends(t, stack, stack[|stack| - 1]);
  }

  lemma InvariantBuilt(t: Tables, roots: seq<string>, seen: set<string>, resolved: seq<Package>, stack: seq<Package>)
    requires Invariant(t, roots, seen, resolved, stack)
    ensures Built(t)
  {
  }

  lemma AskableIsWanted(t: Tables, roots: seq<string>, seen: set<string>, resolved: seq<Package>, stack: seq<Package>, atom: string)
    requires Invariant(t, roots, seen, resolved, stack) && Askable(roots, stack, atom)
    ensures Wanted(t, roots, atom)
  {
    if stack != [] {
      StackReaches(t, roots, stack);
    }
  }

  lemma ClosedGrows(t: Tables, ps: seq<Package>, names: set<string>, more: set<string>)
    requires Closed(t, ps, names) && names <= more
    ensures Closed(t, ps, more)
  {
    forall p, d | p in ps && d in p.depends ensures Within(t, d, more) {
      assert Within(t, d, names);
    }
  }

  /** Starting to visit a package nobody has seen keeps the invariant. */
  lemma Push(t: Tables, roots: seq<string>, seen: set<string>, resolved: seq<Package>, stack: seq<Package>, atom: string, p: Package)
    requires Invariant(t, roots, seen, resolved, stack) && Askable(roots, stack, atom)
    requires Lookup(t, atom) == Found(p) && p.name !in seen
    ensures Invariant(t, roots, seen + {p.name}, resolved, stack + [p])
    ensures p.name !in Names(stack)
  {
    hide Ordered, Reachable, Closed, Lookup;
    FoundInIndex(t, atom);
    ClosedGrows(t, resolved, seen, seen + {p.name});
    var longer := stack + [p];
    forall i | 0 <= i < |longer| - 1 ensures Edge(t, longer[i], longer[i + 1]) {
      if i < |stack| - 1 {
        assert Edge(t, stack[i], stack[i + 1]);
      }
    }
    assert Names(longer) == Names(stack) + {p.name};
  }

  /** The package on top, all of whose dependencies have been seen, may follow the resolved ones. */
  lemma PopOrdered(t: Tables, resolved: seq<Package>, stack: seq<Package>)
    requires stack != [] && Walk(t, stack) && Ordered(t, resolved)
    requires forall d :: d in stack[|stack| - 1].depends ==> Within(t, d, Names(resolved) + Names(stack))
    ensures Ordered(t, resolved + [stack[|stack| - 1]])
  {
    var p := stack[|stack| - 1];
    var more := resolved + [p];
    forall i, d | 0 <= i < |more| && d in more[i].depends
      ensures match Lookup(t, d) case Skip => true case Missing => false case Found(q) => Settled(t, more, i, q)
    {
      if i < |resolved| {
        assert d in resolved[i].depends;
        assert more[..i] == resolved[..i];
      } else {
        assert more[..i] == resolved;
        assert Within(t, d, Names(resolved) + Names(stack));
        if Lookup(t, d).Found? && Lookup(t, d).package.name !in Names(resolved) {
          TopIsLed(t, stack, Lookup(t, d).package.name);
        }
      }
    }
  }

  /** Everything on the stack leads to its top. */
  lemma TopIsLed(t: Tables, stack: seq<Package>, name: string)
    requires stack != [] && Walk(t, stack) && name in Names(stack)
    ensures Leads(t, name, stack[|stack| - 1])
  {
    var k :| 0 <= k < |stack| && stack[k].name == name;
    assert Ends(t, stack[k..], stack[|stack| - 1]);
  }

  /** Finishing a package, all of whose dependencies have been visited, keeps the invariant. */
  lemma Pop(t: Tables, roots: seq<string>, seen: set<string>, resolved: seq<Package>, stack: seq<Package>)
    requires stack != [] && Invariant(t, roots, seen, resolved, stack)
    requires stack[|stack| - 1].name !in Names(stack[..|stack| - 1])
    requires forall d :: d in stack[|stack| - 1].depends ==> Within(t, d, seen)
    ensures Invariant(t, roots, seen, resolved + [stack[|stack| - 1]], stack[..|stack| - 1])
  {
    hide Ordered, Reachable, Lookup;
    var n := |stack| - 1;
    var p := stack[n];
    StackReaches(t, roots, stack);
    PopOrdered(t, resolved, stack);
    assert stack == stack[..n] + [p];
    assert Names(resolved + [p]) == Names(resolved) + {p.name};
    assert Names(stack) == Names(stack[..n]) + {p.name};
  }

  datatype Outcome =
    | Resolved(packages: seq<Package>)
    | Unresolvable(atom: string)
    | Conflict(atom: string)
    | BadIndex

  class Search {
    const t: Tables
    var seen: set<string>
    var resolved: seq<Package>

    constructor (t: Tables)
      ensures this.t == t && seen == {} && resolved == []
    {
      this.t := t;
      seen, resolved := {}, [];
    }

    /** Resolve one atom and everything it needs; None on success, otherwise the atom that cannot be resolved. */
    method Visit(atom: string, ghost roots: seq<string>, ghost stack: seq<Package>) returns (bad: Option<string>)
      requires Invariant(t, roots, seen, resolved, stack) && Askable(roots, stack, atom)
      modifies this
      ensures bad == None ==> Invariant(t, roots, seen, resolved, stack) && old(seen) <= seen
      ensures bad == None ==> Within(t, atom, seen)
      ensures bad.Some? ==> Wanted(t, roots, bad.value) && Lookup(t, bad.value) == Missing
      decreases Names(t.index) - seen
    {
      hide Invariant, Wanted;
      AskableIsWanted(t, roots, seen, resolved, stack, atom);
      if Negative(atom) {
        return None;
      }
      if atom == BASE_ATOM {
        return None;
      }
      var name := DependencyName(atom);
      if name == None {
        return Some(atom);
      }
      var candidate;
      if name.value in t.byName {
        candidate := t.byName[name.value];
      } else {
        var matches := Candidates(t, atom, name.value);
        if matches == [] {
          return Some(atom);
        }
        candidate := Newest(matches);
      }
      InvariantBuilt(t, roots, seen, resolved, stack);
      FoundInIndex(t, atom);
      if candidate.name in seen {
        return None;
      }
      Push(t, roots, seen, resolved, stack, atom, candidate);
      ghost var before := seen;
      ghost var inner := stack + [candidate];
      seen := seen + {candidate.name};
      var i := 0;
      while i < |candidate.depends|
        invariant 0 <= i <= |candidate.depends|
        invariant before + {candidate.name} <= seen && Invariant(t, roots, seen, resolved, inner)
        invariant forall k :: 0 <= k < i ==> Within(t, candidate.depends[k], seen)
      {
        bad := Visit(candidate.depends[i], roots, inner);
        if bad != None {
          return;
        }
        i := i + 1;
      }
      assert inner[..|inner| - 1] == stack;
      Pop(t, roots, seen, resolved, inner);
      resolved := resolved + [candidate];
      return None;
    }
  }

  // ---------- The whole resolution ----------

  method BuildByName(index: seq<Package>) returns (m: map<string, Package>)
    ensures m == ByName(index)
  {
    m := map[];
    for i := 0 to |index|
      invariant m == ByName(index[..i])
    {
      m := m[index[i].name := index[i]];
      assert index[..i + 1][..i] == index[..i];
    }
    assert index[..|index|] == index;
  }

  method BuildProviders(index: seq<Package>) returns (r: Option<map<string, seq<Package>>>)
    ensures r == Providers(index)
  {
    var m: map<string, seq<Package>> := map[];
    for i := 0 to |index|
      invariant Some(m) == Providers(index[..i])
    {
      var p := index[i];
      ghost var before := m;
      for k := 0 to |p.provided|
        invariant Some(m) == AddProvides(before, p, p.provided[..k])
      {
        assert p.provided[..k + 1][..k] == p.provided[..k];
        var atom := DependencyName(p.provided[k]);
        if atom == None {
          AddFails(before, p, p.provided, k);
          assert index[..i + 1][..i] == index[..i];
          ProvidersFail(index, i);
          return None;
        }
        if atom.value !in m {
          m := m[atom.value := []];
        }
        m := m[atom.value := m[atom.value] + [p]];
        ghost var u := AddProvides(before, p, p.provided[..k]).value;
        assert m == u[atom.value := (if atom.value in u then u[atom.value] else []) + [p]];
      }
      assert p.provided[..|p.provided|] == p.provided;
      assert index[..i + 1][..i] == index[..i];
    }
    assert index[..|index|] == index;
    return Some(m);
  }

  lemma {:induction false} AddFails(t: map<string, seq<Package>>, p: Package, atoms: seq<string>, k: nat)
    requires k < |atoms| && DependencyName(atoms[k]) == None
    ensures AddProvides(t, p, atoms) == None
    decreases |atoms|
  {
    if k < |atoms| - 1 {
      AddFails(t, p, atoms[..|atoms| - 1], k);
    }
  }

  lemma {:induction false} ProvidersFail(index: seq<Package>, i: nat)
    requires i < |index| && Providers(index[..i + 1]) == None
    ensures Providers(index) == None
    decreases |index|
  {
    if i + 1 == |index| {
      assert index[..i + 1] == index;
    } else {
      var front := index[..|index| - 1];
      assert front[..i + 1] == index[..i + 1];
      ProvidersFail(front, i);
    }
  }

  /** What !x forbids cannot be read, or is needed as well. */
  ghost predicate Forbidden(t: Tables, roots: seq<string>, d: string)
    requires Negative(d)
  {
    match DependencyName(d[1..])
    case None => true
    case Some(x) => exists p: Package :: p.name == x && p in t.index && Reachable(t, roots, p)
  }

  /** On success the packages are distinct, closed under dependencies, all needed, in dependency order and
      free of conflicts; every other outcome names its reason. */
  method Resolve(index: seq<Package>, roots: seq<string>, narrow: (string, Package) -> bool)
    returns (r: Outcome, ghost t: Tables)
    ensures r == BadIndex <==> Providers(index) == None
    ensures r != BadIndex ==> Built(t) && t.index == index && t.narrow == narrow
    ensures r.Resolved? ==> IsResolution(t, roots, r.packages)
    ensures r.Unresolvable? ==> Wanted(t, roots, r.atom) && Lookup(t, r.atom) == Missing
    ensures r.Conflict? ==> Wanted(t, roots, r.atom) && Negative(r.atom) && Forbidden(t, roots, r.atom)
  {
    hide Ordered, Lookup, Reachable, Closed, Distinct, Peaceful, Covers, Wanted, Forbidden, IsResolution, Invariant;
    var byName := BuildByName(index);
    var providers := BuildProviders(index);
    if providers == None {
      t := Tables(index, byName, map[], narrow);
      return BadIndex, t;
    }
    var tables := Tables(index, byName, providers.value, narrow);
    t := tables;
    var search := new Search(tables);
    var bad := VisitRoots(search, roots);
    if bad != None {
      return Unresolvable(bad.value), t;
    }
    r := CheckConflicts(search, roots);
    if r.Resolved? {
      Finished(tables, roots, search.seen, search.resolved);
    }
  }

  lemma Finished(t: Tables, roots: seq<string>, seen: set<string>, ps: seq<Package>)
    requires Invariant(t, roots, seen, ps, []) && Covers(t, seen, roots) && Peaceful(ps)
    ensures IsResolution(t, roots, ps)
  {
    hide Ordered, Lookup;
    assert Names([]) == {} && seen == Names(ps);
  }

  method VisitRoots(search: Search, roots: seq<string>) returns (bad: Option<string>)
    requires Built(search.t) && search.seen == {} && search.resolved == []
    modifies search
    ensures bad == None ==> Invariant(search.t, roots, search.seen, search.resolved, [])
    ensures bad == None ==> Covers(search.t, search.seen, roots)
    ensures bad.Some? ==> Wanted(search.t, roots, bad.value) && Lookup(search.t, bad.value) == Missing
  {
    hide Lookup;
    for i := 0 to |roots|
      invariant Invariant(search.t, roots, search.seen, search.resolved, [])
      invariant Covers(search.t, search.seen, roots[..i])
    {
      ghost var before := search.seen;
      bad := search.Visit(roots[i], roots, []);
      if bad != None {
        return;
      }
      CoversGrows(search.t, before, search.seen, roots[..i]);
      assert roots[..i + 1] == roots[..i] + [roots[i]];
    }
    assert roots[..|roots|] == roots;
    return None;
  }

  lemma CoversGrows(t: Tables, names: set<string>, more: set<string>, atoms: seq<string>)
    requires Covers(t, names, atoms) && names <= more
    ensures Covers(t, more, atoms)
  {
    forall r | r in atoms ensures Within(t, r, more) {
      assert Within(t, r, names);
    }
  }

  /** The check over all resolved packages at the end. */
  method CheckConflicts(search: Search, ghost roots: seq<string>) returns (r: Outcome)
    requires Invariant(search.t, roots, search.seen, search.resolved, [])
    ensures r.Resolved? || r.Conflict?
    ensures r.Resolved? ==> r.packages == search.resolved && Peaceful(search.resolved)
    ensures r.Conflict? ==>
      Wanted(search.t, roots, r.atom) && Negative(r.atom) && Forbidden(search.t, roots, r.atom)
  {
    hide Ordered, Closed, Invariant, Clash, Wanted, Forbidden;
    var ps := search.resolved;
    for i := 0 to |ps|
      invariant forall j, d :: 0 <= j < i && d in ps[j].depends ==> !Clash(ps, d)
    {
      var clash := FirstClash(search, ps[i], roots);
      if clash.Some? {
        return Conflict(clash.value);
      }
    }
    AllPeaceful(ps);
    return Resolved(ps);
  }

  lemma AllPeaceful(ps: seq<Package>)
    requires forall j, d :: 0 <= j < |ps| && d in ps[j].depends ==> !Clash(ps, d)
    ensures Peaceful(ps)
  {
    hide Clash;
  }

  /** The first dependency of a member that names, after its !, another member. */
  method FirstClash(search: Search, p: Package, ghost roots: seq<string>) returns (clash: Option<string>)
    requires Invariant(search.t, roots, search.seen, search.resolved, []) && p in search.resolved
    ensures clash.None? ==> forall d :: d in p.depends ==> !Clash(search.resolved, d)
    ensures clash.Some? ==>
      Wanted(search.t, roots, clash.value) && Negative(clash.value) && Forbidden(search.t, roots, clash.value)
  {
    hide Ordered, Closed, Invariant, Forbidden, Wanted, Clash;
    var depends := p.depends;
    for k := 0 to |depends|
      invariant forall h :: 0 <= h < k ==> !Clash(search.resolved, depends[h])
    {
      var d := depends[k];
      ClashMeans(search.t, roots, search.seen, search.resolved, p, d);
      if Negative(d) {
        var name := DependencyName(d[1..]);
        if name == None || name.value in search.seen {
          return Some(d);
        }
      }
    }
    return None;
  }

  /** A negative dependency clashes exactly if it cannot be read or names a package that has been seen. */
  lemma ClashMeans(t: Tables, roots: seq<string>, seen: set<string>, ps: seq<Package>, p: Package, d: string)
    requires Invariant(t, roots, seen, ps, []) && p in ps && d in p.depends
    ensures Clash(ps, d) <==> Negative(d) && (DependencyName(d[1..]) == None || DependencyName(d[1..]).value in seen)
    ensures Clash(ps, d) ==> Wanted(t, roots, d) && Forbidden(t, roots, d)
  {
    hide Ordered, Closed;
  }

  // ---------- What the order means ----------

  /** No chain of dependencies comes back to a name it started from. */
  ghost predicate Acyclic(t: Tables) {
    forall p: Package, q: Package :: Edge(t, p, q) ==> !Leads(t, q.name, p)
  }

  /** Without cycles the result is a topological order: every dependency comes strictly before. */
  lemma TopologicalOrder(t: Tables, ps: seq<Package>, i: nat, d: string)
    requires Ordered(t, ps) && Acyclic(t) && i < |ps| && ps[i] in t.index
    requires d in ps[i].depends && Lookup(t, d).Found?
    ensures exists j :: 0 <= j < i && ps[j].name == Lookup(t, d).package.name
  {
    var q := Lookup(t, d).package;
    assert Edge(t, ps[i], q);
    assert Settled(t, ps, i, q);
  }

  /** Every needed package is in the result, by name, when names are unique in the index. */
  lemma {:induction false} NothingMissing(t: Tables, roots: seq<string>, ps: seq<Package>, path: seq<Package>)
    requires Built(t) && Closed(t, ps, Names(ps)) && Covers(t, Names(ps), roots)
    requires forall p, q :: p in t.index && q in t.index && p.name == q.name ==> p == q
    requires forall p :: p in ps ==> p in t.index
    requires path != [] && Walk(t, path) && RootTarget(t, roots, path[0])
    ensures path[|path| - 1] in ps
  {
    var n := |path| - 1;
    var last := path[n];
    if n == 0 {
      var r :| r in roots && Lookup(t, r) == Found(last);
      FoundInIndex(t, r);
      assert Within(t, r, Names(ps));
    } else {
      NothingMissing(t, roots, ps, path[..n]);
      assert Edge(t, path[n - 1], path[n]);
      var d :| d in path[n - 1].depends && Lookup(t, d) == Found(last);
      FoundInIndex(t, d);
      assert Within(t, d, Names(ps));
    }
  }
}
