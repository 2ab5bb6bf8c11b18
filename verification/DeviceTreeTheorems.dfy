/** What the device tree parser accepts and returns: round trip, prefix rejection, duplicate paths and
    the shape of every accepted result. */
module DeviceTreeTheorems {
  import opened Errno
  import opened Octets
  import opened AppleDeviceTree

  /** `flags` says for each property whether its length has the top bit set. */
  datatype Tree = Tree(props: seq<Prop>, flags: seq<bool>, children: Forest)
  datatype Forest = End | More(first: Tree, rest: Forest)

  function Length(f: Forest): nat {
    match f case End => 0 case More(_, rest) => 1 + Length(rest)
  }

  // ---------- The serializer ----------

  /** The property can be written: the key fits its field, and the length its 31 bits. */
  predicate Fits(p: Prop) {
    |p.key| <= 32 && 0 !in p.key && |p.value| < 0x8000_0000
  }

  /** The tree can be written, whether or not the parser will take it. */
  predicate Encodable(t: Tree)
    decreases t
  {
    && |t.flags| == |t.props| < 0x1_0000_0000 && (forall i :: 0 <= i < |t.props| ==> Fits(t.props[i]))
    && Length(t.children) < 0x1_0000_0000 && EncodableAll(t.children)
  }

  predicate EncodableAll(f: Forest)
    decreases f
  {
    f.More? ==> Encodable(f.first) && EncodableAll(f.rest)
  }

  /** The keys up to n are ASCII and different. */
  predicate GoodKeys(ps: seq<Prop>, n: nat)
    requires n <= |ps|
  {
    && (forall i :: 0 <= i < n ==> Ascii(ps[i].key))
    && (forall i, j :: 0 <= i < j < n ==> ps[i].key != ps[j].key)
  }

  predicate GoodProps(ps: seq<Prop>) {
    |ps| <= 4096 && GoodKeys(ps, |ps|)
  }

  /** A tree within the parser's limits; equal sibling names are not excluded. Only the root's name may have a slash. */
  predicate GoodTree(t: Tree, depth: nat)
    decreases t
  {
    && depth <= 64 && GoodProps(t.props) && Length(t.children) <= 4096 && GoodForest(t.children, depth + 1)
    && var name := NodeName(t.props); name != [] && Ascii(name) && (depth > 0 ==> 0x2f !in name)
  }

  predicate GoodForest(f: Forest, depth: nat)
    decreases f
  {
    f.More? ==> GoodTree(f.first, depth) && GoodForest(f.rest, depth)
  }

  /** The length with the flag in its top bit. */
  function LengthWord(size: nat, flag: bool): nat
    requires size < 0x8000_0000
    ensures LengthWord(size, flag) < 0x1_0000_0000 && LengthWord(size, flag) % 0x8000_0000 == size
  {
    if flag then size + 0x8000_0000 else size
  }

  function SerializeProp(p: Prop, flag: bool): seq<Byte>
    requires Fits(p)
  {
    p.key + Zeros(32 - |p.key|) + Pack32(LengthWord(|p.value|, flag)) + p.value + Zeros(Padding(|p.value|))
  }

  /** The properties from the i-th on. */
  function SerializeProps(ps: seq<Prop>, fs: seq<bool>, i: nat): seq<Byte>
    requires i <= |ps| == |fs| && forall k :: 0 <= k < |ps| ==> Fits(ps[k])
    decreases |ps| - i
  {
    if i == |ps| then [] else SerializeProp(ps[i], fs[i]) + SerializeProps(ps, fs, i + 1)
  }

  function Serialize(t: Tree): seq<Byte>
    requires Encodable(t)
    decreases t
  {
    Pack32(|t.props|) + Pack32(Length(t.children)) + SerializeProps(t.props, t.flags, 0) + SerializeAll(t.children)
  }

  function SerializeAll(f: Forest): seq<Byte>
    requires EncodableAll(f)
    decreases f
  {
    match f case End => [] case More(t, rest) => Serialize(t) + SerializeAll(rest)
  }

  // ---------- The expected dictionary ----------

  function Flatten(t: Tree, parent: Text, depth: nat): (r: seq<Entry>)
    decreases t
  {
    var path := PathOf(parent, NodeName(t.props), depth);
    [Entry(path, t.props)] + FlattenAll(t.children, path, depth + 1)
  }

  function FlattenAll(f: Forest, parent: Text, depth: nat): seq<Entry>
    decreases f
  {
    match f case End => [] case More(t, rest) => Flatten(t, parent, depth) + FlattenAll(rest, parent, depth)
  }

  /** The paths of `more` are different from each other and from those of `nodes`. */
  predicate Fresh(nodes: seq<Entry>, more: seq<Entry>) {
    && (forall i, j :: 0 <= i < |nodes| && 0 <= j < |more| ==> nodes[i].path != more[j].path)
    && (forall i, j :: 0 <= i < j < |more| ==> more[i].path != more[j].path)
  }

  lemma FreshConcat(nodes: seq<Entry>, a: seq<Entry>, b: seq<Entry>)
    ensures Fresh(nodes, a + b) <==> Fresh(nodes, a) && Fresh(nodes + a, b)
  {
    var ab, na := a + b, nodes + a;
    if Fresh(nodes, ab) {
      forall i, j | 0 <= i < |na| && 0 <= j < |b| ensures na[i].path != b[j].path {
        assert ab[|a| + j] == b[j];
        if i >= |nodes| {
          assert ab[i - |nodes|] == na[i];
        }
      }
      forall i, j | 0 <= i < |nodes| && 0 <= j < |a| ensures nodes[i].path != a[j].path {
        assert ab[j] == a[j];
      }
      forall i, j | 0 <= i < j < |b| ensures b[i].path != b[j].path {
        assert ab[|a| + i] == b[i] && ab[|a| + j] == b[j];
      }
      forall i, j | 0 <= i < j < |a| ensures a[i].path != a[j].path {
        assert ab[i] == a[i] && ab[j] == a[j];
      }
    }
    if Fresh(nodes, a) && Fresh(na, b) {
      forall i, j | 0 <= i < |nodes| && 0 <= j < |ab| ensures nodes[i].path != ab[j].path {
        assert na[i] == nodes[i];
      }
      forall i, j | 0 <= i < j < |ab| ensures ab[i].path != ab[j].path {
        if i < |a| <= j {
          assert na[|nodes| + i] == a[i];
        }
      }
    }
  }

  lemma FreshOne(nodes: seq<Entry>, e: Entry)
    ensures Fresh(nodes, [e]) <==> !HasPath(nodes, e.path)
  {
    assert [e][0] == e;
  }

  // ---------- Round trip ----------

  lemma Regroup<T>(a: seq<T>, b: seq<T>, c: seq<T>)
    ensures a + b + c == a + (b + c)
  {
  }

  /** `s` is in the data at `offset`. */
  predicate At(data: seq<Byte>, offset: nat, s: seq<Byte>) {
    offset + |s| <= |data| && data[offset..offset + |s|] == s
  }

  lemma AtConcat(data: seq<Byte>, offset: nat, a: seq<Byte>, b: seq<Byte>)
    requires At(data, offset, a + b)
    ensures At(data, offset, a) && At(data, offset + |a|, b)
    ensures offset + |a| <= offset + |a| + |b| <= |data|
  {
    var s := a + b;
    assert s[..|a|] == a && s[|a|..] == b;
    assert data[offset..offset + |s|][..|a|] == data[offset..offset + |a|];
    assert data[offset..offset + |s|][|a|..] == data[offset + |a|..offset + |s|];
  }

  lemma {:induction false} KeyComesBack(key: Text, n: nat)
    requires 0 !in key
    ensures BeforeZero(key + Zeros(n)) == key
    decreases |key|
  {
    var s := key + Zeros(n);
    if key == [] {
      assert s == Zeros(n);
    } else {
      assert s[1..] == key[1..] + Zeros(n);
      KeyComesBack(key[1..], n);
    }
  }

  lemma FieldsParse(data: seq<Byte>, offset: nat, p: Prop)
    requires offset + 36 + |p.value| + Padding(|p.value|) <= |data| && |p.value| < 0x8000_0000
    requires BeforeZero(data[offset..offset + 32]) == p.key && Unpack32(data[offset + 32..offset + 36]) % 0x8000_0000 == |p.value|
    requires data[offset + 36..offset + 36 + |p.value|] == p.value
    ensures ParseProp(data, offset) == if Ascii(p.key) then Some((offset + 36 + |p.value| + Padding(|p.value|), p)) else None
  {
  }

  lemma PropComesBack(data: seq<Byte>, offset: nat, p: Prop, flag: bool)
    requires Fits(p) && At(data, offset, SerializeProp(p, flag))
    ensures offset + |SerializeProp(p, flag)| <= |data|
    ensures ParseProp(data, offset) == if Ascii(p.key) then Some((offset + |SerializeProp(p, flag)|, p)) else None
  {
    hide BeforeZero, Pack32, Unpack32, Zeros, ParseProp, Padding, LengthWord, Ascii;
    var key, length := p.key + Zeros(32 - |p.key|), Pack32(LengthWord(|p.value|, flag));
    var pad := Zeros(Padding(|p.value|));
    AtConcat(data, offset, key + length + p.value, pad);
    AtConcat(data, offset, key + length, p.value);
    AtConcat(data, offset, key, length);
    KeyComesBack(p.key, 32 - |p.key|);
    UnpackPacked(LengthWord(|p.value|, flag));
    FieldsParse(data, offset, p);
  }

  lemma PropsStep(data: seq<Byte>, offset: nat, ps: seq<Prop>, i: nat, next: nat)
    requires offset <= |data| && i < |ps| && GoodKeys(ps, i)
    requires ParseProp(data, offset) == if Ascii(ps[i].key) then Some((next, ps[i])) else None
    ensures GoodKeys(ps, i + 1) ==> next <= |data|
    ensures GoodKeys(ps, i + 1) ==>
      ParseProps(data, offset, |ps| - i, ps[..i]) == ParseProps(data, next, |ps| - (i + 1), ps[..i + 1])
    ensures !GoodKeys(ps, i + 1) ==> ParseProps(data, offset, |ps| - i, ps[..i]) == None && !GoodKeys(ps, |ps|)
  {
    assert ps[..i] + [ps[i]] == ps[..i + 1];
    assert forall k :: 0 <= k < i ==> ps[..i][k] == ps[k];
  }

  lemma PropsDone(data: seq<Byte>, offset: nat, ps: seq<Prop>)
    requires offset <= |data|
    ensures ParseProps(data, offset, 0, ps[..|ps|]) == Some((offset, ps))
  {
    assert ps[..|ps|] == ps;
  }

  lemma {:induction false} PropsComeBack(data: seq<Byte>, offset: nat, ps: seq<Prop>, fs: seq<bool>, i: nat)
    requires i <= |ps| == |fs| && offset <= |data| && (forall k :: 0 <= k < |ps| ==> Fits(ps[k])) && GoodKeys(ps, i)
    requires At(data, offset, SerializeProps(ps, fs, i))
    ensures ParseProps(data, offset, |ps| - i, ps[..i]) ==
      if GoodKeys(ps, |ps|) then Some((offset + |SerializeProps(ps, fs, i)|, ps)) else None
    decreases |ps| - i
  {
    hide GoodKeys, ParseProps, ParseProp, SerializeProp, At, Fits, Ascii;
    if i == |ps| {
      PropsDone(data, offset, ps);
    } else {
      var one, more := SerializeProp(ps[i], fs[i]), SerializeProps(ps, fs, i + 1);
      AtConcat(data, offset, one, more);
      PropComesBack(data, offset, ps[i], fs[i]);
      PropsStep(data, offset, ps, i, offset + |one|);
      if GoodKeys(ps, i + 1) {
        PropsComeBack(data, offset + |one|, ps, fs, i + 1);
      }
    }
  }

  lemma NoKeys(ps: seq<Prop>)
    ensures GoodKeys(ps, 0) && ps[..0] == []
  {
  }

  lemma HeadComesBack(data: seq<Byte>, offset: nat, t: Tree)
    requires Encodable(t) && At(data, offset, Serialize(t))
    ensures offset <= |data|
    ensures At(data, offset + 8 + |SerializeProps(t.props, t.flags, 0)|, SerializeAll(t.children))
    ensures ParseHead(data, offset) ==
      if GoodProps(t.props) && Length(t.children) <= 4096
      then Some((offset + 8 + |SerializeProps(t.props, t.flags, 0)|, t.props, Length(t.children))) else None
  {
    hide SerializeProps, SerializeAll, GoodKeys, Fits, EncodableAll, Pack32, Unpack32, ParseProps;
    var a, b := Pack32(|t.props|), Pack32(Length(t.children));
    var c, d := SerializeProps(t.props, t.flags, 0), SerializeAll(t.children);
    AtConcat(data, offset, a + b + c, d);
    AtConcat(data, offset, a + b, c);
    AtConcat(data, offset, a, b);
    UnpackPacked(|t.props|);
    UnpackPacked(Length(t.children));
    NoKeys(t.props);
    PropsComeBack(data, offset + 8, t.props, t.flags, 0);
  }

  /** The parser stopped at this place with these nodes. */
  predicate Done(r: Option<(nat, seq<Entry>)>, next: nat, nodes: seq<Entry>) {
    r == Some((next, nodes))
  }

  /** These entries can follow: no path comes twice, and there are at most 10001 in all. */
  predicate Room(nodes: seq<Entry>, more: seq<Entry>) {
    Fresh(nodes, more) && |nodes| + |more| <= 10_001
  }

  lemma RoomConcat(nodes: seq<Entry>, a: seq<Entry>, b: seq<Entry>)
    ensures Room(nodes, a + b) <==> Room(nodes, a) && Room(nodes + a, b)
  {
    hide Fresh;
    FreshConcat(nodes, a, b);
  }

  lemma RoomOne(nodes: seq<Entry>, e: Entry)
    ensures Room(nodes, [e]) <==> |nodes| <= 10_000 && !HasPath(nodes, e.path)
  {
    hide Fresh;
    FreshOne(nodes, e);
  }

  lemma GoodNames(name: Text, depth: nat)
    ensures GoodName(name, depth) <==> name != [] && Ascii(name) && (depth > 0 ==> 0x2f !in name)
  {
  }

  /** Reading a serialized tree gives exactly its flattened nodes if it is within the limits and there is room for it, and
      fails if not. */
  lemma {:induction false} NodeComesBack(data: seq<Byte>, offset: nat, t: Tree, nodes: seq<Entry>, parent: Text, depth: nat)
    requires Encodable(t) && At(data, offset, Serialize(t))
    ensures offset <= |data|
    ensures var r, all := ParseNode(data, offset, nodes, parent, depth), Flatten(t, parent, depth);
      if GoodTree(t, depth) && Room(nodes, all) then Done(r, offset + |Serialize(t)|, nodes + all) else r == None
    decreases t
  {
    hide ParseHead, ParseChildren, SerializeProps, SerializeAll, FlattenAll, GoodForest, PathOf, GoodName, NodeName, At, HasPath, Room,
         GoodProps, Ascii, Encodable, EncodableAll;
    HeadComesBack(data, offset, t);
    EncodableMeans(t);
    var name := NodeName(t.props);
    GoodNames(name, depth);
    var path := PathOf(parent, name, depth);
    var entry := Entry(path, t.props);
    var below := FlattenAll(t.children, path, depth + 1);
    var next := offset + 8 + |SerializeProps(t.props, t.flags, 0)|;
    RoomConcat(nodes, [entry], below);
    RoomOne(nodes, entry);
    if depth <= 64 && |nodes| <= 10_000 && ParseHead(data, offset).Some? && GoodName(name, depth) && !HasPath(nodes, path) {
      ChildrenComeBack(data, next, t.children, nodes + [entry], path, depth + 1);
      Regroup(nodes, [entry], below);
    }
  }

  lemma EncodableMeans(t: Tree)
    requires Encodable(t)
    ensures EncodableAll(t.children) && |t.flags| == |t.props| && (forall i :: 0 <= i < |t.props| ==> Fits(t.props[i]))
    ensures |t.props| < 0x1_0000_0000 && Length(t.children) < 0x1_0000_0000
  {
  }

  lemma {:induction false} ChildrenComeBack(data: seq<Byte>, offset: nat, f: Forest, nodes: seq<Entry>, parent: Text, depth: nat)
    requires EncodableAll(f) && offset <= |data| && At(data, offset, SerializeAll(f)) && |nodes| <= 10_001
    ensures var r, all := ParseChildren(data, offset, nodes, parent, depth, Length(f)), FlattenAll(f, parent, depth);
      if GoodForest(f, depth) && Room(nodes, all) then Done(r, offset + |SerializeAll(f)|, nodes + all) else r == None
    decreases f
  {
    hide ParseNode, Serialize, Flatten, GoodTree, Room, At, Encodable;
    match f
    case End =>
      NothingMore(nodes);
    case More(t, rest) =>
      var one, more := Serialize(t), SerializeAll(rest);
      var first, others := Flatten(t, parent, depth), FlattenAll(rest, parent, depth);
      AtConcat(data, offset, one, more);
      RoomConcat(nodes, first, others);
      NodeComesBack(data, offset, t, nodes, parent, depth);
      if GoodTree(t, depth) && Room(nodes, first) {
        RoomMeans(nodes, first);
        ChildrenComeBack(data, offset + |one|, rest, nodes + first, parent, depth);
        Regroup(nodes, first, others);
      }
  }

  lemma RoomMeans(nodes: seq<Entry>, more: seq<Entry>)
    requires Room(nodes, more)
    ensures |nodes + more| <= 10_001
  {
  }

  lemma NothingMore(nodes: seq<Entry>)
    ensures (Room(nodes, []) <==> |nodes| <= 10_001) && nodes + [] == nodes
  {
  }

  /** The round trip, for every tree that can be written and whatever follows it in the dump: within the limits, without a
      path that comes twice and with at most 10001 nodes it is read back whole, and otherwise it is rejected. */
  lemma RoundTrip(t: Tree, trailer: seq<Byte>)
    requires Encodable(t)
    ensures Parse(Serialize(t) + trailer) ==
      if GoodTree(t, 0) && Room([], Flatten(t, [], 0)) then Some(Flatten(t, [], 0)) else None
  {
    hide ParseNode, Serialize, Flatten, GoodTree, Room, Encodable;
    var s := Serialize(t);
    assert At(s + trailer, 0, s);
    NodeComesBack(s + trailer, 0, t, [], [], 0);
    assert [] + Flatten(t, [], 0) == Flatten(t, [], 0);
  }

  /** A node's name is the value of its property "name" without the zeros at the end; without that property it has none. */
  lemma {:induction false} NameIs(ps: seq<Prop>)
    requires GoodKeys(ps, |ps|)
    ensures NodeName(ps) != [] ==> NodeName(ps)[|NodeName(ps)| - 1] != 0
    ensures forall i :: 0 <= i < |ps| && ps[i].key == [110, 97, 109, 101] ==>
      NodeName(ps) <= ps[i].value && forall k :: |NodeName(ps)| <= k < |ps[i].value| ==> ps[i].value[k] == 0
    ensures (forall i :: 0 <= i < |ps| ==> ps[i].key != [110, 97, 109, 101]) ==> NodeName(ps) == []
  {
    if ps != [] && ps[0].key != NAME {
      assert GoodKeys(ps[1..], |ps[1..]|);
      NameIs(ps[1..]);
      forall i | 0 <= i < |ps| && ps[i].key == NAME ensures NodeName(ps) <= ps[i].value {
        assert ps[1..][i - 1] == ps[i];
      }
    }
  }

  // ---------- Truncation ----------

  lemma SameSlice(data: seq<Byte>, more: seq<Byte>, a: nat, b: nat)
    requires a <= b <= |data|
    ensures (data + more)[a..b] == data[a..b]
  {
  }

  lemma PropExtends(data: seq<Byte>, more: seq<Byte>, offset: nat)
    requires offset <= |data| && ParseProp(data, offset).Some?
    ensures ParseProp(data + more, offset) == ParseProp(data, offset)
  {
    SameSlice(data, more, offset, offset + 32);
    SameSlice(data, more, offset + 32, offset + 36);
    var size := Unpack32(data[offset + 32..offset + 36]) % 0x8000_0000;
    SameSlice(data, more, offset + 36, offset + 36 + size);
  }

  lemma {:induction false} PropsExtend(data: seq<Byte>, more: seq<Byte>, offset: nat, count: nat, known: seq<Prop>)
    requires offset <= |data| && ParseProps(data, offset, count, known).Some?
    ensures ParseProps(data + more, offset, count, known) == ParseProps(data, offset, count, known)
    decreases count
  {
    hide ParseProp, HasKey;
    if count > 0 {
      PropExtends(data, more, offset);
      var (next, p) := ParseProp(data, offset).value;
      PropsExtend(data, more, next, count - 1, known + [p]);
    }
  }

  lemma HeadExtends(data: seq<Byte>, more: seq<Byte>, offset: nat)
    requires offset <= |data| && ParseHead(data, offset).Some?
    ensures ParseHead(data + more, offset) == ParseHead(data, offset)
  {
    hide ParseProps, Unpack32;
    SameSlice(data, more, offset, offset + 4);
    SameSlice(data, more, offset + 4, offset + 8);
    PropsExtend(data, more, offset + 8, Unpack32(data[offset..offset + 4]), []);
  }

  /** What is accepted stays accepted, with the same result, when bytes follow. */
  lemma {:induction false} NodeExtends(data: seq<Byte>, more: seq<Byte>, offset: nat, nodes: seq<Entry>, parent: Text, depth: nat)
    requires offset <= |data| && ParseNode(data, offset, nodes, parent, depth).Some?
    ensures ParseNode(data + more, offset, nodes, parent, depth) == ParseNode(data, offset, nodes, parent, depth)
    decreases if depth <= MAX_DEPTH then MAX_DEPTH + 1 - depth else 0, 0
  {
    hide ParseHead, PathOf, NodeName, GoodName, HasPath, ParseChildren;
    HeadExtends(data, more, offset);
    var (next, props, children) := ParseHead(data, offset).value;
    var path := PathOf(parent, NodeName(props), depth);
    ChildrenExtend(data, more, next, nodes + [Entry(path, props)], path, depth + 1, children);
  }

  lemma {:induction false} ChildrenExtend(data: seq<Byte>, more: seq<Byte>, offset: nat, nodes: seq<Entry>, parent: Text, depth: nat, count: nat)
    requires offset <= |data| && ParseChildren(data, offset, nodes, parent, depth, count).Some?
    ensures ParseChildren(data + more, offset, nodes, parent, depth, count) == ParseChildren(data, offset, nodes, parent, depth, count)
    decreases if depth <= MAX_DEPTH then MAX_DEPTH + 1 - depth else 0, count + 1
  {
    hide ParseNode;
    if count > 0 {
      NodeExtends(data, more, offset, nodes, parent, depth);
      var (next, all) := ParseNode(data, offset, nodes, parent, depth).value;
      ChildrenExtend(data, more, next, all, parent, depth, count - 1);
    }
  }

  /** Every strict prefix of a serialized tree is rejected. */
  lemma TruncationFails(t: Tree, n: nat)
    requires Encodable(t) && n < |Serialize(t)|
    ensures Parse(Serialize(t)[..n]) == None
  {
    hide ParseNode, Serialize, Flatten, GoodTree, Room, Encodable;
    var s := Serialize(t);
    var data := s[..n];
    if Parse(data).Some? {
      NodeExtends(data, s[n..], 0, [], [], 0);
      assert data + s[n..] == s;
      assert At(s, 0, s);
      NodeComesBack(s, 0, t, [], [], 0);
    }
  }

  // ---------- Duplicate paths ----------

  predicate HasName(f: Forest, name: Text) {
    f.More? && (NodeName(f.first.props) == name || HasName(f.rest, name))
  }

  /** No two siblings anywhere in the tree share a name. */
  predicate SiblingsDiffer(t: Tree)
    decreases t
  {
    ForestDiffers(t.children)
  }

  predicate ForestDiffers(f: Forest)
    decreases f
  {
    f.More? ==> SiblingsDiffer(f.first) && ForestDiffers(f.rest) && !HasName(f.rest, NodeName(f.first.props))
  }

  /** `path` is `top` itself or lies below it. */
  predicate Under(path: Text, top: Text) {
    top <= path && (|path| > |top| ==> path[|top|] == SLASH)
  }

  lemma SlashlessTrim(base: Text, name: Text)
    requires GoodName(name, 1)
    ensures TrimEnd(base + [SLASH] + name, SLASH) == base + [SLASH] + name
  {
    var s := base + [SLASH] + name;
    assert s[|s| - 1] == name[|name| - 1];
    assert name[|name| - 1] in name;
  }

  /** A node below the root is the top of its own subtree. */
  lemma {:induction false} SubtreeIsUnder(t: Tree, parent: Text, depth: nat)
    requires GoodTree(t, depth) && depth > 0
    ensures forall e :: e in Flatten(t, parent, depth) ==> Under(e.path, PathOf(parent, NodeName(t.props), depth))
    decreases t
  {
    var name := NodeName(t.props);
    var path := PathOf(parent, name, depth);
    SlashlessTrim(TrimEnd(parent, SLASH), name);
    ForestIsBelow(t.children, path, depth + 1);
    forall e | e in Flatten(t, parent, depth) ensures Under(e.path, path) {
      if e != Entry(path, t.props) {
        assert e in FlattenAll(t.children, path, depth + 1);
        BelowIsUnder(e.path, t.children, path);
      }
    }
  }

  /** Every path from these children is under the path of one of them. */
  lemma {:induction false} ForestIsBelow(f: Forest, parent: Text, depth: nat)
    requires GoodForest(f, depth) && depth > 0
    ensures forall e :: e in FlattenAll(f, parent, depth) ==> Below(e.path, f, parent)
    decreases f
  {
    if f.More? {
      SubtreeIsUnder(f.first, parent, depth);
      ForestIsBelow(f.rest, parent, depth);
      forall e | e in FlattenAll(f, parent, depth) ensures Below(e.path, f, parent) {
        if e in Flatten(f.first, parent, depth) {
          assert Under(e.path, PathOf(parent, NodeName(f.first.props), depth));
        } else {
          assert e in FlattenAll(f.rest, parent, depth);
        }
      }
    }
  }

  /** The path is under one of these children of `parent`. */
  predicate Below(path: Text, f: Forest, parent: Text)
    decreases f
  {
    f.More? && (Under(path, PathOf(parent, NodeName(f.first.props), 1)) || Below(path, f.rest, parent))
  }

  lemma {:induction false} BelowIsUnder(path: Text, f: Forest, parent: Text)
    requires TrimEnd(parent, SLASH) == parent && Below(path, f, parent)
    ensures Under(path, parent)
    decreases f
  {
    var top := PathOf(parent, NodeName(f.first.props), 1);
    if Under(path, top) {
      assert parent == top[..|parent|];
    } else {
      BelowIsUnder(path, f.rest, parent);
    }
  }

  /** Paths below a node are longer than its own. */
  lemma {:induction false} BelowIsLonger(path: Text, f: Forest, parent: Text, depth: nat)
    requires GoodForest(f, depth) && depth > 0 && Below(path, f, parent)
    requires parent == ROOT || TrimEnd(parent, SLASH) == parent
    ensures |path| > |parent|
    decreases f
  {
    if !Under(path, PathOf(parent, NodeName(f.first.props), 1)) {
      BelowIsLonger(path, f.rest, parent, depth);
    }
  }

  /** A path is under at most one child of a node. */
  lemma UnderOne(path: Text, base: Text, a: Text, b: Text)
    requires GoodName(a, 1) && GoodName(b, 1)
    requires Under(path, base + [SLASH] + a) && Under(path, base + [SLASH] + b)
    ensures a == b
  {
    UnderStarts(path, base, a);
    UnderStarts(path, base, b);
  }

  lemma UnderStarts(path: Text, base: Text, name: Text)
    requires Under(path, base + [SLASH] + name)
    ensures var n := |base| + 1 + |name|;
      n <= |path| && path[|base| + 1..n] == name && (|path| > n ==> path[n] == SLASH)
  {
    var top := base + [SLASH] + name;
    assert top[|base| + 1..] == name;
    assert path[..|top|] == top;
    assert path[|base| + 1..|top|] == path[..|top|][|base| + 1..];
  }

  /** No path under the first child is below the others, unless they share its name. */
  lemma {:induction false} BelowMisses(path: Text, f: Forest, parent: Text, depth: nat, name: Text)
    requires GoodForest(f, depth) && depth > 0 && GoodName(name, 1)
    requires Under(path, PathOf(parent, name, 1)) && Below(path, f, parent)
    ensures HasName(f, name)
    decreases f
  {
    var other := NodeName(f.first.props);
    if Under(path, PathOf(parent, other, 1)) {
      UnderOne(path, TrimEnd(parent, SLASH), name, other);
    } else {
      BelowMisses(path, f.rest, parent, depth, name);
    }
  }

  /** A shared name shows up as a shared path. */
  lemma {:induction false} NameGivesPath(f: Forest, parent: Text, depth: nat, name: Text) returns (e: Entry)
    requires depth > 0 && HasName(f, name)
    ensures e in FlattenAll(f, parent, depth) && e.path == PathOf(parent, name, depth)
    decreases f
  {
    if NodeName(f.first.props) == name {
      e := Entry(PathOf(parent, name, depth), f.first.props);
      assert e == Flatten(f.first, parent, depth)[0];
    } else {
      e := NameGivesPath(f.rest, parent, depth, name);
    }
  }

  lemma FreshIsDisjoint(nodes: seq<Entry>, more: seq<Entry>)
    ensures Fresh(nodes, more) <==> Fresh([], more) && forall a, b :: a in nodes && b in more ==> a.path != b.path
  {
  }

  lemma {:induction false} ForestPathsDiffer(f: Forest, parent: Text, depth: nat)
    requires GoodForest(f, depth) && depth > 0
    ensures Fresh([], FlattenAll(f, parent, depth)) <==> ForestDiffers(f)
    decreases f
  {
    if f.More? {
      var name := NodeName(f.first.props);
      var first, others := Flatten(f.first, parent, depth), FlattenAll(f.rest, parent, depth);
      TreePathsDiffer(f.first, parent, depth);
      ForestPathsDiffer(f.rest, parent, depth);
      SubtreeIsUnder(f.first, parent, depth);
      ForestIsBelow(f.rest, parent, depth);
      FreshConcat([], first, others);
      assert [] + first == first;
      FreshIsDisjoint(first, others);
      if HasName(f.rest, name) {
        var e := NameGivesPath(f.rest, parent, depth, name);
        assert first[0].path == e.path;
      } else {
        forall a, b | a in first && b in others ensures a.path != b.path {
          if a.path == b.path {
            BelowMisses(a.path, f.rest, parent, depth, name);
          }
        }
      }
    }
  }

  lemma {:induction false} TreePathsDiffer(t: Tree, parent: Text, depth: nat)
    requires GoodTree(t, depth)
    ensures Fresh([], Flatten(t, parent, depth)) <==> SiblingsDiffer(t)
    decreases t
  {
    hide Fresh, TrimEnd;
    var path := PathOf(parent, NodeName(t.props), depth);
    var entry := Entry(path, t.props);
    var below := FlattenAll(t.children, path, depth + 1);
    ForestPathsDiffer(t.children, path, depth + 1);
    ForestIsBelow(t.children, path, depth + 1);
    if depth > 0 {
      SlashlessTrim(TrimEnd(parent, SLASH), NodeName(t.props));
    }
    forall b | b in below ensures b.path != path {
      BelowIsLonger(b.path, t.children, path, depth + 1);
    }
    FreshConcat([], [entry], below);
    FreshOne([], entry);
    assert [] + [entry] == [entry];
    FreshIsDisjoint([entry], below);
  }

  /** How many nodes a tree has. */
  function Count(t: Tree): nat
    decreases t
  {
    1 + CountAll(t.children)
  }

  function CountAll(f: Forest): nat
    decreases f
  {
    match f case End => 0 case More(t, rest) => Count(t) + CountAll(rest)
  }

  lemma {:induction false} FlatSize(t: Tree, parent: Text, depth: nat)
    ensures |Flatten(t, parent, depth)| == Count(t)
    decreases t
  {
    FlatSizes(t.children, PathOf(parent, NodeName(t.props), depth), depth + 1);
  }

  lemma {:induction false} FlatSizes(f: Forest, parent: Text, depth: nat)
    ensures |FlattenAll(f, parent, depth)| == CountAll(f)
    decreases f
  {
    if f.More? {
      FlatSize(f.first, parent, depth);
      FlatSizes(f.rest, parent, depth);
    }
  }

  /** A tree that can be written is read back whole exactly when it is within the limits, has at most 10001 nodes and no two
      siblings share a name; otherwise the dump is rejected. */
  lemma AcceptedIff(t: Tree, trailer: seq<Byte>)
    requires Encodable(t)
    ensures Parse(Serialize(t) + trailer) ==
      if GoodTree(t, 0) && Count(t) <= 10_001 && SiblingsDiffer(t) then Some(Flatten(t, [], 0)) else None
  {
    hide Serialize, Flatten, GoodTree, Encodable, Count, SiblingsDiffer, Fresh;
    RoundTrip(t, trailer);
    FlatSize(t, [], 0);
    if GoodTree(t, 0) {
      TreePathsDiffer(t, [], 0);
    }
  }

  // ---------- The shape of every accepted result ----------

  /** The parent of the i-th entry comes before it. */
  predicate Hangs(nodes: seq<Entry>, i: nat)
    requires i < |nodes|
  {
    exists j :: 0 <= j < i && ChildPath(nodes[j].path, nodes[i].path)
  }

  /** `path` is a parent's path with one good name added. */
  predicate ChildPath(parent: Text, path: Text) {
    var base := TrimEnd(parent, SLASH);
    |path| > |base| + 1 && path[..|base| + 1] == base + [SLASH] && GoodName(path[|base| + 1..], 1)
  }

  /** `all` continues `nodes` with new paths whose parents come before them. */
  predicate Grows(nodes: seq<Entry>, all: seq<Entry>, from: nat) {
    && nodes <= all
    && (forall i :: from <= i < |all| ==> Hangs(all, i))
    && (forall i, j :: 0 <= i < j < |all| && |nodes| <= j ==> all[i].path != all[j].path)
  }

  lemma GrowsOn(a: seq<Entry>, b: seq<Entry>, c: seq<Entry>, from: nat)
    requires Grows(a, b, from) && Grows(b, c, |b|)
    ensures Grows(a, c, from)
  {
    forall i | from <= i < |c| ensures Hangs(c, i) {
      if i < |b| {
        assert Hangs(b, i);
        var j :| 0 <= j < i && ChildPath(b[j].path, b[i].path);
        assert c[j] == b[j] && c[i] == b[i];
      }
    }
  }

  lemma {:induction false} NodeGrows(data: seq<Byte>, offset: nat, nodes: seq<Entry>, parent: Text, depth: nat)
    requires offset <= |data| && (depth > 0 ==> HasPath(nodes, parent))
    requires ParseNode(data, offset, nodes, parent, depth).Some?
    ensures var all := ParseNode(data, offset, nodes, parent, depth).value.1;
      && |nodes| < |all| && Grows(nodes, all, if depth > 0 then |nodes| else |nodes| + 1)
      && (depth == 0 ==> all[|nodes|].path == ROOT)
    decreases if depth <= MAX_DEPTH then MAX_DEPTH + 1 - depth else 0, 0
  {
    hide ParseHead, ParseChildren, NodeName;
    var (next, props, children) := ParseHead(data, offset).value;
    var name := NodeName(props);
    var path := PathOf(parent, name, depth);
    var one := nodes + [Entry(path, props)];
    var from := if depth > 0 then |nodes| else |nodes| + 1;
    OneGrows(nodes, Entry(path, props), parent, name, depth);
    assert one[|nodes|].path == path;
    ChildrenGrow(data, next, one, path, depth + 1, children);
    GrowsOn(nodes, one, ParseChildren(data, next, one, path, depth + 1, children).value.1, from);
  }

  lemma OneGrows(nodes: seq<Entry>, e: Entry, parent: Text, name: Text, depth: nat)
    requires GoodName(name, depth) && e.path == PathOf(parent, name, depth) && !HasPath(nodes, e.path)
    requires depth > 0 ==> HasPath(nodes, parent)
    ensures Grows(nodes, nodes + [e], if depth > 0 then |nodes| else |nodes| + 1)
  {
    var one := nodes + [e];
    if depth > 0 {
      var j :| 0 <= j < |nodes| && nodes[j].path == parent;
      var base := TrimEnd(parent, SLASH);
      assert e.path[..|base| + 1] == base + [SLASH] && e.path[|base| + 1..] == name;
      assert ChildPath(one[j].path, one[|nodes|].path);
    }
  }

  lemma {:induction false} ChildrenGrow(data: seq<Byte>, offset: nat, nodes: seq<Entry>, parent: Text, depth: nat, count: nat)
    requires offset <= |data| && depth > 0 && HasPath(nodes, parent)
    requires ParseChildren(data, offset, nodes, parent, depth, count).Some?
    ensures Grows(nodes, ParseChildren(data, offset, nodes, parent, depth, count).value.1, |nodes|)
    decreases if depth <= MAX_DEPTH then MAX_DEPTH + 1 - depth else 0, count + 1
  {
    hide ParseNode;
    if count > 0 {
      NodeGrows(data, offset, nodes, parent, depth);
      var (next, all) := ParseNode(data, offset, nodes, parent, depth).value;
      var j :| 0 <= j < |nodes| && nodes[j].path == parent;
      assert all[j].path == parent;
      ChildrenGrow(data, next, all, parent, depth, count - 1);
      GrowsOn(nodes, all, ParseChildren(data, next, all, parent, depth, count - 1).value.1, |nodes|);
    }
  }

  /** Whatever the bytes, an accepted dump gives a root first, no path twice, and every other entry
      after its parent. */
  lemma AcceptedShape(data: seq<Byte>)
    requires Parse(data).Some?
    ensures var nodes := Parse(data).value;
      && nodes != [] && nodes[0].path == ROOT
      && (forall i :: 1 <= i < |nodes| ==> Hangs(nodes, i))
      && (forall i, j :: 0 <= i < j < |nodes| ==> nodes[i].path != nodes[j].path)
  {
    hide ParseNode;
    NodeGrows(data, 0, [], [], 0);
  }
}
