/** The recursive Apple Device Tree parser (inspect_adt.py, lines 11-48) and the serializer its tests use
    (tests/test_inspect_adt.py, lines 11-16). */
module AppleDeviceTree {
  import opened Errno
  import opened Octets

  type Text = seq<Byte>

  datatype Prop = Prop(key: Text, value: seq<Byte>)

  /** One entry of the resulting dictionary; the dictionary keeps insertion order. */
  datatype Entry = Entry(path: Text, props: seq<Prop>)

  const SLASH: Byte := 0x2f
  const ROOT: Text := [SLASH]
  /** "name" */
  const NAME: Text := [0x6e, 0x61, 0x6d, 0x65]

  const MAX_DEPTH := 64
  const MAX_COUNT := 4096
  const MAX_NODES := 10000

  // ---------- The parser as a function ----------

  /** `(-size) % 4` */
  function Padding(size: nat): (n: nat)
    ensures n < 4 && (size + n) % 4 == 0
  {
    (4 - size % 4) % 4
  }

  predicate HasKey(props: seq<Prop>, key: Text) {
    exists i :: 0 <= i < |props| && props[i].key == key
  }

  /** `props.get('name', b'')` */
  function NameValue(props: seq<Prop>): seq<Byte> {
    if props == [] then [] else if props[0].key == NAME then props[0].value else NameValue(props[1..])
  }

  function NodeName(props: seq<Prop>): Text {
    TrimEnd(NameValue(props), 0)
  }

  predicate GoodName(name: Text, depth: nat) {
    Ascii(name) && name != [] && (SLASH in name ==> depth == 0)
  }

  function PathOf(parent: Text, name: Text, depth: nat): Text {
    if depth == 0 then ROOT else TrimEnd(parent, SLASH) + [SLASH] + name
  }

  predicate HasPath(nodes: seq<Entry>, path: Text) {
    exists i :: 0 <= i < |nodes| && nodes[i].path == path
  }

  /** One property at `offset`: a 32-byte key, a length with a flag in its top bit, the value and its padding. */
  function ParseProp(data: seq<Byte>, offset: nat): (r: Option<(nat, Prop)>)
    requires offset <= |data|
    ensures r.Some? ==> offset <= r.value.0 <= |data|
  {
    if offset + 36 > |data| then None
    else
      var key := BeforeZero(data[offset..offset + 32]);
      var size := Unpack32(data[offset + 32..offset + 36]) % 0x8000_0000;
      var body := offset + 36;
      if !Ascii(key) || body + size + Padding(size) > |data| then None
      else Some((body + size + Padding(size), Prop(key, data[body..body + size])))
  }

  /** Read `count` properties at `offset`, after those in `props`; no key may come twice. */
  function ParseProps(data: seq<Byte>, offset: nat, count: nat, props: seq<Prop>): (r: Option<(nat, seq<Prop>)>)
    requires offset <= |data|
    ensures r.Some? ==> offset <= r.value.0 <= |data|
    decreases count
  {
    if count == 0 then Some((offset, props))
    else
      match ParseProp(data, offset)
      case None => None
      case Some((next, prop)) =>
        if HasKey(props, prop.key) then None else ParseProps(data, next, count - 1, props + [prop])
  }

  /** The counts and the properties of a node. */
  function ParseHead(data: seq<Byte>, offset: nat): (r: Option<(nat, seq<Prop>, nat)>)
    requires offset <= |data|
    ensures r.Some? ==> offset <= r.value.0 <= |data|
  {
    if offset + 8 > |data| then None
    else
      var properties := Unpack32(data[offset..offset + 4]);
      var children := Unpack32(data[offset + 4..offset + 8]);
      if properties > MAX_COUNT || children > MAX_COUNT then None
      else
        match ParseProps(data, offset + 8, properties, [])
        case None => None
        case Some((next, props)) => Some((next, props, children))
  }

  function ParseNode(data: seq<Byte>, offset: nat, nodes: seq<Entry>, parent: Text, depth: nat): (r: Option<(nat, seq<Entry>)>)
    requires offset <= |data|
    ensures r.Some? ==> offset <= r.value.0 <= |data|
    decreases if depth <= MAX_DEPTH then MAX_DEPTH + 1 - depth else 0, 0
  {
    if depth > MAX_DEPTH || |nodes| > MAX_NODES then None
    else
      match ParseHead(data, offset)
      case None => None
      case Some((next, props, children)) =>
        var name := NodeName(props);
        var path := PathOf(parent, name, depth);
        if !GoodName(name, depth) || HasPath(nodes, path) then None
        else ParseChildren(data, next, nodes + [Entry(path, props)], path, depth + 1, children)
  }

  function ParseChildren(data: seq<Byte>, offset: nat, nodes: seq<Entry>, parent: Text, depth: nat, count: nat): (r: Option<(nat, seq<Entry>)>)
    requires offset <= |data|
    ensures r.Some? ==> offset <= r.value.0 <= |data|
    decreases if depth <= MAX_DEPTH then MAX_DEPTH + 1 - depth else 0, count + 1
  {
    if count == 0 then Some((offset, nodes))
    else
      match ParseNode(data, offset, nodes, parent, depth)
      case None => None
      case Some((next, more)) => ParseChildren(data, next, more, parent, depth, count - 1)
  }

  function Parse(data: seq<Byte>): Option<seq<Entry>> {
    match ParseNode(data, 0, [], [], 0)
    case None => None
    case Some((_, nodes)) => Some(nodes)
  }

  // ---------- The parser at work ----------

  class Parser {
    const data: seq<Byte>
    var offset: nat
    var nodes: seq<Entry>

    predicate Valid()
      reads this
    {
      offset <= |data|
    }

    constructor (data: seq<Byte>)
      ensures Valid() && this.data == data && offset == 0 && nodes == []
    {
      this.data := data;
      offset, nodes := 0, [];
    }

    method Take(size: nat) returns (r: Option<seq<Byte>>)
      requires Valid()
      modifies this`offset
      ensures Valid()
      ensures if old(offset) + size > |data| then r == None && offset == old(offset)
              else r == Some(data[old(offset)..old(offset) + size]) && offset == old(offset) + size
    {
      if offset + size > |data| {
        return None;
      }
      r := Some(data[offset..offset + size]);
      offset := offset + size;
    }

    /** One property; `known` are the ones before it. */
    method Property(known: seq<Prop>) returns (r: Option<Prop>)
      requires Valid()
      modifies this`offset
      ensures Valid()
      ensures match ParseProp(data, old(offset))
              case None => r == None
              case Some((next, prop)) =>
                if HasKey(known, prop.key) then r == None else r == Some(prop) && offset == next
    {
      ghost var start := offset;
      var field := Take(32);
      if field == None {
        return None;
      }
      var key := BeforeZero(field.value);
      if !Ascii(key) {
        return None;
      }
      var length := Take(4);
      if length == None {
        return None;
      }
      assert length.value == data[start + 32..start + 36];
      var size := Unpack32(length.value) % 0x8000_0000;
      if HasKey(known, key) {
        return None;
      }
      var value := Take(size);
      if value == None {
        return None;
      }
      var pad := Take(Padding(size));
      if pad == None {
        return None;
      }
      return Some(Prop(key, value.value));
    }

    /** The property loop of one node. */
    method Properties(count: nat) returns (r: Option<seq<Prop>>)
      requires Valid()
      modifies this`offset
      ensures Valid()
      ensures match ParseProps(data, old(offset), count, [])
              case None => r == None
              case Some((next, props)) => r == Some(props) && offset == next
    {
      hide ParseProp, HasKey;
      var props: seq<Prop> := [];
      for i := 0 to count
        invariant Valid()
        invariant ParseProps(data, old(offset), count, []) == ParseProps(data, offset, count - i, props)
      {
        var prop := Property(props);
        if prop == None {
          return None;
        }
        props := props + [prop.value];
      }
      return Some(props);
    }

    method Head() returns (r: Option<(seq<Prop>, nat)>)
      requires Valid()
      modifies this`offset
      ensures Valid()
      ensures match ParseHead(data, old(offset))
              case None => r == None
              case Some((next, props, children)) => r == Some((props, children)) && offset == next
    {
      hide ParseProps, Unpack32;
      ghost var start := offset;
      var head := Take(8);
      if head == None {
        return None;
      }
      assert head.value[..4] == data[start..start + 4] && head.value[4..] == data[start + 4..start + 8];
      var properties, children := Unpack32(head.value[..4]), Unpack32(head.value[4..]);
      if properties > MAX_COUNT || children > MAX_COUNT {
        return None;
      }
      var props := Properties(properties);
      if props == None {
        return None;
      }
      return Some((props.value, children));
    }

    /** One node and everything below it. */
    method Node(parent: Text, depth: nat) returns (ok: bool)
      requires Valid()
      modifies this
      ensures Valid()
      ensures match ParseNode(data, old(offset), old(nodes), parent, depth)
              case None => !ok
              case Some((next, all)) => ok && offset == next && nodes == all
      decreases if depth <= MAX_DEPTH then MAX_DEPTH + 1 - depth else 0
    {
      hide ParseHead, GoodName, NodeName, PathOf, HasPath;
      if depth > MAX_DEPTH || |nodes| > MAX_NODES {
        return false;
      }
      var head := Head();
      if head == None {
        return false;
      }
      var (props, children) := head.value;
      var name := NodeName(props);
      if !GoodName(name, depth) {
        return false;
      }
      var path := PathOf(parent, name, depth);
      if HasPath(nodes, path) {
        return false;
      }
      nodes := nodes + [Entry(path, props)];
      ghost var goal := ParseChildren(data, offset, nodes, path, depth + 1, children);
      for i := 0 to children
        invariant Valid()
        invariant goal == ParseChildren(data, offset, nodes, path, depth + 1, children - i)
      {
        ok := Node(path, depth + 1);
        if !ok {
          return false;
        }
      }
      return true;
    }
  }

  method ParseTree(data: seq<Byte>) returns (r: Option<seq<Entry>>)
    ensures r == Parse(data)
  {
    var parser := new Parser(data);
    var ok := parser.Node([], 0);
    r := if ok then Some(parser.nodes) else None;
  }
}
