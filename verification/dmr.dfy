/** The generic, dynamically typed description document (a DMR `ModelNode`)
    as a tagged union, together with the few read operations the projection
    uses: `get`, `hasDefined`, `keys`, `asString`, `asPropertyList` and
    `asList`. The conversions that DMR refuses with an
    `IllegalArgumentException` on the wrong shape of node return `None`. */
module Dmr {
  import opened Wrappers

  datatype Node =
    | Undefined
    | BoolValue(b: bool)
    | IntValue(i: int)
    | StringValue(s: string)
    | ListValue(items: seq<Node>)
    | ObjectValue(entries: seq<Property>)    // keys in insertion order
    | PropertyValue(property: Property)

  datatype Property = Property(name: string, value: Node)

  /** The keys of an object's entries, in order. */
  function Names(entries: seq<Property>): (r: seq<string>)
    ensures |r| == |entries|
    ensures forall i :: 0 <= i < |entries| ==> r[i] == entries[i].name
  {
    seq(|entries|, i requires 0 <= i < |entries| => entries[i].name)
  }

  /** An object as DMR builds it: no key occurs twice. */
  ghost predicate UniqueKeys(entries: seq<Property>) {
    forall i, j :: 0 <= i < j < |entries| ==> entries[i].name != entries[j].name
  }

  /** The value stored under `key`, if the entries hold one: the value of
      the first entry with that key. */
  function Find(entries: seq<Property>, key: string): (r: Option<Node>)
    ensures r.None? <==> forall i :: 0 <= i < |entries| ==> entries[i].name != key
    ensures r.Some? ==>
              exists i :: 0 <= i < |entries| && entries[i] == Property(key, r.value)
                          && forall j :: 0 <= j < i ==> entries[j].name != key
    decreases |entries|
  {
    if |entries| == 0 then None
    else if entries[0].name == key then Some(entries[0].value)
    else
      var r := Find(entries[1..], key);
      assert forall i :: 0 < i < |entries| ==> entries[i] == entries[1..][i - 1];
      if r.Some? then
        assert exists i :: 0 <= i < |entries| && entries[i] == Property(key, r.value)
                           && forall j :: 0 <= j < i ==> entries[j].name != key by {
          var i :| 0 <= i < |entries| - 1 && entries[1..][i] == Property(key, r.value)
                   && forall j :: 0 <= j < i ==> entries[1..][j].name != key;
          assert entries[i + 1] == Property(key, r.value);
        }
        r
      else r
  }

  /** `node.get(key)`: the child under `key`. An object answers for each of
      its keys, and a property node for its one name; any other key or node
      gives an undefined node. */
  function Get(n: Node, key: string): (r: Node)
    ensures n.ObjectValue? && key !in Names(n.entries) ==> r == Undefined
    ensures n.ObjectValue? && key in Names(n.entries) ==> exists i :: 0 <= i < |n.entries| && n.entries[i] == Property(key, r)
    ensures n.PropertyValue? && n.property.name == key ==> r == n.property.value
    ensures n.PropertyValue? && n.property.name != key ==> r == Undefined
    ensures !n.ObjectValue? && !n.PropertyValue? ==> r == Undefined
  {
    match n
    case ObjectValue(entries) => Find(entries, key).GetOr(Undefined)
    case PropertyValue(p) => if p.name == key then p.value else Undefined
    case _ => Undefined
  }

  /** `node.hasDefined(key)`: the node holds `key` with a value other than
      undefined. */
  predicate HasDefined(n: Node, key: string) {
    Get(n, key) != Undefined
  }

  /** `node.keys()`: the keys of an object, or the one name of a property
      node; any other node refuses. */
  function Keys(n: Node): (r: Option<seq<string>>)
    ensures r.Some? <==> n.ObjectValue? || n.PropertyValue?
    ensures n.ObjectValue? ==> r == Some(Names(n.entries))
    ensures n.PropertyValue? ==> r == Some([n.property.name])
  {
    match n
    case ObjectValue(entries) => Some(Names(entries))
    case PropertyValue(p) => Some([p.name])
    case _ => None
  }

  /** `node.asString()`: the text of a string node; other nodes are rendered
      by DMR's textual form, which is a parameter here. */
  function AsString(n: Node, render: Node -> string): (r: string)
    ensures n.StringValue? ==> r == n.s
  {
    match n
    case StringValue(s) => s
    case _ => render(n)
  }

  /** The shapes `node.asProperty()` converts: a property node, an object
      with exactly one key, or a list of exactly two items (name, value). */
  predicate ConvertsToProperty(n: Node) {
    || n.PropertyValue?
    || (n.ObjectValue? && |n.entries| == 1)
    || (n.ListValue? && |n.items| == 2)
  }

  /** `node.asProperty()`: a property node itself, the one entry of a
      one-key object, or a two-item list whose first item, as text, names
      the second; any other node refuses. */
  function AsProperty(n: Node, render: Node -> string): (r: Option<Property>)
    ensures r.Some? <==> ConvertsToProperty(n)
    ensures n.PropertyValue? ==> r == Some(n.property)
    ensures n.ObjectValue? && |n.entries| == 1 ==> r == Some(n.entries[0])
    ensures n.ListValue? && |n.items| == 2 ==> r == Some(Property(AsString(n.items[0], render), n.items[1]))
  {
    match n
    case PropertyValue(p) => Some(p)
    case ObjectValue(entries) => if |entries| == 1 then Some(entries[0]) else None
    case ListValue(items) => if |items| == 2 then Some(Property(AsString(items[0], render), items[1])) else None
    case _ => None
  }

  /** The shapes `node.asPropertyList()` converts: an object, a property
      node, or a list whose every item converts to a property. */
  predicate ConvertsToPropertyList(n: Node) {
    || n.ObjectValue?
    || n.PropertyValue?
    || (n.ListValue? && forall i :: 0 <= i < |n.items| ==> ConvertsToProperty(n.items[i]))
  }

  /** `node.asPropertyList()`: the entries of an object, a single property,
      or one property per item of a list; any other node refuses. */
  function PropertyList(n: Node, render: Node -> string): (r: Option<seq<Property>>)
    ensures r.Some? <==> ConvertsToPropertyList(n)
    ensures n.ObjectValue? ==> r == Some(n.entries)
    ensures n.PropertyValue? ==> r == Some([n.property])
    ensures r.Some? && n.ListValue? ==>
              |r.value| == |n.items|
              && forall i :: 0 <= i < |n.items| ==> AsProperty(n.items[i], render) == Some(r.value[i])
  {
    match n
    case ObjectValue(entries) => Some(entries)
    case PropertyValue(p) => Some([p])
    case ListValue(items) =>
      if forall i :: 0 <= i < |items| ==> ConvertsToProperty(items[i]) then
        Some(seq(|items|, i requires 0 <= i < |items| => AsProperty(items[i], render).value))
      else None
    case _ => None
  }

  /** `node.asList()`: the elements of a list, one element per key of an
      object, or the property node itself as the one element; any other
      node refuses. Only its length is used here. */
  function ListView(n: Node): (r: Option<seq<Node>>)
    ensures r.Some? <==> n.ListValue? || n.ObjectValue? || n.PropertyValue?
    ensures n.ListValue? ==> r == Some(n.items)
    ensures n.PropertyValue? ==> r == Some([n])
    ensures n.ObjectValue? ==> r.Some? && |r.value| == |n.entries|
  {
    match n
    case ListValue(items) => Some(items)
    case ObjectValue(entries) =>
      Some(seq(|entries|, i requires 0 <= i < |entries| => PropertyValue(entries[i])))
    case PropertyValue(_) => Some([n])
    case _ => None
  }

  /** In an object without repeated keys, looking up the i-th key yields the
      i-th value. */
  lemma {:induction false} GetNthKey(entries: seq<Property>, i: nat)
    requires UniqueKeys(entries)
    requires i < |entries|
    ensures Get(ObjectValue(entries), entries[i].name) == entries[i].value
  {
    var r := Find(entries, entries[i].name);
    var j :| 0 <= j < |entries| && entries[j] == Property(entries[i].name, r.value);
    assert j == i;
  }
}
