/**
 * The game's configuration node, as far as the impact code uses it: a set of
 * named values and an ordered list of named child nodes.  `Node` is the value
 * form of a node (used for children and for nodes that are only read);
 * `ConfigNode` is a node that the code changes in place.
 */
module ConfigNodes {
  import opened Options

  /** A stored value: a number written by `AddValue(name, number)` or a text. */
  datatype Value = Num(x: real) | Text(s: string)

  datatype Node = Node(name: string, values: map<string, Value>, nodes: seq<Node>)

  /** `AddValue`: the node keeps every value, but `GetValue` answers with the first one added. */
  function AddValueTo(values: map<string, Value>, key: string, v: Value): (r: map<string, Value>)
    ensures key in r && r[key] == (if key in values then values[key] else v)
    ensures forall k :: k != key ==> (k in r <==> k in values)
    ensures forall k :: k in values ==> k in r && r[k] == values[k]
  {
    if key in values then values else values[key := v]
  }

  /** The number stored under `key`, or `default` when there is none. */
  function ReadReal(values: map<string, Value>, key: string, default: real): (r: real)
    ensures key in values && values[key].Num? ==> r == values[key].x
    ensures !(key in values && values[key].Num?) ==> r == default
  {
    if key in values && values[key].Num? then values[key].x else default
  }

  /** The text stored under `key`, or `default` when there is none. */
  function ReadText(values: map<string, Value>, key: string, default: Option<string>): (r: Option<string>)
    ensures key in values && values[key].Text? ==> r == Some(values[key].s)
    ensures !(key in values && values[key].Text?) ==> r == default
  {
    if key in values && values[key].Text? then Some(values[key].s) else default
  }

  /** `GetNode(name)`: the first child with that name. */
  function FirstNamed(nodes: seq<Node>, name: string): (r: Option<Node>)
    ensures r.Some? ==> r.value in nodes && r.value.name == name
    ensures r.None? <==> forall n :: n in nodes ==> n.name != name
  {
    if nodes == [] then None
    else if nodes[0].name == name then Some(nodes[0])
    else FirstNamed(nodes[1..], name)
  }

  /** `RemoveNodes(name)`: every child with that name is dropped, the others keep their order. */
  function WithoutNamed(nodes: seq<Node>, name: string): (r: seq<Node>)
    ensures forall n :: n in r <==> n in nodes && n.name != name
    ensures CountNamed(r, name) == 0
  {
    if nodes == [] then []
    else if nodes[0].name == name then WithoutNamed(nodes[1..], name)
    else [nodes[0]] + WithoutNamed(nodes[1..], name)
  }

  /** How many children carry the given name. */
  function CountNamed(nodes: seq<Node>, name: string): nat
  {
    if nodes == [] then 0
    else (if nodes[0].name == name then 1 else 0) + CountNamed(nodes[1..], name)
  }

  lemma {:induction false} CountNamedAppend(a: seq<Node>, b: seq<Node>, name: string)
    ensures CountNamed(a + b, name) == CountNamed(a, name) + CountNamed(b, name)
  {
    if a != [] {
      assert (a + b)[1..] == a[1..] + b;
      CountNamedAppend(a[1..], b, name);
    } else {
      assert a + b == b;
    }
  }

  lemma {:induction false} FirstNamedAppend(a: seq<Node>, b: seq<Node>, name: string)
    requires forall n :: n in a ==> n.name != name
    ensures FirstNamed(a + b, name) == FirstNamed(b, name)
  {
    if a != [] {
      assert (a + b)[1..] == a[1..] + b;
      FirstNamedAppend(a[1..], b, name);
    } else {
      assert a + b == b;
    }
  }

  lemma WithoutNamedCons(first: Node, rest: seq<Node>, name: string)
    ensures WithoutNamed([first] + rest, name)
         == if first.name == name then WithoutNamed(rest, name) else [first] + WithoutNamed(rest, name)
  {
    assert ([first] + rest)[1..] == rest;
  }

  lemma {:induction false} WithoutNamedAppend(a: seq<Node>, b: seq<Node>, name: string)
    ensures WithoutNamed(a + b, name) == WithoutNamed(a, name) + WithoutNamed(b, name)
  {
    if a == [] {
      assert a + b == b;
    } else {
      var rest := a[1..];
      assert a + b == [a[0]] + (rest + b);
      WithoutNamedCons(a[0], rest + b, name);
      WithoutNamedAppend(rest, b, name);
    }
  }

  lemma {:induction false} WithoutNamedNoOp(a: seq<Node>, name: string)
    requires forall n :: n in a ==> n.name != name
    ensures WithoutNamed(a, name) == a
  {
    if a != [] {
      WithoutNamedNoOp(a[1..], name);
    }
  }

  lemma {:induction false} CountOneWhenPresent(a: seq<Node>, name: string)
    requires FirstNamed(a, name).Some?
    ensures CountNamed(a, name) >= 1
  {
    if a[0].name != name {
      CountOneWhenPresent(a[1..], name);
    }
  }

  class ConfigNode {
    const name: string
    var values: map<string, Value>
    var nodes: seq<Node>

    constructor (name: string)
      ensures this.name == name && values == map[] && nodes == []
    {
      this.name := name;
      values := map[];
      nodes := [];
    }

    function Snapshot(): Node
      reads this
    {
      Node(name, values, nodes)
    }

    method AddValue(key: string, v: Value)
      modifies this
      ensures values == AddValueTo(old(values), key, v) && nodes == old(nodes)
    {
      values := AddValueTo(values, key, v);
    }

    method AddNode(child: Node)
      modifies this
      ensures nodes == old(nodes) + [child] && values == old(values)
    {
      nodes := nodes + [child];
    }

    method RemoveNodes(childName: string)
      modifies this
      ensures nodes == WithoutNamed(old(nodes), childName) && values == old(values)
    {
      nodes := WithoutNamed(nodes, childName);
    }
  }
}
