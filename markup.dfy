/**
 * The markup the viewer builds by string concatenation, kept as a tree:
 * an element with its attributes and children, or a piece of text.  Every
 * string in the tree is what the source splices into the markup, i.e.
 * already escaped where the source escapes it.
 */
module Markup {
  import opened JsText
  import opened Html

  datatype Attribute = Attribute(name: string, value: string)

  datatype Node =
    | Element(tag: string, attributes: seq<Attribute>, children: seq<Node>)
    | Text(markup: string)

  /** The value of the first attribute called `name`, as a list of zero or one strings. */
  function AttributeValue(attributes: seq<Attribute>, name: string): (r: seq<string>)
    ensures |r| <= 1
    ensures r == [] <==> forall i | 0 <= i < |attributes| :: attributes[i].name != name
  {
    if attributes == [] then []
    else if attributes[0].name == name then [attributes[0].value]
    else AttributeValue(attributes[1..], name)
  }

  /** Values of attribute `name` on every `tag` element of the tree, in document order. */
  function Find(n: Node, tag: string, name: string): seq<string>
    decreases n
  {
    match n
    case Text(_) => []
    case Element(t, attributes, children) =>
      (if t == tag then AttributeValue(attributes, name) else []) + FindAll(children, tag, name)
  }

  function FindAll(ns: seq<Node>, tag: string, name: string): seq<string>
    decreases ns
  {
    if ns == [] then [] else Find(ns[0], tag, name) + FindAll(ns[1..], tag, name)
  }

  lemma {:induction false} FindAllConcat(a: seq<Node>, b: seq<Node>, tag: string, name: string)
    ensures FindAll(a + b, tag, name) == FindAll(a, tag, name) + FindAll(b, tag, name)
  {
    if a == [] {
      assert a + b == b;
    } else {
      assert (a + b)[0] == a[0] && (a + b)[1..] == a[1..] + b;
      FindAllConcat(a[1..], b, tag, name);
    }
  }

  lemma FindAllOne(n: Node, tag: string, name: string)
    ensures FindAll([n], tag, name) == Find(n, tag, name)
  {
    assert [n][1..] == [];
  }

  /** Every text and every attribute value in the tree is safe markup text. */
  predicate SafeNode(n: Node)
    decreases n
  {
    match n
    case Text(t) => Safe(t)
    case Element(_, attributes, children) =>
      (forall i | 0 <= i < |attributes| :: Safe(attributes[i].value)) && SafeNodes(children)
  }

  predicate SafeNodes(ns: seq<Node>)
    decreases ns
  {
    ns == [] || (SafeNode(ns[0]) && SafeNodes(ns[1..]))
  }

  lemma {:induction false} SafeNodesConcat(a: seq<Node>, b: seq<Node>)
    requires SafeNodes(a) && SafeNodes(b)
    ensures SafeNodes(a + b)
  {
    if a == [] {
      assert a + b == b;
    } else {
      assert (a + b)[0] == a[0] && (a + b)[1..] == a[1..] + b;
      SafeNodesConcat(a[1..], b);
    }
  }

  lemma SafeNodesOne(n: Node)
    requires SafeNode(n)
    ensures SafeNodes([n])
  {
    assert [n][1..] == [];
  }

  lemma {:induction false} SafeNodesEach(ns: seq<Node>)
    requires forall k | 0 <= k < |ns| :: SafeNode(ns[k])
    ensures SafeNodes(ns)
  {
    if ns != [] {
      SafeNodesEach(ns[1..]);
    }
  }

  /** A printed integer is safe markup text: digits and perhaps a minus sign. */
  lemma DecimalSafe(n: int)
    ensures Safe(IntToDecimal(n))
  {
  }
}
