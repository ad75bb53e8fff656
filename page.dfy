/** A parsed HTML page as lxml presents it to the collector and the profile builder: a
    tree of elements, each with its attributes, its leading text, its children and the
    tail text that follows it. Only the XPath shapes the core evaluates are modelled. */
module Page {

  datatype Node = Node(
    tag: string,
    attrs: map<string, string>,
    text: string,
    children: seq<Node>,
    tail: string)

  /** The element tests inside the core's XPath expressions. */
  datatype Query =
    | AttrEq(name: string, value: string)                  // *[@name='value']
    | HasAttr(name: string)                                // *[@name]
    | TagAttrEq(tag: string, name: string, value: string)  // tag[@name='value']

  predicate Matches(q: Query, n: Node) {
    match q
    case AttrEq(a, v) => a in n.attrs && n.attrs[a] == v
    case HasAttr(a) => a in n.attrs
    case TagAttrEq(t, a, v) => n.tag == t && a in n.attrs && n.attrs[a] == v
  }

  /** `//q` on the document rooted at `n`: every matching element, in document order. */
  function Select(n: Node, q: Query): (r: seq<Node>)
    decreases n, 1, 0
    ensures forall k :: 0 <= k < |r| ==> Matches(q, r[k])
    ensures Matches(q, n) ==> |r| > 0 && r[0] == n
  {
    (if Matches(q, n) then [n] else []) + SelectFrom(n, 0, q)
  }

  function SelectFrom(parent: Node, i: nat, q: Query): (r: seq<Node>)
    requires i <= |parent.children|
    decreases parent, 0, |parent.children| - i
    ensures forall k :: 0 <= k < |r| ==> Matches(q, r[k])
  {
    if i == |parent.children| then []
    else Select(parent.children[i], q) + SelectFrom(parent, i + 1, q)
  }

  /** `//scope//q` on the document rooted at `n`: the elements matching `q` that have a
      proper ancestor matching `scope`, in document order and each once. `inside` says
      whether some proper ancestor of `n` matches `scope`. */
  function SelectUnder(n: Node, scope: Query, q: Query, inside: bool): (r: seq<Node>)
    decreases n, 1, 0
    ensures forall k :: 0 <= k < |r| ==> Matches(q, r[k])
  {
    (if inside && Matches(q, n) then [n] else [])
    + SelectUnderFrom(n, 0, scope, q, inside || Matches(scope, n))
  }

  function SelectUnderFrom(parent: Node, i: nat, scope: Query, q: Query, inside: bool): (r: seq<Node>)
    requires i <= |parent.children|
    decreases parent, 0, |parent.children| - i
    ensures forall k :: 0 <= k < |r| ==> Matches(q, r[k])
  {
    if i == |parent.children| then []
    else SelectUnder(parent.children[i], scope, q, inside) + SelectUnderFrom(parent, i + 1, scope, q, inside)
  }

  /** Every element found under a scope is also found by the page-wide search. */
  lemma {:induction false} SelectUnderWithin(n: Node, scope: Query, q: Query, inside: bool)
    decreases n, 1, 0
    ensures forall x :: x in SelectUnder(n, scope, q, inside) ==> x in Select(n, q)
  {
    SelectUnderFromWithin(n, 0, scope, q, inside || Matches(scope, n));
  }

  lemma {:induction false} SelectUnderFromWithin(parent: Node, i: nat, scope: Query, q: Query, inside: bool)
    requires i <= |parent.children|
    decreases parent, 0, |parent.children| - i
    ensures forall x :: x in SelectUnderFrom(parent, i, scope, q, inside) ==> x in SelectFrom(parent, i, q)
  {
    if i < |parent.children| {
      SelectUnderWithin(parent.children[i], scope, q, inside);
      SelectUnderFromWithin(parent, i + 1, scope, q, inside);
    }
  }

  /** `elem.itertext()`: the element's text, then for each child the child's fragments
      followed by the child's tail, in document order. */
  function Fragments(n: Node): (r: seq<string>)
    decreases n, 1, 0
    ensures |r| >= 1 && r[0] == n.text
  {
    [n.text] + FragmentsFrom(n, 0)
  }

  function FragmentsFrom(parent: Node, i: nat): seq<string>
    requires i <= |parent.children|
    decreases parent, 0, |parent.children| - i
  {
    if i == |parent.children| then []
    else Fragments(parent.children[i]) + [parent.children[i].tail] + FragmentsFrom(parent, i + 1)
  }
}
