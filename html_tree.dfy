/**
 * The parsed HTML tree the converter walks. The parser's node graph (parent,
 * first-child and next-sibling pointers) becomes a value: an element holds
 * its attributes and its children in document order. Comments, doctypes and
 * every other node kind are `Other`; the converter emits nothing for them.
 */
module HtmlTree {
  import opened GoStrings
  import opened AttributeMapping

  datatype Node =
    | Element(tag: string, attrs: seq<Attr>, children: seq<Node>)
    | Text(data: string)
    | Other

  /** A node that produces code: every element, and text that is not all white space. */
  predicate Emits(n: Node) {
    n.Element? || (n.Text? && TrimSpace(n.data) != "")
  }

  /** The children that produce code, in order. */
  function Emitting(cs: seq<Node>): (r: seq<Node>)
    ensures |r| <= |cs|
    ensures forall i :: 0 <= i < |r| ==> Emits(r[i])
    ensures forall n :: n in r <==> n in cs && Emits(n)
    decreases |cs|
  {
    if cs == [] then []
    else
      var rest := Emitting(cs[..|cs| - 1]);
      if Emits(cs[|cs| - 1]) then rest + [cs[|cs| - 1]] else rest
  }

  /** The selection keeps document order: selecting from a concatenation selects from each part. */
  lemma {:induction false} EmittingAppend(cs: seq<Node>, ds: seq<Node>)
    ensures Emitting(cs + ds) == Emitting(cs) + Emitting(ds)
    decreases |ds|
  {
    if ds == [] {
      assert cs + ds == cs;
    } else {
      var init := ds[..|ds| - 1];
      assert (cs + ds)[..|cs + ds| - 1] == cs + init;
      EmittingAppend(cs, init);
    }
  }

  /** Every attribute key that occurs in the tree rooted at `n`. */
  function Keys(n: Node): (ks: set<string>)
    ensures n.Element? ==> forall a :: a in n.attrs ==> a.key in ks
    decreases n, 1
  {
    match n
    case Element(_, attrs, children) => (set a | a in attrs :: a.key) + ChildrenKeys(children)
    case _ => {}
  }

  function ChildrenKeys(cs: seq<Node>): (ks: set<string>)
    ensures forall i :: 0 <= i < |cs| ==> Keys(cs[i]) <= ks
    decreases cs, 0
  {
    if cs == [] then {} else ChildrenKeys(cs[..|cs| - 1]) + Keys(cs[|cs| - 1])
  }
}
