/**
 * Code emission for a tree (converter.go, convertNode and convertElement),
 * as functions of the node, the tags of its enclosing elements (nearest
 * first), the nesting depth and the mode switches. The Converter methods
 * that build the same text with loops are proved equal to these.
 */
module Emit {
  import opened GoStrings
  import opened Quoting
  import opened TagNames
  import opened AttributeMapping
  import opened Layout
  import opened HtmlTree

  /** A text node: T(...) around its trimmed content, or nothing when that is empty. */
  function TextCode(data: string): (code: string)
    ensures code == "" <==> TrimSpace(data) == ""
  {
    var text := TrimSpace(data);
    if text == "" then "" else "T(" + QuoteValue(text) + ")"
  }

  /** The non-empty strings of `xs`, in order: what an `if code != ""` append loop collects. */
  function NonEmpty(xs: seq<string>): (r: seq<string>)
    ensures forall i :: 0 <= i < |r| ==> r[i] != ""
    decreases |xs|
  {
    if xs == [] then []
    else NonEmpty(xs[..|xs| - 1]) + (if xs[|xs| - 1] != "" then [xs[|xs| - 1]] else [])
  }

  lemma {:induction false} NonEmptyKeepsAll(xs: seq<string>)
    requires forall i :: 0 <= i < |xs| ==> xs[i] != ""
    ensures NonEmpty(xs) == xs
    decreases |xs|
  {
    if xs != [] {
      NonEmptyKeepsAll(xs[..|xs| - 1]);
      assert xs[..|xs| - 1] + [xs[|xs| - 1]] == xs;
    }
  }

  /** `f` applied to every attribute, in order, as the attribute loop visits them. */
  function MapAttrs(attrs: seq<Attr>, f: Attr -> string): (r: seq<string>)
    ensures |r| == |attrs|
    decreases |attrs|
  {
    if attrs == [] then [] else MapAttrs(attrs[..|attrs| - 1], f) + [f(attrs[|attrs| - 1])]
  }

  lemma {:induction false} MapAttrsAt(attrs: seq<Attr>, f: Attr -> string)
    ensures forall i :: 0 <= i < |attrs| ==> MapAttrs(attrs, f)[i] == f(attrs[i])
    decreases |attrs|
  {
    if attrs != [] {
      MapAttrsAt(attrs[..|attrs| - 1], f);
    }
  }

  /** The attribute calls of an element, one per attribute in order, before the empty ones are filtered out. */
  function AttrCalls(attrs: seq<Attr>, tag: string, cfg: Config): seq<string> {
    MapAttrs(attrs, a => ConvertAttribute(a, tag, cfg))
  }

  /** The attribute arguments of an element: no attribute is dropped, and the order is kept. */
  function AttrCodes(attrs: seq<Attr>, tag: string, cfg: Config): (codes: seq<string>)
    ensures |codes| == |attrs|
    ensures forall i :: 0 <= i < |attrs| ==> codes[i] == ConvertAttribute(attrs[i], tag, cfg)
  {
    var calls := AttrCalls(attrs, tag, cfg);
    MapAttrsAt(attrs, a => ConvertAttribute(a, tag, cfg));
    NonEmptyKeepsAll(calls);
    NonEmpty(calls)
  }

  /** One step of a loop that appends the non-empty attribute calls. */
  lemma AttrCodesStep(attrs: seq<Attr>, i: nat, tag: string, cfg: Config, args: seq<string>, code: string)
    requires i < |attrs| && args == NonEmpty(AttrCalls(attrs[..i], tag, cfg))
    requires code == ConvertAttribute(attrs[i], tag, cfg)
    ensures (if code != "" then args + [code] else args) == NonEmpty(AttrCalls(attrs[..i + 1], tag, cfg))
  {
    var next := attrs[..i + 1];
    assert next[..|next| - 1] == attrs[..i];
    var calls := AttrCalls(next, tag, cfg);
    assert calls == AttrCalls(attrs[..i], tag, cfg) + [code];
    assert calls[..|calls| - 1] == AttrCalls(attrs[..i], tag, cfg);
  }

  /** The code of node `n` below the elements `ancestors`, at nesting depth `depth`. */
  function NodeCode(n: Node, ancestors: seq<string>, depth: nat, cfg: Config): (code: string)
    ensures code != "" <==> Emits(n)
    decreases n, 2
  {
    match n
    case Text(data) => TextCode(data)
    case Element(_, _, _) => ElementCode(n, ancestors, depth, cfg)
    case Other => ""
  }

  /** An element: its function, called with the attribute calls and then the child codes. */
  function ElementCode(n: Node, ancestors: seq<string>, depth: nat, cfg: Config): (code: string)
    requires n.Element?
    ensures code != ""
    decreases n, 1
  {
    CallCode(TagFunction(n.tag, ancestors),
             AttrCodes(n.attrs, n.tag, cfg) + ChildCodes(n.children, [n.tag] + ancestors, depth + 1, cfg),
             depth)
  }

  /** The child arguments of an element: the non-empty codes of its children, in order. */
  function ChildCodes(cs: seq<Node>, ancestors: seq<string>, depth: nat, cfg: Config): (codes: seq<string>)
    ensures |codes| <= |cs|
    ensures forall i :: 0 <= i < |codes| ==> codes[i] != ""
    decreases cs, 0
  {
    if cs == [] then []
    else
      var code := NodeCode(cs[|cs| - 1], ancestors, depth, cfg);
      ChildCodes(cs[..|cs| - 1], ancestors, depth, cfg) + (if code != "" then [code] else [])
  }

  /** Appending one child: its code is appended when it is not empty. */
  lemma ChildCodesSnoc(cs: seq<Node>, c: Node, ancestors: seq<string>, depth: nat, cfg: Config)
    ensures var code := NodeCode(c, ancestors, depth, cfg);
      ChildCodes(cs + [c], ancestors, depth, cfg)
        == ChildCodes(cs, ancestors, depth, cfg) + (if code != "" then [code] else [])
  {
    assert (cs + [c])[..|cs + [c]| - 1] == cs;
  }

  /** One step of a loop that appends the non-empty child codes to `args0`. */
  lemma ChildCodesStep(args0: seq<string>, args: seq<string>, cs: seq<Node>, j: nat, ancestors: seq<string>,
                       depth: nat, cfg: Config, code: string)
    requires j < |cs| && code == NodeCode(cs[j], ancestors, depth, cfg)
    requires args == args0 + ChildCodes(cs[..j], ancestors, depth, cfg) + (if code != "" then [code] else [])
    ensures args == args0 + ChildCodes(cs[..j + 1], ancestors, depth, cfg)
  {
    var tail := if code != "" then [code] else [];
    assert cs[..j + 1] == cs[..j] + [cs[j]];
    ChildCodesSnoc(cs[..j], cs[j], ancestors, depth, cfg);
    assert ChildCodes(cs[..j + 1], ancestors, depth, cfg) == ChildCodes(cs[..j], ancestors, depth, cfg) + tail;
    assert args0 + (ChildCodes(cs[..j], ancestors, depth, cfg) + tail)
        == args0 + ChildCodes(cs[..j], ancestors, depth, cfg) + tail;
  }

  // ---------------------------------------------------------------------
  // Properties
  // ---------------------------------------------------------------------

  /** The child arguments are exactly the codes of the children that emit, one each, in order. */
  lemma {:induction false} ChildCodesOfEmitting(cs: seq<Node>, ancestors: seq<string>, depth: nat, cfg: Config)
    ensures var codes := ChildCodes(cs, ancestors, depth, cfg);
      && |codes| == |Emitting(cs)|
      && forall i :: 0 <= i < |codes| ==> codes[i] == NodeCode(Emitting(cs)[i], ancestors, depth, cfg)
    decreases |cs|
  {
    if cs != [] {
      ChildCodesOfEmitting(cs[..|cs| - 1], ancestors, depth, cfg);
    }
  }

  /** An element's code is a call of the function its tag maps to. */
  lemma ElementCall(n: Node, ancestors: seq<string>, depth: nat, cfg: Config)
    ensures n.Element? ==> HasPrefix(NodeCode(n, ancestors, depth, cfg), TagFunction(n.tag, ancestors) + "(")
  {
    if !n.Element? {
      return;
    }
    var name := TagFunction(n.tag, ancestors);
    var code := NodeCode(n, ancestors, depth, cfg);
    assert code == ElementCode(n, ancestors, depth, cfg);
    assert code[..|name| + 1] == code[..|name|] + [code[|name|]];
  }

  /** An element without attributes and without children that emit is `F()`. */
  lemma EmptyElement(n: Node, ancestors: seq<string>, depth: nat, cfg: Config)
    requires n.Element? && n.attrs == [] && Emitting(n.children) == []
    ensures NodeCode(n, ancestors, depth, cfg) == TagFunction(n.tag, ancestors) + "()"
  {
    ChildCodesOfEmitting(n.children, [n.tag] + ancestors, depth + 1, cfg);
    assert AttrCodes(n.attrs, n.tag, cfg) + ChildCodes(n.children, [n.tag] + ancestors, depth + 1, cfg) == [];
    assert NodeCode(n, ancestors, depth, cfg) == ElementCode(n, ancestors, depth, cfg);
  }

  /**
   * The literal in T(...) denotes the trimmed text of the node. A carriage
   * return inside a raw literal is the one exception, as Go drops it.
   */
  lemma TextRoundTrip(data: string)
    requires TrimSpace(data) != ""
    requires UsesBackticks(TrimSpace(data)) ==> '\r' !in TrimSpace(data)
    ensures var code := TextCode(data);
      && |code| >= 3 && code[..2] == "T(" && code[|code| - 1] == ')'
      && DecodeLiteral(code[2..|code| - 1]) == Some(TrimSpace(data))
  {
    var text := TrimSpace(data);
    var lit := QuoteValue(text);
    var code := TextCode(data);
    assert code == "T(" + lit + ")";
    assert code[2..|code| - 1] == lit;
    QuoteValueRoundTrip(text);
  }
}
