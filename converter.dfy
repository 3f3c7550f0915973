/**
 * The converter object (converter.go, type Converter and its methods). Its
 * two mode switches are fixed at construction; its import set only grows,
 * across every conversion the object performs. Each method builds its text
 * or list the way the Go code does, with loops and appends, and is proved
 * equal to the specification function of the module it belongs to.
 */
module Conversion {
  import opened GoStrings
  import opened Quoting
  import opened TagNames
  import opened AttributeMapping
  import opened Layout
  import opened HtmlTree
  import opened Emit
  import opened Imports
  import opened Documents

  class Converter {
    const useHTMX: bool
    const useAlpine: bool
    /** The packages collected so far; the html package once any conversion reached collection. */
    var imports: set<string>

    /** NewConverter. */
    constructor(useHTMX: bool, useAlpine: bool)
      ensures this.useHTMX == useHTMX && this.useAlpine == useAlpine
      ensures imports == {}
    {
      this.useHTMX := useHTMX;
      this.useAlpine := useAlpine;
      imports := {};
    }

    function Flags(): Config {
      Config(useHTMX, useAlpine)
    }

    /**
     * Convert. `page` and `fragment` are what the two parsers make of the
     * trimmed input; only the one the routing test selects is looked at.
     */
    method Convert(htmlContent: string, page: Parsed<Option<Node>>, fragment: Parsed<seq<Node>>)
      returns (r: Result<string>)
      modifies this
      ensures var o := ConvertOutcome(htmlContent, page, fragment, old(imports), Flags());
        r == o.result && imports == o.imports
      ensures old(imports) <= imports
    {
      var content := TrimSpace(htmlContent);
      var isFullPage := Contains(content, "<!DOCTYPE") || Contains(content, "<html")
        || (Contains(content, "<head") && Contains(content, "<body"));
      if isFullPage {
        r := ConvertFullPage(page);
      } else {
        r := ConvertFragment(fragment);
      }
    }

    /** convertFullPage. */
    method ConvertFullPage(page: Parsed<Option<Node>>) returns (r: Result<string>)
      modifies this
      ensures var o := FullPage(page, old(imports), Flags());
        r == o.result && imports == o.imports
    {
      if page.ParseError? {
        return Err("failed to parse HTML: " + page.msg);
      }
      if page.value.None? {
        return Err("no html element found");
      }
      var htmlNode := page.value.value;
      CollectImports(htmlNode);
      var header := GenerateImports();
      var code := ConvertNode(htmlNode, [], 1);
      var body := PageOpen + code + ReturnClose;
      FullPageSucceeds(htmlNode, old(imports), Flags());
      r := Ok(header + ("\n" + body));
    }

    /** convertFragment. */
    method ConvertFragment(fragment: Parsed<seq<Node>>) returns (r: Result<string>)
      modifies this
      ensures var o := Fragment(fragment, old(imports), Flags());
        r == o.result && imports == o.imports
    {
      if fragment.ParseError? {
        return Err("failed to parse HTML fragment: " + fragment.msg);
      }
      var fragments := fragment.value;
      if |fragments| == 0 {
        return Err("no fragments found");
      }

      var validFragments := UnwrapFragments(fragments);
      if |validFragments| == 0 {
        return Err("no convertible content found");
      }

      CollectImportsFromFragments(validFragments);
      var header := GenerateImports();
      var body := "";
      if |validFragments| == 1 {
        var code := ConvertNode(validFragments[0].node, validFragments[0].ancestors, 1);
        body := ComponentOpen + code + ReturnClose;
      } else {
        var list := ComponentList(validFragments);
        body := ComponentsOpen + list + ListClose;
      }
      FragmentSucceeds(fragments, validFragments, old(imports), Flags());
      r := Ok(header + ("\n" + body));
    }

    /** The two passes of convertFragment: unwrap every top-level node, then drop blank text. */
    method UnwrapFragments(fragments: seq<Node>) returns (validFragments: seq<Placed>)
      ensures validFragments == ValidOnly(ExtractChildren(fragments, []))
    {
      var actualContent: seq<Placed> := [];
      var i := 0;
      while i < |fragments|
        invariant 0 <= i <= |fragments|
        invariant actualContent == ExtractChildren(fragments[..i], [])
      {
        assert fragments[..i + 1][..i] == fragments[..i];
        var extracted := ExtractActualContent(fragments[i], []);
        actualContent := actualContent + extracted;
        i := i + 1;
      }
      assert fragments[..i] == fragments;

      validFragments := [];
      var j := 0;
      while j < |actualContent|
        invariant 0 <= j <= |actualContent|
        invariant validFragments == ValidOnly(actualContent[..j])
      {
        var frag := actualContent[j];
        assert actualContent[..j + 1] == actualContent[..j] + [frag];
        ValidOnlyAppend(actualContent[..j], [frag]);
        assert ValidOnly([frag]) == ValidOnly([]) + (if Blank(frag) then [] else [frag]);
        if !(frag.node.Text? && TrimSpace(frag.node.data) == "") {
          validFragments := validFragments + [frag];
        }
        j := j + 1;
      }
      assert actualContent[..j] == actualContent;
    }

    /** The Components list of convertFragment: each kept node at depth 2 on its own line, followed by a comma. */
    method ComponentList(fragments: seq<Placed>) returns (list: string)
      ensures list == Lines(ComponentCodes(fragments, 2, Flags()), 2)
    {
      list := "";
      ghost var codes := ComponentCodes(fragments, 2, Flags());
      var k := 0;
      while k < |fragments|
        invariant 0 <= k <= |fragments|
        invariant list == Lines(codes[..k], 2)
      {
        var code := ConvertNode(fragments[k].node, fragments[k].ancestors, 2);
        ghost var before := list;
        list := list + Tabs(2) + code + ",\n";
        LinesStep(codes, k, 2, before, list);
        k := k + 1;
      }
      assert codes[..k] == codes;
    }

    /** extractActualContent. */
    method ExtractActualContent(n: Node, ancestors: seq<string>) returns (result: seq<Placed>)
      ensures result == Extract(n, ancestors)
      decreases n
    {
      result := [];
      match n
      case Element(tag, _, children) =>
        if tag == "html" || tag == "head" || tag == "body" {
          var i := 0;
          while i < |children|
            invariant 0 <= i <= |children|
            invariant result == ExtractChildren(children[..i], [tag] + ancestors)
          {
            assert children[..i + 1][..i] == children[..i];
            var extracted := ExtractActualContent(children[i], [tag] + ancestors);
            result := result + extracted;
            i := i + 1;
          }
          assert children[..i] == children;
        } else {
          result := result + [Placed(n, ancestors)];
        }
      case Text(data) =>
        if TrimSpace(data) != "" {
          result := result + [Placed(n, ancestors)];
        }
      case Other =>
    }

    /** collectImportsFromFragments. */
    method CollectImportsFromFragments(fragments: seq<Placed>)
      modifies this
      ensures imports == old(imports) + {HtmlPath} + FragmentsImports(fragments, Flags())
    {
      imports := imports + {HtmlPath};
      var i := 0;
      while i < |fragments|
        invariant 0 <= i <= |fragments|
        invariant imports == old(imports) + {HtmlPath} + FragmentsImports(fragments[..i], Flags())
      {
        assert fragments[..i + 1][..i] == fragments[..i];
        CollectImports(fragments[i].node);
        i := i + 1;
      }
      assert fragments[..i] == fragments;
    }

    /** collectImports: mark the html package, then walk the tree. */
    method CollectImports(n: Node)
      modifies this
      ensures imports == old(imports) + {HtmlPath} + NodeImports(n, Flags())
    {
      imports := imports + {HtmlPath};
      Walk(n);
    }

    /** The walk inside collectImports: each element's attribute keys, then its children in order. */
    method Walk(node: Node)
      modifies this
      ensures imports == old(imports) + NodeImports(node, Flags())
      decreases node
    {
      if node.Element? {
        var attrs := node.attrs;
        var i := 0;
        while i < |attrs|
          invariant 0 <= i <= |attrs|
          invariant imports == old(imports) + AttrsImports(attrs[..i], Flags())
        {
          assert attrs[..i + 1][..i] == attrs[..i];
          var key := attrs[i].key;
          if HasPrefix(key, "hx-") && useHTMX {
            imports := imports + {HtmxPath};
          }
          if (HasPrefix(key, "x-") || HasPrefix(key, "@") || HasPrefix(key, ":")) && useAlpine {
            imports := imports + {AlpinePath};
          }
          i := i + 1;
        }
        assert attrs[..i] == attrs;
        ghost var afterAttrs := imports;
        var children := node.children;
        var j := 0;
        while j < |children|
          invariant 0 <= j <= |children|
          invariant imports == afterAttrs + ChildrenImports(children[..j], Flags())
        {
          assert children[..j + 1][..j] == children[..j];
          Walk(children[j]);
          j := j + 1;
        }
        assert children[..j] == children;
      }
    }

    /** generateImports: the html dot-import always, then htmx and alpine when collected. */
    method GenerateImports() returns (s: string)
      ensures s == ImportBlock(imports)
    {
      var head := PackageClause + ImportOpen;
      var lines := ImportLine(HtmlPath);
      if HtmxPath in imports {
        lines := lines + ImportLine(HtmxPath);
      }
      if AlpinePath in imports {
        lines := lines + ImportLine(AlpinePath);
      }
      s := head + (lines + ImportClose);
    }

    /** convertNode. */
    method ConvertNode(n: Node, ancestors: seq<string>, depth: nat) returns (code: string)
      ensures code == NodeCode(n, ancestors, depth, Flags())
      decreases n, 3
    {
      match n
      case Text(data) =>
        var text := TrimSpace(data);
        if text == "" {
          code := "";
        } else {
          code := "T(" + QuoteValue(text) + ")";
        }
      case Element(_, _, _) =>
        code := ConvertElement(n, ancestors, depth);
      case Other =>
        code := "";
    }

    /** convertElement: the function name, the attribute arguments, the child arguments, then the layout. */
    method ConvertElement(n: Node, ancestors: seq<string>, depth: nat) returns (code: string)
      requires n.Element?
      ensures code == ElementCode(n, ancestors, depth, Flags())
      decreases n, 2
    {
      var funcName := TagToFunctionWithContext(n.tag, ancestors);
      var args := AttributeArgs(n.attrs, n.tag);
      args := AppendChildArgs(args, n, ancestors, depth);
      var body := FormatArgs(args, depth);
      code := funcName + "(" + body + ")";
    }

    /** The attribute loop of convertElement: every call that is not empty, in order. */
    method AttributeArgs(attrs: seq<Attr>, tag: string) returns (args: seq<string>)
      ensures args == AttrCodes(attrs, tag, Flags())
    {
      args := [];
      var i := 0;
      while i < |attrs|
        invariant 0 <= i <= |attrs|
        invariant args == NonEmpty(AttrCalls(attrs[..i], tag, Flags()))
      {
        var attrCode := ConvertAttribute(attrs[i], tag, Flags());
        AttrCodesStep(attrs, i, tag, Flags(), args, attrCode);
        if attrCode != "" {
          args := args + [attrCode];
        }
        i := i + 1;
      }
      assert attrs[..i] == attrs;
    }

    /** The child loop of convertElement: each child's code, one level deeper, when it is not empty. */
    method AppendChildArgs(args0: seq<string>, n: Node, ancestors: seq<string>, depth: nat) returns (args: seq<string>)
      requires n.Element?
      ensures args == args0 + ChildCodes(n.children, [n.tag] + ancestors, depth + 1, Flags())
      decreases n, 1
    {
      args := args0;
      var children := n.children;
      var inner := [n.tag] + ancestors;
      var j := 0;
      while j < |children|
        invariant 0 <= j <= |children|
        invariant args == args0 + ChildCodes(children[..j], inner, depth + 1, Flags())
      {
        var childCode := ConvertNode(children[j], inner, depth + 1);
        if childCode != "" {
          args := args + [childCode];
        }
        ChildCodesStep(args0, args, children, j, inner, depth + 1, Flags(), childCode);
        j := j + 1;
      }
      assert children[..j] == children;
    }

    /** tagToFunctionWithContext: the table, then title and label by context, then title-casing. */
    method TagToFunctionWithContext(tag: string, ancestors: seq<string>) returns (name: string)
      ensures name == TagFunction(tag, ancestors)
    {
      if tag in SpecialTags {
        return SpecialTags[tag];
      }
      if tag == "title" {
        var inHead := IsInHeadContext(ancestors);
        return if inHead then "HeadTitle" else "Title";
      }
      if tag == "label" {
        var inForm := IsInFormContext(ancestors);
        return if inForm then "FormLabel" else "Label";
      }
      return TitleCase(tag);
    }

    /** isInHeadContext: walk up from the parent to the root, looking for a head element. */
    method IsInHeadContext(ancestors: seq<string>) returns (b: bool)
      ensures b <==> "head" in ancestors
    {
      var i := 0;
      while i < |ancestors|
        invariant 0 <= i <= |ancestors|
        invariant "head" !in ancestors[..i]
      {
        if ancestors[i] == "head" {
          return true;
        }
        assert ancestors[..i + 1] == ancestors[..i] + [ancestors[i]];
        i := i + 1;
      }
      assert ancestors[..i] == ancestors;
      return false;
    }

    /** isInFormContext: walk up from the parent to the root, looking for a form element. */
    method IsInFormContext(ancestors: seq<string>) returns (b: bool)
      ensures b <==> "form" in ancestors
    {
      var i := 0;
      while i < |ancestors|
        invariant 0 <= i <= |ancestors|
        invariant "form" !in ancestors[..i]
      {
        if ancestors[i] == "form" {
          return true;
        }
        assert ancestors[..i + 1] == ancestors[..i] + [ancestors[i]];
        i := i + 1;
      }
      assert ancestors[..i] == ancestors;
      return false;
    }
  }
}
