/**
 * From a parsed document to the generated Go file (converter.go, Convert,
 * convertFullPage, convertFragment and extractActualContent), as functions
 * of what the parser returned and of the import set held before the call.
 *
 * The HTML parser is not part of this model. Its results are inputs:
 * `page` is what html.Parse followed by the search for the html element
 * yields (a parse error, no html element, or that element), and `fragment`
 * is what html.ParseFragment yields (a parse error or the top-level nodes).
 * Both are taken on the trimmed input.
 */
module Documents {
  import opened GoStrings
  import opened Quoting
  import opened TagNames
  import opened AttributeMapping
  import opened HtmlTree
  import opened Layout
  import opened Emit
  import opened Imports

  datatype Parsed<T> = ParseError(msg: string) | Parsed(value: T)

  datatype Result<T> = Ok(value: T) | Err(msg: string)

  /** What a conversion returns, and the import set the converter holds afterwards. */
  datatype Outcome = Outcome(result: Result<string>, imports: set<string>)

  /**
   * The routing test of Convert, applied to the trimmed input: a document
   * that starts with a doctype or an html tag is a full page, and text
   * without any `<` is always a fragment.
   */
  function IsFullPage(s: string): (full: bool)
    ensures HasPrefix(s, "<!DOCTYPE") || HasPrefix(s, "<html") ==> full
    ensures full ==> '<' in s
  {
    ContainsFirst(s, "<!DOCTYPE");
    ContainsFirst(s, "<html");
    ContainsFirst(s, "<head");
    Contains(s, "<!DOCTYPE") || Contains(s, "<html") || (Contains(s, "<head") && Contains(s, "<body"))
  }

  // ---------------------------------------------------------------------
  // Fragment unwrapping
  // ---------------------------------------------------------------------

  /** The elements the fragment parser wraps content in. */
  predicate IsWrapper(tag: string) {
    tag == "html" || tag == "head" || tag == "body"
  }

  /** A node kept by extraction, with the tags of its enclosing elements, nearest first. */
  datatype Placed = Placed(node: Node, ancestors: seq<string>)

  /** A kept node produces code, is not a wrapper, and sits below wrappers only (besides the starting ancestors). */
  predicate WellPlaced(p: Placed, ancestors: seq<string>) {
    && Emits(p.node)
    && !(p.node.Element? && IsWrapper(p.node.tag))
    && forall t :: t in p.ancestors ==> IsWrapper(t) || t in ancestors
  }

  /**
   * extractActualContent: wrappers are replaced by what their children
   * yield, other elements and text that is not all white space are kept,
   * everything else is dropped. Whatever is kept produces code, is not a
   * wrapper, and has only wrappers above it besides `ancestors`.
   */
  function Extract(n: Node, ancestors: seq<string>): (ps: seq<Placed>)
    ensures forall p :: p in ps ==> WellPlaced(p, ancestors)
    decreases n, 1
  {
    match n
    case Element(tag, _, children) =>
      if IsWrapper(tag) then
        var inner := [tag] + ancestors;
        assert forall t :: t in inner ==> IsWrapper(t) || t in ancestors;
        ExtractChildren(children, inner)
      else [Placed(n, ancestors)]
    case Text(data) => if TrimSpace(data) != "" then [Placed(n, ancestors)] else []
    case Other => []
  }

  /** What a sequence of siblings yields, in document order; the same placement holds. */
  function ExtractChildren(cs: seq<Node>, ancestors: seq<string>): (ps: seq<Placed>)
    ensures forall p :: p in ps ==> WellPlaced(p, ancestors)
    decreases cs, 0
  {
    if cs == [] then [] else ExtractChildren(cs[..|cs| - 1], ancestors) + Extract(cs[|cs| - 1], ancestors)
  }

  /** A kept text node whose content is all white space. */
  predicate Blank(p: Placed) {
    p.node.Text? && TrimSpace(p.node.data) == ""
  }

  /** The second pass of convertFragment: drop text nodes that are all white space, keep everything else. */
  function ValidOnly(ps: seq<Placed>): (r: seq<Placed>)
    ensures |r| <= |ps|
    ensures forall p :: p in r <==> p in ps && !Blank(p)
    decreases |ps|
  {
    if ps == [] then []
    else
      var p := ps[|ps| - 1];
      ValidOnly(ps[..|ps| - 1]) + (if Blank(p) then [] else [p])
  }

  /** The filter keeps the order: filtering a concatenation filters each part. */
  lemma {:induction false} ValidOnlyAppend(ps: seq<Placed>, qs: seq<Placed>)
    ensures ValidOnly(ps + qs) == ValidOnly(ps) + ValidOnly(qs)
    decreases |qs|
  {
    if qs == [] {
      assert ps + qs == ps;
    } else {
      var init := qs[..|qs| - 1];
      assert (ps + qs)[..|ps + qs| - 1] == ps + init;
      ValidOnlyAppend(ps, init);
    }
  }

  /** Extraction respects document order: the nodes of consecutive siblings come out consecutively. */
  lemma {:induction false} ExtractChildrenAppend(cs: seq<Node>, ds: seq<Node>, ancestors: seq<string>)
    ensures ExtractChildren(cs + ds, ancestors) == ExtractChildren(cs, ancestors) + ExtractChildren(ds, ancestors)
    decreases |ds|
  {
    if ds == [] {
      assert cs + ds == cs;
    } else {
      var init, last := ds[..|ds| - 1], ds[|ds| - 1];
      assert (cs + ds)[..|cs + ds| - 1] == cs + init;
      assert (cs + ds)[|cs + ds| - 1] == last;
      ExtractChildrenAppend(cs, init, ancestors);
      calc {
        ExtractChildren(cs + ds, ancestors);
        ExtractChildren(cs + init, ancestors) + Extract(last, ancestors);
        ExtractChildren(cs, ancestors) + ExtractChildren(init, ancestors) + Extract(last, ancestors);
        ExtractChildren(cs, ancestors) + ExtractChildren(ds, ancestors);
      }
    }
  }

  /** Nothing convertible is lost: every sibling that produces code and is not a wrapper is kept, below the same ancestors. */
  lemma {:induction false} ExtractKeepsContent(cs: seq<Node>, ancestors: seq<string>)
    ensures forall i :: 0 <= i < |cs| && Emits(cs[i]) && !(cs[i].Element? && IsWrapper(cs[i].tag)) ==>
      Placed(cs[i], ancestors) in ExtractChildren(cs, ancestors)
    decreases |cs|
  {
    if cs != [] {
      var init := cs[..|cs| - 1];
      ExtractKeepsContent(init, ancestors);
      forall i | 0 <= i < |cs| && Emits(cs[i]) && !(cs[i].Element? && IsWrapper(cs[i].tag))
        ensures Placed(cs[i], ancestors) in ExtractChildren(cs, ancestors)
      {
        if i < |init| {
          assert init[i] == cs[i];
        } else {
          assert Extract(cs[i], ancestors) == [Placed(cs[i], ancestors)];
        }
      }
    }
  }

  lemma {:induction false} ValidOnlyKeeps(ps: seq<Placed>)
    requires forall p :: p in ps ==> Emits(p.node)
    ensures ValidOnly(ps) == ps
    decreases |ps|
  {
    if ps != [] {
      var init, last := ps[..|ps| - 1], ps[|ps| - 1];
      assert ps == init + [last];
      ValidOnlyKeeps(init);
      assert Emits(last.node);
    }
  }

  /** The white-space filter of convertFragment never removes anything: extraction already dropped blank text. */
  lemma FilterIsRedundant(frags: seq<Node>)
    ensures ValidOnly(ExtractChildren(frags, [])) == ExtractChildren(frags, [])
  {
    ValidOnlyKeeps(ExtractChildren(frags, []));
  }

  // ---------------------------------------------------------------------
  // The generated file
  // ---------------------------------------------------------------------

  /** The imports every kept fragment adds, in order. */
  function FragmentsImports(ps: seq<Placed>, cfg: Config): (paths: set<string>)
    ensures paths <= {HtmxPath, AlpinePath}
    decreases |ps|
  {
    if ps == [] then {} else FragmentsImports(ps[..|ps| - 1], cfg) + NodeImports(ps[|ps| - 1].node, cfg)
  }

  /** Every attribute key in the kept fragments. */
  function FragmentsKeys(ps: seq<Placed>): (ks: set<string>)
    ensures forall i :: 0 <= i < |ps| ==> Keys(ps[i].node) <= ks
    decreases |ps|
  {
    if ps == [] then {} else FragmentsKeys(ps[..|ps| - 1]) + Keys(ps[|ps| - 1].node)
  }

  const PageOpen := "func Page() Node {\n\treturn "
  const ComponentOpen := "func Component() Node {\n\treturn "
  const ComponentsOpen := "func Components() []Node {\n\treturn []Node{\n"
  const ReturnClose := "\n}\n"
  const ListClose := "\t}\n}\n"

  /** The function a full page becomes: Page, returning the html element's builder call at depth 1. */
  function PageBody(root: Node, cfg: Config): (body: string)
    ensures HasPrefix(body, PageOpen)
    ensures root.Element? ==> HasPrefix(body[|PageOpen|..], TagFunction(root.tag, []) + "(")
  {
    var code := NodeCode(root, [], 1, cfg);
    ElementCall(root, [], 1, cfg);
    PrefixInside(PageOpen, code, ReturnClose, if root.Element? then TagFunction(root.tag, []) + "(" else "");
    PageOpen + code + ReturnClose
  }

  /** The codes of the kept fragments at depth `depth`, each below its own ancestors. */
  function ComponentCodes(ps: seq<Placed>, depth: nat, cfg: Config): (codes: seq<string>)
    ensures |codes| == |ps|
    ensures forall i :: 0 <= i < |ps| ==> codes[i] == NodeCode(ps[i].node, ps[i].ancestors, depth, cfg)
    ensures forall i :: 0 <= i < |ps| && Emits(ps[i].node) ==> codes[i] != ""
  {
    seq(|ps|, i requires 0 <= i < |ps| => NodeCode(ps[i].node, ps[i].ancestors, depth, cfg))
  }

  /**
   * The function a fragment becomes: one kept node is returned by Component at
   * depth 1; several are listed by Components, one per line at depth 2,
   * each followed by a comma.
   */
  function ComponentBody(ps: seq<Placed>, cfg: Config): (body: string)
    requires ps != []
    ensures |ps| == 1 ==> HasPrefix(body, ComponentOpen)
    ensures |ps| == 1 && ps[0].node.Element? ==>
      HasPrefix(body[|ComponentOpen|..], TagFunction(ps[0].node.tag, ps[0].ancestors) + "(")
    ensures |ps| > 1 ==> HasPrefix(body, ComponentsOpen)
    ensures |ps| > 1 ==> HasPrefix(body[|ComponentsOpen|..], Tabs(2) + ComponentCodes(ps, 2, cfg)[0] + ",\n")
  {
    if |ps| == 1 then
      var code := NodeCode(ps[0].node, ps[0].ancestors, 1, cfg);
      ElementCall(ps[0].node, ps[0].ancestors, 1, cfg);
      PrefixInside(ComponentOpen, code, ReturnClose,
                   if ps[0].node.Element? then TagFunction(ps[0].node.tag, ps[0].ancestors) + "(" else "");
      ComponentOpen + code + ReturnClose
    else
      var codes := ComponentCodes(ps, 2, cfg);
      PrefixInside(ComponentsOpen, Lines(codes, 2), ListClose, Tabs(2) + codes[0] + ",\n");
      ComponentsOpen + Lines(codes, 2) + ListClose
  }

  /** convertFullPage. */
  function FullPage(page: Parsed<Option<Node>>, imports: set<string>, cfg: Config): (o: Outcome)
    ensures imports <= o.imports
    ensures o.result.Err? <==> !(page.Parsed? && page.value.Some?)
    ensures o.result.Err? ==> o.imports == imports
    ensures o.result.Ok? ==> HtmlPath in o.imports && HasPrefix(o.result.value, ImportBlock(o.imports))
  {
    match page
    case ParseError(msg) => Outcome(Err("failed to parse HTML: " + msg), imports)
    case Parsed(None) => Outcome(Err("no html element found"), imports)
    case Parsed(Some(root)) =>
      var next := imports + {HtmlPath} + NodeImports(root, cfg);
      PrefixOfConcat(ImportBlock(next), "\n" + PageBody(root, cfg));
      Outcome(Ok(ImportBlock(next) + ("\n" + PageBody(root, cfg))), next)
  }

  /** convertFragment. */
  function Fragment(fragment: Parsed<seq<Node>>, imports: set<string>, cfg: Config): (o: Outcome)
    ensures imports <= o.imports
    ensures o.result.Err? ==> o.imports == imports
    ensures o.result.Ok? ==> HtmlPath in o.imports && HasPrefix(o.result.value, ImportBlock(o.imports))
  {
    match fragment
    case ParseError(msg) => Outcome(Err("failed to parse HTML fragment: " + msg), imports)
    case Parsed(frags) =>
      if frags == [] then Outcome(Err("no fragments found"), imports)
      else
        var valid := ValidOnly(ExtractChildren(frags, []));
        if valid == [] then Outcome(Err("no convertible content found"), imports)
        else
          var next := imports + {HtmlPath} + FragmentsImports(valid, cfg);
          PrefixOfConcat(ImportBlock(next), "\n" + ComponentBody(valid, cfg));
          Outcome(Ok(ImportBlock(next) + ("\n" + ComponentBody(valid, cfg))), next)
  }

  /** A page with an html element: the imports it collects, and the file. */
  lemma FullPageSucceeds(root: Node, imports: set<string>, cfg: Config)
    ensures var next := imports + {HtmlPath} + NodeImports(root, cfg);
      FullPage(Parsed(Some(root)), imports, cfg) == Outcome(Ok(ImportBlock(next) + ("\n" + PageBody(root, cfg))), next)
  {
  }

  /** Fragments that leave something to convert: the imports they collect, and the file. */
  lemma FragmentSucceeds(frags: seq<Node>, valid: seq<Placed>, imports: set<string>, cfg: Config)
    requires frags != [] && valid == ValidOnly(ExtractChildren(frags, [])) && valid != []
    ensures var next := imports + {HtmlPath} + FragmentsImports(valid, cfg);
      Fragment(Parsed(frags), imports, cfg) == Outcome(Ok(ImportBlock(next) + ("\n" + ComponentBody(valid, cfg))), next)
  {
  }

  /** Convert: route on the trimmed input, then take the full-page or the fragment path. */
  function ConvertOutcome(content: string, page: Parsed<Option<Node>>, fragment: Parsed<seq<Node>>,
                          imports: set<string>, cfg: Config): (o: Outcome)
    ensures imports <= o.imports
    ensures o.result.Err? ==> o.imports == imports
    ensures o.result.Ok? ==> HtmlPath in o.imports && HasPrefix(o.result.value, ImportBlock(o.imports))
  {
    if IsFullPage(TrimSpace(content)) then FullPage(page, imports, cfg) else Fragment(fragment, imports, cfg)
  }

  // ---------------------------------------------------------------------
  // Properties
  // ---------------------------------------------------------------------

  /**
   * The fragment path fails exactly when the parser fails or nothing
   * convertible is left, with the message of the first failing step.
   */
  lemma FragmentErrors(fragment: Parsed<seq<Node>>, imports: set<string>, cfg: Config)
    ensures var o := Fragment(fragment, imports, cfg);
      && (o.result.Err? <==> fragment.ParseError? || ExtractChildren(fragment.value, []) == [])
      && (fragment.ParseError? ==> o.result == Err("failed to parse HTML fragment: " + fragment.msg))
      && (fragment.Parsed? && fragment.value == [] ==> o.result == Err("no fragments found"))
      && (fragment.Parsed? && fragment.value != [] && ExtractChildren(fragment.value, []) == [] ==>
            o.result == Err("no convertible content found"))
  {
    if fragment.Parsed? {
      FilterIsRedundant(fragment.value);
    }
  }

  /**
   * A page with an html element: after the import block and a blank line
   * comes Page, which returns the code of the html element at depth 1, a
   * non-empty call of Html. The imports gain the html package and those
   * the page's attributes route through.
   */
  lemma FullPageText(root: Node, imports: set<string>, cfg: Config)
    ensures var o := FullPage(Parsed(Some(root)), imports, cfg);
      var code := NodeCode(root, [], 1, cfg);
      && o.imports == imports + {HtmlPath} + NodeImports(root, cfg)
      && o.result == Ok(ImportBlock(o.imports) + "\n" + PageOpen + code + ReturnClose)
      && (root.Element? ==> code != "" && HasPrefix(code, TagFunction(root.tag, []) + "("))
  {
    FullPageSucceeds(root, imports, cfg);
    var next := imports + {HtmlPath} + NodeImports(root, cfg);
    Regroup(ImportBlock(next), "\n", PageOpen, NodeCode(root, [], 1, cfg), ReturnClose);
    ElementCall(root, [], 1, cfg);
  }

  /**
   * Fragments that leave something to convert: one kept node becomes the
   * body of Component, returned at depth 1; two or more become the lines of
   * the Components list at depth 2, one non-empty code per line, in
   * document order.
   */
  lemma FragmentText(frags: seq<Node>, imports: set<string>, cfg: Config)
    requires ExtractChildren(frags, []) != []
    ensures var o := Fragment(Parsed(frags), imports, cfg);
      var ps := ExtractChildren(frags, []);
      && o.imports == imports + {HtmlPath} + FragmentsImports(ps, cfg)
      && (|ps| == 1 ==>
            o.result == Ok(ImportBlock(o.imports) + "\n" + ComponentOpen
                           + NodeCode(ps[0].node, ps[0].ancestors, 1, cfg) + ReturnClose))
      && (|ps| > 1 ==>
            o.result == Ok(ImportBlock(o.imports) + "\n" + ComponentsOpen
                           + Lines(ComponentCodes(ps, 2, cfg), 2) + ListClose))
      && (forall i :: 0 <= i < |ps| ==> NodeCode(ps[i].node, ps[i].ancestors, 1, cfg) != "")
      && (forall i :: 0 <= i < |ps| ==> ComponentCodes(ps, 2, cfg)[i] != "")
  {
    var ps := ExtractChildren(frags, []);
    FilterIsRedundant(frags);
    assert frags != [];
    FragmentSucceeds(frags, ps, imports, cfg);
    var next := imports + {HtmlPath} + FragmentsImports(ps, cfg);
    if |ps| == 1 {
      Regroup(ImportBlock(next), "\n", ComponentOpen, NodeCode(ps[0].node, ps[0].ancestors, 1, cfg), ReturnClose);
    } else {
      Regroup(ImportBlock(next), "\n", ComponentsOpen, Lines(ComponentCodes(ps, 2, cfg), 2), ListClose);
    }
    ComponentCodesNonEmpty(frags, 1, cfg);
    ComponentCodesNonEmpty(frags, 2, cfg);
  }

  /** Every kept fragment produces code, so the Components list has no empty entry. */
  lemma ComponentCodesNonEmpty(frags: seq<Node>, depth: nat, cfg: Config)
    ensures var codes := ComponentCodes(ExtractChildren(frags, []), depth, cfg);
      forall i :: 0 <= i < |codes| ==> codes[i] != ""
  {
    var ps := ExtractChildren(frags, []);
    forall i | 0 <= i < |ps| ensures NodeCode(ps[i].node, ps[i].ancestors, depth, cfg) != "" {
      assert ps[i] in ps;
    }
  }

  lemma {:induction false} FragmentsImportsByKeys(ps: seq<Placed>, cfg: Config)
    ensures HtmxPath in FragmentsImports(ps, cfg) <==> cfg.useHTMX && exists k :: k in FragmentsKeys(ps) && HtmxKey(k)
    ensures AlpinePath in FragmentsImports(ps, cfg) <==> cfg.useAlpine && exists k :: k in FragmentsKeys(ps) && AlpineKey(k)
    decreases |ps|
  {
    if ps != [] {
      FragmentsImportsByKeys(ps[..|ps| - 1], cfg);
      HtmxImportIff(ps[|ps| - 1].node, cfg);
      AlpineImportIff(ps[|ps| - 1].node, cfg);
    }
  }

  /**
   * On a fresh converter, a full page imports htmx exactly when htmx mode
   * is on and some key of the page starts with `hx-`, and alpine exactly
   * when Alpine mode is on and some key starts with `x-`, `@` or `:`.
   */
  lemma PageImports(root: Node, cfg: Config)
    ensures var paths := ImportedPaths(FullPage(Parsed(Some(root)), {}, cfg).imports);
      && (HtmxPath in paths <==> cfg.useHTMX && exists k :: k in Keys(root) && HtmxKey(k))
      && (AlpinePath in paths <==> cfg.useAlpine && exists k :: k in Keys(root) && AlpineKey(k))
  {
    HtmxImportIff(root, cfg);
    AlpineImportIff(root, cfg);
  }

  /** The same for the fragment path, over the keys of the kept fragments. */
  lemma FragmentImports(frags: seq<Node>, cfg: Config)
    requires ExtractChildren(frags, []) != []
    ensures var ps := ExtractChildren(frags, []);
      var paths := ImportedPaths(Fragment(Parsed(frags), {}, cfg).imports);
      && (HtmxPath in paths <==> cfg.useHTMX && exists k :: k in FragmentsKeys(ps) && HtmxKey(k))
      && (AlpinePath in paths <==> cfg.useAlpine && exists k :: k in FragmentsKeys(ps) && AlpineKey(k))
  {
    FragmentImportSet(frags, {}, cfg);
    FragmentsImportsByKeys(ExtractChildren(frags, []), cfg);
  }

  lemma FragmentImportSet(frags: seq<Node>, imports: set<string>, cfg: Config)
    requires ExtractChildren(frags, []) != []
    ensures Fragment(Parsed(frags), imports, cfg).imports
      == imports + {HtmlPath} + FragmentsImports(ExtractChildren(frags, []), cfg)
  {
    FilterIsRedundant(frags);
    assert frags != [];
  }
}
