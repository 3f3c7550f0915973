/**
 * Import collection and the import block (converter.go, collectImports,
 * collectImportsFromFragments and generateImports). The converter keeps the
 * set of packages the generated file needs: the html package always, the
 * htmx package when htmx mode is on and some attribute key starts with
 * `hx-`, the alpine package when Alpine mode is on and some key starts with
 * `x-`, `@` or `:`. The decision looks at the key's prefix only, not at the
 * call the key becomes.
 */
module Imports {
  import opened GoStrings
  import opened AttributeMapping
  import opened HtmlTree

  const HtmlPath := "github.com/plainkit/html"
  const HtmxPath := "github.com/plainkit/htmx"
  const AlpinePath := "github.com/plainkit/alpine"

  predicate HtmxKey(key: string) { HasPrefix(key, "hx-") }

  predicate AlpineKey(key: string) { HasPrefix(key, "x-") || HasPrefix(key, "@") || HasPrefix(key, ":") }

  /** The packages one attribute key adds. */
  function KeyImports(key: string, cfg: Config): (paths: set<string>)
    ensures HtmxPath in paths <==> cfg.useHTMX && HtmxKey(key)
    ensures AlpinePath in paths <==> cfg.useAlpine && AlpineKey(key)
    ensures paths <= {HtmxPath, AlpinePath}
  {
    (if HtmxKey(key) && cfg.useHTMX then {HtmxPath} else {})
    + (if AlpineKey(key) && cfg.useAlpine then {AlpinePath} else {})
  }

  /** The packages the attributes of one element add, in the order the walk visits them. */
  function AttrsImports(attrs: seq<Attr>, cfg: Config): (paths: set<string>)
    ensures paths <= {HtmxPath, AlpinePath}
    decreases |attrs|
  {
    if attrs == [] then {}
    else AttrsImports(attrs[..|attrs| - 1], cfg) + KeyImports(attrs[|attrs| - 1].key, cfg)
  }

  /** The packages the walk over the tree rooted at `n` adds. */
  function NodeImports(n: Node, cfg: Config): (paths: set<string>)
    ensures paths <= {HtmxPath, AlpinePath}
    decreases n, 1
  {
    match n
    case Element(_, attrs, children) => AttrsImports(attrs, cfg) + ChildrenImports(children, cfg)
    case _ => {}
  }

  function ChildrenImports(cs: seq<Node>, cfg: Config): (paths: set<string>)
    ensures paths <= {HtmxPath, AlpinePath}
    decreases cs, 0
  {
    if cs == [] then {} else ChildrenImports(cs[..|cs| - 1], cfg) + NodeImports(cs[|cs| - 1], cfg)
  }

  // ---------------------------------------------------------------------
  // What the walk collects, stated over the keys of the tree
  // ---------------------------------------------------------------------

  lemma {:induction false} AttrsImportsByKeys(attrs: seq<Attr>, cfg: Config)
    ensures HtmxPath in AttrsImports(attrs, cfg) <==> cfg.useHTMX && exists a :: a in attrs && HtmxKey(a.key)
    ensures AlpinePath in AttrsImports(attrs, cfg) <==> cfg.useAlpine && exists a :: a in attrs && AlpineKey(a.key)
    decreases |attrs|
  {
    if attrs != [] {
      var init := attrs[..|attrs| - 1];
      var last := attrs[|attrs| - 1];
      AttrsImportsByKeys(init, cfg);
      assert attrs == init + [last];
      assert forall a :: a in attrs <==> a in init || a == last;
    }
  }

  /** The htmx package is collected exactly when htmx mode is on and some key of the tree starts with `hx-`. */
  lemma {:induction false} HtmxImportIff(n: Node, cfg: Config)
    ensures HtmxPath in NodeImports(n, cfg) <==> cfg.useHTMX && exists k :: k in Keys(n) && HtmxKey(k)
    decreases n, 1
  {
    if n.Element? {
      AttrsImportsByKeys(n.attrs, cfg);
      ChildrenHtmxImportIff(n.children, cfg);
      assert forall k :: k in Keys(n) <==> (exists a :: a in n.attrs && a.key == k) || k in ChildrenKeys(n.children);
    }
  }

  lemma {:induction false} ChildrenHtmxImportIff(cs: seq<Node>, cfg: Config)
    ensures HtmxPath in ChildrenImports(cs, cfg) <==> cfg.useHTMX && exists k :: k in ChildrenKeys(cs) && HtmxKey(k)
    decreases cs, 0
  {
    if cs != [] {
      ChildrenHtmxImportIff(cs[..|cs| - 1], cfg);
      HtmxImportIff(cs[|cs| - 1], cfg);
    }
  }

  /** The alpine package is collected exactly when Alpine mode is on and some key of the tree starts with `x-`, `@` or `:`. */
  lemma {:induction false} AlpineImportIff(n: Node, cfg: Config)
    ensures AlpinePath in NodeImports(n, cfg) <==> cfg.useAlpine && exists k :: k in Keys(n) && AlpineKey(k)
    decreases n, 1
  {
    if n.Element? {
      AttrsImportsByKeys(n.attrs, cfg);
      ChildrenAlpineImportIff(n.children, cfg);
      assert forall k :: k in Keys(n) <==> (exists a :: a in n.attrs && a.key == k) || k in ChildrenKeys(n.children);
    }
  }

  lemma {:induction false} ChildrenAlpineImportIff(cs: seq<Node>, cfg: Config)
    ensures AlpinePath in ChildrenImports(cs, cfg) <==> cfg.useAlpine && exists k :: k in ChildrenKeys(cs) && AlpineKey(k)
    decreases cs, 0
  {
    if cs != [] {
      ChildrenAlpineImportIff(cs[..|cs| - 1], cfg);
      AlpineImportIff(cs[|cs| - 1], cfg);
    }
  }

  /**
   * Every `htmx.` or `alpine.` call the converter writes for an attribute of
   * the tree has its package collected: the generated file never refers to a
   * package it does not import.
   */
  lemma QualifiedCallsImported(n: Node, a: Attr, tagName: string, cfg: Config)
    requires a.key in Keys(n)
    ensures HasPrefix(ConvertAttribute(a, tagName, cfg), "htmx.") ==> HtmxPath in NodeImports(n, cfg)
    ensures HasPrefix(ConvertAttribute(a, tagName, cfg), "alpine.") ==> AlpinePath in NodeImports(n, cfg)
  {
    QualifiedCallNeedsMode(a, tagName, cfg);
    HtmxImportIff(n, cfg);
    AlpineImportIff(n, cfg);
  }

  /**
   * The converse does not hold: an `hx-` key outside the htmx table falls
   * back to Custom, yet its package is collected, so the file imports htmx
   * without using it.
   */
  lemma UnusedHtmxImport(tag: string, key: string, v: string, cfg: Config)
    requires cfg.useHTMX && HtmxKey(key) && key !in HtmxFunctions
    ensures HtmxPath in NodeImports(Element(tag, [Attr(key, v)], []), cfg)
    ensures ConvertAttribute(Attr(key, v), tag, cfg) == Call2("Custom", key, v)
  {
    HtmxUnmapped(key, v, tag, cfg);
    assert AttrsImports([Attr(key, v)], cfg) == KeyImports(key, cfg);
  }

  // ---------------------------------------------------------------------
  // The import block
  // ---------------------------------------------------------------------

  /** The packages generateImports lists: html first, then htmx and alpine when collected. */
  function ImportedPaths(imports: set<string>): (paths: seq<string>)
    ensures |paths| >= 1 && paths[0] == HtmlPath
    ensures forall i, j :: 0 <= i < j < |paths| ==> paths[i] != paths[j]
    ensures forall p :: p in paths <==> p == HtmlPath || (p in imports && p in {HtmxPath, AlpinePath})
    ensures HtmxPath in paths && AlpinePath in paths ==> paths == [HtmlPath, HtmxPath, AlpinePath]
  {
    [HtmlPath]
    + (if HtmxPath in imports then [HtmxPath] else [])
    + (if AlpinePath in imports then [AlpinePath] else [])
  }

  /** One import line: the html package is dot-imported, the others by name. */
  function ImportLine(path: string): string {
    if path == HtmlPath then "\t. \"" + path + "\"\n" else "\t\"" + path + "\"\n"
  }

  function ImportLines(paths: seq<string>): string
    decreases |paths|
  {
    if paths == [] then "" else ImportLine(paths[0]) + ImportLines(paths[1..])
  }

  /** The three import lines, written out. */
  lemma ImportLineText()
    ensures ImportLine(HtmlPath) == "\t. \"" + HtmlPath + "\"\n"
    ensures ImportLine(HtmxPath) == "\t\"" + HtmxPath + "\"\n"
    ensures ImportLine(AlpinePath) == "\t\"" + AlpinePath + "\"\n"
  {
    assert HtmxPath[23] != HtmlPath[23];
    assert |AlpinePath| != |HtmlPath|;
  }

  const PackageClause := "package main\n\n"
  const ImportOpen := "import (\n"
  const ImportClose := ")\n"

  /** generateImports: the package clause, then the html dot-import, then htmx and alpine when collected. */
  function ImportBlock(imports: set<string>): (block: string)
    ensures HasPrefix(block, PackageClause + ImportOpen)
  {
    var head := PackageClause + ImportOpen;
    var tail := ImportLine(HtmlPath)
      + (if HtmxPath in imports then ImportLine(HtmxPath) else "")
      + (if AlpinePath in imports then ImportLine(AlpinePath) else "")
      + ImportClose;
    PrefixOfConcat(head, tail);
    head + tail
  }

  /** The block lists exactly the collected packages, one line each, in the order of ImportedPaths. */
  lemma ImportBlockLists(imports: set<string>)
    ensures ImportBlock(imports) == PackageClause + ImportOpen + ImportLines(ImportedPaths(imports)) + ImportClose
  {
    var htmx: seq<string> := if HtmxPath in imports then [HtmxPath] else [];
    var alpine: seq<string> := if AlpinePath in imports then [AlpinePath] else [];
    assert ImportedPaths(imports) == [HtmlPath] + htmx + alpine;
    ImportLinesAppend([HtmlPath] + htmx, alpine);
    ImportLinesAppend([HtmlPath], htmx);
    ImportLinesAtMostOne([HtmlPath]);
    ImportLinesAtMostOne(htmx);
    ImportLinesAtMostOne(alpine);
    var lines := ImportLine(HtmlPath)
      + (if HtmxPath in imports then ImportLine(HtmxPath) else "")
      + (if AlpinePath in imports then ImportLine(AlpinePath) else "");
    assert ImportLines(ImportedPaths(imports)) == lines;
    assert ImportBlock(imports) == (PackageClause + ImportOpen) + (lines + ImportClose);
  }

  lemma {:induction false} ImportLinesAppend(xs: seq<string>, ys: seq<string>)
    ensures ImportLines(xs + ys) == ImportLines(xs) + ImportLines(ys)
    decreases |xs|
  {
    if xs == [] {
      assert xs + ys == ys;
    } else {
      assert (xs + ys)[1..] == xs[1..] + ys;
      ImportLinesAppend(xs[1..], ys);
    }
  }

  lemma ImportLinesAtMostOne(xs: seq<string>)
    requires |xs| <= 1
    ensures ImportLines(xs) == if xs == [] then "" else ImportLine(xs[0])
  {
    if xs != [] {
      assert ImportLines(xs) == ImportLine(xs[0]) + ImportLines(xs[1..]);
    }
  }
}
