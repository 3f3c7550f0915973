/**
 * Tag resolution (converter.go, tagToFunctionWithContext): the name of the
 * builder function that an element's tag becomes. A fixed table wins; `title`
 * and `label` depend on their ancestors; every other tag is title-cased.
 *
 * Ancestors are given as the tag names of the enclosing elements, nearest
 * first, in place of the parser's parent pointers.
 */
module TagNames {

  /** Tags whose builder is not what plain title-casing would produce, or is kept explicit. */
  const SpecialTags: map<string, string> := map[
    "a" := "A", "b" := "B", "i" := "I", "p" := "P",
    "br" := "Br", "hr" := "Hr",
    "h1" := "H1", "h2" := "H2", "h3" := "H3", "h4" := "H4", "h5" := "H5", "h6" := "H6",
    "ul" := "Ul", "ol" := "Ol", "li" := "Li", "dl" := "Dl", "dt" := "Dt", "dd" := "Dd",
    "em" := "Em", "abbr" := "Abbr", "kbd" := "Kbd", "var" := "Var", "dfn" := "Dfn",
    "del" := "Del", "ins" := "Ins", "sub" := "Sub", "sup" := "Sup",
    "col" := "Col", "colgroup" := "ColGroup",
    "tbody" := "Tbody", "thead" := "Thead", "tfoot" := "Tfoot",
    "tr" := "Tr", "td" := "Td", "th" := "Th",
    "fieldset" := "Fieldset", "legend" := "Legend", "datalist" := "Datalist",
    "optgroup" := "OptGroup", "textarea" := "Textarea",
    "blockquote" := "Blockquote", "figcaption" := "Figcaption"
  ]

  predicate IsLowerAscii(c: char) { 'a' <= c <= 'z' }
  predicate IsUpperAscii(c: char) { 'A' <= c <= 'Z' }
  predicate IsAsciiLetter(c: char) { IsLowerAscii(c) || IsUpperAscii(c) }

  function UpperAscii(c: char): char {
    if IsLowerAscii(c) then (c as int - 32) as char else c
  }

  function LowerAscii(c: char): char {
    if IsUpperAscii(c) then (c as int + 32) as char else c
  }

  function LowerAll(s: string): (r: string)
    ensures |r| == |s|
    decreases |s|
  {
    if s == [] then [] else [LowerAscii(s[0])] + LowerAll(s[1..])
  }

  /**
   * Title-casing of the text `s`; `atWordStart` says that no letter of the
   * current word has been seen yet. The first letter of every word is
   * upper-cased and the other letters lower-cased; a hyphen starts a new word.
   */
  function TitleFrom(s: string, atWordStart: bool): (r: string)
    ensures |r| == |s|
    decreases |s|
  {
    if s == [] then []
    else
      var c := s[0];
      var nextStart := c == '-' || (atWordStart && !IsAsciiLetter(c));
      [if atWordStart then UpperAscii(c) else LowerAscii(c)] + TitleFrom(s[1..], nextStart)
  }

  /** cases.Title(language.English).String(tag), for ASCII tag names. */
  function TitleCase(tag: string): (name: string)
    ensures |name| == |tag|
    ensures |tag| > 0 && IsLowerAscii(tag[0]) ==> IsUpperAscii(name[0])
  {
    TitleFrom(tag, true)
  }

  /**
   * The builder function for an element with tag `tag` below `ancestors`.
   * The name is an exported Go identifier start: a tag that begins with a
   * lower-case letter, as every parsed tag does, resolves to a name that
   * begins with an upper-case letter.
   */
  function TagFunction(tag: string, ancestors: seq<string>): (name: string)
    ensures |tag| > 0 && IsLowerAscii(tag[0]) ==> |name| > 0 && IsUpperAscii(name[0])
  {
    SpecialNamesExported();
    if tag in SpecialTags then SpecialTags[tag]
    else if tag == "title" then (if "head" in ancestors then "HeadTitle" else "Title")
    else if tag == "label" then (if "form" in ancestors then "FormLabel" else "Label")
    else TitleCase(tag)
  }

  // ---------------------------------------------------------------------
  // Properties
  // ---------------------------------------------------------------------

  /** A table entry always wins, whatever the ancestors. */
  lemma SpecialTagWins(tag: string, ancestors: seq<string>)
    requires tag in SpecialTags
    ensures TagFunction(tag, ancestors) == SpecialTags[tag]
  {
  }

  /** `title` is HeadTitle exactly below a `head` element, and Title otherwise. */
  lemma TitleResolution(ancestors: seq<string>)
    ensures TagFunction("title", ancestors) == "HeadTitle" <==> "head" in ancestors
    ensures TagFunction("title", ancestors) == "Title" <==> "head" !in ancestors
  {
    assert "title" !in SpecialTags;
  }

  /** `label` is FormLabel exactly below a `form` element, and Label otherwise. */
  lemma LabelResolution(ancestors: seq<string>)
    ensures TagFunction("label", ancestors) == "FormLabel" <==> "form" in ancestors
    ensures TagFunction("label", ancestors) == "Label" <==> "form" !in ancestors
  {
    assert "label" !in SpecialTags;
  }

  /** Only `title` and `label` look at their ancestors; every other tag ignores them. */
  lemma ContextOnlyForTitleAndLabel(tag: string, a1: seq<string>, a2: seq<string>)
    requires tag != "title" && tag != "label"
    ensures TagFunction(tag, a1) == TagFunction(tag, a2)
  {
  }

  /** A Go name that other packages can use: it starts with an upper-case letter. */
  predicate Exported(name: string) {
    |name| > 0 && IsUpperAscii(name[0])
  }

  lemma SpecialNamesExported()
    ensures forall t | t in SpecialTags :: Exported(SpecialTags[t])
  {
  }

  lemma {:induction false} LowerTitleFrom(s: string, atWordStart: bool)
    requires forall i :: 0 <= i < |s| ==> !IsUpperAscii(s[i])
    ensures LowerAll(TitleFrom(s, atWordStart)) == s
    decreases |s|
  {
    if s != [] {
      var c := s[0];
      LowerTitleFrom(s[1..], c == '-' || (atWordStart && !IsAsciiLetter(c)));
      assert [c] + s[1..] == s;
    }
  }

  /** Title-casing only changes letter case: lower-casing its result restores a parsed (lower-case) tag. */
  lemma TitleCaseLowerRoundTrip(tag: string)
    requires forall i :: 0 <= i < |tag| ==> !IsUpperAscii(tag[i])
    ensures LowerAll(TitleCase(tag)) == tag
  {
    LowerTitleFrom(tag, true);
  }

  lemma {:induction false} TitleFromStable(s: string, atWordStart: bool)
    ensures TitleFrom(TitleFrom(s, atWordStart), atWordStart) == TitleFrom(s, atWordStart)
    decreases |s|
  {
    if s != [] {
      var c := s[0];
      var t := TitleFrom(s, atWordStart);
      var d := t[0];
      assert IsAsciiLetter(d) <==> IsAsciiLetter(c);
      assert d == '-' <==> c == '-';
      TitleFromStable(s[1..], c == '-' || (atWordStart && !IsAsciiLetter(c)));
      assert t[1..] == TitleFrom(s[1..], c == '-' || (atWordStart && !IsAsciiLetter(c)));
    }
  }

  /** Title-casing is idempotent. */
  lemma TitleCaseIdempotent(tag: string)
    ensures TitleCase(TitleCase(tag)) == TitleCase(tag)
  {
    TitleFromStable(tag, true);
  }
}
