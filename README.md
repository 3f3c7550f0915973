# plainkit/converter — a Dafny model of the HTML-to-Plain converter

The converter turns an HTML document or fragment into Go source code for the
Plain component library. Every element becomes a call to a builder function
named after its tag. Every attribute becomes one argument call. Text becomes
`T("...")`. With htmx mode or Alpine mode on, `hx-`, `x-`, `@` and `:`
attributes become calls into the `htmx` and `alpine` packages. The generated
file starts with an import block listing exactly the packages the converter
collected.

The model follows `converter.go` file structure module by module:

- `GoStrings` (go_strings.dfy): the parts of Go's `strings` package the converter uses, and UTF-8 byte length.
- `Quoting` (quoting.dfy): `quoteValue`, plus a decoder giving the value a Go string literal denotes.
- `TagNames` (tag_names.dfy): `tagToFunctionWithContext` and its tag table.
- `AttributeMapping` (attributes.dfy): `convertAttribute` and the htmx and Alpine mappers.
- `HtmlTree` (html_tree.dfy): the parsed tree as a value.
- `Layout` (layout.dfy): the argument layout of `convertElement`, and `containsMultilineContent`.
- `Emit` (emit.dfy): `convertNode` and `convertElement` as functions of the tree.
- `Imports` (imports.dfy): `collectImports` and `generateImports` as functions.
- `Documents` (documents.dfy): `Convert`, `convertFullPage`, `convertFragment` and `extractActualContent` as functions of the parser's results.
- `Conversion` (converter.dfy): the `Converter` object.
  - Its import set is a field that the methods update.
  - Its methods carry the source's loops.
  - Each method is proved equal to the specification function above it.

The HTML parser is not part of the model. What `html.Parse` and
`html.ParseFragment` return is passed to `Convert` as data. An element's
enclosing tags, nearest first, stand in for the parser's parent pointers.

## Model

| member | source | states |
|---|---|---|
| Conversion.Converter.constructor | converter.go:22-29 | A new converter holds the two mode flags it was given and an empty import set. |
| Conversion.Converter.Convert | converter.go:32-47 | The result and the new import set are those of `ConvertOutcome` on the old import set: the trimmed input is routed to the full-page or the fragment path. The import set only grows. |
| Conversion.Converter.ConvertFullPage | converter.go:50-84 | Result and new import set equal `FullPage` on the old import set. |
| Conversion.Converter.ConvertFragment | converter.go:87-145 | Result and new import set equal `Fragment` on the old import set. |
| Conversion.Converter.UnwrapFragments | converter.go:100-113 | The two loops yield the white-space-filtered extraction of the top-level nodes, in document order. |
| Conversion.Converter.ComponentList | converter.go:135-141 | The Components list is one line per kept fragment: two tabs, its code at depth 2, a comma. |
| Conversion.Converter.ExtractActualContent | converter.go:148-168 | The recursive unwrapping returns exactly `Extract`: wrappers are replaced by their children's results, and blank text is dropped. |
| Conversion.Converter.CollectImportsFromFragments | converter.go:171-177 | Adds the html package plus every package the walk over each fragment collects, and nothing else. |
| Conversion.Converter.CollectImports | converter.go:180-182 | Adds the html package plus what the walk over the tree collects. |
| Conversion.Converter.Walk | converter.go:183-201 | Adds exactly `NodeImports` of the tree: htmx for `hx-` keys in htmx mode, alpine for `x-`/`@`/`:` keys in Alpine mode. |
| Conversion.Converter.GenerateImports | converter.go:205-222 | Returns `ImportBlock` of the current import set, without changing it. |
| Conversion.Converter.ConvertNode | converter.go:225-253 | Returns `NodeCode`, which is non-empty exactly for elements and non-blank text. |
| Conversion.Converter.ConvertElement | converter.go:256-299 | Returns `ElementCode`: the builder, the attribute calls, the child codes, then the layout. |
| Conversion.Converter.AttributeArgs | converter.go:267-271 | One call per attribute, in order; none is dropped. |
| Conversion.Converter.AppendChildArgs | converter.go:274-278 | Appends the non-empty codes of the children, at depth + 1, in document order. |
| Conversion.Converter.TagToFunctionWithContext | converter.go:302-372 | Returns `TagFunction` of the tag and its ancestors. |
| Conversion.Converter.IsInHeadContext | converter.go:375-384 | True exactly when some enclosing element is `head`. |
| Conversion.Converter.IsInFormContext | converter.go:387-396 | True exactly when some enclosing element is `form`. |
| Documents.FullPage | converter.go:50-84 | Fails exactly when parsing fails or no html element is found, and then leaves the imports unchanged. On success, html is imported, the import set only grows, and the file starts with the import block of the new set. |
| Documents.Fragment | converter.go:87-145 | A failure leaves the imports unchanged. On success, html is imported, the set only grows, and the file starts with the import block of the new set. |
| Documents.ConvertOutcome | converter.go:32-47 | The same three guarantees, whichever path the input is routed to. |
| Documents.FragmentErrors | converter.go:89-117 | The fragment path fails exactly on a parse error or when extraction leaves nothing. Each failure carries its own message, in the order the source checks them. |
| Documents.FullPageText | converter.go:74-83 | With an html element, the imports become the old set plus html plus the tree's packages. The file is the import block, a blank line, then `func Page() Node {`, a tab, `return `, the html element's code at depth 1, then `}`. That code is a non-empty call of the html element's builder. |
| Documents.FragmentText | converter.go:119-144 | When content is left, the imports become the old set plus html plus the kept fragments' packages. One kept node: `func Component() Node` returns its code at depth 1. Two or more: the body of `func Components() []Node` lists one line per kept node, in order. Each line is two tabs, its code at depth 2 and a comma. Every one of these codes is non-empty. |
| Documents.IsFullPage | converter.go:37-39 | Input starting with a doctype or `<html` is a full page. A full page contains `<`, so text without any tag is always a fragment. |
| Documents.Extract | converter.go:148-168 | Every node extraction keeps produces code and is not a wrapper. Above it are only wrappers or the given enclosing tags. |
| Documents.ExtractChildren | converter.go:100-104 | The same, for the nodes extracted from a sequence of siblings. |
| Documents.ValidOnlyAppend | converter.go:106-113 | The filter distributes over concatenation, so it keeps the order of what it keeps. |
| Documents.PageBody | converter.go:78-82 | The page function is `Page`, and what it returns starts with the call of the html element's builder. |
| Documents.ComponentCodes | converter.go:127-138 | One code per kept node, in order: the node's code below its own enclosing tags. A node that produces code gives a non-empty entry. |
| Documents.ComponentBody | converter.go:124-142 | One kept node gives `Component`, which returns its builder call. Several give `Components`, whose list opens with the first node's line. |
| Documents.ValidOnly | converter.go:106-113 | A node is kept exactly when it is in the input and is not blank text. The result is never longer than the input. |
| Documents.ExtractChildrenAppend | converter.go:100-104 | Extraction distributes over concatenation of siblings, so document order is kept. |
| Documents.ExtractKeepsContent | converter.go:158-164 | No sibling that produces code and is not a wrapper is lost; it is kept with the same ancestors. |
| Documents.ValidOnlyKeeps | converter.go:106-113 | The filter is the identity on nodes that all produce code. |
| Documents.FilterIsRedundant | converter.go:106-113 | The white-space filter never removes anything after extraction. |
| Documents.ComponentCodesNonEmpty | converter.go:135-141 | Every line of the Components list holds a non-empty code. |
| Documents.FragmentsImportsByKeys | converter.go:171-177 | htmx (alpine) is collected from the fragments exactly when its mode is on and some key in them has the `hx-` (`x-`/`@`/`:`) prefix. |
| Documents.PageImports | converter.go:75-76 | On a fresh converter, a page's import block lists htmx and alpine exactly under those conditions on the page's keys. |
| Documents.FragmentImports | converter.go:120-121 | The same for a fragment, over the keys of the kept fragments. |
| Documents.FragmentImportSet | converter.go:120 | After a successful fragment conversion, the import set is the old set plus html plus the kept fragments' packages. |
| Documents.FragmentsImports | converter.go:174-176 | Fragments contribute only the htmx and alpine packages. |
| Documents.FragmentsKeys | converter.go:174-176 | Contains every key of every kept fragment. |
| Emit.TextCode | converter.go:227-232 | A text node yields nothing exactly when its content is all white space. |
| Emit.TextRoundTrip | converter.go:227-232 | `T(...)` wraps a literal that denotes the trimmed text. The exception is a carriage return in a raw literal. |
| Emit.NodeCode | converter.go:225-253 | The code is non-empty exactly for nodes that produce code: elements and non-blank text. |
| Emit.ElementCode | converter.go:256-299 | An element always yields a non-empty call. |
| Emit.AttrCodes | converter.go:267-271 | Exactly one argument per attribute, the i-th being the i-th attribute's call. |
| Emit.NonEmpty | converter.go:268-269 | The `!= ""` filter yields only non-empty strings. |
| Emit.NonEmptyKeepsAll | converter.go:268-269 | The filter is the identity when no string is empty. |
| Emit.ChildCodesOfEmitting | converter.go:274-278 | The child arguments are exactly the codes of the children that produce code, one each, in order. |
| Emit.ChildCodes | converter.go:274-278 | No more child arguments than children, and none of them is empty. |
| Emit.ElementCall | converter.go:256-262 | An element's code starts with its builder's name and `(`. |
| Emit.EmptyElement | converter.go:256-299 | An element with no attributes and no children that produce code is `F()`. |
| Layout.ContainsMultilineContent | converter.go:751-765 | True exactly when there are more than five arguments, one holds a newline, or their byte lengths add up to more than 80. |
| Layout.FormatArgs | converter.go:280-295 | Returns the layout `ArgText` of the arguments at the given depth. |
| Layout.LayoutRule | converter.go:281 | Multi-line exactly when there are more than three arguments, a newline, or more than 80 bytes in total. The five-argument test never decides. |
| Layout.ArgText | converter.go:280-295 | Nothing without arguments. A single-line call has no newline. A multi-line call breaks the line right after `(`. |
| Layout.Lines | converter.go:284-289 | Empty exactly when there are no arguments. |
| Layout.LinesEnd | converter.go:284-289 | A non-empty multi-line body ends with a comma and a line break. |
| Layout.CallCode | converter.go:260-262 | The code starts with the builder name and `(`, ends with `)`, and is `F()` with no arguments. |
| Layout.MultiLineShape | converter.go:282-290 | For arguments that contain no newline, the multi-line body read line by line is: an empty line, one line per argument indented depth + 1 tabs and ending in a comma, then depth tabs. |
| Layout.LinesSnoc | converter.go:284-289 | Writing one more argument appends one indented line. |
| Layout.LinesSplit | converter.go:284-289 | For arguments without newlines, the lines of the body are exactly the arguments, each indented and followed by a comma. |
| Layout.SumByteLen | converter.go:756-758 | Bounds every argument's byte length. |
| Imports.KeyImports | converter.go:186-194 | htmx is added exactly for an `hx-` key in htmx mode, and alpine exactly for an `x-`/`@`/`:` key in Alpine mode. |
| Imports.AttrsImports | converter.go:186-195 | The attributes of one element add only the htmx and alpine packages. |
| Imports.NodeImports | converter.go:183-201 | The walk over a tree adds only the htmx and alpine packages. |
| Imports.ChildrenImports | converter.go:197-199 | The walk over a sequence of siblings adds only the htmx and alpine packages. |
| Imports.AttrsImportsByKeys | converter.go:186-195 | The same iff, over all attributes of one element. |
| Imports.HtmxImportIff | converter.go:183-201 | The walk collects htmx exactly when htmx mode is on and some key of the tree starts with `hx-`. |
| Imports.AlpineImportIff | converter.go:183-201 | The walk collects alpine exactly when Alpine mode is on and some key of the tree starts with `x-`, `@` or `:`. |
| Imports.QualifiedCallsImported | converter.go:180-202 | Every `htmx.` or `alpine.` call written for an attribute of the tree has its package collected. |
| Imports.UnusedHtmxImport | converter.go:187-189 | An `hx-` key outside the htmx table becomes `Custom(...)`, yet htmx is still imported. |
| Imports.ImportedPaths | converter.go:210-218 | The listed packages: html first, no duplicates, exactly html plus the collected htmx/alpine, in the order html, htmx, alpine. |
| Imports.ImportLineText | converter.go:211-217 | html is dot-imported; htmx and alpine are imported by name. |
| Imports.ImportBlock | converter.go:205-222 | The block starts with the package clause and `import (`. |
| Imports.ImportBlockLists | converter.go:205-222 | The block is the header, one import line per listed package in order, and `)`. |
| AttributeMapping.ConvertAttribute | converter.go:414-555 | Every attribute yields a non-empty call. |
| AttributeMapping.StandardAttribute | converter.go:436-554 | The standard tier never yields the empty string. |
| AttributeMapping.PlainKeyIsStandard | converter.go:419-434 | A key that starts with none of `hx-`, `x-`, `@` and `:` goes to the standard tier in every mode. |
| AttributeMapping.CaseKeyIsPlain | converter.go:437-535 | A key shaped like the cases of the standard switch starts with none of those prefixes. |
| AttributeMapping.PrefixedKeyNotStandard | converter.go:437-551 | A prefixed key matches no case of the standard switch and is not a data-/aria- key. |
| AttributeMapping.StandardCasesWellFormed | converter.go:437-535 | Every case of the switch is a plain key, and its builder is an exported name. |
| AttributeMapping.TypeKey | converter.go:451-458 | `type` is InputType on input, ButtonType on button, and Type elsewhere. |
| AttributeMapping.ValueKey | converter.go:459-463 | `value` is InputValue on input and Value elsewhere. |
| AttributeMapping.NameKey | converter.go:464-471 | `name` is InputName on input and Name elsewhere. |
| AttributeMapping.SrcKey | converter.go:446-450 | `src` is ScriptSrc on script and Src elsewhere. |
| AttributeMapping.TagIndependent | converter.go:414-555 | Every other key converts the same way whatever the tag. |
| AttributeMapping.ValueCaseCall | converter.go:437-533 | A value case is its builder applied to the quoted value. |
| AttributeMapping.PresenceOnly | converter.go:474-489 | A presence case is its builder with no argument, whatever the value. |
| AttributeMapping.NotInStandardCases | converter.go:437-535 | No case of the switch starts with `da` or `ar`. |
| AttributeMapping.DataStripped | converter.go:538-541 | `data-X` becomes `Data("X", value)`. |
| AttributeMapping.AriaStripped | converter.go:542-545 | `aria-X` becomes `Aria("X", value)`. |
| AttributeMapping.DisabledModeFallsBack | converter.go:419-434 | With its mode off, an htmx or Alpine key becomes `Custom(key, value)`. |
| AttributeMapping.ConvertHtmxAttribute | converter.go:558-606 | The htmx tier never yields the empty string. |
| AttributeMapping.HtmxKeysArePrefixed | converter.go:560-591 | Every htmx table key starts with `hx-`. |
| AttributeMapping.HtmxMapped | converter.go:593-602 | A table key gives `htmx.F(value)`. boost, preserve and validate give `htmx.F()` for "true" and `htmx.F(false)` otherwise. |
| AttributeMapping.HtmxUnmapped | converter.go:605 | An `hx-` key outside the table becomes `Custom(key, value)`. |
| AttributeMapping.NotHtmx | converter.go:419-434 | An Alpine key never reaches the htmx tier. |
| AttributeMapping.ConvertAlpineAttribute | converter.go:609-669 | The `x-` tier never yields the empty string. |
| AttributeMapping.AlpineXTier | converter.go:424-427 | In Alpine mode an `x-` key goes to the `x-` rules. |
| AttributeMapping.AlpineOn | converter.go:639-642 | `x-on:E` becomes `alpine.XOn("E", value)`. |
| AttributeMapping.AlpineBindDirective | converter.go:645-648 | `x-bind:A` becomes `alpine.XBind("A", value)`. |
| AttributeMapping.AlpineDebounce | converter.go:651-657 | `x-model.debounce.D` followed by nothing or by further `.`-separated modifiers becomes `alpine.XModelDebounce(value, "D")`, where D has no dot. |
| AttributeMapping.DebounceSplit | converter.go:652-654 | Splitting such a key at dots gives more than two parts, the first three being `x-model`, `debounce` and D. |
| AttributeMapping.AlpineMapped | converter.go:611-665 | In Alpine mode, an `x-` table key becomes `alpine.F(value)` with F its table entry. x-cloak, x-ignore and x-transition become `alpine.F()`. |
| AttributeMapping.AlpineUnmapped | converter.go:668 | An unrecognised `x-` key becomes `Custom(key, value)`. |
| AttributeMapping.ConvertAlpineEventAttribute | converter.go:672-723 | The `@` tier never yields the empty string. |
| AttributeMapping.AlpineEventTier | converter.go:428-430 | In Alpine mode an `@` key goes to the event rules. |
| AttributeMapping.AlpineEventWithModifiers | converter.go:680-703 | `@E.mods` is the combo's builder when listed, else `Custom` with the whole key. |
| AttributeMapping.AlpineEventBare | converter.go:706-722 | `@E` is the event table's builder, else `alpine.At("E", value)`. |
| AttributeMapping.ConvertAlpineBindAttribute | converter.go:726-748 | The `:` tier never yields the empty string. |
| AttributeMapping.AlpineBind | converter.go:739-747 | `:A` is the bind table's builder, and `:key` and unknown names give `alpine.Colon("A", value)`. |
| AttributeMapping.BindColonOnlyForKey | converter.go:731-737 | Only `key` maps to the generic Colon builder in the bind table. |
| AttributeMapping.StandardCallUnqualified | converter.go:436-554 | Standard calls start with an upper-case builder name, never a package. |
| AttributeMapping.HtmxTierLead | converter.go:593-605 | The htmx tier emits an `htmx.` call exactly for table keys, and Custom otherwise. |
| AttributeMapping.AlpineTierLead | converter.go:609-748 | The Alpine tiers emit `alpine.` calls or fall back to Custom. |
| AttributeMapping.QualifiedCallNeedsMode | converter.go:414-434 | An `htmx.` call needs htmx mode and an `hx-` key, and every table key gets one. An `alpine.` call needs Alpine mode and an Alpine key. |
| TagNames.SpecialTagWins | converter.go:349-351 | A table entry wins whatever the ancestors. |
| TagNames.TitleResolution | converter.go:355-360 | `title` is HeadTitle exactly below head, and Title otherwise. |
| TagNames.LabelResolution | converter.go:361-366 | `label` is FormLabel exactly below form, and Label otherwise. |
| TagNames.ContextOnlyForTitleAndLabel | converter.go:302-372 | No other tag depends on its ancestors. |
| TagNames.TagFunction | converter.go:302-372 | A tag starting with a lower-case letter gives an exported, upper-case builder name. |
| TagNames.TitleCase | converter.go:369-371 | Title-casing keeps the length and upper-cases a leading lower-case letter. |
| TagNames.TitleCaseLowerRoundTrip | converter.go:369-371 | Lower-casing the title-cased name of a lower-case tag gives the tag back. |
| TagNames.TitleCaseIdempotent | converter.go:369-371 | Title-casing twice is title-casing once. |
| TagNames.LowerTitleFrom | converter.go:369-371 | The inductive step of the round trip, from any word-start state. |
| TagNames.TitleFromStable | converter.go:369-371 | The inductive step of idempotence. |
| Quoting.QuoteValueAsWritten | converter.go:399-411 | As written: backticks exactly when the value has a newline, or has more than 50 bytes and contains `{` or `function`. Otherwise it is in double quotes. |
| Quoting.AsWrittenRejectsBackslash | converter.go:409-410 | As written, the value `\d+` gives `"\d+"`, which is not a valid Go literal. |
| Quoting.AsWrittenPlainQuoted | converter.go:408-410 | As written, a short single-line value without `"` is copied unchanged between double quotes, backslashes included. |
| Quoting.UnknownEscapeRejected | converter.go:409-410 | Double quotes around a text starting with a backslash followed by a character that is neither a simple escape, an octal digit, `x`, `u` nor `U` do not form a Go literal. |
| Quoting.UsesBackticks | converter.go:401 | A value with a newline always gets backticks. Up to 50 bytes, backticks are chosen exactly for a newline. A value without a newline gets them only when it contains `{` or `function`. |
| Quoting.AsWrittenAgreesWithoutBackslash | converter.go:409-410 | As written and corrected agree on every value without a backslash. |
| Quoting.QuoteValue | converter.go:399-411 | The corrected version has the same choice of delimiters. |
| Quoting.QuoteValueRoundTrip | converter.go:399-411 | The corrected literal denotes exactly the value. The exception is a carriage return in a raw literal. |
| Quoting.RawLiteral | converter.go:404-405 | A raw literal is delimited by backticks. |
| Quoting.RawRoundTrip | converter.go:404-405 | The spliced raw body decodes to the value: each backtick comes back through its splice. |
| Quoting.QuotedRoundTrip | converter.go:409-410 | The escaped interpreted body decodes to the value. |
| Quoting.EscapeQuoted | converter.go:409 | Escaping adds no newline. |
| Quoting.EscapeWithoutBackslash | converter.go:409 | Without backslashes, escaping is the source's replacement of `"` by `\"`. |
| Quoting.PlainValueQuoted | converter.go:399-411 | A value without quotes or backslashes comes back verbatim between its delimiters. |
| HtmlTree.Emitting | converter.go:274-278 | A child is kept exactly when it is one of the children and produces code. The result is never longer than the input. |
| HtmlTree.EmittingAppend | converter.go:274-278 | The selection distributes over concatenation, so the children keep their order. |
| HtmlTree.Keys | converter.go:186 | Holds every attribute key of the element. |
| GoStrings.TrimSpace | converter.go:34 | The input is the result with only white space before and after it. The result is empty exactly for all-white-space input, and otherwise neither starts nor ends with white space. |
| GoStrings.TrimPrefix | converter.go:539 | It removes the prefix when present, and returns the input unchanged otherwise. |
| GoStrings.ByteLen | converter.go:401 | UTF-8 length: between one and four bytes per character, and equal to the character count exactly for ASCII. |
| GoStrings.ReplaceAll | converter.go:404 | The input comes back unchanged when the character is absent. The character is gone when the replacement lacks it. |
| GoStrings.Split | converter.go:677 | Split gives at least one part, no part holds the separator, and there is one part exactly when the separator is absent. |
| GoStrings.JoinSplit | converter.go:677-696 | Joining the parts of a split with its separator gives the string back. |
| GoStrings.SplitAfter | converter.go:677 | Splitting `a + sep + b`, where `a` has no separator, gives `a` followed by the parts of `b`. |
| GoStrings.Tabs | converter.go:285 | `strings.Repeat("\t", n)` is n tabs. |

## Left out

- Parsing: `html.Parse` and `html.ParseFragment` are not part of this model. Their results (error, node tree) are parameters of `Convert`.
- The search for the html element (`findHTML`, converter.go:57-68) is not modelled. Its outcome is the `Option<Node>` inside the page parameter.
- The command-line front end (main.go) is not part of this model: reading files and stdin, and writing the output.
- The `DocumentNode` case of `convertNode` (converter.go:237-248) is not modelled.
  - The converter only calls `convertNode` on the html element, on extracted fragments and on their descendants, and none of these is a document node.
  - Document nodes are `Other` in the model.
- Conversion.Converter: the `indent` field (converter.go:18) is not modelled. It is initialised and never read.
- The import map becomes a set of paths. A key mapped to `false` never occurs, because the converter only stores `true`.
- The import set is never reset between conversions. The source does not reset it, so packages collected by one call appear in the import block of every later call on the same converter. `Convert`'s contract states this (the set only grows).
- TagNames.TitleCase: models `cases.Title(language.English)` for ASCII tag names only. The first letter of each word is upper-cased and the others lower-cased, and a hyphen starts a new word. Unicode case mapping and the library's other word breaks are not modelled.
- `bytes.Buffer` writes and `fmt.Sprintf` are modelled as string concatenation.
- AttributeMapping.StandardAttribute: the separate `meta` branch for `name` (converter.go:468-470) is merged into the general case. Both yield `Name(...)`.
- Quoting.QuoteValueRoundTrip: does not cover a carriage return inside a raw literal, because Go drops carriage returns from raw literals. The value denoted then differs from the input, in the source and in the model alike.
- Quoting.DecodeLiteral: decodes only the escapes the converter can produce. Octal, `\x`, `\u` and `\U` escapes are not decoded.
- AttributeMapping.ConvertAttribute: quotes values with the corrected `Quoting.QuoteValue`, so for a value containing a backslash the output differs from the source's, which copies the backslash unescaped (see Findings).
- Emit.TextCode: quotes text with the corrected `Quoting.QuoteValue`, so its output differs from the source's for text containing a backslash.
- Conversion.Converter.Convert: the generated file uses the corrected quoting throughout, so it differs from the source's output wherever an attribute value or a text holds a backslash.
- Layout.ContainsMultilineContent: sums the byte lengths of the arguments without separators, as the source does. This is the source's behaviour, not a weakened contract.

## Findings

| source | as written | input that shows it | evidently intended | confidence | as-written member | corrected member |
|---|---|---|---|---|---|---|
| converter.go:409-410 | In a double-quoted literal, only `"` is escaped. A backslash is copied verbatim. | The attribute value `\d+` (for example a `pattern`) becomes `"\d+"`. Go rejects that literal, since `\d` is not an escape. A value ending in `\` makes the closing quote an escape. | Double backslashes as well, so the literal denotes the value. | not executed | Quoting.QuoteValueAsWritten, Quoting.AsWrittenRejectsBackslash | Quoting.QuoteValue, Quoting.QuoteValueRoundTrip |

The rest of the model uses the corrected `Quoting.QuoteValue`. On values
without a backslash, the two versions agree (`Quoting.AsWrittenAgreesWithoutBackslash`).
