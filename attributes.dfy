/**
 * Attribute mapping (converter.go, convertAttribute and the htmx and Alpine
 * mappers): every attribute becomes exactly one call expression.
 *
 * The tiers are tried in order: htmx (`hx-` keys, when htmx mode is on), then
 * Alpine (`x-`, `@` and `:` keys, when Alpine mode is on), then the standard
 * table, with `data-`/`aria-` stripping and a `Custom(key, value)` fallback
 * that catches everything else, so no attribute is ever dropped.
 */
module AttributeMapping {
  import opened GoStrings
  import opened Quoting

  /** The converter's two mode switches. */
  datatype Config = Config(useHTMX: bool, useAlpine: bool)

  /** One attribute of an element, in encounter order. */
  datatype Attr = Attr(key: string, val: string)

  // Call-expression shapes used by the Sprintf formats of the source.

  function Call0(name: string): string {
    name + "()"
  }

  function Call1(name: string, arg: string): string {
    name + "(" + QuoteValue(arg) + ")"
  }

  function Call2(name: string, first: string, second: string): string {
    name + "(" + QuoteValue(first) + ", " + QuoteValue(second) + ")"
  }

  // ---------------------------------------------------------------------
  // Standard tier
  // ---------------------------------------------------------------------

  /** What a tag-independent case of the standard switch does with the attribute. */
  datatype StandardCase =
    | ValueCall(name: string)     // name(value)
    | PresenceCall(name: string)  // name(), the value is ignored

  /**
   * The tag-independent cases of the switch over standard keys, in source
   * order. The switch is kept as three parts joined by map union so that each
   * fact about it is proved over a small table.
   */
  const StandardCases: map<string, StandardCase> := StandardCasesPart1 + StandardCasesPart2 + StandardCasesPart3

  const StandardCasesPart1: map<string, StandardCase> := map[
    "class" := ValueCall("Class"), "id" := ValueCall("Id"), "style" := ValueCall("Style"),
    "href" := ValueCall("Href"), "placeholder" := ValueCall("Placeholder"),
    "disabled" := PresenceCall("Disabled"), "checked" := PresenceCall("Checked"),
    "readonly" := PresenceCall("ReadOnly"), "required" := PresenceCall("Required"),
    "multiple" := PresenceCall("Multiple"), "selected" := PresenceCall("Selected"),
    "defer" := PresenceCall("Defer")
  ]

  const StandardCasesPart2: map<string, StandardCase> := map[
    "async" := PresenceCall("Async"), "charset" := ValueCall("Charset"),
    "content" := ValueCall("Content"), "method" := ValueCall("Method"),
    "action" := ValueCall("Action"), "target" := ValueCall("Target"), "rel" := ValueCall("Rel"),
    "alt" := ValueCall("Alt"), "title" := ValueCall("Title"), "width" := ValueCall("Width"),
    "height" := ValueCall("Height"), "colspan" := ValueCall("ColSpan")
  ]

  const StandardCasesPart3: map<string, StandardCase> := map[
    "rowspan" := ValueCall("RowSpan"), "for" := ValueCall("For"),
    "maxlength" := ValueCall("MaxLength"), "minlength" := ValueCall("MinLength"),
    "min" := ValueCall("Min"), "max" := ValueCall("Max"), "step" := ValueCall("Step"),
    "pattern" := ValueCall("Pattern"), "rows" := ValueCall("Rows"), "cols" := ValueCall("Cols"),
    "autocomplete" := ValueCall("AutoComplete"), "autofocus" := PresenceCall("Autofocus")
  ]

  /**
   * The standard tier: the switch, then the data-/aria- prefixes, role,
   * tabindex and the Custom fallback. The four cases that look at the tag
   * (src, type, value, name) are tested first; the cases of the switch have
   * distinct keys, so the order does not change the outcome.
   */
  function StandardAttribute(key: string, val: string, tagName: string): (code: string)
    ensures code != ""
  {
    if key == "src" then Call1(if tagName == "script" then "ScriptSrc" else "Src", val)
    else if key == "type" then
      Call1(if tagName == "input" then "InputType" else if tagName == "button" then "ButtonType" else "Type", val)
    else if key == "value" then Call1(if tagName == "input" then "InputValue" else "Value", val)
    // the source has a separate `meta` branch for `name`; it yields Name as well
    else if key == "name" then Call1(if tagName == "input" then "InputName" else "Name", val)
    else if key in StandardCases then
      match StandardCases[key]
      case ValueCall(f) => Call1(f, val)
      case PresenceCall(f) => Call0(f)
    else if HasPrefix(key, "data-") then Call2("Data", TrimPrefix(key, "data-"), val)
    else if HasPrefix(key, "aria-") then Call2("Aria", TrimPrefix(key, "aria-"), val)
    else if key == "role" then Call1("Role", val)
    else if key == "tabindex" then Call1("TabIndex", val)
    else Call2("Custom", key, val)
  }

  // ---------------------------------------------------------------------
  // htmx tier
  // ---------------------------------------------------------------------

  const HtmxFunctions: map<string, string> := map[
    "hx-get" := "HxGet", "hx-post" := "HxPost", "hx-put" := "HxPut", "hx-patch" := "HxPatch",
    "hx-delete" := "HxDelete", "hx-trigger" := "HxTrigger", "hx-target" := "HxTarget",
    "hx-swap" := "HxSwap", "hx-swap-oob" := "HxSwapOob", "hx-indicator" := "HxIndicator",
    "hx-push-url" := "HxPushUrl", "hx-replace-url" := "HxReplaceUrl", "hx-select" := "HxSelect",
    "hx-select-oob" := "HxSelectOob", "hx-vals" := "HxVals", "hx-headers" := "HxHeaders",
    "hx-include" := "HxInclude", "hx-params" := "HxParams", "hx-confirm" := "HxConfirm",
    "hx-prompt" := "HxPrompt", "hx-validate" := "HxValidate", "hx-disabled-elt" := "HxDisabledElt",
    "hx-ext" := "HxExt", "hx-boost" := "HxBoost", "hx-preserve" := "HxPreserve",
    "hx-sse" := "HxSse", "hx-ws" := "HxWs", "hx-sync" := "HxSync",
    "hx-encoding" := "HxEncoding", "hx-disinherit" := "HxDisinherit"
  ]

  /** htmx keys whose call takes a boolean rather than the value. */
  const HtmxBooleanKeys: set<string> := {"hx-boost", "hx-preserve", "hx-validate"}

  function ConvertHtmxAttribute(key: string, val: string): (code: string)
    ensures code != ""
  {
    if key in HtmxFunctions then
      var f := HtmxFunctions[key];
      if key in HtmxBooleanKeys then
        // `%v` of `val == "true"` in the branch where it is false
        if val == "true" then "htmx." + f + "()" else "htmx." + f + "(false)"
      else "htmx." + f + "(" + QuoteValue(val) + ")"
    else Call2("Custom", key, val)
  }

  // ---------------------------------------------------------------------
  // Alpine tier
  // ---------------------------------------------------------------------

  const AlpineFunctions: map<string, string> := map[
    "x-data" := "XData", "x-init" := "XInit", "x-show" := "XShow", "x-if" := "XIf",
    "x-for" := "XFor", "x-html" := "XHtml", "x-text" := "XText", "x-model" := "XModel",
    "x-modelable" := "XModelable", "x-effect" := "XEffect", "x-ref" := "XRef",
    "x-teleport" := "XTeleport", "x-ignore" := "XIgnore", "x-id" := "XId",
    "x-cloak" := "XCloak", "x-transition" := "XTransition",
    "x-transition:enter" := "XTransitionEnter",
    "x-transition:enter-start" := "XTransitionEnterStart",
    "x-transition:enter-end" := "XTransitionEnterEnd",
    "x-transition:leave" := "XTransitionLeave",
    "x-transition:leave-start" := "XTransitionLeaveStart",
    "x-transition:leave-end" := "XTransitionLeaveEnd",
    "x-model.lazy" := "XModelLazy", "x-model.number" := "XModelNumber"
  ]

  /** Alpine directives rendered without an argument. */
  const AlpineNoArgKeys: set<string> := {"x-cloak", "x-ignore", "x-transition"}

  /** `x-` keys: x-on:E and x-bind:A first, then x-model.debounce.D, then the table. */
  function ConvertAlpineAttribute(key: string, val: string): (code: string)
    ensures code != ""
  {
    if HasPrefix(key, "x-on:") then Call2("alpine.XOn", TrimPrefix(key, "x-on:"), val)
    else if HasPrefix(key, "x-bind:") then Call2("alpine.XBind", TrimPrefix(key, "x-bind:"), val)
    else if HasPrefix(key, "x-model.debounce") && |Split(key, '.')| > 2 then
      Call2("alpine.XModelDebounce", val, Split(key, '.')[2])
    else if key in AlpineFunctions then
      if key in AlpineNoArgKeys then Call0("alpine." + AlpineFunctions[key])
      else Call1("alpine." + AlpineFunctions[key], val)
    else Call2("Custom", key, val)
  }

  /** Event and modifier combinations with a dedicated builder. */
  const AlpineCombos: map<string, string> := map[
    "click.away" := "AtClickAway", "click.outside" := "AtClickOutside",
    "click.prevent" := "AtClickPrevent", "click.stop" := "AtClickStop",
    "submit.prevent" := "AtSubmitPrevent", "keydown.escape" := "AtKeydownEscape",
    "keydown.enter" := "AtKeydownEnter", "keydown.window" := "AtKeydownWindow"
  ]

  /** Events without modifiers that have a dedicated builder. */
  const AlpineEvents: map<string, string> := map[
    "click" := "AtClick", "submit" := "AtSubmit", "change" := "AtChange",
    "input" := "AtInput", "keydown" := "AtKeydown", "keyup" := "AtKeyup",
    "mouseenter" := "AtMouseenter", "mouseleave" := "AtMouseleave"
  ]

  /** `@` keys: the event is split off the modifiers at the first dot. */
  function ConvertAlpineEventAttribute(key: string, val: string): (code: string)
    ensures code != ""
  {
    var eventPart := TrimPrefix(key, "@");
    var parts := Split(eventPart, '.');
    var event := parts[0];
    if |parts| > 1 then
      var combo := event + "." + Join(parts[1..], ".");
      if combo in AlpineCombos then Call1("alpine." + AlpineCombos[combo], val)
      else Call2("Custom", key, val)
    else if event in AlpineEvents then Call1("alpine." + AlpineEvents[event], val)
    else Call2("alpine.At", event, val)
  }

  const BindFunctions: map<string, string> := map[
    "class" := "ColonClass", "style" := "ColonStyle", "disabled" := "ColonDisabled",
    "value" := "ColonValue", "key" := "Colon"
  ]

  /** `:` keys: the bind table, where `key` and unknown names use the generic Colon call. */
  function ConvertAlpineBindAttribute(key: string, val: string): (code: string)
    ensures code != ""
  {
    var attr := TrimPrefix(key, ":");
    if attr in BindFunctions then
      if BindFunctions[attr] == "Colon" then Call2("alpine.Colon", attr, val)
      else Call1("alpine." + BindFunctions[attr], val)
    else Call2("alpine.Colon", attr, val)
  }

  // ---------------------------------------------------------------------
  // Tier dispatch
  // ---------------------------------------------------------------------

  /** convertAttribute: the first tier whose prefix and mode match handles the attribute. */
  function ConvertAttribute(a: Attr, tagName: string, cfg: Config): (code: string)
    ensures code != ""
  {
    if HasPrefix(a.key, "hx-") && cfg.useHTMX then ConvertHtmxAttribute(a.key, a.val)
    else if cfg.useAlpine && HasPrefix(a.key, "x-") then ConvertAlpineAttribute(a.key, a.val)
    else if cfg.useAlpine && HasPrefix(a.key, "@") then ConvertAlpineEventAttribute(a.key, a.val)
    else if cfg.useAlpine && HasPrefix(a.key, ":") then ConvertAlpineBindAttribute(a.key, a.val)
    else StandardAttribute(a.key, a.val, tagName)
  }

  // ---------------------------------------------------------------------
  // Facts about the tables
  // ---------------------------------------------------------------------

  /** A key that cannot reach the htmx or Alpine tiers: neither `hx-`, `x-`, `@` nor `:` in front. */
  predicate PlainKey(key: string) {
    !HasPrefix(key, "hx-") && !HasPrefix(key, "x-") && !HasPrefix(key, "@") && !HasPrefix(key, ":")
  }

  /** The shape every key of the switch has: two characters at least, and a first character no tier prefix has. */
  predicate CaseKeyShape(key: string) {
    |key| > 1 && key[0] != 'x' && key[0] != '@' && key[0] != ':' && (key[0] == 'h' ==> key[1] != 'x')
  }

  lemma CaseKeyIsPlain(key: string)
    requires CaseKeyShape(key)
    ensures PlainKey(key)
  {
    if key[0] == 'h' { PrefixDiffers(key, "hx-", 1); } else { PrefixDiffers(key, "hx-", 0); }
    PrefixDiffers(key, "x-", 0);
    PrefixDiffers(key, "@", 0);
    PrefixDiffers(key, ":", 0);
  }

  /**
   * What every case of the switch satisfies: its key reaches the standard
   * tier in every mode, is not a data-/aria- key nor one of the four
   * tag-dependent keys, and its builder is an exported name.
   */
  predicate WellFormedCase(key: string, c: StandardCase) {
    && CaseKeyShape(key)
    && (key[0] == 'd' ==> key[1] != 'a') && (key[0] == 'a' ==> key[1] != 'r')
    && key !in {"src", "type", "value", "name"}
    && c.name != [] && 'A' <= c.name[0] <= 'Z'
  }

  lemma StandardCasesWellFormed()
    ensures forall k | k in StandardCases :: WellFormedCase(k, StandardCases[k])
  {
    Part1WellFormed();
    Part2WellFormed();
    Part3WellFormed();
  }

  lemma Part1WellFormed()
    ensures forall k | k in StandardCasesPart1 :: WellFormedCase(k, StandardCasesPart1[k])
  {
  }

  lemma Part2WellFormed()
    ensures forall k | k in StandardCasesPart2 :: WellFormedCase(k, StandardCasesPart2[k])
  {
  }

  lemma Part3WellFormed()
    ensures forall k | k in StandardCasesPart3 :: WellFormedCase(k, StandardCasesPart3[k])
  {
  }

  /** A plain key is handled by the standard tier in every mode. */
  lemma PlainKeyIsStandard(a: Attr, tagName: string, cfg: Config)
    requires PlainKey(a.key)
    ensures ConvertAttribute(a, tagName, cfg) == StandardAttribute(a.key, a.val, tagName)
  {
  }

  /** A key carrying an htmx or Alpine prefix is in neither standard table and has no data-/aria- prefix. */
  lemma PrefixedKeyNotStandard(key: string)
    requires HasPrefix(key, "hx-") || HasPrefix(key, "x-") || HasPrefix(key, "@") || HasPrefix(key, ":")
    ensures !CaseKeyShape(key)
    ensures key !in StandardCases && key !in {"src", "type", "value", "name", "role", "tabindex"}
    ensures !HasPrefix(key, "data-") && !HasPrefix(key, "aria-")
  {
    if HasPrefix(key, "hx-") { PrefixChars(key, "hx-"); }
    else if HasPrefix(key, "x-") { PrefixChars(key, "x-"); }
    else if HasPrefix(key, "@") { PrefixChars(key, "@"); }
    else { PrefixChars(key, ":"); }
    StandardCasesWellFormed();
    PrefixDiffers(key, "data-", 0);
    PrefixDiffers(key, "aria-", 0);
  }

  // ---------------------------------------------------------------------
  // Properties of the standard tier
  // ---------------------------------------------------------------------

  /** `type` depends on the tag: InputType on input, ButtonType on button, Type elsewhere, in every mode. */
  lemma TypeKey(v: string, tagName: string, cfg: Config)
    ensures ConvertAttribute(Attr("type", v), tagName, cfg)
         == Call1(if tagName == "input" then "InputType" else if tagName == "button" then "ButtonType" else "Type", v)
  {
    CaseKeyIsPlain("type");
    PlainKeyIsStandard(Attr("type", v), tagName, cfg);
  }

  /** `value` is InputValue on input and Value elsewhere. */
  lemma ValueKey(v: string, tagName: string, cfg: Config)
    ensures ConvertAttribute(Attr("value", v), tagName, cfg)
         == Call1(if tagName == "input" then "InputValue" else "Value", v)
  {
    CaseKeyIsPlain("value");
    PlainKeyIsStandard(Attr("value", v), tagName, cfg);
  }

  /** `name` is InputName on input and Name elsewhere, meta included. */
  lemma NameKey(v: string, tagName: string, cfg: Config)
    ensures ConvertAttribute(Attr("name", v), tagName, cfg)
         == Call1(if tagName == "input" then "InputName" else "Name", v)
  {
    CaseKeyIsPlain("name");
    PlainKeyIsStandard(Attr("name", v), tagName, cfg);
  }

  /** `src` is ScriptSrc on script and Src elsewhere. */
  lemma SrcKey(v: string, tagName: string, cfg: Config)
    ensures ConvertAttribute(Attr("src", v), tagName, cfg)
         == Call1(if tagName == "script" then "ScriptSrc" else "Src", v)
  {
    CaseKeyIsPlain("src");
    PlainKeyIsStandard(Attr("src", v), tagName, cfg);
  }

  /** Only type, value, name and src depend on the enclosing tag. */
  lemma TagIndependent(a: Attr, t1: string, t2: string, cfg: Config)
    requires a.key !in {"type", "value", "name", "src"}
    ensures ConvertAttribute(a, t1, cfg) == ConvertAttribute(a, t2, cfg)
  {
  }

  /** A value case becomes its builder applied to the quoted value, in every mode. */
  lemma ValueCaseCall(key: string, v: string, tagName: string, cfg: Config)
    requires key in StandardCases && StandardCases[key].ValueCall?
    ensures ConvertAttribute(Attr(key, v), tagName, cfg) == StandardCases[key].name + "(" + QuoteValue(v) + ")"
  {
    StandardCasesWellFormed();
    CaseKeyIsPlain(key);
    PlainKeyIsStandard(Attr(key, v), tagName, cfg);
  }

  /** A presence-only case gives a call without arguments, whatever the value. */
  lemma PresenceOnly(key: string, v: string, tagName: string, cfg: Config)
    requires key in StandardCases && StandardCases[key].PresenceCall?
    ensures ConvertAttribute(Attr(key, v), tagName, cfg) == StandardCases[key].name + "()"
  {
    StandardCasesWellFormed();
    CaseKeyIsPlain(key);
    PlainKeyIsStandard(Attr(key, v), tagName, cfg);
  }

  /** Keys starting `da` or `ar` are not cases of the switch. */
  lemma NotInStandardCases(key: string)
    requires |key| > 1 && ((key[0] == 'd' && key[1] == 'a') || (key[0] == 'a' && key[1] == 'r'))
    ensures key !in StandardCases
  {
    StandardCasesWellFormed();
  }

  /** `data-X` loses its prefix and keeps X as the first argument. */
  lemma DataStripped(rest: string, v: string, tagName: string, cfg: Config)
    ensures ConvertAttribute(Attr("data-" + rest, v), tagName, cfg) == Call2("Data", rest, v)
  {
    var key := "data-" + rest;
    assert key[0] == 'd' && key[1] == 'a';
    NotInStandardCases(key);
    CaseKeyIsPlain(key);
    PlainKeyIsStandard(Attr(key, v), tagName, cfg);
    PrefixOfConcat("data-", rest);
  }

  /** `aria-X` loses its prefix and keeps X as the first argument. */
  lemma AriaStripped(rest: string, v: string, tagName: string, cfg: Config)
    ensures ConvertAttribute(Attr("aria-" + rest, v), tagName, cfg) == Call2("Aria", rest, v)
  {
    var key := "aria-" + rest;
    assert key[0] == 'a' && key[1] == 'r';
    NotInStandardCases(key);
    CaseKeyIsPlain(key);
    PlainKeyIsStandard(Attr(key, v), tagName, cfg);
    PrefixDiffers(key, "data-", 0);
    PrefixOfConcat("aria-", rest);
  }

  /** With its mode off, an htmx or Alpine key falls back to Custom with key and value verbatim. */
  lemma DisabledModeFallsBack(key: string, v: string, tagName: string, cfg: Config)
    requires || (HasPrefix(key, "hx-") && !cfg.useHTMX)
             || ((HasPrefix(key, "x-") || HasPrefix(key, "@") || HasPrefix(key, ":")) && !cfg.useAlpine)
    ensures ConvertAttribute(Attr(key, v), tagName, cfg) == Call2("Custom", key, v)
  {
    PrefixedKeyNotStandard(key);
    if HasPrefix(key, "hx-") {
      PrefixDiffers(key, "x-", 0);
      PrefixDiffers(key, "@", 0);
      PrefixDiffers(key, ":", 0);
    }
  }

  // ---------------------------------------------------------------------
  // Properties of the htmx tier
  // ---------------------------------------------------------------------

  lemma HtmxTablePrefixed()
    ensures forall k | k in HtmxFunctions :: |k| >= 3 && k[0] == 'h' && k[1] == 'x' && k[2] == '-'
  {
  }

  lemma HxChars(key: string)
    requires |key| >= 3 && key[0] == 'h' && key[1] == 'x' && key[2] == '-'
    ensures HasPrefix(key, "hx-")
  {
    assert key[..3] == "hx-";
  }

  /** Every htmx table key carries the `hx-` prefix, so the table is reached whenever htmx mode is on. */
  lemma HtmxKeysArePrefixed(key: string)
    requires key in HtmxFunctions
    ensures HasPrefix(key, "hx-")
  {
    HtmxTablePrefixed();
    HxChars(key);
  }

  /** A mapped htmx key: the value as the single argument, or a boolean for boost, preserve and validate. */
  lemma HtmxMapped(key: string, v: string, tagName: string, cfg: Config)
    requires cfg.useHTMX && key in HtmxFunctions
    ensures key !in HtmxBooleanKeys ==>
      ConvertAttribute(Attr(key, v), tagName, cfg) == "htmx." + HtmxFunctions[key] + "(" + QuoteValue(v) + ")"
    ensures key in HtmxBooleanKeys && v == "true" ==>
      ConvertAttribute(Attr(key, v), tagName, cfg) == "htmx." + HtmxFunctions[key] + "()"
    ensures key in HtmxBooleanKeys && v != "true" ==>
      ConvertAttribute(Attr(key, v), tagName, cfg) == "htmx." + HtmxFunctions[key] + "(false)"
  {
    HtmxKeysArePrefixed(key);
  }

  /** An `hx-` key outside the table falls back to Custom even with htmx mode on. */
  lemma HtmxUnmapped(key: string, v: string, tagName: string, cfg: Config)
    requires cfg.useHTMX && HasPrefix(key, "hx-") && key !in HtmxFunctions
    ensures ConvertAttribute(Attr(key, v), tagName, cfg) == Call2("Custom", key, v)
  {
  }

  // ---------------------------------------------------------------------
  // Properties of the Alpine tier
  // ---------------------------------------------------------------------

  /** An Alpine key never reaches the htmx tier. */
  lemma NotHtmx(key: string)
    requires HasPrefix(key, "x-") || HasPrefix(key, "@") || HasPrefix(key, ":")
    ensures !HasPrefix(key, "hx-")
  {
    assert key[..1][0] == key[0];
    PrefixDiffers(key, "hx-", 0);
  }

  /** With Alpine mode on, an `x-` key is handled by the `x-` rules. */
  lemma AlpineXTier(a: Attr, tagName: string, cfg: Config)
    requires cfg.useAlpine && HasPrefix(a.key, "x-")
    ensures ConvertAttribute(a, tagName, cfg) == ConvertAlpineAttribute(a.key, a.val)
  {
    NotHtmx(a.key);
  }

  /** x-on:E becomes the generic two-argument call with the event name. */
  lemma AlpineOn(name: string, v: string, tagName: string, cfg: Config)
    requires cfg.useAlpine
    ensures ConvertAttribute(Attr("x-on:" + name, v), tagName, cfg) == Call2("alpine.XOn", name, v)
  {
    var key := "x-on:" + name;
    PrefixOfConcat("x-on:", name);
    PrefixTransitive(key, "x-on:", "x-");
    AlpineXTier(Attr(key, v), tagName, cfg);
  }

  /** x-bind:A becomes the generic two-argument call with the attribute name. */
  lemma AlpineBindDirective(name: string, v: string, tagName: string, cfg: Config)
    requires cfg.useAlpine
    ensures ConvertAttribute(Attr("x-bind:" + name, v), tagName, cfg) == Call2("alpine.XBind", name, v)
  {
    var key := "x-bind:" + name;
    PrefixOfConcat("x-bind:", name);
    PrefixTransitive(key, "x-bind:", "x-");
    PrefixDiffers(key, "x-on:", 2);
    AlpineXTier(Attr(key, v), tagName, cfg);
  }

  /**
   * x-model.debounce.D takes the value first and the delay D second. D is the
   * third dot-separated part of the key; further parts are ignored.
   */
  lemma AlpineDebounce(delay: string, rest: string, v: string, tagName: string, cfg: Config)
    requires cfg.useAlpine && '.' !in delay && (rest == "" || rest[0] == '.')
    ensures ConvertAttribute(Attr("x-model.debounce." + delay + rest, v), tagName, cfg)
         == Call2("alpine.XModelDebounce", v, delay)
  {
    var key := "x-model.debounce." + delay + rest;
    assert key == "x-model.debounce." + (delay + rest);
    PrefixOfConcat("x-model.debounce.", delay + rest);
    PrefixTransitive(key, "x-model.debounce.", "x-model.debounce");
    PrefixTransitive(key, "x-model.debounce.", "x-");
    PrefixDiffers(key, "x-on:", 2);
    PrefixDiffers(key, "x-bind:", 2);
    DebounceSplit(delay, rest);
    AlpineXTier(Attr(key, v), tagName, cfg);
  }

  lemma DebounceSplit(delay: string, rest: string)
    requires '.' !in delay && (rest == "" || rest[0] == '.')
    ensures var parts := Split("x-model.debounce." + delay + rest, '.');
      |parts| > 2 && parts[0] == "x-model" && parts[1] == "debounce" && parts[2] == delay
  {
    assert "x-model.debounce." + delay + rest == "x-model" + ['.'] + "debounce" + ['.'] + delay + rest;
    assert '.' !in "x-model" && '.' !in "debounce";
    SplitThird("x-model", "debounce", delay, rest, '.');
  }

  /** The shape of the `x-` table's keys, which keeps them out of the x-on:, x-bind: and debounce rules. */
  predicate AlpineTableShape(k: string) {
    |k| >= 3 && k[0] == 'x' && k[1] == '-' && k[2] != 'o' && k[2] != 'b' && (k[2] == 'm' ==> |k| < 16)
  }

  lemma AlpineTableShaped()
    ensures forall k | k in AlpineFunctions :: AlpineTableShape(k)
  {
  }

  /**
   * A key of the `x-` table becomes the table's builder in the alpine
   * package, applied to the value, or without an argument for x-cloak,
   * x-ignore and x-transition.
   */
  lemma AlpineMapped(key: string, v: string, tagName: string, cfg: Config)
    requires cfg.useAlpine && key in AlpineFunctions
    ensures key !in AlpineNoArgKeys ==>
      ConvertAttribute(Attr(key, v), tagName, cfg) == "alpine." + AlpineFunctions[key] + "(" + QuoteValue(v) + ")"
    ensures key in AlpineNoArgKeys ==>
      ConvertAttribute(Attr(key, v), tagName, cfg) == "alpine." + AlpineFunctions[key] + "()"
  {
    AlpineTableShaped();
    AlpineShapedKey(key);
    AlpineXTier(Attr(key, v), tagName, cfg);
  }

  lemma AlpineShapedKey(key: string)
    requires AlpineTableShape(key)
    ensures HasPrefix(key, "x-") && !HasPrefix(key, "x-on:") && !HasPrefix(key, "x-bind:")
    ensures !HasPrefix(key, "x-model.debounce")
  {
    assert key[..2] == "x-";
    PrefixDiffers(key, "x-on:", 2);
    PrefixDiffers(key, "x-bind:", 2);
    if key[2] != 'm' {
      PrefixDiffers(key, "x-model.debounce", 2);
    }
  }

  /** An `x-` key that no rule recognises falls back to Custom. */
  lemma AlpineUnmapped(key: string, v: string, tagName: string, cfg: Config)
    requires cfg.useAlpine && HasPrefix(key, "x-")
    requires !HasPrefix(key, "x-on:") && !HasPrefix(key, "x-bind:") && key !in AlpineFunctions
    requires !(HasPrefix(key, "x-model.debounce") && |Split(key, '.')| > 2)
    ensures ConvertAttribute(Attr(key, v), tagName, cfg) == Call2("Custom", key, v)
  {
    AlpineXTier(Attr(key, v), tagName, cfg);
  }

  /** With Alpine mode on, an `@` key is handled by the event rules. */
  lemma AlpineEventTier(e: string, v: string, tagName: string, cfg: Config)
    requires cfg.useAlpine
    ensures ConvertAttribute(Attr("@" + e, v), tagName, cfg) == ConvertAlpineEventAttribute("@" + e, v)
    ensures TrimPrefix("@" + e, "@") == e
  {
    var key := "@" + e;
    PrefixOfConcat("@", e);
    NotHtmx(key);
    PrefixDiffers(key, "x-", 0);
  }

  /**
   * `@E.mods`: the event and its modifiers, split at dots and joined again,
   * are the whole text after `@`; only the listed combinations get a builder,
   * every other one falls back to Custom with the full original key.
   */
  lemma AlpineEventWithModifiers(e: string, v: string, tagName: string, cfg: Config)
    requires cfg.useAlpine && '.' in e
    ensures ConvertAttribute(Attr("@" + e, v), tagName, cfg)
         == if e in AlpineCombos then Call1("alpine." + AlpineCombos[e], v) else Call2("Custom", "@" + e, v)
  {
    AlpineEventTier(e, v, tagName, cfg);
    var parts := Split(e, '.');
    JoinSplit(e, '.');
    assert Join(parts, ".") == parts[0] + "." + Join(parts[1..], ".");
  }

  /** Bare `@E`: the event table, or the generic At call. */
  lemma AlpineEventBare(e: string, v: string, tagName: string, cfg: Config)
    requires cfg.useAlpine && '.' !in e
    ensures ConvertAttribute(Attr("@" + e, v), tagName, cfg)
         == if e in AlpineEvents then Call1("alpine." + AlpineEvents[e], v) else Call2("alpine.At", e, v)
  {
    AlpineEventTier(e, v, tagName, cfg);
    JoinSplit(e, '.');
  }

  /** `:A`: the bind table, where `:key` and names outside the table give alpine.Colon(A, v). */
  lemma AlpineBind(name: string, v: string, tagName: string, cfg: Config)
    requires cfg.useAlpine
    ensures ConvertAttribute(Attr(":" + name, v), tagName, cfg)
         == if name in BindFunctions && name != "key" then Call1("alpine." + BindFunctions[name], v)
            else Call2("alpine.Colon", name, v)
  {
    var key := ":" + name;
    PrefixOfConcat(":", name);
    NotHtmx(key);
    PrefixDiffers(key, "x-", 0);
    PrefixDiffers(key, "@", 0);
    BindColonOnlyForKey();
  }

  lemma BindColonOnlyForKey()
    ensures forall k | k in BindFunctions :: BindFunctions[k] == "Colon" <==> k == "key"
  {
  }

  // ---------------------------------------------------------------------
  // Which package a call belongs to
  // ---------------------------------------------------------------------

  /** Standard calls are unqualified: they start with the upper-case builder name. */
  lemma StandardCallUnqualified(key: string, val: string, tagName: string)
    ensures 'A' <= StandardAttribute(key, val, tagName)[0] <= 'Z'
  {
    var code := StandardAttribute(key, val, tagName);
    if key in {"src", "type", "value", "name"} {
    } else if key in StandardCases {
      StandardCasesWellFormed();
      var c := StandardCases[key];
      assert WellFormedCase(key, c);
      assert code == Call1(c.name, val) || code == Call0(c.name);
    } else {
      assert code[0] in {'D', 'A', 'R', 'T', 'C'};
    }
  }

  /** The htmx tier emits an `htmx.` call exactly for table keys, and Custom otherwise. */
  lemma HtmxTierLead(key: string, val: string)
    ensures ConvertHtmxAttribute(key, val)[0] == (if key in HtmxFunctions then 'h' else 'C')
  {
  }

  /** The Alpine tiers emit `alpine.` calls or fall back to Custom. */
  lemma AlpineTierLead(key: string, val: string)
    ensures ConvertAlpineAttribute(key, val)[0] in {'a', 'C'}
    ensures ConvertAlpineEventAttribute(key, val)[0] in {'a', 'C'}
    ensures ConvertAlpineBindAttribute(key, val)[0] == 'a'
  {
    AlpineDirectiveLead(key, val);
    AlpineEventLead(key, val);
  }

  lemma AlpineDirectiveLead(key: string, val: string)
    ensures ConvertAlpineAttribute(key, val)[0] in {'a', 'C'}
  {
  }

  lemma AlpineEventLead(key: string, val: string)
    ensures ConvertAlpineEventAttribute(key, val)[0] in {'a', 'C'}
  {
  }

  /**
   * An `htmx.` call is emitted only for an `hx-` key with htmx mode on, and
   * is emitted for every table key in that mode; an `alpine.` call only for
   * an `x-`, `@` or `:` key with Alpine mode on. These are the conditions
   * under which the import collector adds the two packages.
   */
  lemma QualifiedCallNeedsMode(a: Attr, tagName: string, cfg: Config)
    ensures HasPrefix(ConvertAttribute(a, tagName, cfg), "htmx.") ==> cfg.useHTMX && HasPrefix(a.key, "hx-")
    ensures cfg.useHTMX && a.key in HtmxFunctions ==> HasPrefix(ConvertAttribute(a, tagName, cfg), "htmx.")
    ensures HasPrefix(ConvertAttribute(a, tagName, cfg), "alpine.") ==>
      cfg.useAlpine && (HasPrefix(a.key, "x-") || HasPrefix(a.key, "@") || HasPrefix(a.key, ":"))
  {
    HtmxCallNeedsMode(a, tagName, cfg);
    HtmxTableCallQualified(a, tagName, cfg);
    AlpineCallNeedsMode(a, tagName, cfg);
  }

  lemma HtmxCallNeedsMode(a: Attr, tagName: string, cfg: Config)
    ensures HasPrefix(ConvertAttribute(a, tagName, cfg), "htmx.") ==> cfg.useHTMX && HasPrefix(a.key, "hx-")
  {
    var code := ConvertAttribute(a, tagName, cfg);
    if HasPrefix(code, "htmx.") {
      PrefixChars(code, "htmx.");
      StandardCallUnqualified(a.key, a.val, tagName);
      AlpineTierLead(a.key, a.val);
    }
  }

  lemma HtmxTableCallQualified(a: Attr, tagName: string, cfg: Config)
    ensures cfg.useHTMX && a.key in HtmxFunctions ==> HasPrefix(ConvertAttribute(a, tagName, cfg), "htmx.")
  {
    if cfg.useHTMX && a.key in HtmxFunctions {
      HtmxKeysArePrefixed(a.key);
      var f := HtmxFunctions[a.key];
      PrefixOfConcat("htmx.", if a.key in HtmxBooleanKeys then f + (if a.val == "true" then "()" else "(false)")
                             else f + "(" + QuoteValue(a.val) + ")");
    }
  }

  lemma AlpineCallNeedsMode(a: Attr, tagName: string, cfg: Config)
    ensures HasPrefix(ConvertAttribute(a, tagName, cfg), "alpine.") ==>
      cfg.useAlpine && (HasPrefix(a.key, "x-") || HasPrefix(a.key, "@") || HasPrefix(a.key, ":"))
  {
    var code := ConvertAttribute(a, tagName, cfg);
    if HasPrefix(code, "alpine.") {
      PrefixChars(code, "alpine.");
      StandardCallUnqualified(a.key, a.val, tagName);
      HtmxTierLead(a.key, a.val);
    }
  }
}
