/**
 * Argument layout of an element call (converter.go, convertElement and
 * containsMultilineContent). The arguments go on one line, separated by
 * ", ", unless there are more than three of them, one of them spans lines,
 * or together they are longer than 80 bytes; then each goes on its own line,
 * indented one tab deeper than the call, followed by a comma, and the closing
 * parenthesis returns to the call's own indentation.
 */
module Layout {
  import opened GoStrings

  /** The sum of the arguments' byte lengths; separators are not counted. */
  function SumByteLen(args: seq<string>): (n: nat)
    ensures forall i :: 0 <= i < |args| ==> ByteLen(args[i]) <= n
    decreases |args|
  {
    if args == [] then 0 else SumByteLen(args[..|args| - 1]) + ByteLen(args[|args| - 1])
  }

  predicate HasNewline(args: seq<string>) {
    exists i :: 0 <= i < |args| && '\n' in args[i]
  }

  /** What containsMultilineContent decides. */
  predicate NeedsMultiline(args: seq<string>) {
    |args| > 5 || HasNewline(args) || SumByteLen(args) > 80
  }

  /** The layout decision of convertElement: more than three arguments, or containsMultilineContent. */
  predicate IsMultiLine(args: seq<string>) {
    |args| > 3 || NeedsMultiline(args)
  }

  /** containsMultilineContent: the count test, then one pass that sums lengths and stops at a newline. */
  method ContainsMultilineContent(args: seq<string>) returns (b: bool)
    ensures b == NeedsMultiline(args)
  {
    if |args| > 5 {
      return true;
    }
    var totalLen := 0;
    var i := 0;
    while i < |args|
      invariant 0 <= i <= |args|
      invariant totalLen == SumByteLen(args[..i])
      invariant forall j :: 0 <= j < i ==> '\n' !in args[j]
    {
      assert args[..i + 1][..i] == args[..i];
      totalLen := totalLen + ByteLen(args[i]);
      if '\n' in args[i] {
        return true;
      }
      i := i + 1;
    }
    assert args[..i] == args;
    return totalLen > 80;
  }

  /** The multi-line body: every argument on its own line, `indent` tabs deep, with a trailing comma. */
  function Lines(args: seq<string>, indent: nat): (text: string)
    ensures text == "" <==> args == []
    decreases |args|
  {
    if args == [] then "" else Tabs(indent) + args[0] + ",\n" + Lines(args[1..], indent)
  }

  /** A non-empty multi-line body ends with the last argument's comma and line break. */
  lemma LinesEnd(args: seq<string>, indent: nat)
    requires args != []
    ensures var text := Lines(args, indent);
      |text| >= 2 && text[|text| - 2] == ',' && text[|text| - 1] == '\n'
  {
    LinesSnoc(args[..|args| - 1], args[|args| - 1], indent);
    assert args[..|args| - 1] + [args[|args| - 1]] == args;
  }

  lemma {:induction false} JoinNoNewline(parts: seq<string>, sep: string)
    ensures '\n' !in sep && (forall i :: 0 <= i < |parts| ==> '\n' !in parts[i]) ==> '\n' !in Join(parts, sep)
    decreases |parts|
  {
    if |parts| > 1 {
      JoinNoNewline(parts[1..], sep);
    }
  }

  /**
   * The text between the parentheses of a call at nesting depth `depth`:
   * nothing without arguments, a single line unless the call is multi-line,
   * and otherwise a line break right after the parenthesis.
   */
  function ArgText(args: seq<string>, depth: nat): (text: string)
    ensures args == [] ==> text == ""
    ensures !IsMultiLine(args) ==> '\n' !in text
    ensures args != [] && IsMultiLine(args) ==> |text| > 0 && text[0] == '\n'
  {
    JoinNoNewline(args, ", ");
    if args == [] then ""
    else if IsMultiLine(args) then "\n" + Lines(args, depth + 1) + Tabs(depth)
    else Join(args, ", ")
  }

  /** The call `name(...)` at nesting depth `depth`. */
  function CallCode(name: string, args: seq<string>, depth: nat): (code: string)
    ensures |code| >= |name| + 2 && code[..|name|] == name && code[|name|] == '('
    ensures code[|code| - 1] == ')'
    ensures args == [] ==> code == name + "()"
  {
    name + "(" + ArgText(args, depth) + ")"
  }

  /**
   * The layout step of convertElement: nothing for no arguments, one
   * argument per line when the call is multi-line, else the arguments
   * joined by ", ".
   */
  method FormatArgs(args: seq<string>, depth: nat) returns (text: string)
    ensures text == ArgText(args, depth)
  {
    text := "";
    if |args| > 0 {
      var multi := |args| > 3;
      if !multi {
        multi := ContainsMultilineContent(args);
      }
      if multi {
        text := "\n";
        var k := 0;
        while k < |args|
          invariant 0 <= k <= |args|
          invariant text == "\n" + Lines(args[..k], depth + 1)
        {
          ghost var before := text[1..];
          text := text + Tabs(depth + 1);
          text := text + args[k];
          text := text + ",";
          text := text + "\n";
          LinesStep(args, k, depth + 1, before, before + Tabs(depth + 1) + args[k] + ",\n");
          k := k + 1;
        }
        assert args[..k] == args;
        text := text + Tabs(depth);
      } else {
        text := Join(args, ", ");
      }
    }
  }

  // ---------------------------------------------------------------------
  // Properties
  // ---------------------------------------------------------------------

  /** The count test of containsMultilineContent (more than five) never decides: more than three already does. */
  lemma LayoutRule(args: seq<string>)
    ensures IsMultiLine(args) <==> |args| > 3 || HasNewline(args) || SumByteLen(args) > 80
  {
  }

  /** Appending one line to the multi-line body. */
  lemma {:induction false} LinesSnoc(args: seq<string>, x: string, indent: nat)
    ensures Lines(args + [x], indent) == Lines(args, indent) + Tabs(indent) + x + ",\n"
    decreases |args|
  {
    if args == [] {
      assert Lines([x], indent) == Tabs(indent) + x + ",\n" + Lines([], indent);
    } else {
      assert (args + [x])[1..] == args[1..] + [x];
      LinesSnoc(args[1..], x, indent);
    }
  }

  /** One step of a loop that writes the lines of `args` one by one. */
  lemma LinesStep(args: seq<string>, k: nat, indent: nat, before: string, after: string)
    requires k < |args| && before == Lines(args[..k], indent)
    requires after == before + Tabs(indent) + args[k] + ",\n"
    ensures after == Lines(args[..k + 1], indent)
  {
    assert args[..k + 1] == args[..k] + [args[k]];
    LinesSnoc(args[..k], args[k], indent);
  }

  /** The `indent`-deep line that each argument occupies in the multi-line layout. */
  function IndentedLines(args: seq<string>, indent: nat): (lines: seq<string>)
    ensures |lines| == |args|
    ensures forall i :: 0 <= i < |args| ==> lines[i] == Tabs(indent) + args[i] + ","
    decreases |args|
  {
    if args == [] then [] else [Tabs(indent) + args[0] + ","] + IndentedLines(args[1..], indent)
  }

  lemma {:induction false} LinesSplit(args: seq<string>, indent: nat, tail: string)
    requires !HasNewline(args) && '\n' !in tail
    ensures Split(Lines(args, indent) + tail, '\n') == IndentedLines(args, indent) + [tail]
    decreases |args|
  {
    if args == [] {
      assert Lines(args, indent) + tail == tail;
      SingleSplit(tail, '\n');
    } else {
      var line := Tabs(indent) + args[0] + ",";
      assert '\n' !in args[0];
      assert '\n' !in line;
      assert Lines(args, indent) + tail == line + ['\n'] + (Lines(args[1..], indent) + tail);
      SplitAfter(line, '\n', Lines(args[1..], indent) + tail);
      assert !HasNewline(args[1..]) by {
        forall i | 0 <= i < |args[1..]| ensures '\n' !in args[1..][i] {
          assert args[1..][i] == args[i + 1];
        }
      }
      LinesSplit(args[1..], indent, tail);
    }
  }

  /**
   * Read back line by line, a multi-line call body is an empty line after
   * the parenthesis, then one line per argument, in order, indented one tab
   * deeper than the call, then the closing indentation.
   */
  lemma MultiLineShape(args: seq<string>, depth: nat)
    requires args != [] && IsMultiLine(args) && !HasNewline(args)
    ensures Split(ArgText(args, depth), '\n') == [""] + IndentedLines(args, depth + 1) + [Tabs(depth)]
  {
    var body := Lines(args, depth + 1) + Tabs(depth);
    MultiLineText(args, depth);
    LeadingNewlineSplit(body);
    LinesSplit(args, depth + 1, Tabs(depth));
  }

  lemma MultiLineText(args: seq<string>, depth: nat)
    requires args != [] && IsMultiLine(args)
    ensures ArgText(args, depth) == "\n" + (Lines(args, depth + 1) + Tabs(depth))
  {
  }

  lemma LeadingNewlineSplit(body: string)
    ensures Split("\n" + body, '\n') == [""] + Split(body, '\n')
  {
    assert "\n" + body == "" + ['\n'] + body;
    SplitAfter("", '\n', body);
  }
}
