/**
 * Literal quoting (converter.go, quoteValue): how an attribute value or the
 * content of a text node becomes a Go string literal in the generated source.
 *
 * A value goes into a raw (backtick) literal when it holds a line break, or
 * when it is longer than 50 bytes and looks like script (`{` or `function`);
 * a backtick inside it is spliced in as ` + "`" + `. Every other value goes
 * into an interpreted (double-quoted) literal. The function as written escapes
 * only `"` there; `QuoteValue`, which the rest of the model uses, also doubles
 * backslashes. `DecodeLiteral` gives the meaning Go assigns to the literal
 * text, so that both can be judged by the value the literal denotes.
 */
module Quoting {
  import opened GoStrings

  datatype Option<T> = None | Some(value: T)

  /** Text standing for one backtick inside a raw literal: close, append "`", reopen. */
  const BacktickSplice := "` + \"`\" + `"

  /**
   * The condition under which quoteValue chooses a raw literal: a value with
   * a line break always gets one, a value of at most 50 bytes only then.
   */
  function UsesBackticks(val: string): (raw: bool)
    ensures '\n' in val ==> raw
    ensures ByteLen(val) <= 50 ==> (raw <==> '\n' in val)
    ensures raw && '\n' !in val ==> '{' in val || Contains(val, "function")
  {
    '\n' in val || (ByteLen(val) > 50 && ('{' in val || Contains(val, "function")))
  }

  /** The raw-literal branch: backticks around the value, inner backticks spliced. */
  function RawLiteral(val: string): (lit: string)
    ensures |lit| >= 2 && lit[0] == '`' && lit[|lit| - 1] == '`'
  {
    "`" + ReplaceAll(val, '`', BacktickSplice) + "`"
  }

  /** quoteValue as written: the interpreted branch escapes `"` and nothing else. */
  function QuoteValueAsWritten(val: string): (lit: string)
    ensures |lit| >= 2
    ensures UsesBackticks(val) <==> lit[0] == '`'
    ensures !UsesBackticks(val) <==> lit[0] == '"' && lit[|lit| - 1] == '"'
  {
    if UsesBackticks(val) then RawLiteral(val)
    else "\"" + ReplaceAll(val, '"', "\\\"") + "\""
  }

  /** Escaping for an interpreted literal: `\` becomes `\\` and `"` becomes `\"`. */
  function EscapeQuoted(val: string): (r: string)
    ensures '\n' !in val ==> '\n' !in r
    decreases |val|
  {
    if val == [] then ""
    else
      (if val[0] == '\\' then "\\\\" else if val[0] == '"' then "\\\"" else [val[0]])
      + EscapeQuoted(val[1..])
  }

  /** quoteValue with backslashes escaped as well: the literal denotes `val`. */
  function QuoteValue(val: string): (lit: string)
    ensures |lit| >= 2
    ensures UsesBackticks(val) <==> lit[0] == '`'
    ensures !UsesBackticks(val) <==> lit[0] == '"' && lit[|lit| - 1] == '"'
  {
    if UsesBackticks(val) then RawLiteral(val)
    else "\"" + EscapeQuoted(val) + "\""
  }

  // ---------------------------------------------------------------------
  // What a literal means to Go
  // ---------------------------------------------------------------------

  function Cons(c: char, rest: Option<string>): Option<string> {
    if rest.Some? then Some([c] + rest.value) else None
  }

  /**
   * The character denoted by the simple escape `\c` in an interpreted string
   * literal (section "Rune literals" of the Go specification). Octal, `\x`,
   * `\u` and `\U` escapes are never produced by the converter and are not
   * decoded; `\'` is not allowed in a string literal.
   */
  function SimpleEscape(c: char): Option<char> {
    match c
    case 'a' => Some(7 as char)
    case 'b' => Some(8 as char)
    case 'f' => Some(12 as char)
    case 'n' => Some('\n')
    case 'r' => Some('\r')
    case 't' => Some('\t')
    case 'v' => Some(11 as char)
    case '\\' => Some('\\')
    case '"' => Some('"')
    case _ => None
  }

  /**
   * The value of an interpreted literal, given the text after its opening
   * quote. The text must end at the closing quote; a raw line break or an
   * unknown escape makes it ill-formed.
   */
  function DecodeInterpreted(s: string): Option<string>
    decreases |s|
  {
    if s == [] then None
    else if s[0] == '"' then (if |s| == 1 then Some("") else None)
    else if s[0] == '\n' then None
    else if s[0] == '\\' then
      if |s| < 2 then None
      else
        match SimpleEscape(s[1])
        case None => None
        case Some(c) => Cons(c, DecodeInterpreted(s[2..]))
    else Cons(s[0], DecodeInterpreted(s[1..]))
  }

  /**
   * The value of a raw literal, possibly continued by splices, given the text
   * after its opening backtick. Go drops carriage returns from raw literals.
   */
  function DecodeRaw(s: string): Option<string>
    decreases |s|
  {
    if s == [] then None
    else if s[0] == '`' then
      if |s| == 1 then Some("")
      else if HasPrefix(s, BacktickSplice) then Cons('`', DecodeRaw(s[|BacktickSplice|..]))
      else None
    else if s[0] == '\r' then DecodeRaw(s[1..])
    else Cons(s[0], DecodeRaw(s[1..]))
  }

  /** The string a literal expression produced by the converter denotes, if it is well-formed. */
  function DecodeLiteral(lit: string): Option<string> {
    if |lit| > 0 && lit[0] == '"' then DecodeInterpreted(lit[1..])
    else if |lit| > 0 && lit[0] == '`' then DecodeRaw(lit[1..])
    else None
  }

  // ---------------------------------------------------------------------
  // Round trips
  // ---------------------------------------------------------------------

  lemma {:induction false} RawRoundTrip(val: string)
    requires '\r' !in val
    ensures DecodeRaw(ReplaceAll(val, '`', BacktickSplice) + "`") == Some(val)
    decreases |val|
  {
    var body := ReplaceAll(val, '`', BacktickSplice);
    if val == [] {
      assert body + "`" == "`";
    } else {
      RawRoundTrip(val[1..]);
      var rest := ReplaceAll(val[1..], '`', BacktickSplice);
      var s := body + "`";
      if val[0] == '`' {
        assert s == BacktickSplice + (rest + "`");
        assert HasPrefix(s, BacktickSplice);
        assert s[|BacktickSplice|..] == rest + "`";
      } else {
        assert s == [val[0]] + (rest + "`");
        assert s[1..] == rest + "`";
      }
      assert [val[0]] + val[1..] == val;
    }
  }

  lemma {:induction false} QuotedRoundTrip(val: string)
    requires '\n' !in val
    ensures DecodeInterpreted(EscapeQuoted(val) + "\"") == Some(val)
    decreases |val|
  {
    if val == [] {
      assert EscapeQuoted(val) + "\"" == "\"";
    } else {
      QuotedRoundTrip(val[1..]);
      var rest := EscapeQuoted(val[1..]);
      var s := EscapeQuoted(val) + "\"";
      if val[0] == '\\' || val[0] == '"' {
        assert s == ['\\', val[0]] + (rest + "\"");
        assert s[2..] == rest + "\"";
      } else {
        assert s == [val[0]] + (rest + "\"");
        assert s[1..] == rest + "\"";
      }
      assert [val[0]] + val[1..] == val;
    }
  }

  /**
   * The literal QuoteValue emits denotes exactly the value. The one exception
   * is a carriage return inside a raw literal, which Go drops.
   */
  lemma QuoteValueRoundTrip(val: string)
    requires UsesBackticks(val) ==> '\r' !in val
    ensures DecodeLiteral(QuoteValue(val)) == Some(val)
  {
    var lit := QuoteValue(val);
    if UsesBackticks(val) {
      RawRoundTrip(val);
      var body := ReplaceAll(val, '`', BacktickSplice);
      assert lit == "`" + body + "`";
      assert lit[1..] == body + "`";
    } else {
      QuotedRoundTrip(val);
      var body := EscapeQuoted(val);
      assert lit == "\"" + body + "\"";
      assert lit[1..] == body + "\"";
    }
  }

  /**
   * As written, a backslash passes unescaped into an interpreted literal: a
   * short single-line value such as the pattern `\d+` is put between double
   * quotes unchanged, and `"\d+"` is not a Go literal at all.
   */
  lemma AsWrittenRejectsBackslash(v: string)
    requires v == "\\d+"
    ensures QuoteValueAsWritten(v) == "\"" + v + "\""
    ensures DecodeLiteral(QuoteValueAsWritten(v)) == None
  {
    assert |v| == 3 && v[0] == '\\' && v[1] == 'd' && v[2] == '+';
    assert '\n' !in v && '"' !in v;
    AsWrittenPlainQuoted(v);
    UnknownEscapeRejected(v);
  }

  /** As written, a value needing no raw literal and holding no `"` is copied verbatim between double quotes. */
  lemma AsWrittenPlainQuoted(v: string)
    requires '\n' !in v && ByteLen(v) <= 50 && '"' !in v
    ensures QuoteValueAsWritten(v) == "\"" + v + "\""
  {
  }

  /**
   * Double quotes around a text that starts with a backslash and a character
   * that begins no Go escape (neither a simple escape, nor an octal digit,
   * `x`, `u` or `U`) do not form a Go literal.
   */
  lemma UnknownEscapeRejected(v: string)
    requires |v| >= 2 && v[0] == '\\' && SimpleEscape(v[1]) == None && v[1] !in "01234567xuU"
    ensures DecodeLiteral("\"" + v + "\"") == None
  {
    var lit := "\"" + v + "\"";
    assert lit[1..] == v + "\"";
  }

  lemma {:induction false} EscapeWithoutBackslash(val: string)
    requires '\\' !in val
    ensures EscapeQuoted(val) == ReplaceAll(val, '"', "\\\"")
    decreases |val|
  {
    if val != [] {
      EscapeWithoutBackslash(val[1..]);
    }
  }

  /** Both versions agree on every value without a backslash. */
  lemma AsWrittenAgreesWithoutBackslash(val: string)
    requires '\\' !in val
    ensures QuoteValueAsWritten(val) == QuoteValue(val)
  {
    EscapeWithoutBackslash(val);
  }

  lemma {:induction false} EscapePlain(val: string)
    requires '\\' !in val && '"' !in val
    ensures EscapeQuoted(val) == val
    decreases |val|
  {
    if val != [] {
      EscapePlain(val[1..]);
      assert [val[0]] + val[1..] == val;
    }
  }

  /** A value without quote characters or backslashes comes back between the chosen delimiters. */
  lemma PlainValueQuoted(val: string)
    requires '"' !in val && '`' !in val && '\\' !in val
    ensures QuoteValue(val) == (if UsesBackticks(val) then "`" + val + "`" else "\"" + val + "\"")
  {
    EscapePlain(val);
  }
}
