/**
 * The Go `strings` and `unicode` operations the converter relies on, over
 * Dafny strings (sequences of Unicode scalar values). A Go string is a UTF-8
 * byte string, so Go's `len` is modelled by `ByteLen`, the length of the
 * UTF-8 encoding, and the converter's byte thresholds keep their meaning.
 */
module GoStrings {

  /** strings.HasPrefix */
  predicate HasPrefix(s: string, prefix: string) {
    |prefix| <= |s| && s[..|prefix|] == prefix
  }

  /** A string differing from `prefix` at a position inside `prefix` (or too short to reach it) does not start with it. */
  lemma PrefixDiffers(s: string, prefix: string, i: nat)
    requires i < |prefix| && (i < |s| ==> s[i] != prefix[i])
    ensures !HasPrefix(s, prefix)
  {
    if |prefix| <= |s| {
      assert s[..|prefix|][i] != prefix[i];
    }
  }

  /** The characters of a present prefix. */
  lemma PrefixChars(s: string, prefix: string)
    requires HasPrefix(s, prefix)
    ensures forall i :: 0 <= i < |prefix| ==> s[i] == prefix[i]
  {
    assert forall i :: 0 <= i < |prefix| ==> s[..|prefix|][i] == s[i];
  }

  /** `prefix + rest` starts with `prefix`, and trimming it gives back `rest`. */
  lemma PrefixOfConcat(prefix: string, rest: string)
    ensures HasPrefix(prefix + rest, prefix)
    ensures (prefix + rest)[|prefix|..] == rest
  {
    assert (prefix + rest)[..|prefix|] == prefix;
  }

  /** Regrouping a text made of a head, a separator and a three-part body. */
  lemma Regroup(head: string, sep: string, open: string, inner: string, close: string)
    ensures head + (sep + (open + inner + close)) == head + sep + open + inner + close
  {
  }

  /** A text that starts with `open` and then `inner`, where `inner` starts with `p`, has `p` right after `open`. */
  lemma PrefixInside(open: string, inner: string, rest: string, p: string)
    requires HasPrefix(inner, p)
    ensures HasPrefix(open + inner + rest, open)
    ensures HasPrefix((open + inner + rest)[|open|..], p)
  {
    var s := open + inner + rest;
    assert s[..|open|] == open;
    assert s[|open|..] == inner + rest;
    assert (inner + rest)[..|p|] == inner[..|p|];
  }

  /** Starting with a longer prefix implies starting with each of its prefixes. */
  lemma PrefixTransitive(s: string, p: string, q: string)
    requires HasPrefix(s, p) && HasPrefix(p, q)
    ensures HasPrefix(s, q)
  {
    assert s[..|q|] == p[..|q|];
  }

  /** strings.TrimPrefix: the prefix is removed once, when present. */
  function TrimPrefix(s: string, prefix: string): (r: string)
    ensures HasPrefix(s, prefix) ==> prefix + r == s
    ensures !HasPrefix(s, prefix) ==> r == s
  {
    if HasPrefix(s, prefix) then s[|prefix|..] else s
  }

  /** strings.Contains: `sub` occurs somewhere in `s`. */
  predicate Contains(s: string, sub: string)
    decreases |s|
  {
    HasPrefix(s, sub) || (|s| > 0 && Contains(s[1..], sub))
  }

  /** An occurrence of `sub` puts its first character in `s`. */
  lemma {:induction false} ContainsFirst(s: string, sub: string)
    requires sub != []
    ensures Contains(s, sub) ==> sub[0] in s
    decreases |s|
  {
    if |s| > 0 && !HasPrefix(s, sub) {
      ContainsFirst(s[1..], sub);
      if sub[0] in s[1..] {
        var i :| 0 <= i < |s[1..]| && s[1..][i] == sub[0];
        assert s[i + 1] == sub[0];
      }
    } else if HasPrefix(s, sub) {
      assert s[..|sub|][0] == s[0];
    }
  }

  /** unicode.IsSpace: the characters with the Unicode White_Space property. */
  predicate IsSpace(c: char) {
    var u := c as int;
    u == 0x20 || 0x09 <= u <= 0x0D || u == 0x85 || u == 0xA0 || u == 0x1680
    || 0x2000 <= u <= 0x200A || u == 0x2028 || u == 0x2029 || u == 0x202F
    || u == 0x205F || u == 0x3000
  }

  /** Leading white space removed. */
  function TrimLeft(s: string): (r: string)
    ensures |r| <= |s| && r == s[|s| - |r|..]
    ensures r == [] || !IsSpace(r[0])
    ensures forall i :: 0 <= i < |s| - |r| ==> IsSpace(s[i])
    decreases |s|
  {
    if |s| > 0 && IsSpace(s[0]) then TrimLeft(s[1..]) else s
  }

  /** Trailing white space removed. */
  function TrimRight(s: string): (r: string)
    ensures |r| <= |s| && r == s[..|r|]
    ensures r == [] || !IsSpace(r[|r| - 1])
    ensures forall i :: |r| <= i < |s| ==> IsSpace(s[i])
    decreases |s|
  {
    if |s| > 0 && IsSpace(s[|s| - 1]) then TrimRight(s[..|s| - 1]) else s
  }

  predicate AllSpace(s: string) {
    forall i :: 0 <= i < |s| ==> IsSpace(s[i])
  }

  /** strings.TrimSpace: `s` with its leading and trailing white space removed, and nothing else. */
  function TrimSpace(s: string): (r: string)
    ensures exists pre, post :: s == pre + r + post && AllSpace(pre) && AllSpace(post)
    ensures r == [] <==> AllSpace(s)
    ensures r != [] ==> !IsSpace(r[0]) && !IsSpace(r[|r| - 1])
    ensures |r| <= |s|
  {
    TrimSpaceSurrounded(s);
    TrimSpaceEmpty(s);
    TrimRight(TrimLeft(s))
  }

  lemma TrimSpaceSurrounded(s: string)
    ensures var r := TrimRight(TrimLeft(s));
      exists pre, post :: s == pre + r + post && AllSpace(pre) && AllSpace(post)
  {
    var l := TrimLeft(s);
    var r := TrimRight(l);
    TrimLeftSplit(s);
    TrimRightSplit(l);
    var pre, post := s[..|s| - |l|], l[|r|..];
    assert s == pre + (r + post);
    Surrounded(s, pre, r, post);
  }

  lemma Surrounded(s: string, pre: string, r: string, post: string)
    requires s == pre + (r + post) && AllSpace(pre) && AllSpace(post)
    ensures exists p, q :: s == p + r + q && AllSpace(p) && AllSpace(q)
  {
    assert s == pre + r + post;
  }

  lemma TrimSpaceEmpty(s: string)
    ensures TrimRight(TrimLeft(s)) == [] <==> AllSpace(s)
  {
    var l := TrimLeft(s);
    if TrimRight(l) == [] {
      assert l == [];
    } else {
      assert l[0] == s[|s| - |l|];
    }
  }

  lemma TrimLeftSplit(s: string)
    ensures var l := TrimLeft(s); s == s[..|s| - |l|] + l && AllSpace(s[..|s| - |l|])
  {
    var l := TrimLeft(s);
    assert s == s[..|s| - |l|] + s[|s| - |l|..];
  }

  lemma TrimRightSplit(l: string)
    ensures var r := TrimRight(l); l == r + l[|r|..] && AllSpace(l[|r|..])
  {
    var r := TrimRight(l);
    assert l == l[..|r|] + l[|r|..];
    forall i | 0 <= i < |l[|r|..]| ensures IsSpace(l[|r|..][i]) {
      assert l[|r|..][i] == l[|r| + i];
    }
  }

  /** Number of bytes in the UTF-8 encoding of `c`. */
  function Utf8Width(c: char): (w: nat)
    ensures 1 <= w <= 4
    ensures w == 1 <==> (c as int) < 0x80
  {
    var u := c as int;
    if u < 0x80 then 1 else if u < 0x800 then 2 else if u < 0x10000 then 3 else 4
  }

  /** Go's `len`: the number of bytes of the UTF-8 encoding. */
  function ByteLen(s: string): (n: nat)
    ensures |s| <= n <= 4 * |s|
    ensures n == |s| <==> forall i :: 0 <= i < |s| ==> (s[i] as int) < 0x80
    decreases |s|
  {
    if s == [] then 0 else Utf8Width(s[0]) + ByteLen(s[1..])
  }

  /** strings.ReplaceAll(s, string(c), with): every occurrence of `c` becomes `with`. */
  function ReplaceAll(s: string, c: char, with: string): (r: string)
    ensures c !in s ==> r == s
    ensures c !in with ==> c !in r
    decreases |s|
  {
    if s == [] then [] else (if s[0] == c then with else [s[0]]) + ReplaceAll(s[1..], c, with)
  }

  /** strings.Split(s, string(sep)): the pieces between separators, always at least one. */
  function Split(s: string, sep: char): (parts: seq<string>)
    ensures |parts| >= 1
    ensures forall p :: p in parts ==> sep !in p
    ensures |parts| == 1 <==> sep !in s
    decreases |s|
  {
    if s == [] then [""]
    else
      var rest := Split(s[1..], sep);
      if s[0] == sep then [""] + rest
      else [[s[0]] + rest[0]] + rest[1..]
  }

  /** strings.Join */
  function Join(parts: seq<string>, sep: string): string
    decreases |parts|
  {
    if parts == [] then ""
    else if |parts| == 1 then parts[0]
    else parts[0] + sep + Join(parts[1..], sep)
  }

  /** Joining the pieces of a split with the same separator restores the string. */
  lemma {:induction false} JoinSplit(s: string, sep: char)
    ensures Join(Split(s, sep), [sep]) == s
    decreases |s|
  {
    if s != [] {
      var rest := Split(s[1..], sep);
      JoinSplit(s[1..], sep);
      if s[0] == sep {
        JoinEmptyHead(rest, [sep]);
      } else {
        JoinHead([s[0]], rest, [sep]);
      }
      assert [s[0]] + s[1..] == s;
    }
  }

  lemma JoinEmptyHead(parts: seq<string>, sep: string)
    requires |parts| >= 1
    ensures Join([""] + parts, sep) == sep + Join(parts, sep)
  {
    assert ([""] + parts)[1..] == parts;
  }

  lemma JoinHead(x: string, parts: seq<string>, sep: string)
    requires |parts| >= 1
    ensures Join([x + parts[0]] + parts[1..], sep) == x + Join(parts, sep)
  {
    var joined := [x + parts[0]] + parts[1..];
    if |parts| > 1 {
      assert joined[1..] == parts[1..];
    }
  }

  /** A string without the separator splits into itself. */
  lemma SingleSplit(s: string, sep: char)
    requires sep !in s
    ensures Split(s, sep) == [s]
  {
    JoinSplit(s, sep);
  }

  /** Splitting `a + [sep] + b` where `a` holds no separator yields `a` and then the pieces of `b`. */
  lemma {:induction false} SplitAfter(a: string, sep: char, b: string)
    requires sep !in a
    ensures Split(a + [sep] + b, sep) == [a] + Split(b, sep)
    decreases |a|
  {
    if a == [] {
      assert a + [sep] + b == [sep] + b;
      assert ([sep] + b)[1..] == b;
    } else {
      var s := a + [sep] + b;
      assert s[1..] == a[1..] + [sep] + b;
      SplitAfter(a[1..], sep, b);
      var rest := Split(s[1..], sep);
      assert rest[0] == a[1..] && rest[1..] == Split(b, sep);
      assert s[0] == a[0] && s[0] != sep;
      assert [s[0]] + a[1..] == a;
    }
  }

  /** The first piece of a split ends at the first separator. */
  lemma SplitHead(a: string, rest: string, sep: char)
    requires sep !in a && (rest == [] || rest[0] == sep)
    ensures Split(a + rest, sep)[0] == a
  {
    if rest == [] {
      assert a + rest == a;
      SingleSplit(a, sep);
    } else {
      assert a + rest == a + [sep] + rest[1..];
      SplitAfter(a, sep, rest[1..]);
    }
  }

  /** Two separator-free pieces, each followed by the separator, come out as the first two parts; the third part ends at the next separator. */
  lemma SplitThird(a: string, b: string, c: string, rest: string, sep: char)
    requires sep !in a && sep !in b && sep !in c && (rest == [] || rest[0] == sep)
    ensures var parts := Split(a + [sep] + b + [sep] + c + rest, sep);
      |parts| > 2 && parts[0] == a && parts[1] == b && parts[2] == c
  {
    assert a + [sep] + b + [sep] + c + rest == a + [sep] + (b + [sep] + (c + rest));
    SplitAfter(a, sep, b + [sep] + (c + rest));
    SplitAfter(b, sep, c + rest);
    SplitHead(c, rest, sep);
  }

  /** strings.Repeat("\t", n): `n` tab characters. */
  function Tabs(n: nat): (r: string)
    ensures |r| == n && forall i :: 0 <= i < n ==> r[i] == '\t'
  {
    if n == 0 then "" else "\t" + Tabs(n - 1)
  }
}
