/**
 * The JavaScript string built-ins the chat client relies on: `join`,
 * `split` on a one-character separator, `trim` and `slice(0, n)`.
 */
module JsString {

  /** `parts.join(sep)`. */
  function Join(parts: seq<string>, sep: string): string
  {
    if parts == [] then ""
    else if |parts| == 1 then parts[0]
    else parts[0] + sep + Join(parts[1..], sep)
  }

  /** Joining more than one piece puts the separator after the first. */
  lemma JoinCons(a: string, parts: seq<string>, sep: string)
    requires parts != []
    ensures Join([a] + parts, sep) == a + sep + Join(parts, sep)
  {
  }

  /** Appending a piece appends the separator and the piece. */
  lemma {:induction false} JoinSnoc(parts: seq<string>, p: string, sep: string)
    requires parts != []
    ensures Join(parts + [p], sep) == Join(parts, sep) + sep + p
  {
    if |parts| == 1 {
      assert parts + [p] == [parts[0]] + [p];
    } else {
      assert (parts + [p])[1..] == parts[1..] + [p];
      JoinSnoc(parts[1..], p, sep);
    }
  }

  /** The number of occurrences of `c` in `s`. */
  function Count(s: string, c: char): nat
  {
    if s == [] then 0 else (if s[0] == c then 1 else 0) + Count(s[1..], c)
  }

  /**
   * `s.split(c)` for a one-character separator: the maximal pieces between
   * separators, empty pieces included, so there is one more piece than
   * there are separators and no piece contains the separator.
   */
  function Split(s: string, c: char): (r: seq<string>)
    ensures |r| == Count(s, c) + 1
    ensures forall i :: 0 <= i < |r| ==> c !in r[i]
  {
    if s == [] then [""]
    else
      var rest := Split(s[1..], c);
      if s[0] == c then [""] + rest
      else [[s[0]] + rest[0]] + rest[1..]
  }

  /** Joining the pieces of a split with the separator gives back the string. */
  lemma {:induction false} JoinSplit(s: string, c: char)
    ensures Join(Split(s, c), [c]) == s
  {
    if s != [] {
      var rest := Split(s[1..], c);
      JoinSplit(s[1..], c);
      if s[0] == c {
        JoinCons("", rest, [c]);
        assert s == [c] + s[1..];
      } else if |rest| == 1 {
        assert Split(s, c) == [[s[0]] + rest[0]];
        assert s == [s[0]] + s[1..];
      } else {
        assert Split(s, c) == [[s[0]] + rest[0]] + rest[1..];
        JoinCons([s[0]] + rest[0], rest[1..], [c]);
        assert s == [s[0]] + s[1..];
      }
    }
  }

  /** A string without the separator splits into itself alone. */
  lemma {:induction false} SplitWithoutSeparator(s: string, c: char)
    requires c !in s
    ensures Split(s, c) == [s]
  {
    if s != [] {
      assert c !in s[1..];
      SplitWithoutSeparator(s[1..], c);
      assert s == [s[0]] + s[1..];
    }
  }

  /** A separator after a separator-free prefix closes the first piece. */
  lemma {:induction false} SplitAtFirstSeparator(a: string, c: char, t: string)
    requires c !in a
    ensures Split(a + [c] + t, c) == [a] + Split(t, c)
  {
    if a == [] {
      assert a + [c] + t == [c] + t;
      assert ([c] + t)[1..] == t;
    } else {
      var s := a + [c] + t;
      assert s[1..] == a[1..] + [c] + t;
      assert c !in a[1..];
      SplitAtFirstSeparator(a[1..], c, t);
      assert [s[0]] + a[1..] == a;
    }
  }

  /**
   * Splitting undoes joining: separator-free pieces joined with the
   * separator split back into the same pieces.
   */
  lemma {:induction false} SplitJoin(parts: seq<string>, c: char)
    requires parts != []
    requires forall i :: 0 <= i < |parts| ==> c !in parts[i]
    ensures Split(Join(parts, [c]), c) == parts
  {
    if |parts| == 1 {
      SplitWithoutSeparator(parts[0], c);
    } else {
      SplitJoin(parts[1..], c);
      SplitAtFirstSeparator(parts[0], c, Join(parts[1..], [c]));
      assert parts == [parts[0]] + parts[1..];
    }
  }

  /**
   * The characters `String.prototype.trim` removes: the ECMAScript
   * WhiteSpace (tab, vertical tab, form feed, no-break space, byte-order
   * mark and the space separators) and LineTerminator code points.
   */
  predicate IsWhitespace(ch: char)
  {
    ch == '\t' || ch == '\n' || ch == '\U{000B}' || ch == '\U{000C}' || ch == '\r' || ch == ' '
    || ch == '\U{00A0}' || ch == '\U{1680}' || ('\U{2000}' <= ch <= '\U{200A}')
    || ch == '\U{2028}' || ch == '\U{2029}' || ch == '\U{202F}' || ch == '\U{205F}'
    || ch == '\U{3000}' || ch == '\U{FEFF}'
  }

  /** Every character of `s` is whitespace (the empty string included). */
  predicate IsBlank(s: string)
  {
    forall i :: 0 <= i < |s| ==> IsWhitespace(s[i])
  }

  /** `s.trimStart()`: the suffix left once the leading whitespace is gone. */
  function TrimStart(s: string): (r: string)
    ensures |r| <= |s| && r == s[|s| - |r|..]
    ensures forall i :: 0 <= i < |s| - |r| ==> IsWhitespace(s[i])
    ensures r != [] ==> !IsWhitespace(r[0])
  {
    if s != [] && IsWhitespace(s[0]) then TrimStart(s[1..]) else s
  }

  /** `s.trimEnd()`: the prefix left once the trailing whitespace is gone. */
  function TrimEnd(s: string): (r: string)
    ensures |r| <= |s| && r == s[..|r|]
    ensures forall i :: |r| <= i < |s| ==> IsWhitespace(s[i])
    ensures r != [] ==> !IsWhitespace(r[|r| - 1])
  {
    if s != [] && IsWhitespace(s[|s| - 1]) then TrimEnd(s[..|s| - 1]) else s
  }

  /** `s.trim()`. */
  function Trim(s: string): (r: string)
    ensures r != [] ==> !IsWhitespace(r[0]) && !IsWhitespace(r[|r| - 1])
  {
    TrimEnd(TrimStart(s))
  }

  /** Trimming leaves nothing exactly when the string is all whitespace. */
  lemma TrimEmptyIffBlank(s: string)
    ensures Trim(s) == "" <==> IsBlank(s)
  {
  }

  /**
   * `s.slice(0, n)`: the first `n` elements, or all of them when there are
   * fewer. JavaScript counts UTF-16 code units; this agrees with it on
   * strings of code points below U+10000, such as the ASCII user ids the
   * source slices.
   */
  function Prefix(s: string, n: nat): (r: string)
    ensures r <= s
    ensures |r| == if |s| < n then |s| else n
  {
    if |s| < n then s else s[..n]
  }
}
