/**
 * `ChatHeaderComponent` (src/app/ui/chat/chat-header/chat-header.component.ts):
 * the initials shown in the header's avatar.
 */
module ChatHeader {
  import opened JsString

  /**
   * `n[0]` joined into a string: the first element, or "" for `undefined`.
   * JavaScript's `n[0]` is a UTF-16 code unit; here it is a whole code point.
   */
  function FirstChar(piece: string): (r: string)
    ensures |r| <= 1
    ensures r == [] <==> piece == []
  {
    if piece == [] then "" else [piece[0]]
  }

  /** `pieces.map(n => n[0])`, each `undefined` already read as "". */
  function FirstChars(pieces: seq<string>): seq<string>
  {
    seq(|pieces|, i requires 0 <= i < |pieces| => FirstChar(pieces[i]))
  }

  /** `getInitials`: `name.split(" ").map(n => n[0]).join("")`. */
  function Initials(name: string): (r: string)
    ensures |r| <= |Split(name, ' ')|
  {
    ConcatBound(FirstChars(Split(name, ' ')));
    Join(FirstChars(Split(name, ' ')), "")
  }

  /** Joining pieces of at most one character each with "" gives at most one character per piece. */
  lemma {:induction false} ConcatBound(parts: seq<string>)
    requires forall i :: 0 <= i < |parts| ==> |parts[i]| <= 1
    ensures |Join(parts, "")| <= |parts|
  {
    if |parts| > 1 {
      ConcatBound(parts[1..]);
    }
  }

  /**
   * A reference definition by a left-to-right scan: keep each non-space
   * character that starts the string or follows a space.
   */
  function WordStarts(s: string, afterSpace: bool): string
  {
    if s == [] then ""
    else if s[0] == ' ' then WordStarts(s[1..], true)
    else (if afterSpace then [s[0]] else "") + WordStarts(s[1..], false)
  }

  /** `FirstChars` commutes with dropping the first piece. */
  lemma FirstCharsTail(pieces: seq<string>)
    requires pieces != []
    ensures FirstChars(pieces)[1..] == FirstChars(pieces[1..])
  {
  }

  /** Concatenating the first piece and the rest. */
  lemma ConcatCons(parts: seq<string>)
    requires parts != []
    ensures Join(parts, "") == parts[0] + Join(parts[1..], "")
  {
  }

  /**
   * The split form and the scan agree: the initials of the whole string
   * are the scan from a word start, and those of every piece after the
   * first are the scan from inside a word.
   */
  lemma {:induction false} InitialsScan(s: string)
    ensures Join(FirstChars(Split(s, ' ')), "") == WordStarts(s, true)
    ensures Join(FirstChars(Split(s, ' '))[1..], "") == WordStarts(s, false)
  {
    if s != [] {
      var rest := Split(s[1..], ' ');
      InitialsScan(s[1..]);
      var ps := Split(s, ' ');
      FirstCharsTail(ps);
      FirstCharsTail(rest);
      ConcatCons(FirstChars(ps));
      if s[0] == ' ' {
        assert ps == [""] + rest;
        assert ps[1..] == rest;
      } else {
        assert ps == [[s[0]] + rest[0]] + rest[1..];
        assert ps[1..] == rest[1..];
        assert FirstChars(ps)[0] == [s[0]];
      }
    }
  }

  /**
   * The initials are the first character of every space-separated word, in
   * order; empty pieces from leading, trailing or repeated spaces add nothing.
   */
  lemma InitialsAreWordStarts(name: string)
    ensures Initials(name) == WordStarts(name, true)
  {
    InitialsScan(name);
  }

  /** A name without spaces gives its first character; the empty name gives "". */
  lemma InitialsOfOneWord(name: string)
    requires ' ' !in name
    ensures Initials(name) == if name == "" then "" else [name[0]]
  {
    SplitWithoutSeparator(name, ' ');
    assert FirstChars([name]) == [FirstChar(name)];
  }

  /** Spaces before or after the name change nothing. */
  lemma InitialsIgnoreOuterSpaces(name: string)
    ensures Initials(" " + name) == Initials(name)
    ensures Initials(name + " ") == Initials(name)
  {
    InitialsAreWordStarts(" " + name);
    InitialsAreWordStarts(name + " ");
    InitialsAreWordStarts(name);
    assert (" " + name)[1..] == name;
    TrailingSpaceAddsNothing(name, true);
  }

  /** The scan ignores one trailing space. */
  lemma {:induction false} TrailingSpaceAddsNothing(s: string, afterSpace: bool)
    ensures WordStarts(s + " ", afterSpace) == WordStarts(s, afterSpace)
  {
    if s == [] {
      assert WordStarts(" ", afterSpace) == WordStarts("", true);
    } else {
      assert (s + " ")[1..] == s[1..] + " ";
      TrailingSpaceAddsNothing(s[1..], s[0] == ' ');
    }
  }
}
