/**
 * `TypingIndicatorComponent`
 * (src/app/ui/chat/typing-indicator/typing-indicator.component.ts): the
 * sentence naming who is typing.
 */
module TypingIndicator {
  import opened Wrappers
  import opened JsString

  const Suffix := " typing..."

  /** The sentence around already-joined names, with "is" or "are". */
  function Sentence(names: string, single: bool): string
  {
    names + " " + (if single then "is" else "are") + Suffix
  }

  /** `getUsersText`. */
  function UsersText(users: seq<string>): string
  {
    Sentence(Join(users, ", "), |users| == 1)
  }

  /** The parts of a sentence: the names first, the verb, and " typing..." last. */
  lemma SentenceParts(names: string, single: bool)
    ensures var r := Sentence(names, single);
      |r| == |names| + (if single then 13 else 14)
      && r[..|names|] == names && r[|r| - |Suffix|..] == Suffix
      && r == names + (if single then " is" else " are") + Suffix
  {
  }

  /** The sentence starts with the names joined by ", " and always ends with " typing...". */
  lemma UsersTextFrame(users: seq<string>)
    ensures var r, j := UsersText(users), Join(users, ", ");
      |r| > |j| + |Suffix| && r[..|j|] == j && r[|r| - |Suffix|..] == Suffix
  {
  }

  /** The verb is "is" exactly when one user is typing, "are" otherwise. */
  lemma VerbIsIffOneUser(users: seq<string>)
    ensures UsersText(users) == Join(users, ", ") + " is" + Suffix <==> |users| == 1
    ensures UsersText(users) == Join(users, ", ") + " are" + Suffix <==> |users| != 1
  {
    var j := Join(users, ", ");
    SentenceParts(j, |users| == 1);
    assert |j + " is" + Suffix| == |j| + 13;
    assert |j + " are" + Suffix| == |j| + 14;
  }

  /** Concrete shapes: one user, and a list that grows by one name. */
  lemma UsersTextShapes(u: string, users: seq<string>, v: string)
    requires users != []
    ensures UsersText([u]) == u + " is typing..."
    ensures UsersText(users + [v]) == Join(users, ", ") + ", " + v + " are typing..."
  {
    JoinSnoc(users, v, ", ");
    SentenceParts(u, true);
    SentenceParts(Join(users, ", ") + ", " + v, false);
  }

  /** The `*ngIf="users.length > 0"` around the sentence: nothing is shown for nobody. */
  function Rendered(users: seq<string>): (r: Option<string>)
    ensures r.Some? <==> |users| > 0
    ensures r.Some? ==> r.value == UsersText(users)
  {
    if |users| > 0 then Some(UsersText(users)) else None
  }
}
