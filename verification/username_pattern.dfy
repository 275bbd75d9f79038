/** The allowed-character test `/^[a-zA-Z0-9_-]+$/.test(username)` of the
    register handler (routes/loginRoute.js, line 288). */
module UsernamePattern {

  /** The character class `[a-zA-Z0-9_-]`: ASCII letters, ASCII digits, `_` and `-`. */
  predicate InClass(c: char) {
    ('a' <= c <= 'z') || ('A' <= c <= 'Z') || ('0' <= c <= '9') || c == '_' || c == '-'
  }

  /** `[a-zA-Z0-9_-]*$`: the rest of the input, read one character at a time,
      stays inside the class until the end anchor. */
  function ClassStar(s: string): (matched: bool)
    ensures matched <==> forall i :: 0 <= i < |s| ==> InClass(s[i])
  {
    if s == [] then true
    else InClass(s[0]) && ClassStar(s[1..])
  }

  /** `^[a-zA-Z0-9_-]+$`: one class character after the start anchor, then
      `ClassStar` for the remainder. */
  function UsernameRegexTest(s: string): (matched: bool)
    ensures matched <==> |s| > 0 && forall i :: 0 <= i < |s| ==> InClass(s[i])
  {
    |s| > 0 && InClass(s[0]) && ClassStar(s[1..])
  }

  /** The usernames of `AuthProperties.ScenarioRegisterAb` and
      `AuthProperties.ScenarioRegisterBadUsername`. */
  lemma ScenarioUsernames()
    ensures UsernameRegexTest("ab")
    ensures !UsernameRegexTest("bad user!")
  {
  }
}
