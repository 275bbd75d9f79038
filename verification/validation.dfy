/** The express-validator rule lists `validateRegisterForm` and
    `validateLoginForm` (routes/loginRoute.js, lines 17-27) and the message
    list `validationResult(req).array().map(error => error.msg)` they produce. */
module Validation {

  /** The two checks the rule lists use. `isEmail` is library behaviour and
      is supplied by the caller of `Passes`. */
  datatype Check = MinLength(min: nat) | IsEmail

  /** One chain: the raw body field it reads, its check and its message. */
  datatype Rule = Rule(field: string, check: Check, message: string)

  type Body = map<string, string>

  const UsernameLengthMessage := "Username must be at least 2 characters long"
  const InvalidEmailMessage := "Invalid Email"
  const PasswordLengthMessage := "Password must be at least 8 characters long"

  const RegisterRules: seq<Rule> := [
    Rule("registerUsername", MinLength(2), UsernameLengthMessage),
    Rule("registerEmail", IsEmail, InvalidEmailMessage),
    Rule("registerPassword", MinLength(8), PasswordLengthMessage)
  ]

  const LoginRules: seq<Rule> := [
    Rule("loginEmail", IsEmail, InvalidEmailMessage)
  ]

  /** `req.body.<name>`; a missing field reads as the empty string. */
  function Field(body: Body, name: string): string {
    if name in body then body[name] else ""
  }

  /** Whether a rule accepts the RAW body field (validators never see the
      sanitised value). */
  predicate Passes(rule: Rule, body: Body, isEmail: string -> bool) {
    var v := Field(body, rule.field);
    match rule.check
    case MinLength(n) => |v| >= n
    case IsEmail => isEmail(v)
  }

  /** The messages of the failing rules, in rule order. */
  function Messages(rules: seq<Rule>, body: Body, isEmail: string -> bool): (ms: seq<string>)
    ensures |ms| <= |rules|
    ensures ms == [] <==> forall i :: 0 <= i < |rules| ==> Passes(rules[i], body, isEmail)
    ensures forall j :: 0 <= j < |ms| ==>
      exists i :: 0 <= i < |rules| && !Passes(rules[i], body, isEmail) && rules[i].message == ms[j]
  {
    if rules == [] then []
    else
      var rest := Messages(rules[1..], body, isEmail);
      assert forall i :: 1 <= i < |rules| ==> rules[i] == rules[1..][i - 1];
      if Passes(rules[0], body, isEmail) then rest else [rules[0].message] + rest
  }

  /** Every failing rule reports its message: no failing chain is dropped. */
  lemma {:induction false} FailingRuleReported(rules: seq<Rule>, body: Body, isEmail: string -> bool, k: nat)
    requires k < |rules| && !Passes(rules[k], body, isEmail)
    ensures rules[k].message in Messages(rules, body, isEmail)
  {
    if k > 0 {
      assert rules[1..][k - 1] == rules[k];
      FailingRuleReported(rules[1..], body, isEmail, k - 1);
    }
  }

  /** Rule order is message order: the messages of a concatenation of chains
      are the first chains' messages followed by the others'. */
  lemma {:induction false} MessagesAppend(first: seq<Rule>, second: seq<Rule>, body: Body, isEmail: string -> bool)
    ensures Messages(first + second, body, isEmail) == Messages(first, body, isEmail) + Messages(second, body, isEmail)
  {
    if first != [] {
      assert (first + second)[0] == first[0];
      assert (first + second)[1..] == first[1..] + second;
      MessagesAppend(first[1..], second, body, isEmail);
    } else {
      assert first + second == second;
    }
  }

  /** The register rules, written out: at most one message per field, in the
      order username, email, password. */
  lemma RegisterMessagesExplicit(body: Body, isEmail: string -> bool)
    ensures Messages(RegisterRules, body, isEmail) ==
      (if |Field(body, "registerUsername")| >= 2 then [] else [UsernameLengthMessage]) +
      (if isEmail(Field(body, "registerEmail")) then [] else [InvalidEmailMessage]) +
      (if |Field(body, "registerPassword")| >= 8 then [] else [PasswordLengthMessage])
  {
    var rs := RegisterRules;
    assert rs[1..][1..] == [rs[2]] && rs[1..][1..][1..] == [];
    assert Messages([rs[2]], body, isEmail) ==
      (if |Field(body, "registerPassword")| >= 8 then [] else [PasswordLengthMessage]);
    assert rs[1..] == [rs[1], rs[2]];
    assert Messages([rs[1], rs[2]], body, isEmail) ==
      (if isEmail(Field(body, "registerEmail")) then [] else [InvalidEmailMessage]) +
      Messages([rs[2]], body, isEmail);
  }

  /** The login rules, written out: one message, for a malformed email only. */
  lemma LoginMessagesExplicit(body: Body, isEmail: string -> bool)
    ensures Messages(LoginRules, body, isEmail) ==
      (if isEmail(Field(body, "loginEmail")) then [] else [InvalidEmailMessage])
  {
  }
}
