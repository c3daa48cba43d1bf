/** The client- and server-side form validators: e-mail shape, password rules,
    password strength, name length, and the registration and login forms. */
module Validation {
  import opened Strings
  import opened Optional

  // ---------------------------------------------------------------------------
  // E-mail: one or more characters other than white space and `@`, an `@`,
  // more such characters, a dot, and more such characters, to the end.

  /** A character other than white space and `@`. */
  predicate IsEmailChar(c: char) {
    !IsWhitespace(c) && c != '@'
  }

  /** A non-empty run of such characters. */
  predicate IsEmailAtom(x: string) {
    |x| > 0 && forall k :: 0 <= k < |x| ==> IsEmailChar(x[k])
  }

  /** The language of the e-mail pattern: a local part, `@`, a domain, `.`, a tail,
      each non-empty and free of white space and `@`. */
  ghost predicate EmailShape(s: string) {
    exists l, d, t :: IsEmailAtom(l) && IsEmailAtom(d) && IsEmailAtom(t) && s == l + "@" + d + "." + t
  }

  /** `isValidEmail`: the first `@` has text before it and none after it, a dot
      follows at least one character after the `@` and is not the last character,
      and there is no white space anywhere. */
  predicate IsValidEmail(s: string) {
    var at := IndexWhere(s, c => c == '@', 0);
    && 0 < at
    && at + 2 <= |s|
    && IndexWhere(s, c => c == '@', at + 1) == |s|
    && IndexWhere(s, c => c == '.', at + 2) < |s| - 1
    && IndexWhere(s, IsWhitespace, 0) == |s|
  }

  /** The scanner accepts exactly the strings of the pattern's language. */
  lemma {:induction false} IsValidEmailMatchesPattern(s: string)
    ensures IsValidEmail(s) <==> EmailShape(s)
  {
    if IsValidEmail(s) {
      ValidEmailHasShape(s);
    }
    if EmailShape(s) {
      var l, d, t :| IsEmailAtom(l) && IsEmailAtom(d) && IsEmailAtom(t) && s == l + "@" + d + "." + t;
      ShapedEmailIsValid(s, l, d, t);
    }
  }

  lemma {:induction false} ValidEmailHasShape(s: string)
    requires IsValidEmail(s)
    ensures EmailShape(s)
  {
    var at := IndexWhere(s, c => c == '@', 0);
    var dot := IndexWhere(s, c => c == '.', at + 2);
    var l, d, t := s[..at], s[at + 1..dot], s[dot + 1..];
    assert s == l + "@" + d + "." + t;
    assert IsEmailAtom(l);
    assert IsEmailAtom(d);
    assert IsEmailAtom(t);
  }

  lemma {:induction false} ShapedEmailIsValid(s: string, l: string, d: string, t: string)
    requires IsEmailAtom(l) && IsEmailAtom(d) && IsEmailAtom(t) && s == l + "@" + d + "." + t
    ensures IsValidEmail(s)
  {
    var at := |l|;
    var dot := |l| + 1 + |d|;
    assert s[at] == '@' && s[dot] == '.';
    assert forall k :: 0 <= k < at ==> s[k] == l[k];
    assert forall k :: at < k < dot ==> s[k] == d[k - at - 1];
    assert forall k :: dot < k < |s| ==> s[k] == t[k - dot - 1];
    assert forall k :: 0 <= k < |s| ==> !IsWhitespace(s[k]);
    assert forall k :: at < k < |s| ==> s[k] != '@';
    assert IndexWhere(s, c => c == '@', 0) == at;
    assert IndexWhere(s, c => c == '.', at + 2) <= dot;
  }

  /** A valid address holds exactly one `@` and no white space. */
  lemma {:induction false} ValidEmailHasOneAt(s: string)
    requires IsValidEmail(s)
    ensures exists i :: 0 < i < |s| - 1 && s[i] == '@' && forall k :: 0 <= k < |s| && s[k] == '@' ==> k == i
    ensures forall k :: 0 <= k < |s| ==> !IsWhitespace(s[k])
  {
    var at := IndexWhere(s, c => c == '@', 0);
    assert s[at] == '@';
  }

  // ---------------------------------------------------------------------------
  // Password rules

  const MinPasswordLength := 8

  const TooShortMessage := "Password must be at least 8 characters long"
  const NoLowercaseMessage := "Password must contain at least one lowercase letter"
  const NoUppercaseMessage := "Password must contain at least one uppercase letter"
  const NoNumberMessage := "Password must contain at least one number"

  predicate IsAsciiLower(c: char) { 'a' <= c <= 'z' }
  predicate IsAsciiUpper(c: char) { 'A' <= c <= 'Z' }
  /** An ASCII digit, the only characters the digit class matches. */
  predicate IsAsciiDigit(c: char) { '0' <= c <= '9' }
  /** Any character that is not an ASCII letter or digit. */
  predicate IsSymbol(c: char) { !IsAsciiLower(c) && !IsAsciiUpper(c) && !IsAsciiDigit(c) }

  predicate HasLowercase(p: string) { exists k | 0 <= k < |p| :: IsAsciiLower(p[k]) }
  predicate HasUppercase(p: string) { exists k | 0 <= k < |p| :: IsAsciiUpper(p[k]) }
  predicate HasDigit(p: string) { exists k | 0 <= k < |p| :: IsAsciiDigit(p[k]) }
  predicate HasSymbol(p: string) { exists k | 0 <= k < |p| :: IsSymbol(p[k]) }

  /** The four password rules, in the order they are checked. */
  datatype PasswordRule = MinLength | Lowercase | Uppercase | Number

  predicate Satisfies(p: string, rule: PasswordRule) {
    match rule
    case MinLength => |p| >= MinPasswordLength
    case Lowercase => HasLowercase(p)
    case Uppercase => HasUppercase(p)
    case Number => HasDigit(p)
  }

  function RuleMessage(rule: PasswordRule): string {
    match rule
    case MinLength => TooShortMessage
    case Lowercase => NoLowercaseMessage
    case Uppercase => NoUppercaseMessage
    case Number => NoNumberMessage
  }

  /** Position of a rule in the checking order. */
  function RuleRank(rule: PasswordRule): nat {
    match rule
    case MinLength => 0
    case Lowercase => 1
    case Uppercase => 2
    case Number => 3
  }

  /** The order in which `validatePassword` checks its rules. */
  const CheckOrder: seq<PasswordRule> := [MinLength, Lowercase, Uppercase, Number]

  /** Position of a message in the checking order; 4 for any other text. */
  function MessageRank(m: string): nat {
    if m == TooShortMessage then 0
    else if m == NoLowercaseMessage then 1
    else if m == NoUppercaseMessage then 2
    else if m == NoNumberMessage then 3
    else 4
  }

  /** The four messages are distinct, so a message names its rule. */
  lemma MessageRankOfRule(rule: PasswordRule)
    ensures MessageRank(RuleMessage(rule)) == RuleRank(rule)
  {
    assert TooShortMessage[14] != NoLowercaseMessage[14];
    assert TooShortMessage[14] != NoUppercaseMessage[14];
    assert TooShortMessage[14] != NoNumberMessage[14];
    assert NoLowercaseMessage[35] != NoUppercaseMessage[35];
    assert NoLowercaseMessage[35] != NoNumberMessage[35];
    assert NoUppercaseMessage[35] != NoNumberMessage[35];
  }

  predicate InCheckOrder(rules: seq<PasswordRule>) {
    forall i, j :: 0 <= i < j < |rules| ==> RuleRank(rules[i]) < RuleRank(rules[j])
  }

  /** The rules of `rules` that `p` breaks, kept in the order given: the sequence
      of `if (!rule) errors.push(…)` steps. */
  function BrokenRules(p: string, rules: seq<PasswordRule>): (broken: seq<PasswordRule>)
    ensures forall rule :: rule in broken <==> rule in rules && !Satisfies(p, rule)
    ensures |broken| <= |rules|
    ensures InCheckOrder(rules) ==> InCheckOrder(broken)
  {
    if rules == [] then []
    else
      var rest := BrokenRules(p, rules[1..]);
      assert InCheckOrder(rules) ==> InCheckOrder(rules[1..]);
      assert InCheckOrder(rules) ==> forall x :: x in rest ==> RuleRank(rules[0]) < RuleRank(x) by {
        if InCheckOrder(rules) {
          forall x | x in rest
            ensures RuleRank(rules[0]) < RuleRank(x)
          {
            var j :| 0 <= j < |rules[1..]| && rules[1..][j] == x;
            assert rules[j + 1] == x;
          }
        }
      }
      if Satisfies(p, rules[0]) then rest
      else
        assert forall i :: 0 < i < |rest| + 1 ==> ([rules[0]] + rest)[i] in rest;
        [rules[0]] + rest
  }

  /** The messages of a list of rules, one for one. */
  function Messages(rules: seq<PasswordRule>): (ms: seq<string>)
    ensures |ms| == |rules|
    ensures forall i :: 0 <= i < |ms| ==> ms[i] == RuleMessage(rules[i])
  {
    seq(|rules|, i requires 0 <= i < |rules| => RuleMessage(rules[i]))
  }

  /** Distinct rules have distinct messages. */
  lemma RuleMessageInjective(a: PasswordRule, b: PasswordRule)
    ensures RuleMessage(a) == RuleMessage(b) ==> a == b
  {
    MessageRankOfRule(a);
    MessageRankOfRule(b);
  }

  lemma {:induction false} MessagesMembership(rules: seq<PasswordRule>, rule: PasswordRule)
    ensures RuleMessage(rule) in Messages(rules) <==> rule in rules
  {
    var ms := Messages(rules);
    if RuleMessage(rule) in ms {
      var i :| 0 <= i < |ms| && ms[i] == RuleMessage(rule);
      RuleMessageInjective(rule, rules[i]);
    }
    if rule in rules {
      var i :| 0 <= i < |rules| && rules[i] == rule;
      assert ms[i] == RuleMessage(rule);
    }
  }

  lemma {:induction false} MessagesInOrder(rules: seq<PasswordRule>)
    requires InCheckOrder(rules)
    ensures forall i, j :: 0 <= i < j < |rules| ==> MessageRank(Messages(rules)[i]) < MessageRank(Messages(rules)[j]) < 4
  {
    forall i, j | 0 <= i < j < |rules|
      ensures MessageRank(Messages(rules)[i]) < MessageRank(Messages(rules)[j]) < 4
    {
      MessageRankOfRule(rules[i]);
      MessageRankOfRule(rules[j]);
    }
  }

  predicate MeetsPasswordRules(p: string) {
    |p| >= MinPasswordLength && HasLowercase(p) && HasUppercase(p) && HasDigit(p)
  }

  datatype PasswordCheck = PasswordCheck(isValid: bool, errors: seq<string>)

  /** `validatePassword`: one message per broken rule, in checking order. */
  function ValidatePassword(p: string): (r: PasswordCheck)
    ensures r.isValid <==> r.errors == []
    ensures r.isValid <==> MeetsPasswordRules(p)
    ensures |r.errors| <= 4
    ensures forall rule :: RuleMessage(rule) in r.errors <==> !Satisfies(p, rule)
    ensures forall i, j :: 0 <= i < j < |r.errors| ==> MessageRank(r.errors[i]) < MessageRank(r.errors[j]) < 4
  {
    var broken := BrokenRules(p, CheckOrder);
    assert forall rule :: rule in CheckOrder by {
      forall rule
        ensures rule in CheckOrder
      {
        assert CheckOrder[RuleRank(rule)] == rule;
      }
    }
    assert InCheckOrder(CheckOrder);
    assert broken == [] <==> MeetsPasswordRules(p) by {
      assert MeetsPasswordRules(p)
        <==> Satisfies(p, MinLength) && Satisfies(p, Lowercase) && Satisfies(p, Uppercase) && Satisfies(p, Number);
      if broken != [] {
        assert broken[0] in broken;
      }
    }
    var errors := Messages(broken);
    forall rule
      ensures RuleMessage(rule) in errors <==> !Satisfies(p, rule)
    {
      MessagesMembership(broken, rule);
    }
    MessagesInOrder(broken);
    PasswordCheck(|errors| == 0, errors)
  }

  // ---------------------------------------------------------------------------
  // Password strength

  /** The five criteria `getPasswordStrength` scores, one point each. */
  datatype Criterion = LongEnough | HasLower | HasUpper | HasNumber | HasOther

  const StrengthCriteria: seq<Criterion> := [LongEnough, HasLower, HasUpper, HasNumber, HasOther]

  predicate Meets(p: string, c: Criterion) {
    match c
    case LongEnough => |p| >= MinPasswordLength
    case HasLower => HasLowercase(p)
    case HasUpper => HasUppercase(p)
    case HasNumber => HasDigit(p)
    case HasOther => HasSymbol(p)
  }

  /** The criteria a password meets. */
  ghost function MetCriteria(p: string): set<Criterion> {
    set c | c in StrengthCriteria && Meets(p, c)
  }

  predicate NoDuplicates(cs: seq<Criterion>) {
    forall i, j :: 0 <= i < j < |cs| ==> cs[i] != cs[j]
  }

  /** One point per criterion of `cs` that `p` meets: the `if (…) score++` steps. */
  function CountMet(p: string, cs: seq<Criterion>): (n: nat)
    requires NoDuplicates(cs)
    ensures n == |set c | c in cs && Meets(p, c)|
    ensures n <= |cs|
  {
    if cs == [] then 0
    else
      var rest := CountMet(p, cs[1..]);
      var tail := set c | c in cs[1..] && Meets(p, c);
      var all := set c | c in cs && Meets(p, c);
      assert cs[0] !in tail;
      if Meets(p, cs[0]) then
        assert all == {cs[0]} + tail;
        1 + rest
      else
        assert all == tail;
        rest
  }

  function Score(p: string): (score: nat)
    ensures score == |MetCriteria(p)|
    ensures score <= 5
  {
    CountMet(p, StrengthCriteria)
  }

  /** A non-empty password meets at least one criterion: its first character is a
      lower-case letter, an upper-case letter, a digit or something else. */
  lemma {:induction false} NonEmptyPasswordScores(p: string)
    ensures Score(p) == 0 <==> p == []
  {
    if p != [] {
      var ch := p[0];
      var c := if IsAsciiLower(ch) then HasLower
               else if IsAsciiUpper(ch) then HasUpper
               else if IsAsciiDigit(ch) then HasNumber
               else HasOther;
      assert Meets(p, c);
      assert c in MetCriteria(p);
    } else {
      assert MetCriteria(p) == {};
    }
  }

  datatype Strength = Strength(level: nat, text: string, color: string, score: nat)

  /** The label and colour shown for each level, indexed by level. */
  const StrengthLabels: seq<(string, string)> := [
    ("", ""),
    ("Weak", "text-red-500"),
    ("Fair", "text-yellow-500"),
    ("Good", "text-blue-500"),
    ("Strong", "text-green-500")
  ]

  /** `getPasswordStrength`: a score of met criteria and a level with its label. */
  function GetPasswordStrength(p: string): (r: Strength)
    ensures r.score == |MetCriteria(p)| && r.score <= 5
    ensures r.level == (if r.score == 0 then 0 else if r.score <= 2 then 1 else r.score - 1)
    ensures r.level <= 4
    ensures r.level == 0 <==> p == []
    ensures (r.text, r.color) == StrengthLabels[r.level]
  {
    var score := Score(p);
    NonEmptyPasswordScores(p);
    if score == 0 || |p| == 0 then Strength(0, "", "", score)
    else if score <= 2 then Strength(1, "Weak", "text-red-500", score)
    else if score == 3 then Strength(2, "Fair", "text-yellow-500", score)
    else if score == 4 then Strength(3, "Good", "text-blue-500", score)
    else Strength(4, "Strong", "text-green-500", score)
  }

  /** A higher score never gives a lower level. */
  lemma StrengthLevelMonotone(p: string, q: string)
    requires Score(p) <= Score(q)
    ensures GetPasswordStrength(p).level <= GetPasswordStrength(q).level
  {
  }

  /** A password that passes `validatePassword` is at least "Good". */
  lemma {:induction false} ValidPasswordIsAtLeastGood(p: string)
    requires ValidatePassword(p).isValid
    ensures GetPasswordStrength(p).level >= 3
  {
    assert {LongEnough, HasLower, HasUpper, HasNumber} <= MetCriteria(p);
    assert |{LongEnough, HasLower, HasUpper, HasNumber}| == 4;
    SubsetCardinality({LongEnough, HasLower, HasUpper, HasNumber}, MetCriteria(p));
  }

  /** A "Strong" password passes `validatePassword`. */
  lemma {:induction false} StrongPasswordIsValid(p: string)
    requires GetPasswordStrength(p).level == 4
    ensures ValidatePassword(p).isValid
  {
    assert MetCriteria(p) <= {LongEnough, HasLower, HasUpper, HasNumber, HasOther};
    if !MeetsPasswordRules(p) {
      var missing := if |p| < MinPasswordLength then LongEnough
                     else if !HasLowercase(p) then HasLower
                     else if !HasUppercase(p) then HasUpper
                     else HasNumber;
      assert MetCriteria(p) <= {LongEnough, HasLower, HasUpper, HasNumber, HasOther} - {missing};
      SubsetCardinality(MetCriteria(p), {LongEnough, HasLower, HasUpper, HasNumber, HasOther} - {missing});
    }
  }

  lemma SubsetCardinality<T>(a: set<T>, b: set<T>)
    requires a <= b
    ensures |a| <= |b|
  {
    assert b == a + (b - a);
  }

  // ---------------------------------------------------------------------------
  // Name

  const MinNameLength := 2

  /** `isValidName`: at least two characters remain after trimming. */
  predicate IsValidName(name: string) {
    |Trim(name)| >= MinNameLength
  }

  /** A name is valid exactly when it holds two non-white-space characters. */
  lemma {:induction false} IsValidNameIff(name: string)
    ensures IsValidName(name)
        <==> exists i, j :: 0 <= i < j < |name| && !IsWhitespace(name[i]) && !IsWhitespace(name[j])
  {
    var t := Trim(name);
    var a :| 0 <= a <= |name| - |t| && t == name[a..a + |t|]
             && AllWhitespace(name[..a]) && AllWhitespace(name[a + |t|..]);
    if IsValidName(name) {
      assert name[a] == t[0] && name[a + |t| - 1] == t[|t| - 1];
    }
    assert forall k :: 0 <= k < a ==> IsWhitespace(name[k]) by {
      forall k | 0 <= k < a
        ensures IsWhitespace(name[k])
      {
        assert name[..a][k] == name[k];
      }
    }
    assert forall k :: a + |t| <= k < |name| ==> IsWhitespace(name[k]) by {
      forall k | a + |t| <= k < |name|
        ensures IsWhitespace(name[k])
      {
        assert name[a + |t|..][k - a - |t|] == name[k];
      }
    }
  }

  // ---------------------------------------------------------------------------
  // Forms

  const NameMessage := "Name must be at least 2 characters long"
  const InvalidEmailMessage := "Please enter a valid email address"
  const MismatchMessage := "Passwords do not match"
  const TermsMessage := "You must accept the terms and conditions"
  const EmailRequiredMessage := "Email is required"
  const PasswordRequiredMessage := "Password is required"

  datatype Registration = Registration(name: string, email: string, password: string, confirmPassword: string, acceptedTerms: bool)
  datatype LoginAttempt = LoginAttempt(email: string, password: string)

  function KeyCount<T>(field: Option<T>): nat {
    if field.Some? then 1 else 0
  }

  /** The error object of the registration form: a message per failing field,
      absent keys for fields that pass. */
  datatype RegistrationErrors = RegistrationErrors(
    name: Option<string>,
    email: Option<string>,
    password: Option<string>,
    confirmPassword: Option<string>,
    terms: Option<string>)
  {
    /** `Object.keys(errors).length` */
    function Count(): nat {
      KeyCount(name) + KeyCount(email) + KeyCount(password) + KeyCount(confirmPassword) + KeyCount(terms)
    }
  }

  datatype RegistrationResult = RegistrationResult(isValid: bool, errors: RegistrationErrors)

  /** `validateRegistrationForm`: one error per failing field, the password field
      showing the first message of `validatePassword`; valid when no key is set. */
  function ValidateRegistrationForm(data: Registration): (r: RegistrationResult)
    ensures r.isValid <==> r.errors == RegistrationErrors(None, None, None, None, None)
    ensures r.errors.name.Some? <==> !IsValidName(data.name)
    ensures r.errors.email.Some? <==> !IsValidEmail(data.email)
    ensures r.errors.password.Some? <==> !MeetsPasswordRules(data.password)
    ensures r.errors.confirmPassword.Some? <==> data.password != data.confirmPassword
    ensures r.errors.terms.Some? <==> !data.acceptedTerms
    ensures r.errors.name.Some? ==> r.errors.name.value == NameMessage
    ensures r.errors.email.Some? ==> r.errors.email.value == InvalidEmailMessage
    ensures r.errors.password.Some? ==> r.errors.password.value == ValidatePassword(data.password).errors[0]
    ensures r.errors.confirmPassword.Some? ==> r.errors.confirmPassword.value == MismatchMessage
    ensures r.errors.terms.Some? ==> r.errors.terms.value == TermsMessage
  {
    var check := ValidatePassword(data.password);
    var errors := RegistrationErrors(
      if !IsValidName(data.name) then Some(NameMessage) else None,
      if !IsValidEmail(data.email) then Some(InvalidEmailMessage) else None,
      if !check.isValid then Some(check.errors[0]) else None,
      if data.password != data.confirmPassword then Some(MismatchMessage) else None,
      if !data.acceptedTerms then Some(TermsMessage) else None);
    RegistrationResult(errors.Count() == 0, errors)
  }

  /** The registration form is valid exactly when every field meets its rule. */
  lemma {:induction false} RegistrationValidIff(data: Registration)
    ensures ValidateRegistrationForm(data).isValid
        <==> (&& IsValidName(data.name)
              && EmailShape(data.email)
              && MeetsPasswordRules(data.password)
              && data.password == data.confirmPassword
              && data.acceptedTerms)
  {
    IsValidEmailMatchesPattern(data.email);
  }

  /** The first rule `p` breaks, in checking order. */
  function FirstBrokenRule(p: string): PasswordRule
    requires !MeetsPasswordRules(p)
  {
    if |p| < MinPasswordLength then MinLength
    else if !HasLowercase(p) then Lowercase
    else if !HasUppercase(p) then Uppercase
    else Number
  }

  /** The first message of `validatePassword` is that of the first broken rule. */
  lemma {:induction false} FirstPasswordError(p: string)
    requires !MeetsPasswordRules(p)
    ensures ValidatePassword(p).errors != []
    ensures ValidatePassword(p).errors[0] == RuleMessage(FirstBrokenRule(p))
  {
    var errors := ValidatePassword(p).errors;
    var first := FirstBrokenRule(p);
    assert RuleMessage(first) in errors;
    MessageRankOfRule(first);
    var m := errors[0];
    assert m in errors;
    var r0 := if MessageRank(m) == 0 then MinLength
              else if MessageRank(m) == 1 then Lowercase
              else if MessageRank(m) == 2 then Uppercase
              else Number;
    assert m == RuleMessage(r0);
    assert !Satisfies(p, r0);
    MessageRankOfRule(r0);
    assert RuleRank(first) <= RuleRank(r0);
    var k :| 0 <= k < |errors| && errors[k] == RuleMessage(first);
    if k > 0 {
      assert MessageRank(m) < MessageRank(errors[k]);
    }
  }

  /** The password error of the registration form names the first rule broken. */
  lemma {:induction false} RegistrationPasswordMessage(data: Registration)
    requires !MeetsPasswordRules(data.password)
    ensures ValidateRegistrationForm(data).errors.password
         == Some(var p := data.password;
                 if |p| < MinPasswordLength then TooShortMessage
                 else if !HasLowercase(p) then NoLowercaseMessage
                 else if !HasUppercase(p) then NoUppercaseMessage
                 else NoNumberMessage)
  {
    FirstPasswordError(data.password);
  }

  /** The error object of the login form. */
  datatype LoginErrors = LoginErrors(email: Option<string>, password: Option<string>) {
    /** `Object.keys(errors).length` */
    function Count(): nat {
      KeyCount(email) + KeyCount(password)
    }
  }

  datatype LoginResult = LoginResult(isValid: bool, errors: LoginErrors)

  /** `validateLoginForm`: an empty e-mail is "required", otherwise it must be well
      formed; an empty password is "required". */
  function ValidateLoginForm(data: LoginAttempt): (r: LoginResult)
    ensures r.isValid <==> r.errors == LoginErrors(None, None)
    ensures r.errors.email.Some? <==> !IsValidEmail(data.email)
    ensures data.email == "" ==> r.errors.email == Some(EmailRequiredMessage)
    ensures data.email != "" && r.errors.email.Some? ==> r.errors.email.value == InvalidEmailMessage
    ensures r.errors.password.Some? <==> data.password == ""
    ensures r.errors.password.Some? ==> r.errors.password.value == PasswordRequiredMessage
  {
    var email :=
      if data.email == "" then Some(EmailRequiredMessage)
      else if !IsValidEmail(data.email) then Some(InvalidEmailMessage)
      else None;
    var password := if data.password == "" then Some(PasswordRequiredMessage) else None;
    var errors := LoginErrors(email, password);
    LoginResult(errors.Count() == 0, errors)
  }

  /** The login form is valid exactly when the e-mail has the pattern's shape
      and a password was given. */
  lemma {:induction false} LoginValidIff(data: LoginAttempt)
    ensures ValidateLoginForm(data).isValid <==> EmailShape(data.email) && data.password != ""
  {
    IsValidEmailMatchesPattern(data.email);
  }
}
