/** The validation gate (src/utils/validator.ts): eight intrinsic field
    checks and the customer's own rules, all evaluated, every violation
    reported. */
module Validator {
  import opened JsText
  import opened JsValues
  import opened Config

  // ---------------------------------------------------------------------------
  // Field predicates

  /** isValidFullName: a string whose trimmed form splits on " " into at
      least two pieces. */
  predicate IsValidFullName(v: Value) {
    v.Str? && |Split(Trim(v.s), ' ')| >= 2
  }

  /** A name is valid exactly when a space is left after trimming. */
  lemma FullNameIff(s: string)
    ensures IsValidFullName(Str(s)) <==> ' ' in Trim(s)
  {
    SplitPiecesIff(Trim(s), ' ');
  }

  /** A space survives trimming exactly when some space of the input has a
      non-whitespace character on each side of it. */
  predicate HasInnerSpace(s: string) {
    exists a, i, b :: 0 <= a < i < b < |s| && s[i] == ' ' && !IsWhitespace(s[a]) && !IsWhitespace(s[b])
  }

  /** A space inside a window with only whitespace around it and other
      characters at its ends has a non-whitespace character on each side. */
  lemma WindowSpaceIsInner(s: string, start: nat, r: string)
    requires TrimmedWindow(s, start, r)
    requires ' ' in r
    ensures HasInnerSpace(s)
  {
    var k :| 0 <= k < |r| && r[k] == ' ';
    assert s[start + k] == r[k];
    assert s[start] == r[0] && s[start + |r| - 1] == r[|r| - 1];
    assert 0 <= start < start + k < start + |r| - 1 < |s|;
  }

  lemma TrimmedSpaceIsInner(s: string)
    requires ' ' in Trim(s)
    ensures HasInnerSpace(s)
  {
    TrimWindow(s);
    WindowSpaceIsInner(s, TrimOffset(s), Trim(s));
  }

  /** Such a window also keeps every space that has a non-whitespace
      character on each side. */
  lemma WindowKeepsInnerSpace(s: string, start: nat, r: string)
    requires TrimmedWindow(s, start, r)
    requires HasInnerSpace(s)
    ensures ' ' in r
  {
    var a, i, b :| 0 <= a < i < b < |s| && s[i] == ' ' && !IsWhitespace(s[a]) && !IsWhitespace(s[b]);
    assert start <= a;
    assert b < start + |r|;
    assert r[i - start] == s[i];
  }

  lemma InnerSpaceSurvivesTrim(s: string)
    requires HasInnerSpace(s)
    ensures ' ' in Trim(s)
  {
    TrimWindow(s);
    WindowKeepsInnerSpace(s, TrimOffset(s), Trim(s));
  }

  lemma TrimKeepsInnerSpace(s: string)
    ensures ' ' in Trim(s) <==> HasInnerSpace(s)
  {
    if ' ' in Trim(s) {
      TrimmedSpaceIsInner(s);
    }
    if HasInnerSpace(s) {
      InnerSpaceSurvivesTrim(s);
    }
  }

  /** isNonEmpty: a string with something other than whitespace in it. */
  predicate IsNonEmpty(v: Value) {
    v.Str? && |Trim(v.s)| > 0
  }

  lemma NonEmptyIff(v: Value)
    ensures IsNonEmpty(v) <==> v.Str? && exists i :: 0 <= i < |v.s| && !IsWhitespace(v.s[i])
  {
    if v.Str? {
      TrimEmptyIff(v.s);
    }
  }

  /** isValidBoolean: typeof value === "boolean". */
  predicate IsValidBoolean(v: Value) {
    v.Bool?
  }

  /** isValidCreditScore: a number from 300 to 850, both ends included. */
  predicate IsValidCreditScore(v: Value) {
    v.Num? && 300.0 <= v.n <= 850.0
  }

  /** The bounds are inclusive, and a numeric string is not a number. */
  lemma CreditScoreBounds()
    ensures IsValidCreditScore(Num(300.0)) && IsValidCreditScore(Num(850.0))
    ensures !IsValidCreditScore(Num(299.0)) && !IsValidCreditScore(Num(851.0))
    ensures !IsValidCreditScore(Str("720"))
  {
  }

  // The three regular-expression checks apply RegExp.prototype.test, which
  // converts its argument with String(...) first. A number StringForm does not
  // render prints with a '.' or an exponent: no such text has an '@', has the
  // '.'-free octets of an address or fits the phone class, so the checks treat
  // it as failing.

  /** The class [^\s@]. */
  predicate EmailChar(c: char) {
    !IsWhitespace(c) && c != '@'
  }

  /** /^[^\s@]+@[^\s@]+\.[^\s@]+$/ on a string: one '@' with something before
      it, and after it a '.' with something on both sides; no whitespace. */
  predicate IsEmailText(s: string) {
    '@' in s &&
    var i := IndexOf(s, '@');
    var domain := s[i + 1..];
    i > 0 && (forall k :: 0 <= k < i ==> EmailChar(s[k]))
    && (forall k :: 0 <= k < |domain| ==> EmailChar(domain[k]))
    && (exists j :: 0 < j < |domain| - 1 && domain[j] == '.')
  }

  /** isValidEmail. */
  predicate IsValidEmail(v: Value) {
    var t := StringForm(v);
    t.Some? && IsEmailText(t.value)
  }

  /** The shape the regular expression describes, by positions: an '@' at i
      and a '.' at j with at least one character before i, between them and
      after j, and every other character outside \s and '@'. */
  predicate EmailShape(s: string, i: int, j: int) {
    0 < i && i + 1 < j < |s| - 1 && s[i] == '@' && s[j] == '.'
    && (forall k :: 0 <= k < |s| && k != i ==> EmailChar(s[k]))
  }

  /** isValidEmail holds exactly for the strings with that shape: there is
      exactly one '@', text before it, and a dot inside the domain. */
  lemma EmailIff(s: string)
    ensures IsEmailText(s) <==> exists i, j :: EmailShape(s, i, j)
  {
    if IsEmailText(s) {
      var i := IndexOf(s, '@');
      var domain := s[i + 1..];
      var j :| 0 < j < |domain| - 1 && domain[j] == '.';
      assert forall k :: i < k < |s| ==> s[k] == domain[k - i - 1];
      assert EmailShape(s, i, i + 1 + j);
    }
    if exists i, j :: EmailShape(s, i, j) {
      var i, j :| EmailShape(s, i, j);
      assert s[i] == '@';
      var f := IndexOf(s, '@');
      assert !EmailChar(s[f]);
      assert f == i;
      var domain := s[i + 1..];
      assert domain[j - i - 1] == '.';
      assert forall k :: 0 <= k < |domain| ==> domain[k] == s[i + 1 + k];
    }
  }

  /** The class [0-9\-+\s()]. */
  predicate PhoneChar(c: char) {
    IsDigit(c) || c == '-' || c == '+' || IsWhitespace(c) || c == '(' || c == ')'
  }

  /** isValidPhoneNumber: /^[0-9\-+\s()]{7,20}$/, seven to twenty characters
      from the phone class. */
  predicate IsValidPhoneNumber(v: Value) {
    var t := StringForm(v);
    t.Some? && 7 <= |t.value| <= 20 && forall k :: 0 <= k < |t.value| ==> PhoneChar(t.value[k])
  }

  /** A string of digits alone is a phone number from seven to twenty of
      them, and never with a character outside the class appended. */
  lemma PhoneDigits(s: string, c: char)
    requires AllDigits(s)
    ensures IsValidPhoneNumber(Str(s)) <==> 7 <= |s| <= 20
    ensures !PhoneChar(c) ==> !IsValidPhoneNumber(Str(s + [c]))
  {
    if !PhoneChar(c) {
      assert (s + [c])[|s|] == c;
    }
  }

  /** A non-negative integer passes as a phone number exactly when it prints
      with seven to twenty digits. */
  lemma PhoneDigitsNumber(n: nat)
    ensures IsValidPhoneNumber(Num(n as real)) <==> n < 1000000000000000000000 && 7 <= |NatToString(n)| <= 20
  {
    assert (n as real).Floor == n;
    if n < 1000000000000000000000 {
      assert StringForm(Num(n as real)) == Some(NatToString(n));
      PhoneDigits(NatToString(n), '0');
    }
  }

  /** One alternative of (25[0-5]|2[0-4]\d|1\d\d|[1-9]?\d). */
  predicate OctetPattern(p: string) {
    (|p| == 1 && IsDigit(p[0]))
    || (|p| == 2 && '1' <= p[0] <= '9' && IsDigit(p[1]))
    || (|p| == 3 && p[0] == '1' && IsDigit(p[1]) && IsDigit(p[2]))
    || (|p| == 3 && p[0] == '2' && '0' <= p[1] <= '4' && IsDigit(p[2]))
    || (|p| == 3 && p[0] == '2' && p[1] == '5' && '0' <= p[2] <= '5')
  }

  /** isValidIPAddress: four dot-separated octets. Octets contain no '.', so
      the pattern's split points are exactly the dots. */
  predicate IsIPText(s: string) {
    var parts := Split(s, '.');
    |parts| == 4 && forall k :: 0 <= k < 4 ==> OctetPattern(parts[k])
  }

  predicate IsValidIPAddress(v: Value) {
    var t := StringForm(v);
    t.Some? && IsIPText(t.value)
  }

  lemma OctetValueBound(p: string)
    requires OctetPattern(p)
    ensures AllDigits(p) && DigitsValue(p) <= 255
    ensures |p| > 1 ==> p[0] != '0'
  {
    assert forall k :: 0 <= k < |p| ==> IsDigit(p[k]);
    DigitsValueShort(p);
  }

  /** The value of a digit string of one to three digits, digit by digit. */
  lemma DigitsValueShort(p: string)
    requires 1 <= |p| <= 3 && AllDigits(p)
    ensures |p| == 1 ==> DigitsValue(p) == DigitValue(p[0])
    ensures |p| == 2 ==> DigitsValue(p) == DigitValue(p[0]) * 10 + DigitValue(p[1])
    ensures |p| == 3 ==> DigitsValue(p) == DigitValue(p[0]) * 100 + DigitValue(p[1]) * 10 + DigitValue(p[2])
  {
    assert p[..1][..0] == [];
    assert DigitsValue(p[..1]) == DigitValue(p[0]);
    if |p| >= 2 {
      assert p[..2][..1] == p[..1];
      assert DigitsValue(p[..2]) == DigitValue(p[0]) * 10 + DigitValue(p[1]);
    }
    if |p| == 3 {
      assert p[..|p| - 1] == p[..2];
    }
  }

  lemma OctetOfSmallNumber(n: nat)
    requires n <= 255
    ensures OctetPattern(NatToString(n))
  {
    var p := NatToString(n);
    if n >= 100 {
      var front := NatToString(n / 10);
      assert p == front + [DigitChar(n % 10)];
      assert front == NatToString(n / 100) + [DigitChar(n / 10 % 10)];
      assert NatToString(n / 100) == [DigitChar(n / 100)];
      assert p == [DigitChar(n / 100), DigitChar(n / 10 % 10), DigitChar(n % 10)];
    } else if n >= 10 {
      assert p == NatToString(n / 10) + [DigitChar(n % 10)];
      assert NatToString(n / 10) == [DigitChar(n / 10)];
    }
  }

  /** An octet is exactly the decimal form of a number from 0 to 255: no sign,
      no leading zero, nothing above 255. */
  lemma OctetIff(p: string)
    ensures OctetPattern(p) <==> exists n :: 0 <= n <= 255 && p == NatToString(n)
  {
    if OctetPattern(p) {
      OctetValueBound(p);
      CanonicalDigits(p);
      assert p == NatToString(DigitsValue(p));
    }
    if exists n :: 0 <= n <= 255 && p == NatToString(n) {
      var n :| 0 <= n <= 255 && p == NatToString(n);
      OctetOfSmallNumber(n);
    }
  }

  /** The dotted-decimal text of four numbers. */
  function Dotted(a: nat, b: nat, c: nat, d: nat): string
  {
    Join([NatToString(a), NatToString(b), NatToString(c), NatToString(d)], '.')
  }

  lemma DigitsLackDot(s: string)
    requires AllDigits(s)
    ensures '.' !in s
  {
    assert forall i :: 0 <= i < |s| ==> IsDigit(s[i]);
  }

  /** Four numbers from 0 to 255 whose dotted-decimal text is s. */
  predicate IsDottedQuad(s: string) {
    exists a, b, c, d :: a <= 255 && b <= 255 && c <= 255 && d <= 255 && s == Dotted(a, b, c, d)
  }

  /** Four octets joined with dots are the dotted-decimal text of their
      values. */
  lemma OctetsAreDotted(parts: seq<string>)
    requires |parts| == 4
    requires forall k :: 0 <= k < 4 ==> OctetPattern(parts[k])
    ensures IsDottedQuad(Join(parts, '.'))
  {
    OctetIff(parts[0]);
    OctetIff(parts[1]);
    OctetIff(parts[2]);
    OctetIff(parts[3]);
    var a :| 0 <= a <= 255 && parts[0] == NatToString(a);
    var b :| 0 <= b <= 255 && parts[1] == NatToString(b);
    var c :| 0 <= c <= 255 && parts[2] == NatToString(c);
    var d :| 0 <= d <= 255 && parts[3] == NatToString(d);
    assert parts == [NatToString(a), NatToString(b), NatToString(c), NatToString(d)];
    assert Join(parts, '.') == Dotted(a, b, c, d);
  }

  lemma IPTextIsDottedQuad(s: string)
    requires IsIPText(s)
    ensures IsDottedQuad(s)
  {
    JoinSplit(s, '.');
    OctetsAreDotted(Split(s, '.'));
  }

  /** Four octets joined with dots make a valid address text. */
  lemma JoinedOctets(pieces: seq<string>)
    requires |pieces| == 4
    requires forall k :: 0 <= k < 4 ==> OctetPattern(pieces[k]) && '.' !in pieces[k]
    ensures IsIPText(Join(pieces, '.'))
  {
    SplitJoin(pieces, '.');
  }

  lemma DottedQuadIsIPText(s: string)
    requires IsDottedQuad(s)
    ensures IsIPText(s)
  {
    var a, b, c, d :| a <= 255 && b <= 255 && c <= 255 && d <= 255 && s == Dotted(a, b, c, d);
    var pa, pb, pc, pd := NatToString(a), NatToString(b), NatToString(c), NatToString(d);
    OctetOfSmallNumber(a);
    OctetOfSmallNumber(b);
    OctetOfSmallNumber(c);
    OctetOfSmallNumber(d);
    DigitsLackDot(pa);
    DigitsLackDot(pb);
    DigitsLackDot(pc);
    DigitsLackDot(pd);
    JoinedOctets([pa, pb, pc, pd]);
  }

  /** isValidIPAddress holds exactly for the dotted-decimal text of four
      numbers from 0 to 255, each written without leading zeros. */
  lemma IPIff(s: string)
    ensures IsIPText(s) <==> IsDottedQuad(s)
  {
    if IsIPText(s) {
      IPTextIsDottedQuad(s);
    }
    if IsDottedQuad(s) {
      DottedQuadIsIPText(s);
    }
  }

  // ---------------------------------------------------------------------------
  // validateSubmission

  /** The eight intrinsic checks, in the order they are applied. */
  const CheckCount := 8

  /** The message of each intrinsic check. */
  const CheckMessages: seq<string> := [
    // One message, written as two literals: the verifier reads the
    // characters of a short literal but not of one this long.
    "Invalid personalName." + " Must include at least first and last name.",
    "Invalid dateOfBirth or user is under 18.",
    "Invalid emailAddress.",
    "Invalid phoneNumber.",
    "creditScore must be between 300 and 850.",
    "customerID is required.",
    "consentGiven must be true or false.",
    "Invalid ipAddress format."
  ]

  /** Whether intrinsic check k passes. `isValidDob` stands for isValidDOB,
      which reads the clock. */
  predicate CheckPasses(form: Submission, k: nat, isValidDob: Value -> bool)
  {
    if k == 0 then IsValidFullName(FieldValue(form, "personalName"))
    else if k == 1 then isValidDob(FieldValue(form, "dateOfBirth"))
    else if k == 2 then IsValidEmail(FieldValue(form, "emailAddress"))
    else if k == 3 then IsValidPhoneNumber(FieldValue(form, "phoneNumber"))
    else if k == 4 then IsValidCreditScore(FieldValue(form, "creditScore"))
    else if k == 5 then IsNonEmpty(FieldValue(form, "customerID"))
    else if k == 6 then IsValidBoolean(FieldValue(form, "consentGiven"))
    else IsValidIPAddress(FieldValue(form, "ipAddress"))
  }

  /** The outcome of each intrinsic check, in order. */
  function CheckResults(form: Submission, isValidDob: Value -> bool): (r: seq<bool>)
    ensures |r| == CheckCount
    ensures forall k :: 0 <= k < CheckCount ==> r[k] == CheckPasses(form, k, isValidDob)
  {
    seq(CheckCount, k requires 0 <= k < CheckCount => CheckPasses(form, k, isValidDob))
  }

  /** The messages of the failing checks among the first `count` outcomes,
      in order. */
  function FailedChecks(results: seq<bool>, count: nat): seq<string>
    requires count <= |results| <= CheckCount
  {
    if count == 0 then []
    else
      FailedChecks(results, count - 1)
      + (if results[count - 1] then [] else [CheckMessages[count - 1]])
  }

  /** The message a failing customer rule adds. */
  function RuleMessage(field: string): string
  {
    "Custom validation failed for " + field
  }

  predicate RuleHolds(form: Submission, rule: ValidationRule) {
    rule.holds(FieldValue(form, rule.field), form)
  }

  /** The messages of the failing customer rules, in rule order. */
  function RuleFailures(form: Submission, rules: seq<ValidationRule>): seq<string>
  {
    if rules == [] then []
    else
      var last := rules[|rules| - 1];
      RuleFailures(form, rules[..|rules| - 1]) + (if RuleHolds(form, last) then [] else [RuleMessage(last.field)])
  }

  /** One more outcome adds that check's message when it failed. */
  lemma FailedChecksStep(results: seq<bool>, k: nat)
    requires k < |results| <= CheckCount
    ensures FailedChecks(results, k + 1) == FailedChecks(results, k) + (if results[k] then [] else [CheckMessages[k]])
  {
  }

  /** What validateSubmission returns: the intrinsic messages, then the rule
      messages. */
  function Violations(form: Submission, rules: seq<ValidationRule>, isValidDob: Value -> bool): seq<string>
  {
    FailedChecks(CheckResults(form, isValidDob), CheckCount) + RuleFailures(form, rules)
  }

  /** Validator.validateSubmission: every check is applied and every rule
      consulted; each failure appends its message. */
  method ValidateSubmission(form: Submission, rules: seq<ValidationRule>, isValidDob: Value -> bool)
    returns (errors: seq<string>)
    ensures errors == Violations(form, rules, isValidDob)
  {
    ghost var results := CheckResults(form, isValidDob);
    errors := [];
    var nameOk := IsValidFullName(FieldValue(form, "personalName"));
    assert nameOk == results[0];
    if !nameOk {
      errors := errors + [CheckMessages[0]];
    }
    FailedChecksStep(results, 0);
    assert errors == FailedChecks(results, 1);
    var dobOk := isValidDob(FieldValue(form, "dateOfBirth"));
    assert dobOk == results[1];
    if !dobOk {
      errors := errors + [CheckMessages[1]];
    }
    FailedChecksStep(results, 1);
    assert errors == FailedChecks(results, 2);
    var emailOk := IsValidEmail(FieldValue(form, "emailAddress"));
    assert emailOk == results[2];
    if !emailOk {
      errors := errors + [CheckMessages[2]];
    }
    FailedChecksStep(results, 2);
    assert errors == FailedChecks(results, 3);
    var phoneOk := IsValidPhoneNumber(FieldValue(form, "phoneNumber"));
    assert phoneOk == results[3];
    if !phoneOk {
      errors := errors + [CheckMessages[3]];
    }
    FailedChecksStep(results, 3);
    assert errors == FailedChecks(results, 4);
    var scoreOk := IsValidCreditScore(FieldValue(form, "creditScore"));
    assert scoreOk == results[4];
    if !scoreOk {
      errors := errors + [CheckMessages[4]];
    }
    FailedChecksStep(results, 4);
    assert errors == FailedChecks(results, 5);
    var customerOk := IsNonEmpty(FieldValue(form, "customerID"));
    assert customerOk == results[5];
    if !customerOk {
      errors := errors + [CheckMessages[5]];
    }
    FailedChecksStep(results, 5);
    assert errors == FailedChecks(results, 6);
    var consentOk := IsValidBoolean(FieldValue(form, "consentGiven"));
    assert consentOk == results[6];
    if !consentOk {
      errors := errors + [CheckMessages[6]];
    }
    FailedChecksStep(results, 6);
    assert errors == FailedChecks(results, 7);
    var ipOk := IsValidIPAddress(FieldValue(form, "ipAddress"));
    assert ipOk == results[7];
    if !ipOk {
      errors := errors + [CheckMessages[7]];
    }
    FailedChecksStep(results, 7);
    assert errors == FailedChecks(results, 8);
    errors := AppendRuleFailures(form, rules, errors);
  }

  /** The loop over the customer rules in validateSubmission: each rule is
      applied to its field's value and the whole form, and each failure
      appends "Custom validation failed for <field>". */
  method AppendRuleFailures(form: Submission, rules: seq<ValidationRule>, errors: seq<string>)
    returns (result: seq<string>)
    ensures result == errors + RuleFailures(form, rules)
  {
    result := errors;
    var i := 0;
    assert rules[..i] == [];
    while i < |rules|
      invariant 0 <= i <= |rules|
      invariant result == errors + RuleFailures(form, rules[..i])
    {
      var rule := rules[i];
      var value := FieldValue(form, rule.field);
      assert rules[..i + 1][..i] == rules[..i];
      if !rule.holds(value, form) {
        result := result + [RuleMessage(rule.field)];
      }
      i := i + 1;
    }
    assert rules[..i] == rules;
  }

  // ---------------------------------------------------------------------------
  // Properties of the result

  lemma {:induction false} FailedChecksMessages(results: seq<bool>, count: nat, m: string)
    requires count <= |results| <= CheckCount
    ensures m in FailedChecks(results, count) <==>
      exists k :: 0 <= k < count && CheckMessages[k] == m && !results[k]
  {
    if count > 0 {
      FailedChecksMessages(results, count - 1, m);
    }
  }

  lemma {:induction false} FailedChecksEmptyIff(results: seq<bool>, count: nat)
    requires count <= |results| <= CheckCount
    ensures FailedChecks(results, count) == [] <==> forall k :: 0 <= k < count ==> results[k]
  {
    if count > 0 {
      FailedChecksEmptyIff(results, count - 1);
    }
  }

  /** Every check contributes at most its own message, once: the intrinsic
      part is as long as the number of failing checks. */
  lemma {:induction false} FailedChecksCount(results: seq<bool>, count: nat)
    requires count <= |results| <= CheckCount
    ensures |FailedChecks(results, count)| == |set k | 0 <= k < count && !results[k]|
  {
    if count > 0 {
      FailedChecksCount(results, count - 1);
      var before := set k | 0 <= k < count - 1 && !results[k];
      var now := set k | 0 <= k < count && !results[k];
      if results[count - 1] {
        assert now == before;
      } else {
        assert now == before + {count - 1};
      }
    }
  }

  lemma {:induction false} RuleFailuresMessages(form: Submission, rules: seq<ValidationRule>, m: string)
    ensures m in RuleFailures(form, rules) <==>
      exists r :: r in rules && !RuleHolds(form, r) && m == RuleMessage(r.field)
  {
    if rules != [] {
      var front := rules[..|rules| - 1];
      RuleFailuresMessages(form, front, m);
      assert rules == front + [rules[|rules| - 1]];
    }
  }

  lemma {:induction false} RuleFailuresEmptyIff(form: Submission, rules: seq<ValidationRule>)
    ensures RuleFailures(form, rules) == [] <==> forall r :: r in rules ==> RuleHolds(form, r)
  {
    if rules != [] {
      var front := rules[..|rules| - 1];
      RuleFailuresEmptyIff(form, front);
      assert rules == front + [rules[|rules| - 1]];
    }
  }

  /** The submission passes exactly when every intrinsic check passes and
      every customer rule holds. */
  lemma ViolationsEmptyIff(form: Submission, rules: seq<ValidationRule>, isValidDob: Value -> bool)
    ensures Violations(form, rules, isValidDob) == [] <==>
      (forall k :: 0 <= k < CheckCount ==> CheckResults(form, isValidDob)[k])
      && (forall r :: r in rules ==> RuleHolds(form, r))
  {
    FailedChecksEmptyIff(CheckResults(form, isValidDob), CheckCount);
    RuleFailuresEmptyIff(form, rules);
  }

  /** No intrinsic message looks like a rule message. */
  lemma CheckMessagesAreNotRuleMessages(k: nat, field: string)
    requires k < CheckCount
    ensures CheckMessages[k] != RuleMessage(field)
  {
    assert RuleMessage(field)[0] == 'C';
    assert CheckMessages[k][0] != 'C';
  }

  /** The eight messages are pairwise different (their ninth and tenth
      characters already tell them apart). */
  lemma CheckMessagesDistinct(j: nat, k: nat)
    requires j < CheckCount && k < CheckCount
    requires CheckMessages[j] == CheckMessages[k]
    ensures j == k
  {
    assert CheckMessages[j][8] == CheckMessages[k][8];
    assert CheckMessages[j][9] == CheckMessages[k][9];
  }

  /** Check k's message is reported exactly when check k fails. */
  lemma CheckMessageIff(form: Submission, rules: seq<ValidationRule>, isValidDob: Value -> bool, k: nat)
    requires k < CheckCount
    ensures CheckMessages[k] in Violations(form, rules, isValidDob) <==> !CheckResults(form, isValidDob)[k]
  {
    var m := CheckMessages[k];
    FailedChecksMessages(CheckResults(form, isValidDob), CheckCount, m);
    RuleFailuresMessages(form, rules, m);
    if m in RuleFailures(form, rules) {
      var r :| r in rules && !RuleHolds(form, r) && m == RuleMessage(r.field);
      CheckMessagesAreNotRuleMessages(k, r.field);
    }
    if m in FailedChecks(CheckResults(form, isValidDob), CheckCount) {
      var j :| 0 <= j < CheckCount && CheckMessages[j] == m && !CheckResults(form, isValidDob)[j];
      CheckMessagesDistinct(j, k);
    }
  }

  /** "Custom validation failed for f" is reported exactly when a rule
      registered under f fails. */
  lemma RuleMessageIff(form: Submission, rules: seq<ValidationRule>, isValidDob: Value -> bool, field: string)
    ensures RuleMessage(field) in Violations(form, rules, isValidDob) <==>
      exists r :: r in rules && r.field == field && !RuleHolds(form, r)
  {
    var m := RuleMessage(field);
    FailedChecksMessages(CheckResults(form, isValidDob), CheckCount, m);
    RuleFailuresMessages(form, rules, m);
    if m in FailedChecks(CheckResults(form, isValidDob), CheckCount) {
      var j :| 0 <= j < CheckCount && CheckMessages[j] == m && !CheckResults(form, isValidDob)[j];
      CheckMessagesAreNotRuleMessages(j, field);
    }
    if m in RuleFailures(form, rules) {
      var r :| r in rules && !RuleHolds(form, r) && m == RuleMessage(r.field);
      assert r.field == m[|"Custom validation failed for "|..] == field;
    }
  }
}
