/** The custom password policy of the user app: a password must be at least
    six characters long and contain a lower-case ASCII letter, an upper-case
    ASCII letter, an ASCII digit and one of the special characters `!@&%$#`.
    The checks run in a fixed order and the first one that fails is reported. */
module PasswordPolicy {
  import opened Wrappers

  /** The shortest password the policy accepts. */
  const MinLength: nat := 6

  /** The only characters that count as special. */
  const SpecialChars: string := "!@&%$#"

  /** One `ValidationError` code per rule, declared in the order the rules run. */
  datatype PasswordError = TooShort | NoLower | NoUpper | NoNumber | NoSpecial {

    /** The error code attached to the raised `ValidationError`. */
    function Code(): string {
      match this
      case TooShort => "password_too_short"
      case NoLower => "password_no_lower"
      case NoUpper => "password_no_upper"
      case NoNumber => "password_no_number"
      case NoSpecial => "password_no_special"
    }

    /** The (untranslated) message of the raised `ValidationError`. */
    function Message(): string {
      match this
      case TooShort => "This password must contain at least 6 characters."
      case NoLower => "This password must contain at least one lowercase letter."
      case NoUpper => "This password must contain at least one uppercase letter."
      case NoNumber => "This password must contain at least one number."
      case NoSpecial => "This password must contain at least one special character (!@&%$#)."
    }

    /** The position of the rule in the chain of checks. */
    function Rank(): nat {
      match this
      case TooShort => 0
      case NoLower => 1
      case NoUpper => 2
      case NoNumber => 3
      case NoSpecial => 4
    }
  }

  /** `validate` either returns normally or raises one `ValidationError`. */
  datatype Verdict = Accepted | Rejected(error: PasswordError)

  /** The four character classes the regular expressions test for. */
  datatype CharClass = Lower | Upper | Digit | Special

  /** Membership in the bracket expressions `[a-z]`, `[A-Z]`, `[0-9]` and `[!@&%$#]`. */
  predicate InClass(c: char, k: CharClass) {
    match k
    case Lower => 'a' <= c <= 'z'
    case Upper => 'A' <= c <= 'Z'
    case Digit => '0' <= c <= '9'
    case Special => c in SpecialChars
  }

  /** `re.search` with a one-character class: the position of the leftmost
      match, or `None` when no character of `s` is in the class. */
  function Search(s: string, k: CharClass): (r: Option<nat>)
    ensures r.Some? ==> r.value < |s| && InClass(s[r.value], k)
    ensures r.Some? ==> forall j :: 0 <= j < r.value ==> !InClass(s[j], k)
    ensures r.None? <==> forall j :: 0 <= j < |s| ==> !InClass(s[j], k)
  {
    if |s| == 0 then None
    else if InClass(s[0], k) then Some(0)
    else
      match Search(s[1..], k)
      case None => None
      case Some(i) =>
        assert forall j :: 1 <= j <= i ==> s[j] == s[1..][j - 1];
        Some(i + 1)
  }

  /** Some character of `s` lies in class `k` (the reference meaning of a
      successful search). */
  ghost predicate HasChar(s: string, k: CharClass) {
    exists i :: 0 <= i < |s| && InClass(s[i], k)
  }

  /** Rule `e` is met by `pw`, stated independently of `Validate`. */
  ghost predicate Satisfies(pw: string, e: PasswordError) {
    match e
    case TooShort => |pw| >= MinLength
    case NoLower => HasChar(pw, Lower)
    case NoUpper => HasChar(pw, Upper)
    case NoNumber => HasChar(pw, Digit)
    case NoSpecial => HasChar(pw, Special)
  }

  /** The password meets all five rules. */
  ghost predicate Acceptable(pw: string) {
    |pw| >= MinLength && HasChar(pw, Lower) && HasChar(pw, Upper)
    && HasChar(pw, Digit) && HasChar(pw, Special)
  }

  /** `CustomPasswordValidator.validate`. The `user` argument is accepted and
      never consulted. */
  function Validate(pw: string, user: Option<nat>): (v: Verdict)
    ensures v.Accepted? <==> Acceptable(pw)
    ensures v.Rejected? ==> !Satisfies(pw, v.error)
    ensures v.Rejected? ==> forall e: PasswordError :: e.Rank() < v.error.Rank() ==> Satisfies(pw, e)
  {
    if |pw| < MinLength then Rejected(TooShort)
    else if Search(pw, Lower).None? then Rejected(NoLower)
    else if Search(pw, Upper).None? then Rejected(NoUpper)
    else if Search(pw, Digit).None? then Rejected(NoNumber)
    else if Search(pw, Special).None? then Rejected(NoSpecial)
    else Accepted
  }

  /** The reported error is exactly the first rule, in the fixed order, that
      the password breaks. */
  lemma RejectsWithFirstBrokenRule(pw: string, user: Option<nat>, e: PasswordError)
    ensures Validate(pw, user) == Rejected(e)
        <==> !Satisfies(pw, e) && forall d: PasswordError :: d.Rank() < e.Rank() ==> Satisfies(pw, d)
  {
    var v := Validate(pw, user);
    if !Satisfies(pw, e) && forall d: PasswordError :: d.Rank() < e.Rank() ==> Satisfies(pw, d) {
      assert v.Rejected?;
      assert !(v.error.Rank() < e.Rank());
      assert !(e.Rank() < v.error.Rank());
    }
  }

  /** Anything shorter than six characters fails with `password_too_short`,
      whatever else it contains. */
  lemma ShortPasswordRejected(pw: string, user: Option<nat>)
    requires |pw| < MinLength
    ensures Validate(pw, user) == Rejected(TooShort)
    ensures Validate(pw, user).error.Code() == "password_too_short"
  {
  }

  /** A password of adequate length with a letter of each case and a digit,
      but none of the six listed specials, fails with `password_no_special`:
      other punctuation such as `*` does not count. */
  lemma OnlyListedSpecialsCount(pw: string, user: Option<nat>)
    requires |pw| >= MinLength
    requires HasChar(pw, Lower) && HasChar(pw, Upper) && HasChar(pw, Digit)
    requires forall i :: 0 <= i < |pw| ==> pw[i] !in SpecialChars
    ensures Validate(pw, user) == Rejected(NoSpecial)
  {
    assert !HasChar(pw, Special);
  }

  /** The password `Abc123*` is rejected for want of a special character. */
  lemma StarIsNotSpecial(user: Option<nat>)
    ensures Validate("Abc123*", user) == Rejected(NoSpecial)
  {
    var pw := "Abc123*";
    assert InClass(pw[1], Lower) && InClass(pw[0], Upper) && InClass(pw[3], Digit);
    OnlyListedSpecialsCount(pw, user);
  }

  /** The sign-up password used by the user app's tests passes the policy. */
  lemma SignUpTestPasswordAccepted(user: Option<nat>)
    ensures Validate("testPass123#", user) == Accepted
  {
    var pw := "testPass123#";
    assert InClass(pw[0], Lower) && InClass(pw[4], Upper);
    assert InClass(pw[8], Digit) && InClass(pw[11], Special);
  }

  /** The verdict does not depend on the `user` argument. */
  lemma UserIgnored(pw: string, u1: Option<nat>, u2: Option<nat>)
    ensures Validate(pw, u1) == Validate(pw, u2)
  {
  }

  /** `w` occurs in `t` at position `i`. */
  ghost predicate OccursAt(t: string, w: string, i: int) {
    0 <= i && i + |w| <= |t| && t[i..i + |w|] == w
  }

  /** `w` occurs in `t`. */
  ghost predicate Mentions(t: string, w: string) {
    exists i :: OccursAt(t, w, i)
  }

  /** `get_help_text`: one fixed sentence naming every rule. */
  function HelpText(): (t: string)
    ensures Mentions(t, "at least 6 characters") && Mentions(t, SpecialChars)
  {
    var head := "Your password must contain ";
    var length := "at least 6 characters";
    var middle := ", including at least one lowercase letter, one uppercase letter, one number, and one special character (";
    var t := head + length + middle + SpecialChars + ").";
    assert OccursAt(t, length, |head|);
    assert OccursAt(t, SpecialChars, |head + length + middle|);
    t
  }
}
