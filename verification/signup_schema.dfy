/**
 * The admin sign-up schema: the e-mail check (zod's, a parameter), the
 * password length bounds and pattern, the confirmation rules and the
 * equality refinement whose error lands on the confirmation.
 */
module SignupSchema {
  import opened Wrappers
  import opened Text

  datatype SignupForm = SignupForm(email: string, userType: Option<string>, password: string, confirmPassword: string)

  /** The parsed form, with the user type defaulted. */
  datatype SignupData = SignupData(email: string, userType: string, password: string, confirmPassword: string)

  /** The path an issue is reported on. */
  datatype Path = EmailPath | PasswordPath | ConfirmPasswordPath

  /** The special characters the password pattern lists. */
  const Specials: string := "!@#$%^&*()-_=+\\|{}[]:;\"'<>,.?/"

  predicate IsSpecial(c: char) {
    c in Specials
  }

  /** `(?=.*X)` at the start: some character in class X preceded by no line terminator. */
  predicate Lookahead(p: string, inClass: char -> bool) {
    exists k :: 0 <= k < |p| && inClass(p[k]) && NoLineTerminator(p[..k])
  }

  /**
   * `/^(?=.*\d)(?=.*[specials])(?=.*[a-z])(?=.*[A-Z]).{6,10}$/`: the four
   * look-aheads, then six to ten characters none of which ends a line.
   */
  predicate PasswordPattern(p: string) {
    && Lookahead(p, IsDigit)
    && Lookahead(p, IsSpecial)
    && Lookahead(p, IsLower)
    && Lookahead(p, IsUpper)
    && 6 <= |p| <= 10
    && NoLineTerminator(p)
  }

  /** On a text without line terminators each look-ahead only asks for some character of its class. */
  lemma LookaheadIsContains(p: string, inClass: char -> bool)
    requires NoLineTerminator(p)
    ensures Lookahead(p, inClass) <==> exists k :: 0 <= k < |p| && inClass(p[k])
  {
    if exists k :: 0 <= k < |p| && inClass(p[k]) {
      var k :| 0 <= k < |p| && inClass(p[k]);
      assert NoLineTerminator(p[..k]);
    }
  }

  /** The paths that `safeParse` reports an issue on. */
  function Issues(f: SignupForm, isEmail: string -> bool): (r: set<Path>)
    ensures EmailPath in r <==> !isEmail(f.email)
    ensures PasswordPath in r <==> !(6 <= |f.password| <= 15 && PasswordPattern(f.password))
    ensures ConfirmPasswordPath in r <==> !(6 <= |f.confirmPassword| <= 15) || f.password != f.confirmPassword
  {
    (if isEmail(f.email) then {} else {EmailPath})
    + (if 6 <= |f.password| <= 15 && PasswordPattern(f.password) then {} else {PasswordPath})
    + (if 6 <= |f.confirmPassword| <= 15 && f.password == f.confirmPassword then {} else {ConfirmPasswordPath})
  }

  /** `signupAdminValidationSchema.safeParse`. */
  function ParseSignup(f: SignupForm, isEmail: string -> bool): (r: Option<SignupData>)
    ensures r.Some? <==> Issues(f, isEmail) == {}
    ensures f.userType.None? && r.Some? ==> r.value.userType == "A"
    ensures r.Some? ==> r.value.password == r.value.confirmPassword == f.password
  {
    if Issues(f, isEmail) == {} then
      Some(SignupData(f.email, f.userType.GetOr("A"), f.password, f.confirmPassword))
    else None
  }

  /** The anchored pattern caps accepted passwords at ten characters, below the stated maximum of fifteen. */
  lemma AcceptedPasswordsAtMostTen(f: SignupForm, isEmail: string -> bool)
    requires ParseSignup(f, isEmail).Some?
    ensures 6 <= |f.password| <= 10 && |f.confirmPassword| <= 10
  {
    assert PasswordPath !in Issues(f, isEmail);
  }

  /** An eleven-character password with every required class is still refused. */
  lemma ElevenCharacterPasswordRefused(isEmail: string -> bool)
    ensures PasswordPath in Issues(SignupForm("a@b.co", None, "Abcdefgh1!x", "Abcdefgh1!x"), isEmail)
  {
    assert |"Abcdefgh1!x"| == 11;
  }

  /** A password with every class, of length six to ten, passes the pattern. */
  lemma PatternAcceptsSample()
    ensures PasswordPattern("Abcde1!")
  {
    var p := "Abcde1!";
    assert IsUpper(p[0]) && NoLineTerminator(p[..0]);
    assert IsLower(p[1]) && NoLineTerminator(p[..1]);
    assert IsDigit(p[5]) && NoLineTerminator(p[..5]);
    assert IsSpecial(p[6]) && NoLineTerminator(p[..6]);
  }

  /** A mismatch is reported on the confirmation path, whatever else is wrong. */
  lemma MismatchReportedOnConfirmation(f: SignupForm, isEmail: string -> bool)
    requires f.password != f.confirmPassword
    ensures ConfirmPasswordPath in Issues(f, isEmail)
    ensures ParseSignup(f, isEmail).None?
  {
  }
}
