/**
 * The client-side field checks of the sign-up page
 * (frontend/src/pages/RegisterPage.js) and the login page
 * (frontend/src/pages/LoginPage.js), what each page sends once its checks
 * pass, and where a successful login leads.
 */
module FormChecks {
  import opened Wrappers

  // ---------------------------------------------------------------------
  // The password pattern of the sign-up page
  // ---------------------------------------------------------------------

  /** The characters a regular expression's `.` does not match. */
  predicate IsLineTerminator(c: char)
  {
    c == '\n' || c == '\r' || c == '\U{2028}' || c == '\U{2029}'
  }

  predicate IsLower(c: char) { 'a' <= c <= 'z' }
  predicate IsUpper(c: char) { 'A' <= c <= 'Z' }
  predicate IsDigit(c: char) { '0' <= c <= '9' }

  /** The class `[!@#$%^&*]`. */
  predicate IsSpecial(c: char)
  {
    c == '!' || c == '@' || c == '#' || c == '$' || c == '%' || c == '^' || c == '&' || c == '*'
  }

  /** The text up to the first line terminator. */
  function FirstLine(s: string): (line: string)
    ensures |line| <= |s| && line == s[..|line|]
    ensures forall i :: 0 <= i < |line| ==> !IsLineTerminator(line[i])
    ensures |line| == |s| || IsLineTerminator(s[|line|])
  {
    if |s| == 0 || IsLineTerminator(s[0]) then "" else [s[0]] + FirstLine(s[1..])
  }

  /** Some character of `line` belongs to the class. */
  predicate Contains(line: string, cls: char -> bool)
  {
    exists i :: 0 <= i < |line| && cls(line[i])
  }

  /**
   * `validatePassword`: the pattern is anchored at the start and `.` stops at
   * a line terminator, so every lookahead looks only at the first line,
   * which must hold a lower-case letter, an upper-case letter, a digit and a
   * special character, and be at least 8 characters long.
   */
  predicate ValidPassword(password: string)
  {
    var line := FirstLine(password);
    Contains(line, IsLower) && Contains(line, IsUpper) && Contains(line, IsDigit) &&
    Contains(line, IsSpecial) && |line| >= 8
  }

  /** What `(?=.*[c])` at position 0 means: a character of the class with no line terminator before it. */
  predicate Lookahead(s: string, cls: char -> bool)
  {
    exists i :: 0 <= i < |s| && cls(s[i]) && forall j :: 0 <= j < i ==> !IsLineTerminator(s[j])
  }

  /** What `(?=.{8,})` at position 0 means: eight characters, none a line terminator. */
  predicate AtLeastEight(s: string)
  {
    |s| >= 8 && forall j :: 0 <= j < 8 ==> !IsLineTerminator(s[j])
  }

  /** A lookahead for a class that has no line terminators holds exactly when the first line holds the class. */
  lemma LookaheadIsFirstLine(s: string, cls: char -> bool)
    requires forall c :: cls(c) ==> !IsLineTerminator(c)
    ensures Lookahead(s, cls) <==> Contains(FirstLine(s), cls)
  {
    var line := FirstLine(s);
    if Lookahead(s, cls) {
      var i :| 0 <= i < |s| && cls(s[i]) && forall j :: 0 <= j < i ==> !IsLineTerminator(s[j]);
      assert line[i] == s[i];
    }
    if Contains(line, cls) {
      var i :| 0 <= i < |line| && cls(line[i]);
      assert s[i] == line[i];
      forall j | 0 <= j < i ensures !IsLineTerminator(s[j]) {
        assert s[j] == line[j];
      }
    }
  }

  /** Eight leading non-terminators exist exactly when the first line is at least eight long. */
  lemma AtLeastEightIsFirstLine(s: string)
    ensures AtLeastEight(s) <==> |FirstLine(s)| >= 8
  {
    var line := FirstLine(s);
    if |line| >= 8 {
      forall j | 0 <= j < 8 ensures !IsLineTerminator(s[j]) {
        assert s[j] == line[j];
      }
    }
  }

  /** `validatePassword` agrees with the pattern's five lookaheads read literally. */
  lemma ValidPasswordIsPattern(password: string)
    ensures ValidPassword(password) <==>
      Lookahead(password, IsLower) && Lookahead(password, IsUpper) && Lookahead(password, IsDigit) &&
      Lookahead(password, IsSpecial) && AtLeastEight(password)
  {
    LookaheadIsFirstLine(password, IsLower);
    LookaheadIsFirstLine(password, IsUpper);
    LookaheadIsFirstLine(password, IsDigit);
    LookaheadIsFirstLine(password, IsSpecial);
    AtLeastEightIsFirstLine(password);
  }

  /**
   * For a one-line password the check is the rule as the page states it:
   * a lower-case letter, an upper-case letter, a digit, one of `!@#$%^&*`,
   * and at least 8 characters.
   */
  lemma ValidOneLinePassword(password: string)
    requires forall i :: 0 <= i < |password| ==> !IsLineTerminator(password[i])
    ensures ValidPassword(password) <==>
      Contains(password, IsLower) && Contains(password, IsUpper) && Contains(password, IsDigit) &&
      Contains(password, IsSpecial) && |password| >= 8
  {
    var line := FirstLine(password);
    assert |line| == |password|;
    assert line == password;
  }

  // ---------------------------------------------------------------------
  // Field checks and requests
  // ---------------------------------------------------------------------

  /** `email.includes('@') && email.includes('.')`. */
  predicate LooksLikeEmail(email: string)
  {
    '@' in email && '.' in email
  }

  const UsernameRequired: string := "Username is required"
  const BadEmail: string := "Please enter a valid email address"
  const WeakPassword: string :=
    "Password must be at least 8 characters long, contain an uppercase letter, a number, and a special character."
  const ShortPassword: string := "Password must be at least 6 characters long"

  /** The message under each field after a check; empty when the field passed. */
  datatype SignUpErrors = SignUpErrors(username: string, email: string, password: string)

  /**
   * The sign-up page's `validateFields`: all three fields are checked, each
   * sets or clears its own message, and the result is their conjunction.
   */
  function CheckSignUp(username: string, email: string, password: string): (r: (bool, SignUpErrors))
    ensures r.0 <==> username != "" && LooksLikeEmail(email) && ValidPassword(password)
    ensures r.1.username == (if username == "" then UsernameRequired else "")
    ensures r.1.email == (if LooksLikeEmail(email) then "" else BadEmail)
    ensures r.1.password == (if ValidPassword(password) then "" else WeakPassword)
    ensures r.0 <==> r.1 == SignUpErrors("", "", "")
  {
    var nameOk := username != "";
    var emailOk := LooksLikeEmail(email);
    var passwordOk := ValidPassword(password);
    (nameOk && emailOk && passwordOk,
     SignUpErrors(if nameOk then "" else UsernameRequired,
                  if emailOk then "" else BadEmail,
                  if passwordOk then "" else WeakPassword))
  }

  /** The body of `POST /auth/register`. */
  datatype SignUpRequest = SignUpRequest(name: string, email: string, password: string)

  /** The sign-up page's `handleSubmit`: a request only when every check passes. */
  function SignUpSubmit(username: string, email: string, password: string): (req: Option<SignUpRequest>)
  {
    if CheckSignUp(username, email, password).0 then Some(SignUpRequest(username, email, password)) else None
  }

  /**
   * A sign-up request is sent exactly when the name is given, the email has
   * `@` and `.` and the password passes the pattern; it carries the fields as
   * typed, with the user name as `name`.
   */
  lemma SignUpSendsOnlyValid(username: string, email: string, password: string)
    ensures SignUpSubmit(username, email, password).Some? <==>
      username != "" && LooksLikeEmail(email) && ValidPassword(password)
    ensures SignUpSubmit(username, email, password).Some? ==>
      SignUpSubmit(username, email, password).value == SignUpRequest(username, email, password)
  {
  }

  /** The message under each login field; empty when the field passed. */
  datatype LoginErrors = LoginErrors(email: string, password: string)

  /** The login page's `validateFields`: both checks run, the result is their conjunction. */
  function CheckLogin(email: string, password: string): (r: (bool, LoginErrors))
    ensures r.0 <==> LooksLikeEmail(email) && |password| >= 6
    ensures r.1.email == (if LooksLikeEmail(email) then "" else BadEmail)
    ensures r.1.password == (if |password| >= 6 then "" else ShortPassword)
  {
    var emailOk := LooksLikeEmail(email);
    var passwordOk := !(|password| < 6);
    (emailOk && passwordOk,
     LoginErrors(if emailOk then "" else BadEmail, if passwordOk then "" else ShortPassword))
  }

  /** The body of `POST /auth/login`. */
  datatype LoginRequest = LoginRequest(email: string, password: string)

  /** The login page's `handleSubmit` up to the request. */
  function LoginSubmit(email: string, password: string): (req: Option<LoginRequest>)
  {
    if CheckLogin(email, password).0 then Some(LoginRequest(email, password)) else None
  }

  /** No login request is sent unless the email has `@` and `.` and the password has at least 6 characters. */
  lemma LoginSendsOnlyValid(email: string, password: string)
    ensures LoginSubmit(email, password).Some? <==> LooksLikeEmail(email) && |password| >= 6
    ensures LoginSubmit(email, password).Some? ==> LoginSubmit(email, password).value == LoginRequest(email, password)
  {
  }

  /** Every password the sign-up page accepts is long enough for the login page. */
  lemma SignUpPasswordPassesLogin(password: string)
    requires ValidPassword(password)
    ensures |password| >= 6
  {
  }

  /** Where a successful login leads, by the role in the response. */
  function LoginRedirect(role: string): (path: string)
    ensures path == "/admin" <==> role == "admin"
    ensures path == "/business-owner" <==> role == "businessOwner"
    ensures path == "/" <==> role != "admin" && role != "businessOwner"
  {
    if role == "admin" then "/admin"
    else if role == "businessOwner" then "/business-owner"
    else "/"
  }
}
