/** The registration, login and password-change validators
    (src/validators/authValidator.js). The `isEmail` check belongs to a library and is a
    parameter of the model. */
module AuthValidator {
  import opened Wrappers
  import Text
  import opened Validation

  datatype RegisterBody = RegisterBody(
    firstName: Option<Json>, lastName: Option<Json>, email: Option<Json>,
    password: Option<Json>, phone: Option<Json>)

  datatype LoginBody = LoginBody(email: Option<Json>, password: Option<Json>)

  datatype PasswordUpdateBody = PasswordUpdateBody(currentPassword: Option<Json>, newPassword: Option<Json>)

  /** `^(?=.*\d)(?=.*[a-z])(?=.*[A-Z])(?=.*[!@#$%^&*])`: each lookahead scans the text
      up to its first line terminator. */
  predicate PasswordPattern(t: string) {
    var line := Text.FirstLine(t);
    Text.Any(line, Text.IsDigit) && Text.Any(line, Text.IsLower) &&
    Text.Any(line, Text.IsUpper) && Text.Any(line, Text.IsSpecial)
  }

  /** A strong password, stated directly: at least eight characters, and a digit, a
      lower-case letter, an upper-case letter and a special character all before the
      first line break. */
  ghost predicate StrongPassword(t: string) {
    var n := |Text.FirstLine(t)|;
    |t| >= 8 &&
    (exists i :: 0 <= i < n && Text.IsDigit(t[i])) &&
    (exists i :: 0 <= i < n && Text.IsLower(t[i])) &&
    (exists i :: 0 <= i < n && Text.IsUpper(t[i])) &&
    (exists i :: 0 <= i < n && Text.IsSpecial(t[i]))
  }

  /** The password chain; `field` is "Password" on registration and "New password" on
      a password change, the two chains being otherwise the same. */
  function PasswordErrors(v: Option<Json>, field: string): (r: seq<string>)
    ensures r == [] <==> Trimmed(v) != "" && |Trimmed(v)| >= 8 && PasswordPattern(Trimmed(v))
  {
    var t := Trimmed(v);
    Check(t != "", field + " is required") +
    Check(|t| >= 8, field + " must be at least 8 characters long") +
    Check(PasswordPattern(t), field + " must contain at least one uppercase letter, one lowercase letter, one number, and one special character")
  }

  lemma PasswordAcceptsIff(v: Option<Json>, field: string)
    ensures PasswordErrors(v, field) == [] <==> StrongPassword(Trimmed(v))
  {
    var t := Trimmed(v);
    FirstLineAny(t, Text.IsDigit);
    FirstLineAny(t, Text.IsLower);
    FirstLineAny(t, Text.IsUpper);
    FirstLineAny(t, Text.IsSpecial);
  }

  lemma FirstLineAny(t: string, p: char -> bool)
    ensures Text.Any(Text.FirstLine(t), p) <==> exists i :: 0 <= i < |Text.FirstLine(t)| && p(t[i])
  {
    var line := Text.FirstLine(t);
    Text.AnyIff(line, p);
    assert forall i :: 0 <= i < |line| ==> line[i] == t[i];
  }

  /** Registration and password change apply the same strength rule. */
  lemma SamePasswordRule(v: Option<Json>)
    ensures PasswordErrors(v, "Password") == [] <==> PasswordErrors(v, "New password") == []
  {
    PasswordAcceptsIff(v, "Password");
    PasswordAcceptsIff(v, "New password");
  }

  function EmailErrors(v: Option<Json>, isEmail: string -> bool): (r: seq<string>)
    ensures r == [] <==> Trimmed(v) != "" && isEmail(Trimmed(v))
  {
    var t := Trimmed(v);
    Check(t != "", "Email is required") + Check(isEmail(t), "Please provide a valid email address")
  }

  /** `validateRegister`: the messages of every failed check, in chain order. */
  function RegisterErrors(b: RegisterBody, isEmail: string -> bool): (r: seq<string>)
  {
    RequiredText(b.firstName, 2, 50, "First name is required", "First name must be between 2 and 50 characters") +
    RequiredText(b.lastName, 2, 50, "Last name is required", "Last name must be between 2 and 50 characters") +
    EmailErrors(b.email, isEmail) +
    PasswordErrors(b.password, "Password") +
    PhoneErrors(b.phone)
  }

  /** A registration passes exactly when both names have 2 to 50 characters after
      trimming, the email is one, the password is strong and the phone, if given, has
      the phone shape. */
  lemma RegisterAcceptsIff(b: RegisterBody, isEmail: string -> bool)
    ensures Validate(RegisterErrors(b, isEmail)).Success? <==>
      2 <= |Trimmed(b.firstName)| <= 50 && 2 <= |Trimmed(b.lastName)| <= 50 &&
      Trimmed(b.email) != "" && isEmail(Trimmed(b.email)) &&
      StrongPassword(Trimmed(b.password)) &&
      (b.phone.None? || ValidPhone(Trimmed(b.phone)))
  {
    RegisterChainIff(b, isEmail);
    PasswordAcceptsIff(b.password, "Password");
    PhonePatternIff(Trimmed(b.phone));
  }

  /** The registration chain is empty exactly when each of its five parts is. */
  lemma RegisterChainIff(b: RegisterBody, isEmail: string -> bool)
    ensures RegisterErrors(b, isEmail) == [] <==>
      RequiredText(b.firstName, 2, 50, "First name is required", "First name must be between 2 and 50 characters") == [] &&
      RequiredText(b.lastName, 2, 50, "Last name is required", "Last name must be between 2 and 50 characters") == [] &&
      EmailErrors(b.email, isEmail) == [] && PasswordErrors(b.password, "Password") == [] && PhoneErrors(b.phone) == []
  {
    NoErrorsIff(RequiredText(b.firstName, 2, 50, "First name is required", "First name must be between 2 and 50 characters"),
                RequiredText(b.lastName, 2, 50, "Last name is required", "Last name must be between 2 and 50 characters"),
                EmailErrors(b.email, isEmail), PasswordErrors(b.password, "Password"), PhoneErrors(b.phone));
  }

  /** `validateLogin`: only presence is checked for the password. */
  function LoginErrors(b: LoginBody, isEmail: string -> bool): (r: seq<string>)
    ensures r == [] <==> Trimmed(b.email) != "" && isEmail(Trimmed(b.email)) && Trimmed(b.password) != ""
  {
    EmailErrors(b.email, isEmail) + Check(Trimmed(b.password) != "", "Password is required")
  }

  /** `validatePasswordUpdate`. */
  function PasswordUpdateErrors(b: PasswordUpdateBody): (r: seq<string>)
  {
    Check(Trimmed(b.currentPassword) != "", "Current password is required") +
    PasswordErrors(b.newPassword, "New password")
  }

  lemma PasswordUpdateAcceptsIff(b: PasswordUpdateBody)
    ensures Validate(PasswordUpdateErrors(b)).Success? <==>
      Trimmed(b.currentPassword) != "" && StrongPassword(Trimmed(b.newPassword))
  {
    PasswordAcceptsIff(b.newPassword, "New password");
  }
}
