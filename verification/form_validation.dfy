/**
 * The string-returning form validators and schemas (src/utils/validation.js).
 *
 * A validator yields an error text, `''` for a pass, or `undefined` where it reads
 * a message key that does not exist (`MESSAGES.PASSWORD_WEAK`,
 * `MESSAGES.ADMIN_BLOCKED` and `MESSAGES.PASSWORD_MISMATCH`; the messages module
 * only defines them under `MESSAGES.ERROR`). `validateForm` records a field only
 * when its result is truthy, so an `undefined` result counts as a pass.
 *
 * A form is a map from field names to strings; an absent field reads as `''`,
 * which every validator treats exactly as it treats `undefined`.
 */
module FormValidation {
  import opened Text
  import opened Rules

  /** A validator's result: a string, or `undefined`. */
  datatype Check = Text(text: string) | Undefined

  /** JavaScript truthiness of a result: a non-empty string. */
  predicate Truthy(c: Check) {
    c.Text? && c.text != ""
  }

  const PASS := Text("")

  const EMAIL_REQUIRED := "Email là bắt buộc"
  const EMAIL_INVALID := "Vui lòng nhập email hợp lệ"
  const PASSWORD_REQUIRED := "Mật khẩu là bắt buộc"
  const PASSWORD_TOO_SHORT := "Mật khẩu phải có ít nhất 8 ký tự"
  const PASSWORD_TOO_LONG := "Mật khẩu không được vượt quá 128 ký tự"
  const USERNAME_REQUIRED := "Tên đăng nhập là bắt buộc"
  const USERNAME_TOO_SHORT := "Tên đăng nhập phải có ít nhất 3 ký tự"
  const USERNAME_TOO_LONG := "Tên đăng nhập không được vượt quá 20 ký tự"
  const USERNAME_CHARS := "Tên đăng nhập chỉ được chứa chữ cái, số và dấu gạch dưới"
  const CONFIRM_REQUIRED := "Please confirm your password"
  const PHONE_LENGTH_WRONG := "Số điện thoại phải có đúng 10 số"
  const PHONE_DIGITS_ONLY := "Số điện thoại chỉ được chứa các chữ số từ 0-9"
  const PHONE_PREFIX_WRONG := "Số điện thoại phải bắt đầu bằng 03, 05, 07, 08 hoặc 09"

  /** `validateEmail` */
  function ValidateEmail(email: string): (r: Check)
    ensures email == "" ==> r == Text(EMAIL_REQUIRED)
    ensures email != "" && !EmailRegex(email) ==> r == Text(EMAIL_INVALID)
    ensures r == PASS <==> email != "" && EmailRegex(email)
    ensures r.Text?
  {
    EmailScanMatchesRegex(email);
    if email == "" then Text(EMAIL_REQUIRED)
    else if !IsEmail(email) then Text(EMAIL_INVALID)
    else PASS
  }

  /** `validatePassword`: required, then 8 to 128 UTF-16 units, then the unanchored pattern. */
  function ValidatePassword(password: string): (r: Check)
    ensures password == "" ==> r == Text(PASSWORD_REQUIRED)
    ensures password != "" && JsLength(password) < PASSWORD_MIN_LENGTH ==> r == Text(PASSWORD_TOO_SHORT)
    ensures password != "" && JsLength(password) > PASSWORD_MAX_LENGTH ==> r == Text(PASSWORD_TOO_LONG)
    ensures r.Undefined? <==>
      (PASSWORD_MIN_LENGTH <= JsLength(password) <= PASSWORD_MAX_LENGTH && !PasswordPatternTest(password))
    ensures !Truthy(r) <==> PASSWORD_MIN_LENGTH <= JsLength(password) <= PASSWORD_MAX_LENGTH
  {
    if password == "" then Text(PASSWORD_REQUIRED)
    else if JsLength(password) < PASSWORD_MIN_LENGTH then Text(PASSWORD_TOO_SHORT)
    else if JsLength(password) > PASSWORD_MAX_LENGTH then Text(PASSWORD_TOO_LONG)
    else if !PasswordPatternTest(password) then Undefined
    else PASS
  }

  /** `validateUsername`: required, then 3 to 20 units, then the character class, then `admin`. */
  function ValidateUsername(username: string): (r: Check)
    ensures username == "" ==> r == Text(USERNAME_REQUIRED)
    ensures username != "" && JsLength(username) < USERNAME_MIN_LENGTH ==> r == Text(USERNAME_TOO_SHORT)
    ensures JsLength(username) > USERNAME_MAX_LENGTH ==> r == Text(USERNAME_TOO_LONG)
    ensures USERNAME_MIN_LENGTH <= JsLength(username) <= USERNAME_MAX_LENGTH && !UsernameCharsRegex(username) ==>
      r == Text(USERNAME_CHARS)
    ensures r.Undefined? <==> UsernameRegex(username) && ToLower(username) == "admin"
    ensures !Truthy(r) <==> UsernameRegex(username)
  {
    if username == "" then Text(USERNAME_REQUIRED)
    else if JsLength(username) < USERNAME_MIN_LENGTH then Text(USERNAME_TOO_SHORT)
    else if JsLength(username) > USERNAME_MAX_LENGTH then Text(USERNAME_TOO_LONG)
    else if !UsernameCharsRegex(username) then Text(USERNAME_CHARS)
    else if ToLower(username) == "admin" then Undefined
    else PASS
  }

  /** `validateConfirmPassword(password, confirm)` */
  function ValidateConfirmPassword(password: string, confirm: string): (r: Check)
    ensures confirm == "" ==> r == Text(CONFIRM_REQUIRED)
    ensures r.Undefined? <==> confirm != "" && confirm != password
    ensures !Truthy(r) <==> confirm != ""
  {
    if confirm == "" then Text(CONFIRM_REQUIRED)
    else if password != confirm then Undefined
    else PASS
  }

  /** `validateRequired(value, fieldName)`: empty or blank is missing. */
  function ValidateRequired(value: string, fieldName: string): (r: Check)
    ensures Truthy(r) <==> All(value, IsSpace)
    ensures Truthy(r) ==> r == Text(fieldName + " is required")
    ensures !Truthy(r) ==> r == PASS
  {
    if value == "" || Trim(value) == "" then Text(fieldName + " is required") else PASS
  }

  /** `validateName(name, fieldName)`: required, then 2 to 50 units (untrimmed), then the name class. */
  function ValidateName(name: string, fieldName: string): (r: Check)
    ensures All(name, IsSpace) ==> r == Text(fieldName + " is required")
    ensures r == PASS <==>
      !All(name, IsSpace) && NAME_MIN_LENGTH <= JsLength(name) <= NAME_MAX_LENGTH && NameRegex(name)
    ensures r.Text?
  {
    var required := ValidateRequired(name, fieldName);
    if Truthy(required) then required
    else if JsLength(name) < NAME_MIN_LENGTH then Text(fieldName + " must be at least 2 characters")
    else if JsLength(name) > NAME_MAX_LENGTH then Text(fieldName + " must be no more than 50 characters")
    else if !NameRegex(name) then Text(fieldName + " can only contain letters and spaces")
    else PASS
  }

  /**
   * `validatePhone`: optional; otherwise the digits of the input must number ten
   * and start with a Vietnamese mobile prefix. Every character of the digit
   * projection is a digit, so the "digits only" message is never produced.
   */
  function ValidatePhone(phone: string): (r: Check)
    ensures r == PASS <==> phone == "" || (|Digits(phone)| == PHONE_LENGTH && HasPhonePrefix(Digits(phone)))
    ensures phone != "" && |Digits(phone)| != PHONE_LENGTH ==> r == Text(PHONE_LENGTH_WRONG)
    ensures r != Text(PHONE_DIGITS_ONLY)
    ensures r.Text?
  {
    if phone == "" then PASS
    else
      var clean := Digits(phone);
      if |clean| != PHONE_LENGTH then Text(PHONE_LENGTH_WRONG)
      else if !PhoneRegex(clean) then Text(PHONE_DIGITS_ONLY)
      else if !HasPhonePrefix(clean) then Text(PHONE_PREFIX_WRONG)
      else PASS
  }

  // ---------------------------------------------------------------------------
  // Schemas and validateForm
  // ---------------------------------------------------------------------------

  /** The validator a schema entry runs. */
  datatype Rule =
    | EmailRule
    | PasswordRule
    | UsernameRule
    | PhoneRule
    | RequiredRule(title: string)
    | NameRule(title: string)
      /** Confirmation against `formData.password`. */
    | ConfirmRule

  /** A schema: field names, in key order, with their validators. */
  type Schema = seq<(string, Rule)>

  type Form = map<string, string>

  /** `formData[field]`, with an absent field read as `''`. */
  function Field(form: Form, name: string): string {
    if name in form then form[name] else ""
  }

  /** `validator(formData[field], formData)` */
  function Apply(rule: Rule, value: string, form: Form): Check {
    match rule
    case EmailRule => ValidateEmail(value)
    case PasswordRule => ValidatePassword(value)
    case UsernameRule => ValidateUsername(value)
    case PhoneRule => ValidatePhone(value)
    case RequiredRule(title) => ValidateRequired(value, title)
    case NameRule(title) => ValidateName(value, title)
    case ConfirmRule => ValidateConfirmPassword(Field(form, "password"), value)
  }

  const LoginSchema: Schema := [("username", UsernameRule), ("password", RequiredRule("Password"))]

  const SignupSchema: Schema := [
    ("firstName", NameRule("First Name")),
    ("lastName", NameRule("Last Name")),
    ("email", EmailRule),
    ("username", UsernameRule),
    ("password", PasswordRule),
    ("confirmPassword", ConfirmRule)
  ]

  const ProfileSchema: Schema := [
    ("firstName", NameRule("First Name")),
    ("lastName", NameRule("Last Name")),
    ("email", EmailRule),
    ("username", UsernameRule),
    ("phone", PhoneRule)
  ]

  /** Object keys are distinct. */
  predicate DistinctFields(schema: Schema) {
    forall i, j :: 0 <= i < j < |schema| ==> schema[i].0 != schema[j].0
  }

  /** The result of the schema's `i`-th entry on the form. */
  function Outcome(form: Form, schema: Schema, i: nat): Check
    requires i < |schema|
  {
    Apply(schema[i].1, Field(form, schema[i].0), form)
  }

  /**
   * `validateForm`: every entry is run, none short-circuits; `errors` holds exactly
   * the truthy results under their field names, and `isValid` says none was truthy.
   */
  method ValidateForm(form: Form, schema: Schema) returns (isValid: bool, errors: map<string, string>)
    requires DistinctFields(schema)
    ensures forall i :: 0 <= i < |schema| ==> (schema[i].0 in errors <==> Truthy(Outcome(form, schema, i)))
    ensures forall i :: 0 <= i < |schema| && schema[i].0 in errors ==> errors[schema[i].0] == Outcome(form, schema, i).text
    ensures forall k :: k in errors ==> exists i :: 0 <= i < |schema| && schema[i].0 == k
    ensures isValid <==> errors == map[]
    ensures isValid <==> forall i :: 0 <= i < |schema| ==> !Truthy(Outcome(form, schema, i))
  {
    var names := seq(|schema|, i requires 0 <= i < |schema| => schema[i].0);
    var outs := seq(|schema|, i requires 0 <= i < |schema| => Outcome(form, schema, i));
    isValid, errors := Gather(names, outs);
    assert forall i :: 0 <= i < |schema| ==> names[i] == schema[i].0 && outs[i] == Outcome(form, schema, i);
  }

  /** The loop of `validateForm`, over the field names and their results. */
  method Gather(names: seq<string>, outs: seq<Check>) returns (isValid: bool, errors: map<string, string>)
    requires |names| == |outs|
    requires forall i, j :: 0 <= i < j < |names| ==> names[i] != names[j]
    ensures forall i :: 0 <= i < |names| ==> (names[i] in errors <==> Truthy(outs[i]))
    ensures forall i :: 0 <= i < |names| && names[i] in errors ==> outs[i].Text? && errors[names[i]] == outs[i].text
    ensures forall k :: k in errors ==> exists i :: 0 <= i < |names| && names[i] == k
    ensures isValid <==> errors == map[]
    ensures isValid <==> forall i :: 0 <= i < |outs| ==> !Truthy(outs[i])
  {
    errors := map[];
    isValid := true;
    var n := 0;
    while n < |names|
      invariant 0 <= n <= |names|
      invariant forall i :: 0 <= i < n ==> (names[i] in errors <==> Truthy(outs[i]))
      invariant forall i :: 0 <= i < n && names[i] in errors ==> errors[names[i]] == outs[i].text
      invariant forall i :: n <= i < |names| ==> names[i] !in errors
      invariant forall k :: k in errors ==> exists i :: 0 <= i < n && names[i] == k
      invariant isValid <==> errors == map[]
      invariant isValid <==> forall i :: 0 <= i < n ==> !Truthy(outs[i])
    {
      if Truthy(outs[n]) {
        errors := errors[names[n] := outs[n].text];
        isValid := false;
      }
      n := n + 1;
    }
  }

  // ---------------------------------------------------------------------------
  // Consequences of the undefined message keys
  // ---------------------------------------------------------------------------

  /** The built-in schemas have distinct keys. */
  lemma SchemasDistinct()
    ensures DistinctFields(LoginSchema) && DistinctFields(SignupSchema) && DistinctFields(ProfileSchema)
  {
  }

  /** `Admin` passes the username field: the blocked-name branch yields `undefined`. */
  lemma AdminUsernamePasses()
    ensures ValidateUsername("Admin") == Undefined && !Truthy(ValidateUsername("Admin"))
  {
    var name := "Admin";
    assert UsernameRegex(name) by {
      assert forall i :: 0 <= i < |name| ==> IsWordChar(name[i]);
    }
    assert ToLower(name) == "admin";
  }

  /** A mismatched confirmation passes the sign-up form's confirmation field. */
  lemma MismatchedConfirmationPasses(form: Form)
    requires Field(form, "confirmPassword") != "" && Field(form, "confirmPassword") != Field(form, "password")
    ensures Outcome(form, SignupSchema, 5).Undefined?
    ensures !Truthy(Outcome(form, SignupSchema, 5))
  {
  }

  /** A profile form without a phone passes the phone field. */
  lemma ProfilePhoneOptional(form: Form)
    requires "phone" !in form
    ensures Outcome(form, ProfileSchema, 4) == PASS
  {
  }

  // ---------------------------------------------------------------------------
  // Against the auth service's password rule
  // ---------------------------------------------------------------------------

  /** Every password the auth service accepts, up to 128 characters, passes the form. */
  lemma StrongPasswordPassesForm(password: string)
    requires StrongPasswordRegex(password) && |password| <= PASSWORD_MAX_LENGTH
    ensures ValidatePassword(password) == PASS
  {
    StrongPasswordMatchesRegex(password);
    StrongPasswordPassesPattern(password);
    assert forall i :: 0 <= i < |password| ==> password[i] as int <= 0xFFFF by {
      forall i | 0 <= i < |password| ensures password[i] as int <= 0xFFFF {
        assert IsPasswordChar(password[i]);
      }
    }
  }

  /** The converse fails: the form passes a password with a space, which the auth service refuses. */
  lemma SpacedPasswordPassesForm()
    ensures ValidatePassword("Aa1@ xyz") == PASS && !StrongPasswordRegex("Aa1@ xyz")
  {
    PatternAcceptsSpace();
    StrongPasswordMatchesRegex("Aa1@ xyz");
  }
}
