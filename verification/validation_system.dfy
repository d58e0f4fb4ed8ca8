/**
 * The error-accumulating validation system (src/lib/validation.js).
 *
 * A validator either returns a report (`isValid`, the list of every failed check's
 * message in check order, and a validator-specific extra) or throws. A thrown
 * `ValidationError` carries a message and a field name; any other exception is an
 * `OtherThrow`. An empty value throws when the field is required.
 */
module ValidationSystem {
  import opened Wrappers
  import opened Text
  import opened Rules

  // ---------------------------------------------------------------------------
  // Results
  // ---------------------------------------------------------------------------

  datatype Level = Weak | Medium | Strong

  /** The six checks `calculatePasswordStrength` counts. */
  datatype StrengthChecks = StrengthChecks(
    length: bool, lowercase: bool, uppercase: bool, numbers: bool, symbols: bool, longLength: bool)

  datatype Strength = Strength(level: Level, score: nat, checks: StrengthChecks)

  /** `getPasswordRequirements` */
  datatype Requirements = Requirements(
    minLength: bool, hasLowercase: bool, hasUppercase: bool, hasNumber: bool, hasSymbol: bool)

  /** What a report carries besides `isValid` and `errors`. */
  datatype Extra =
    | NoExtra
      /** The normalised value (email, username, phone, name). */
    | Value(value: string)
    | PasswordInfo(strength: Strength, requirements: Requirements)

  datatype Report = Report(isValid: bool, errors: seq<string>, extra: Extra)

  /** A validator's outcome: a returned report or an exception. */
  datatype Outcome =
    | Returned(report: Report)
    | ValidationThrow(message: string, field: string)
    | OtherThrow(message: string)

  const VALID := Report(true, [], NoExtra)

  /** The options object; absent keys take each validator's default. */
  datatype Options = Options(
    required: Option<bool>, field: Option<string>, throwOnError: bool, confirmPassword: Option<string>)

  const NO_OPTIONS := Options(None, None, false, None)

  /** A check of a validator: whether it failed, and its message. */
  type Check = (bool, string)

  /** The messages of the failed checks, in check order. */
  function Failures(checks: seq<Check>): (r: seq<string>)
    ensures |r| <= |checks|
    ensures r == [] <==> forall i :: 0 <= i < |checks| ==> !checks[i].0
    ensures forall m :: m in r <==> exists i :: 0 <= i < |checks| && checks[i].0 && checks[i].1 == m
  {
    if checks == [] then []
    else
      var rest := Failures(checks[1..]);
      assert forall i :: 1 <= i < |checks| ==> checks[i] == checks[1..][i - 1];
      (if checks[0].0 then [checks[0].1] else []) + rest
  }

  /** The first failed check's message is the first element of the list. */
  lemma {:induction false} FailuresHead(checks: seq<Check>, k: nat)
    requires k < |checks| && checks[k].0
    requires forall j :: 0 <= j < k ==> !checks[j].0
    ensures Failures(checks) != [] && Failures(checks)[0] == checks[k].1
  {
    if k > 0 {
      FailuresHead(checks[1..], k - 1);
    }
  }

  /**
   * The tail every non-empty validator shares: the report of the failed checks, or,
   * with `throwOnError`, the first of them thrown.
   */
  function Finish(checks: seq<Check>, throwOnError: bool, field: string, extra: Extra): (r: Outcome)
    ensures r.OtherThrow? == false
    ensures r.Returned? ==> r.report == Report(Failures(checks) == [], Failures(checks), extra)
    ensures r.ValidationThrow? <==> throwOnError && Failures(checks) != []
    ensures r.ValidationThrow? ==> r.message == Failures(checks)[0] && r.field == field
  {
    var errors := Failures(checks);
    if errors != [] && throwOnError then ValidationThrow(errors[0], field)
    else Returned(Report(errors == [], errors, extra))
  }

  /** An empty value: thrown when required, otherwise a plain valid report. */
  function Missing(required: bool, message: string, field: string): (r: Outcome)
    ensures required <==> r.ValidationThrow?
    ensures r.ValidationThrow? ==> r == ValidationThrow(message, field)
    ensures r.Returned? ==> r.report == VALID
  {
    if required then ValidationThrow(message, field) else Returned(VALID)
  }

  // ---------------------------------------------------------------------------
  // Field validators
  // ---------------------------------------------------------------------------

  const EMAIL_REQUIRED := "Email là bắt buộc"
  const EMAIL_TOO_LONG := "Email không được vượt quá 254 ký tự"
  const EMAIL_INVALID := "Định dạng email không hợp lệ"

  /** `validateEmail`: required by default; length, then pattern on the raw input; value lower-cased and trimmed. */
  function ValidateEmail(email: string, opts: Options): (r: Outcome)
    ensures email == "" ==> r == Missing(opts.required.GetOr(true), EMAIL_REQUIRED, opts.field.GetOr("email"))
    ensures email != "" ==> r == Finish(
      [(JsLength(email) > EMAIL_MAX_LENGTH, EMAIL_TOO_LONG), (!EmailRegex(email), EMAIL_INVALID)],
      opts.throwOnError, opts.field.GetOr("email"), Value(Trim(ToLower(email))))
    ensures r.Returned? && email != "" ==> (r.report.isValid <==> JsLength(email) <= EMAIL_MAX_LENGTH && EmailRegex(email))
  {
    var field := opts.field.GetOr("email");
    EmailScanMatchesRegex(email);
    if email == "" then Missing(opts.required.GetOr(true), EMAIL_REQUIRED, field)
    else
      var checks := [(JsLength(email) > EMAIL_MAX_LENGTH, EMAIL_TOO_LONG), (!IsEmail(email), EMAIL_INVALID)];
      assert Failures(checks) == [] <==> !checks[0].0 && !checks[1].0;
      Finish(checks, opts.throwOnError, field, Value(Trim(ToLower(email))))
  }

  const PASSWORD_REQUIRED := "Mật khẩu là bắt buộc"
  const PASSWORD_TOO_SHORT := "Mật khẩu phải có ít nhất 8 ký tự"
  const PASSWORD_TOO_LONG := "Mật khẩu không được vượt quá 128 ký tự"
  const PASSWORD_WEAK := "Mật khẩu phải chứa chữ hoa, chữ thường, số và ký tự đặc biệt"
  const PASSWORD_MISMATCH := "Mật khẩu xác nhận không khớp"

  /** The checks of `validatePassword`, in order. */
  function PasswordChecks(password: string, confirm: Option<string>): seq<Check> {
    [ (JsLength(password) < PASSWORD_MIN_LENGTH, PASSWORD_TOO_SHORT),
      (JsLength(password) > PASSWORD_MAX_LENGTH, PASSWORD_TOO_LONG),
      (!PasswordPatternTest(password), PASSWORD_WEAK),
      (confirm.Some? && confirm.value != password, PASSWORD_MISMATCH) ]
  }

  /**
   * `validatePassword`: required by default; every failed check is reported, the
   * mismatch only when a confirmation was given; the report carries the strength
   * and the requirement flags.
   */
  function ValidatePassword(password: string, opts: Options): (r: Outcome)
    ensures password == "" ==> r == Missing(opts.required.GetOr(true), PASSWORD_REQUIRED, opts.field.GetOr("password"))
    ensures password != "" ==> r == Finish(PasswordChecks(password, opts.confirmPassword), opts.throwOnError,
      opts.field.GetOr("password"),
      PasswordInfo(PasswordStrength(password), PasswordRequirements(password)))
    ensures r.Returned? && password != "" ==>
      (r.report.isValid <==> (PASSWORD_MIN_LENGTH <= JsLength(password) <= PASSWORD_MAX_LENGTH
        && PasswordPatternTest(password)
        && (opts.confirmPassword.None? || opts.confirmPassword.value == password)))
    ensures r.Returned? && password != "" ==>
      (PASSWORD_MISMATCH in r.report.errors <==> opts.confirmPassword.Some? && opts.confirmPassword.value != password)
  {
    var field := opts.field.GetOr("password");
    if password == "" then Missing(opts.required.GetOr(true), PASSWORD_REQUIRED, field)
    else
      PasswordChecksPass(password, opts.confirmPassword);
      Finish(PasswordChecks(password, opts.confirmPassword), opts.throwOnError, field,
        PasswordInfo(PasswordStrength(password), PasswordRequirements(password)))
  }

  /**
   * No password check fails exactly when the length is within bounds, the pattern
   * matches and any confirmation agrees; the mismatch is reported exactly when it differs.
   */
  lemma {:induction false} PasswordChecksPass(password: string, confirm: Option<string>)
    ensures Failures(PasswordChecks(password, confirm)) == [] <==>
      (PASSWORD_MIN_LENGTH <= JsLength(password) <= PASSWORD_MAX_LENGTH && PasswordPatternTest(password)
        && (confirm.None? || confirm.value == password))
    ensures PASSWORD_MISMATCH in Failures(PasswordChecks(password, confirm)) <==>
      confirm.Some? && confirm.value != password
  {
    var checks := PasswordChecks(password, confirm);
    assert Failures(checks) == [] <==> !checks[0].0 && !checks[1].0 && !checks[2].0 && !checks[3].0;
    assert PASSWORD_MISMATCH in Failures(checks) <==> checks[3].0;
  }

  const USERNAME_REQUIRED := "Tên đăng nhập là bắt buộc"
  const USERNAME_TOO_SHORT := "Tên đăng nhập phải có ít nhất 3 ký tự"
  const USERNAME_TOO_LONG := "Tên đăng nhập không được vượt quá 20 ký tự"
  const USERNAME_CHARS := "Tên đăng nhập chỉ được chứa chữ cái, số và dấu gạch dưới"
  const USERNAME_RESERVED_MSG := "Tên đăng nhập không được phép"

  /** The checks of `validateUsername`, on the normalised name, in order. */
  function UsernameChecks(n: string): seq<Check> {
    [ (JsLength(n) < USERNAME_MIN_LENGTH, USERNAME_TOO_SHORT),
      (JsLength(n) > USERNAME_MAX_LENGTH, USERNAME_TOO_LONG),
      (!UsernameCharsRegex(n), USERNAME_CHARS),
      (n in USERNAME_RESERVED, USERNAME_RESERVED_MSG) ]
  }

  /** A name of word characters is measured in characters. */
  lemma {:induction false} WordCharsLength(n: string)
    requires UsernameCharsRegex(n)
    ensures JsLength(n) == |n|
  {
    forall i | 0 <= i < |n| ensures n[i] as int <= 0xFFFF {
      assert IsWordChar(n[i]);
    }
  }

  /**
   * `validateUsername`: required by default; every check runs on the trimmed,
   * lower-cased name, which is also the returned value.
   */
  function ValidateUsername(username: string, opts: Options): (r: Outcome)
    ensures username == "" ==> r == Missing(opts.required.GetOr(true), USERNAME_REQUIRED, opts.field.GetOr("username"))
    ensures username != "" ==> r == Finish(UsernameChecks(Normalize(username)),
      opts.throwOnError, opts.field.GetOr("username"), Value(Normalize(username)))
    ensures r.Returned? && username != "" ==>
      (r.report.isValid <==> UsernameRegex(Normalize(username)) && Normalize(username) !in USERNAME_RESERVED)
  {
    var field := opts.field.GetOr("username");
    if username == "" then Missing(opts.required.GetOr(true), USERNAME_REQUIRED, field)
    else
      var n := Normalize(username);
      UsernameChecksPass(n);
      Finish(UsernameChecks(n), opts.throwOnError, field, Value(n))
  }

  /** No username check fails exactly when the name matches the username pattern and is not reserved. */
  lemma {:induction false} UsernameChecksPass(n: string)
    ensures Failures(UsernameChecks(n)) == [] <==> UsernameRegex(n) && n !in USERNAME_RESERVED
  {
    var checks := UsernameChecks(n);
    assert Failures(checks) == [] <==> !checks[0].0 && !checks[1].0 && !checks[2].0 && !checks[3].0;
    if UsernameCharsRegex(n) {
      WordCharsLength(n);
    }
  }

  const PHONE_REQUIRED := "Số điện thoại là bắt buộc"
  const PHONE_LENGTH_WRONG := "Số điện thoại phải có đúng 10 số"
  const PHONE_DIGITS_ONLY := "Số điện thoại chỉ được chứa các chữ số từ 0-9"
  const PHONE_PREFIX_WRONG := "Số điện thoại phải bắt đầu bằng 03, 05, 07, 08, 09"

  /** The checks of `validatePhone`, on the digit projection, in order. */
  function PhoneChecks(clean: string): seq<Check> {
    [ (|clean| != PHONE_LENGTH, PHONE_LENGTH_WRONG),
      (!PhoneRegex(clean), PHONE_DIGITS_ONLY),
      (!HasPhonePrefix(clean), PHONE_PREFIX_WRONG) ]
  }

  /**
   * `validatePhone`: optional by default; checks the digit projection, which is
   * also the returned value. A projection of the wrong length also fails the
   * ten-digit pattern, so both messages are reported; the pattern never fails alone.
   */
  function ValidatePhone(phone: string, opts: Options): (r: Outcome)
    ensures phone == "" ==> r == Missing(opts.required.GetOr(false), PHONE_REQUIRED, opts.field.GetOr("phone"))
    ensures phone != "" ==> r == Finish(PhoneChecks(Digits(phone)),
      opts.throwOnError, opts.field.GetOr("phone"), Value(Digits(phone)))
    ensures r.Returned? && phone != "" ==>
      (r.report.isValid <==> |Digits(phone)| == PHONE_LENGTH && HasPhonePrefix(Digits(phone)))
    ensures r.Returned? && phone != "" ==>
      (PHONE_DIGITS_ONLY in r.report.errors <==> PHONE_LENGTH_WRONG in r.report.errors)
  {
    var field := opts.field.GetOr("phone");
    if phone == "" then Missing(opts.required.GetOr(false), PHONE_REQUIRED, field)
    else
      var clean := Digits(phone);
      var checks := PhoneChecks(clean);
      assert Failures(checks) == [] <==> !checks[0].0 && !checks[1].0 && !checks[2].0;
      assert PHONE_DIGITS_ONLY in Failures(checks) <==> checks[1].0;
      assert PHONE_LENGTH_WRONG in Failures(checks) <==> checks[0].0;
      Finish(checks, opts.throwOnError, field, Value(clean))
  }

  /** The checks of `validateName`, on the trimmed name, in order. */
  function NameChecks(t: string, field: string): seq<Check> {
    [ (JsLength(t) < NAME_MIN_LENGTH, field + " phải có ít nhất 2 ký tự"),
      (JsLength(t) > NAME_MAX_LENGTH, field + " không được vượt quá 50 ký tự"),
      (!NameRegex(t), field + " chỉ được chứa chữ cái và khoảng trắng") ]
  }

  /** `validateName`: required by default; checks the trimmed name, which is also the returned value. */
  function ValidateName(name: string, opts: Options): (r: Outcome)
    ensures name == "" ==> r == Missing(opts.required.GetOr(true), opts.field.GetOr("name") + " là bắt buộc",
      opts.field.GetOr("name"))
    ensures name != "" ==> r == Finish(NameChecks(Trim(name), opts.field.GetOr("name")),
      opts.throwOnError, opts.field.GetOr("name"), Value(Trim(name)))
    ensures r.Returned? && name != "" ==>
      (r.report.isValid <==> NAME_MIN_LENGTH <= JsLength(Trim(name)) <= NAME_MAX_LENGTH && NameRegex(Trim(name)))
  {
    var field := opts.field.GetOr("name");
    if name == "" then Missing(opts.required.GetOr(true), field + " là bắt buộc", field)
    else
      var t := Trim(name);
      NameChecksPass(t, field);
      Finish(NameChecks(t, field), opts.throwOnError, field, Value(t))
  }

  /** No name check fails exactly when the length is within bounds and the name pattern matches. */
  lemma {:induction false} NameChecksPass(t: string, field: string)
    ensures Failures(NameChecks(t, field)) == [] <==>
      NAME_MIN_LENGTH <= JsLength(t) <= NAME_MAX_LENGTH && NameRegex(t)
  {
    var checks := NameChecks(t, field);
    assert Failures(checks) == [] <==> !checks[0].0 && !checks[1].0 && !checks[2].0;
  }

  /** The empty name fails the minimum length and the pattern, not the maximum length. */
  lemma EmptyNameFailures(field: string)
    ensures Failures(NameChecks("", field)) ==
      [field + " phải có ít nhất 2 ký tự", field + " chỉ được chứa chữ cái và khoảng trắng"]
  {
    var checks := NameChecks("", field);
    assert Failures(checks[2..]) == [checks[2].1] by {
      assert checks[2..][1..] == [];
    }
    assert Failures(checks[1..]) == [checks[2].1] by {
      assert checks[1..][1..] == checks[2..];
    }
  }

  /** A name of blanks only is not empty, so it is not "missing": it fails two checks instead. */
  lemma BlankNameReportsTwoErrors(field: string)
    ensures ValidateName("   ", Options(None, Some(field), false, None)) ==
      Returned(Report(false, [field + " phải có ít nhất 2 ký tự", field + " chỉ được chứa chữ cái và khoảng trắng"],
        Value("")))
  {
    assert All("   ", IsSpace);
    assert Trim("   ") == "";
    EmptyNameFailures(field);
  }

  /** `validateRequired(value, field)`: an empty or blank value always throws. */
  function ValidateRequired(value: string, field: string): (r: Outcome)
    ensures r.ValidationThrow? <==> All(value, IsSpace)
    ensures r.ValidationThrow? ==> r == ValidationThrow(field + " là bắt buộc", field)
    ensures r.Returned? ==> r.report == VALID
  {
    if value == "" || Trim(value) == "" then ValidationThrow(field + " là bắt buộc", field)
    else Returned(VALID)
  }

  // ---------------------------------------------------------------------------
  // Password strength
  // ---------------------------------------------------------------------------

  /** `[^A-Za-z0-9]` */
  predicate IsNonAlnum(c: char) { !IsAlnum(c) }

  function B2N(b: bool): nat { if b then 1 else 0 }

  /** `calculatePasswordStrength`: how many of six checks hold, and the level that count gives. */
  function PasswordStrength(password: string): (s: Strength)
    ensures s.score <= 6
    ensures s.score == B2N(s.checks.length) + B2N(s.checks.lowercase) + B2N(s.checks.uppercase)
      + B2N(s.checks.numbers) + B2N(s.checks.symbols) + B2N(s.checks.longLength)
    ensures s.checks.length <==> JsLength(password) >= 8
    ensures s.checks.longLength <==> JsLength(password) >= 12
    ensures s.checks.lowercase <==> Any(password, IsLower)
    ensures s.checks.uppercase <==> Any(password, IsUpper)
    ensures s.checks.numbers <==> Any(password, IsDigit)
    ensures s.checks.symbols <==> Any(password, IsNonAlnum)
    ensures s.level == Weak <==> s.score <= 2
    ensures s.level == Medium <==> 3 <= s.score <= 4
    ensures s.level == Strong <==> s.score >= 5
  {
    var checks := StrengthChecks(
      JsLength(password) >= 8, Any(password, IsLower), Any(password, IsUpper),
      Any(password, IsDigit), Any(password, IsNonAlnum), JsLength(password) >= 12);
    var score := B2N(checks.length) + B2N(checks.lowercase) + B2N(checks.uppercase)
      + B2N(checks.numbers) + B2N(checks.symbols) + B2N(checks.longLength);
    if score <= 2 then Strength(Weak, score, checks)
    else if score <= 4 then Strength(Medium, score, checks)
    else Strength(Strong, score, checks)
  }

  /** `getPasswordRequirements` */
  function PasswordRequirements(password: string): (q: Requirements)
    ensures q.minLength <==> JsLength(password) >= PASSWORD_MIN_LENGTH
    ensures q.hasLowercase <==> Any(password, IsLower)
    ensures q.hasUppercase <==> Any(password, IsUpper)
    ensures q.hasNumber <==> Any(password, IsDigit)
    ensures q.hasSymbol <==> Any(password, IsNonAlnum)
  {
    Requirements(JsLength(password) >= PASSWORD_MIN_LENGTH, Any(password, IsLower), Any(password, IsUpper),
      Any(password, IsDigit), Any(password, IsNonAlnum))
  }

  /** The strength score counts the five requirement flags plus the 12-character bonus. */
  lemma StrengthCountsRequirements(password: string)
    ensures var q := PasswordRequirements(password);
      PasswordStrength(password).score == B2N(q.minLength) + B2N(q.hasLowercase) + B2N(q.hasUppercase)
        + B2N(q.hasNumber) + B2N(q.hasSymbol) + B2N(JsLength(password) >= 12)
  {
  }

  /** A lookahead hit is a containment hit. */
  lemma {:induction false} LookaheadIsAny(s: string, p: char -> bool)
    requires Lookahead(s, p)
    ensures Any(s, p)
  {
  }

  /**
   * Every password the validator accepts is rated strong: the pattern's four
   * lookaheads and the length check already make five of the six checks true.
   */
  lemma {:induction false} AcceptedPasswordIsStrong(password: string, opts: Options)
    requires password != "" && ValidatePassword(password, opts).Returned?
    requires ValidatePassword(password, opts).report.isValid
    ensures PasswordStrength(password).level == Strong
  {
    PatternPasswordIsStrong(password);
  }

  /** A password of at least eight units that passes the pattern scores at least five. */
  lemma {:induction false} PatternPasswordIsStrong(password: string)
    requires JsLength(password) >= PASSWORD_MIN_LENGTH && PasswordPatternTest(password)
    ensures PasswordStrength(password).level == Strong
  {
    LookaheadIsAny(password, IsLower);
    LookaheadIsAny(password, IsUpper);
    LookaheadIsAny(password, IsDigit);
    var i :| 0 <= i < |password| && IsPasswordSymbol(password[i]) && NoLineBreakBefore(password, i);
    assert IsNonAlnum(password[i]);
  }

  // ---------------------------------------------------------------------------
  // Built-in dispatch and validateForm
  // ---------------------------------------------------------------------------

  /** The registered custom validators, by name. */
  type Registry = map<string, (string, Options) -> Outcome>

  /** `registerValidator(name, validator)`: the new validator replaces any of that name. */
  function RegisterValidator(custom: Registry, name: string, validator: (string, Options) -> Outcome): (r: Registry)
    ensures r.Keys == custom.Keys + {name}
    ensures forall n :: n in custom && n != name ==> r[n] == custom[n]
    ensures r[name] == validator
  {
    custom[name := validator]
  }

  /** `applyBuiltInValidator(name, value, options)` */
  function ApplyBuiltIn(name: string, value: string, opts: Options, custom: Registry): (r: Outcome)
    ensures name == "email" ==> r == ValidateEmail(value, opts)
    ensures name == "password" ==> r == ValidatePassword(value, opts)
    ensures name == "username" ==> r == ValidateUsername(value, opts)
    ensures name == "phone" ==> r == ValidatePhone(value, opts)
    ensures name == "required" ==>
      r == ValidateRequired(value, if opts.field.None? || opts.field.value == "" then "field" else opts.field.value)
    ensures name !in ["email", "password", "username", "phone", "required"] ==>
      r == (if name in custom then custom[name](value, opts) else OtherThrow("Unknown validator: " + name))
  {
    if name == "email" then ValidateEmail(value, opts)
    else if name == "password" then ValidatePassword(value, opts)
    else if name == "username" then ValidateUsername(value, opts)
    else if name == "phone" then ValidatePhone(value, opts)
    else if name == "required" then
      ValidateRequired(value, if opts.field.None? || opts.field.value == "" then "field" else opts.field.value)
    else if name in custom then custom[name](value, opts)
    else OtherThrow("Unknown validator: " + name)
  }

  /** `validateForm` names no validator `name`: the built-in table leaves it to the registry. */
  lemma NameValidatorIsNotBuiltIn(value: string, opts: Options)
    ensures ApplyBuiltIn("name", value, opts, map[]) == OtherThrow("Unknown validator: name")
  {
  }

  type Form = map<string, string>

  /** One entry of a field's rule list. */
  datatype RuleSpec =
    | Named(name: string)
    | Fn(check: (string, Form) -> Outcome)
      /** Neither a function nor a string: skipped. */
    | Ignored

  /** A schema: field names, in key order, each with its rule list. */
  type FormSchema = seq<(string, seq<RuleSpec>)>

  /** `formData[field]`, with an absent field read as `''`. */
  function Field(form: Form, name: string): string {
    if name in form then form[name] else ""
  }

  /** A rule that lets validation go on to the next one. */
  predicate Passes(o: Outcome) {
    o.Returned? && o.report.isValid
  }

  /** What a rule sees: the field's value, the whole form, the field name and the registry. */
  datatype Context = Context(value: string, form: Form, field: string, custom: Registry)

  /** What one rule yields on its own. */
  function RuleOutcome(rule: RuleSpec, ctx: Context): Outcome {
    match rule
    case Named(name) => ApplyBuiltIn(name, ctx.value, NO_OPTIONS.(field := Some(ctx.field)), ctx.custom)
    case Fn(check) => check(ctx.value, ctx.form)
    case Ignored => Returned(VALID)
  }

  /** What each rule yields on its own, in rule order. */
  function Outcomes(rules: seq<RuleSpec>, ctx: Context): (os: seq<Outcome>)
    ensures |os| == |rules|
  {
    seq(|rules|, j requires 0 <= j < |rules| => RuleOutcome(rules[j], ctx))
  }

  /** Every outcome passes. */
  ghost predicate AllPass(os: seq<Outcome>) {
    forall j :: 0 <= j < |os| ==> Passes(os[j])
  }

  /** Outcome `k` is the first that does not pass. */
  ghost predicate FirstStop(os: seq<Outcome>, k: int) {
    && 0 <= k < |os|
    && !Passes(os[k])
    && forall j :: 0 <= j < k ==> Passes(os[j])
  }

  /**
   * The inner rule loop: run the rules in order and stop at the first that does not
   * pass, whose outcome becomes the field's. When all pass, the field's result is
   * the last named rule's report (a passing function rule leaves it untouched).
   */
  function RunRules(rules: seq<RuleSpec>, ctx: Context, current: Report): (r: Outcome)
    requires current.isValid
    ensures Passes(r) <==> AllPass(Outcomes(rules, ctx))
    ensures !Passes(r) ==> exists k :: FirstStop(Outcomes(rules, ctx), k) && r == Outcomes(rules, ctx)[k]
  {
    if rules == [] then Returned(current)
    else
      var o := RuleOutcome(rules[0], ctx);
      var os := Outcomes(rules, ctx);
      assert os[0] == o;
      if !Passes(o) then
        assert FirstStop(os, 0);
        o
      else
        var next := if rules[0].Named? then o.report else current;
        var r := RunRules(rules[1..], ctx, next);
        assert Outcomes(rules[1..], ctx) == os[1..];
        RunRulesShift(os, r);
        r
  }

  /** The facts about the outcomes after the first carry over to all of them when the first passes. */
  lemma RunRulesShift(os: seq<Outcome>, r: Outcome)
    requires |os| > 0 && Passes(os[0])
    requires Passes(r) <==> AllPass(os[1..])
    requires !Passes(r) ==> exists k :: FirstStop(os[1..], k) && r == os[1..][k]
    ensures Passes(r) <==> AllPass(os)
    ensures !Passes(r) ==> exists k :: FirstStop(os, k) && r == os[k]
  {
    if AllPass(os[1..]) {
      forall j | 1 <= j < |os| ensures Passes(os[j]) {
        assert os[j] == os[1..][j - 1];
      }
    }
    if !Passes(r) {
      var k :| FirstStop(os[1..], k) && r == os[1..][k];
      forall j | 1 <= j <= k ensures os[j] == os[1..][j - 1] { }
      assert FirstStop(os, k + 1);
    }
  }

  /** A field's outcome: its rule list run from the initial passing result. */
  function FieldOutcome(form: Form, schema: FormSchema, custom: Registry, i: nat): Outcome
    requires i < |schema|
  {
    RunRules(schema[i].1, Context(Field(form, schema[i].0), form, schema[i].0, custom), VALID)
  }

  /**
   * What the form records for a field outcome: a report (as returned, or the caught
   * `ValidationError`'s message as the single error), or nothing when a different
   * exception was swallowed.
   */
  function Recorded(o: Outcome): Option<Report> {
    match o
    case Returned(rep) => Some(rep)
    case ValidationThrow(message, _) => Some(Report(false, [message], NoExtra))
    case OtherThrow(_) => None
  }

  /** The field fails the form. */
  predicate Fails(o: Outcome) {
    Recorded(o).Some? && !Recorded(o).value.isValid
  }

  /** `new ValidationError(undefined)` has the empty message. */
  function FirstOrEmpty(errors: seq<string>): string {
    if errors == [] then "" else errors[0]
  }

  /** The `ValidationError` `validateForm` rethrows for a failing field under `throwOnFirstError`. */
  function Rethrown(o: Outcome, field: string): (r: Outcome)
    requires Fails(o)
    ensures r.ValidationThrow?
  {
    match o
    case Returned(rep) => ValidationThrow(FirstOrEmpty(rep.errors), field)
    case ValidationThrow(_, _) => o
  }

  datatype FormOutcome =
    | FormReturned(isValid: bool, errors: map<string, seq<string>>, results: map<string, Report>)
    | FormThrew(error: Outcome)

  /** Outcome `k` is the first that fails. */
  ghost predicate FirstFailing(outs: seq<Outcome>, k: int) {
    && 0 <= k < |outs|
    && Fails(outs[k])
    && forall j :: 0 <= j < k ==> !Fails(outs[j])
  }

  /** Object keys are distinct. */
  predicate DistinctFields(schema: FormSchema) {
    forall i, j :: 0 <= i < j < |schema| ==> schema[i].0 != schema[j].0
  }

  /** Every field's outcome, in schema order. */
  function FieldOutcomes(form: Form, schema: FormSchema, custom: Registry): (os: seq<Outcome>)
    ensures |os| == |schema|
    ensures forall j :: 0 <= j < |schema| ==> os[j] == FieldOutcome(form, schema, custom, j)
  {
    seq(|schema|, j requires 0 <= j < |schema| => FieldOutcome(form, schema, custom, j))
  }

  /** The field names, in schema order. */
  function Names(schema: FormSchema): (names: seq<string>)
    ensures |names| == |schema|
    ensures forall j :: 0 <= j < |schema| ==> names[j] == schema[j].0
  {
    seq(|schema|, j requires 0 <= j < |schema| => schema[j].0)
  }

  /**
   * `validateForm(formData, schema, { throwOnFirstError })`: every field is visited in
   * order. A field is recorded in `results` unless a non-validation exception was
   * swallowed, and in `errors` exactly when it fails. With `throwOnFirstError` the
   * first failing field's error is thrown instead.
   */
  method ValidateForm(form: Form, schema: FormSchema, custom: Registry, throwOnFirstError: bool)
    returns (out: FormOutcome)
    requires DistinctFields(schema)
    ensures out.FormThrew? ==> throwOnFirstError && exists k :: (FirstFailing(FieldOutcomes(form, schema, custom), k)
      && out.error == Rethrown(FieldOutcome(form, schema, custom, k), schema[k].0))
    ensures out.FormReturned? ==> throwOnFirstError ==> forall j :: 0 <= j < |schema| ==> !Fails(FieldOutcome(form, schema, custom, j))
    ensures !throwOnFirstError ==> out.FormReturned?
    ensures out.FormReturned? ==>
      && (forall j :: 0 <= j < |schema| ==>
        && (schema[j].0 in out.results <==> Recorded(FieldOutcome(form, schema, custom, j)).Some?)
        && (schema[j].0 in out.results ==> out.results[schema[j].0] == Recorded(FieldOutcome(form, schema, custom, j)).value)
        && (schema[j].0 in out.errors <==> Fails(FieldOutcome(form, schema, custom, j)))
        && (schema[j].0 in out.errors ==> out.errors[schema[j].0] == Recorded(FieldOutcome(form, schema, custom, j)).value.errors))
      && (forall k :: k in out.results ==> exists j :: 0 <= j < |schema| && schema[j].0 == k)
      && out.errors.Keys <= out.results.Keys
      && (out.isValid <==> forall j :: 0 <= j < |schema| ==> !Fails(FieldOutcome(form, schema, custom, j)))
  {
    out := Collect(Names(schema), FieldOutcomes(form, schema, custom), throwOnFirstError);
  }

  /** The loop of `validateForm`, over the field names and their outcomes. */
  method Collect(names: seq<string>, outs: seq<Outcome>, throwOnFirstError: bool) returns (out: FormOutcome)
    requires |names| == |outs|
    requires forall i, j :: 0 <= i < j < |names| ==> names[i] != names[j]
    ensures out.FormThrew? ==> throwOnFirstError && exists k :: FirstFailing(outs, k) && out.error == Rethrown(outs[k], names[k])
    ensures out.FormReturned? ==> throwOnFirstError ==> forall j :: 0 <= j < |outs| ==> !Fails(outs[j])
    ensures !throwOnFirstError ==> out.FormReturned?
    ensures out.FormReturned? ==>
      && (forall j :: 0 <= j < |names| ==>
        && (names[j] in out.results <==> Recorded(outs[j]).Some?)
        && (names[j] in out.results ==> out.results[names[j]] == Recorded(outs[j]).value)
        && (names[j] in out.errors <==> Fails(outs[j]))
        && (names[j] in out.errors ==> out.errors[names[j]] == Recorded(outs[j]).value.errors))
      && (forall k :: k in out.results ==> exists j :: 0 <= j < |names| && names[j] == k)
      && out.errors.Keys <= out.results.Keys
      && (out.isValid <==> forall j :: 0 <= j < |outs| ==> !Fails(outs[j]))
  {
    var results: map<string, Report> := map[];
    var errors: map<string, seq<string>> := map[];
    var isValid := true;
    var n := 0;
    while n < |names|
      invariant 0 <= n <= |names|
      decreases |names| - n
      invariant throwOnFirstError ==> forall j :: 0 <= j < n ==> !Fails(outs[j])
      invariant forall j :: 0 <= j < n ==>
        && (names[j] in results <==> Recorded(outs[j]).Some?)
        && (names[j] in results ==> results[names[j]] == Recorded(outs[j]).value)
        && (names[j] in errors <==> Fails(outs[j]))
        && (names[j] in errors ==> errors[names[j]] == Recorded(outs[j]).value.errors)
      invariant forall j :: n <= j < |names| ==> names[j] !in results
      invariant forall k :: k in results ==> exists j :: 0 <= j < n && names[j] == k
      invariant errors.Keys <= results.Keys
      invariant isValid <==> forall j :: 0 <= j < n ==> !Fails(outs[j])
    {
      var field := names[n];
      var o := outs[n];
      if Recorded(o).Some? {
        var rep := Recorded(o).value;
        results := results[field := rep];
        if !rep.isValid {
          errors := errors[field := rep.errors];
          isValid := false;
          if throwOnFirstError {
            assert FirstFailing(outs, n);
            return FormThrew(Rethrown(o, field));
          }
        }
      }
      n := n + 1;
    }
    return FormReturned(isValid, errors, results);
  }
}
