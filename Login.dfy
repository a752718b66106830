/**
 * The login and registration form (src/app/login/page.tsx): the e-mail shape check, the
 * per-field error messages in login and register mode, and the form's update rules.
 */
module Login {
  import opened Wrappers
  import opened Strings

  /**
   * The regular-expression class `\s` of ECMAScript: the WhiteSpace code points (tab, vertical
   * tab, form feed, space, no-break space, the byte order mark and the space separators) and the
   * LineTerminator code points.
   */
  predicate IsJsSpace(c: char) {
    || c == '\t' || c == '\U{000B}' || c == '\U{000C}' || c == ' ' || c == '\U{00A0}' || c == '\U{FEFF}'
    || c == '\U{1680}' || ('\U{2000}' <= c <= '\U{200A}') || c == '\U{202F}' || c == '\U{205F}' || c == '\U{3000}'
    || c == '\n' || c == '\r' || c == '\U{2028}' || c == '\U{2029}'
  }

  /** The class `[^\s@]`. */
  predicate EmailChar(c: char) {
    !IsJsSpace(c) && c != '@'
  }

  predicate AllEmailChars(t: string) {
    forall i :: 0 <= i < |t| ==> EmailChar(t[i])
  }

  /**
   * `/^[^\s@]+@[^\s@]+\.[^\s@]+$/`, read as the pattern's decomposition: a non-empty run of
   * `[^\s@]`, an `@` at `k`, a non-empty run, a `.` at `j`, a non-empty run, and nothing else.
   */
  ghost predicate MatchesEmailPattern(s: string) {
    exists k, j :: 0 < k && k + 1 < j && j + 1 < |s| && EmailShapeAt(s, k, j)
  }

  ghost predicate EmailShapeAt(s: string, k: int, j: int)
    requires 0 < k && k + 1 < j && j + 1 < |s|
  {
    && s[k] == '@' && s[j] == '.'
    && AllEmailChars(s[..k]) && AllEmailChars(s[k + 1..j]) && AllEmailChars(s[j + 1..])
  }

  /**
   * `validateEmail`, decided directly: the text before the first `@` is a non-empty run of
   * `[^\s@]`, the text after it is a run of `[^\s@]` with a `.` neither first nor last.
   */
  function ValidateEmail(email: string): (r: bool)
    ensures r ==> '@' in email && |email| >= 5
  {
    match FindFrom(email, "@", 0)
    case None => false
    case Some(k) =>
      var local, domain := email[..k], email[k + 1..];
      |local| > 0 && AllEmailChars(local) && AllEmailChars(domain) && |domain| >= 3 && '.' in domain[1..|domain| - 1]
  }

  lemma ValidImpliesPattern(s: string)
    requires ValidateEmail(s)
    ensures MatchesEmailPattern(s)
  {
    var k := FindFrom(s, "@", 0).value;
    OccursAtChar(s, '@', k);
    var domain := s[k + 1..];
    var inner := domain[1..|domain| - 1];
    var m :| 0 <= m < |inner| && inner[m] == '.';
    var j := k + 2 + m;
    assert s[j] == '.';
    assert s[k + 1..j] == domain[..m + 1];
    assert s[j + 1..] == domain[m + 2..];
    assert EmailShapeAt(s, k, j);
  }

  lemma PatternImpliesValid(s: string)
    requires MatchesEmailPattern(s)
    ensures ValidateEmail(s)
  {
    var k, j :| 0 < k && k + 1 < j && j + 1 < |s| && EmailShapeAt(s, k, j);
    forall i | 0 <= i < k ensures s[i] != '@' {
      assert s[..k][i] == s[i];
    }
    FindFromChar(s, '@', 0, k);
    var domain := s[k + 1..];
    forall i | 0 <= i < |domain| ensures EmailChar(domain[i]) {
      if i < j - k - 1 {
        assert domain[i] == s[k + 1..j][i];
      } else if i > j - k - 1 {
        assert domain[i] == s[j + 1..][i - (j - k)];
      }
    }
    assert domain[1..|domain| - 1][j - k - 2] == '.';
  }

  /** The direct check accepts exactly the strings the regular expression matches. */
  lemma ValidateEmailMatchesPattern(s: string)
    ensures ValidateEmail(s) <==> MatchesEmailPattern(s)
  {
    if ValidateEmail(s) {
      ValidImpliesPattern(s);
    }
    if MatchesEmailPattern(s) {
      PatternImpliesValid(s);
    }
  }

  /** The four inputs of the form, and equally the four error messages. */
  datatype FormFields = FormFields(email: string, password: string, confirmPassword: string, fullName: string)

  const Blank := FormFields("", "", "", "")

  /** The `name` attribute of an input. */
  datatype Field = Email | Password | ConfirmPassword | FullName

  function Get(r: FormFields, f: Field): string {
    match f
    case Email => r.email
    case Password => r.password
    case ConfirmPassword => r.confirmPassword
    case FullName => r.fullName
  }

  /** `{ ...r, [f]: v }`. */
  function With(r: FormFields, f: Field, v: string): FormFields {
    match f
    case Email => r.(email := v)
    case Password => r.(password := v)
    case ConfirmPassword => r.(confirmPassword := v)
    case FullName => r.(fullName := v)
  }

  /** Writing one field changes that field and no other. */
  lemma GetWith(r: FormFields, f: Field, v: string, g: Field)
    ensures Get(With(r, f, v), g) == if g == f then v else Get(r, g)
  {
  }

  const EmailRequired := "Email là bắt buộc"
  const EmailInvalid := "Email không hợp lệ"
  const PasswordRequired := "Mật khẩu là bắt buộc"
  const PasswordTooShort := "Mật khẩu phải có ít nhất 6 ký tự"
  const FullNameRequired := "Họ và tên là bắt buộc"
  const ConfirmRequired := "Xác nhận mật khẩu là bắt buộc"
  const ConfirmMismatch := "Mật khẩu xác nhận không khớp"

  /** The shortest password the form accepts, in UTF-16 code units. */
  const MinPasswordLength: nat := 6

  /** The messages `validateForm` assigns, field by field. */
  function Errors(form: FormFields, isLogin: bool): (r: FormFields)
    ensures r.email == "" || r.email == EmailRequired || r.email == EmailInvalid
    ensures r.password == "" || r.password == PasswordRequired || r.password == PasswordTooShort
    ensures r.confirmPassword == "" || r.confirmPassword == ConfirmRequired || r.confirmPassword == ConfirmMismatch
    ensures r.fullName == "" || r.fullName == FullNameRequired
  {
    FormFields(
      if form.email == "" then EmailRequired else if !ValidateEmail(form.email) then EmailInvalid else "",
      if form.password == "" then PasswordRequired else if Utf16Length(form.password) < MinPasswordLength then PasswordTooShort else "",
      if isLogin then "" else if form.confirmPassword == "" then ConfirmRequired
        else if form.password != form.confirmPassword then ConfirmMismatch else "",
      if isLogin || form.fullName != "" then "" else FullNameRequired)
  }

  /**
   * Each field's error is empty exactly when that field is acceptable; in login mode the name
   * and confirmation errors are always empty.
   */
  lemma ErrorsPerField(form: FormFields, isLogin: bool)
    ensures Errors(form, isLogin).email == "" <==> ValidateEmail(form.email)
    ensures Errors(form, isLogin).password == "" <==> Utf16Length(form.password) >= MinPasswordLength
    ensures isLogin ==> Errors(form, isLogin).fullName == "" && Errors(form, isLogin).confirmPassword == ""
    ensures !isLogin ==> (Errors(form, isLogin).fullName == "" <==> form.fullName != "")
    ensures !isLogin ==> (Errors(form, isLogin).confirmPassword == "" <==> form.confirmPassword != "" && form.confirmPassword == form.password)
  {
    assert !ValidateEmail("");
  }

  /** Every message is empty exactly when the form may be submitted. */
  lemma ErrorsClearIff(form: FormFields, isLogin: bool)
    ensures Errors(form, isLogin) == Blank <==>
      && ValidateEmail(form.email)
      && Utf16Length(form.password) >= MinPasswordLength
      && (!isLogin ==> form.fullName != "" && form.confirmPassword == form.password)
  {
    ErrorsPerField(form, isLogin);
  }

  /**
   * The length test counts UTF-16 code units: three characters outside the Basic Multilingual
   * Plane make six units and pass, while five plain characters do not.
   */
  lemma PasswordLengthInCodeUnits()
    ensures Errors(FormFields("", "\U{1F600}\U{1F600}\U{1F600}", "", ""), true).password == ""
    ensures Errors(FormFields("", "abcde", "", ""), true).password == PasswordTooShort
  {
    var astral := "\U{1F600}\U{1F600}\U{1F600}";
    assert astral[1..][1..][1..] == [];
    assert Utf16Length(astral) == 6;
    Utf16LengthBmp("abcde");
  }

  const DemoEmail := "demo@quizgen.com"
  const DemoPassword := "demo123"

  /** Lower-case ASCII letters are neither white space nor `@`. */
  lemma LettersAreEmailChars(t: string)
    requires forall i :: 0 <= i < |t| ==> 'a' <= t[i] <= 'z'
    ensures AllEmailChars(t)
  {
  }

  /** The demo e-mail has the pattern's shape: `demo`, `@`, `quizgen`, `.`, `com`. */
  lemma DemoEmailShape()
    ensures MatchesEmailPattern(DemoEmail)
  {
    assert DemoEmail[..4] == "demo" && DemoEmail[5..12] == "quizgen" && DemoEmail[13..] == "com";
    LettersAreEmailChars("demo");
    LettersAreEmailChars("quizgen");
    LettersAreEmailChars("com");
    assert EmailShapeAt(DemoEmail, 4, 12);
  }

  /** The demo account passes the checks in login mode. */
  lemma DemoAccountValid(form: FormFields)
    requires form.email == DemoEmail && form.password == DemoPassword
    ensures Errors(form, true) == Blank
  {
    assert ValidateEmail(form.email) by {
      DemoEmailShape();
      PatternImpliesValid(DemoEmail);
    }
    assert Utf16Length(form.password) >= MinPasswordLength by {
      assert |DemoPassword| == 7;
    }
    ErrorsClearIff(form, true);
  }

  /** The login page's form state. */
  class LoginPage {
    var formData: FormFields
    var errors: FormFields
    var isLogin: bool

    /** Login mode, every input and every message empty. */
    constructor ()
      ensures formData == Blank && errors == Blank && isLogin
    {
      formData := Blank;
      errors := Blank;
      isLogin := true;
    }

    /**
     * `validateForm`: builds the messages field by field, stores them, and reports whether
     * every message is empty.
     */
    method ValidateForm() returns (ok: bool)
      modifies this`errors
      ensures errors == Errors(formData, isLogin)
      ensures ok <==> errors == Blank
      ensures ok <==>
        && ValidateEmail(formData.email)
        && Utf16Length(formData.password) >= MinPasswordLength
        && (!isLogin ==> formData.fullName != "" && formData.confirmPassword == formData.password)
    {
      var newErrors := Blank;
      if formData.email == "" {
        newErrors := newErrors.(email := EmailRequired);
      } else if !ValidateEmail(formData.email) {
        newErrors := newErrors.(email := EmailInvalid);
      }
      assert newErrors == Blank.(email := Errors(formData, isLogin).email);
      if formData.password == "" {
        newErrors := newErrors.(password := PasswordRequired);
      } else if Utf16Length(formData.password) < MinPasswordLength {
        newErrors := newErrors.(password := PasswordTooShort);
      }
      assert newErrors == Blank.(email := Errors(formData, isLogin).email, password := Errors(formData, isLogin).password);
      if !isLogin {
        if formData.fullName == "" {
          newErrors := newErrors.(fullName := FullNameRequired);
        }
        if formData.confirmPassword == "" {
          newErrors := newErrors.(confirmPassword := ConfirmRequired);
        } else if formData.password != formData.confirmPassword {
          newErrors := newErrors.(confirmPassword := ConfirmMismatch);
        }
      }
      assert newErrors == Errors(formData, isLogin);
      errors := newErrors;
      ok := newErrors.email == "" && newErrors.password == "" && newErrors.confirmPassword == "" && newErrors.fullName == "";
      ErrorsClearIff(formData, isLogin);
    }

    /** `handleInputChange`: the named input takes the value and its message is cleared; the rest stays. */
    method HandleInputChange(name: Field, value: string)
      modifies this`formData, this`errors
      ensures formData == With(old(formData), name, value)
      ensures errors == With(old(errors), name, "")
      ensures forall g :: g != name ==> Get(formData, g) == Get(old(formData), g) && Get(errors, g) == Get(old(errors), g)
    {
      formData := With(formData, name, value);
      if Get(errors, name) != "" {
        errors := With(errors, name, "");
      } else {
        assert With(errors, name, "") == errors by {
          match name
          case Email =>
          case Password =>
          case ConfirmPassword =>
          case FullName =>
        }
      }
    }

    /** The demo button: the demo e-mail and password, the other inputs kept. */
    method FillDemo()
      modifies this`formData
      ensures formData == old(formData).(email := DemoEmail, password := DemoPassword)
      ensures Errors(formData, true) == Blank
    {
      formData := formData.(email := DemoEmail, password := DemoPassword);
      DemoAccountValid(formData);
    }

    /** The link under the form switches between login and register mode. */
    method ToggleMode()
      modifies this`isLogin
      ensures isLogin == !old(isLogin)
    {
      isLogin := !isLogin;
    }
  }
}
