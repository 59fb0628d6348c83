/**
 * The sign-up form: its field-by-field validation, which records one
 * message per invalid field, and the editing rule that clears a field's
 * message as soon as the field is changed.
 *
 * The page accepts usernames from 4 characters on while the server's
 * registration request allows 5 to 30; `UsernameErrorAsWritten` is the
 * page's rule, which the validation uses, and `UsernameError` is the
 * corrected rule that follows the server's.
 */
module Register {
  import opened Seqs
  import opened Strings

  datatype RegisterForm = RegisterForm(
    fullName: string,
    username: string,
    email: string,
    password: string,
    confirmPassword: string,
    phone: string,
    acceptTerms: bool)

  const EmptyForm := RegisterForm("", "", "", "", "", "", false)

  /** The form's inputs (their `name` attributes). */
  datatype Field = FullName | Username | Email | Password | ConfirmPassword | Phone | AcceptTerms

  /** Field to message; a field without a message is absent. */
  type Errors = map<Field, string>

  const FullNameMissing := "Vui lòng nhập họ tên"
  const UsernameMissing := "Vui lòng nhập tên đăng nhập"
  const UsernameTooShort := "Tên đăng nhập phải có ít nhất 4 ký tự"
  const UsernameLength := "Tên đăng nhập phải có từ 5 đến 30 ký tự"
  const EmailMissing := "Vui lòng nhập email"
  const EmailInvalid := "Email không hợp lệ"
  const PasswordMissing := "Vui lòng nhập mật khẩu"
  const PasswordTooShort := "Mật khẩu phải có ít nhất 6 ký tự"
  const PasswordsDiffer := "Mật khẩu xác nhận không khớp"
  const PhoneInvalid := "Số điện thoại không hợp lệ (10 số)"
  const TermsNotAccepted := "Bạn phải đồng ý với điều khoản sử dụng"

  /** The server's size rule for a new user's username: 5 to 30 characters. */
  predicate ServerAcceptsUsername(username: string)
  {
    5 <= |username| <= 30
  }

  /** The page's username rule as it is written: present, and at least 4 characters. */
  function UsernameErrorAsWritten(username: string): (e: Option<string>)
    ensures e.None? <==> !IsBlank(username) && |username| >= 4
  {
    TrimEmptyIffBlank(username);
    if Trim(username) == "" then Some(UsernameMissing)
    else if |username| < 4 then Some(UsernameTooShort)
    else None
  }

  /**
   * A 4-character username, and any longer than 30, passes the page and
   * is then refused by the server.
   */
  lemma UsernameGapAsWritten(username: string)
    requires !IsBlank(username) && (|username| == 4 || |username| > 30)
    ensures UsernameErrorAsWritten(username).None? && !ServerAcceptsUsername(username)
  {
  }

  lemma UsernameGapExample()
    ensures UsernameErrorAsWritten("abcd").None? && !ServerAcceptsUsername("abcd")
  {
    assert "abcd"[0] == 'a';
    UsernameGapAsWritten("abcd");
  }

  /** The username rule the server enforces, checked on the page. */
  function UsernameError(username: string): (e: Option<string>)
    ensures e.None? <==> !IsBlank(username) && ServerAcceptsUsername(username)
    ensures e == Some(UsernameMissing) <==> IsBlank(username)
  {
    TrimEmptyIffBlank(username);
    if Trim(username) == "" then Some(UsernameMissing)
    else if |username| < 5 || |username| > 30 then Some(UsernameLength)
    else None
  }

  /** The corrected rule refuses nothing the page accepted that the server would take. */
  lemma UsernameErrorRefinesAsWritten(username: string)
    ensures UsernameError(username).None? ==> UsernameErrorAsWritten(username).None?
    ensures UsernameError(username).None? ==> ServerAcceptsUsername(username)
  {
  }

  /**
   * `/^[^\s@]+@[^\s@]+\.[^\s@]+$/` read by positions: one "@" after a
   * non-empty start, a "." with text on both sides after it, no white space
   * and no other "@".
   */
  predicate EmailSplit(s: string, at: int, dot: int)
  {
    0 < at && at + 1 < dot < |s| - 1 && s[at] == '@' && s[dot] == '.' && NoSpace(s) &&
    forall k :: 0 <= k < |s| && s[k] == '@' ==> k == at
  }

  ghost predicate EmailShape(s: string)
  {
    exists at, dot :: EmailSplit(s, at, dot)
  }

  /** The pattern test as the page runs it: the only "@", then the first "." that leaves text on its left. */
  function EmailMatches(s: string): bool
  {
    var at := IndexOfChar(s, '@');
    0 < at && LastIndexOfChar(s, '@') == at && NoSpace(s) &&
    var dot := IndexOfCharFrom(s, '.', at + 2);
    0 <= dot < |s| - 1
  }

  lemma EmailMatchesShape(s: string)
    ensures EmailMatches(s) <==> EmailShape(s)
  {
    var at := IndexOfChar(s, '@');
    if EmailMatches(s) {
      var dot := IndexOfCharFrom(s, '.', at + 2);
      assert EmailSplit(s, at, dot);
    }
    if EmailShape(s) {
      var a, d :| EmailSplit(s, a, d);
      assert at == a;
      assert LastIndexOfChar(s, '@') == a;
      assert s[d] == '.';
    }
  }

  /** `/^[0-9]{10}$/`. */
  predicate PhoneShape(s: string)
  {
    |s| == 10 && forall i :: 0 <= i < |s| ==> IsDigit(s[i])
  }

  /** The full name's check: present after trimming. */
  function FullNameMessage(fullName: string): (m: Option<string>)
    ensures m.Some? <==> IsBlank(fullName)
    ensures m.Some? ==> m.value == FullNameMissing
  {
    TrimEmptyIffBlank(fullName);
    if Trim(fullName) == "" then Some(FullNameMissing) else None
  }

  /** The email's check: present after trimming, then matching the pattern. */
  function EmailMessage(email: string): (m: Option<string>)
    ensures m.Some? <==> IsBlank(email) || !EmailShape(email)
    ensures m == Some(EmailMissing) <==> IsBlank(email)
    ensures m.Some? ==> m.value in {EmailMissing, EmailInvalid}
  {
    TrimEmptyIffBlank(email);
    EmailMatchesShape(email);
    if Trim(email) == "" then Some(EmailMissing)
    else if !EmailMatches(email) then Some(EmailInvalid)
    else None
  }

  /** The password's check: present, and at least 6 characters. */
  function PasswordMessage(password: string): (m: Option<string>)
    ensures m.Some? <==> |password| < 6
    ensures m == Some(PasswordMissing) <==> password == ""
  {
    if password == "" then Some(PasswordMissing)
    else if |password| < 6 then Some(PasswordTooShort)
    else None
  }

  /** The message `validateForm` records for one field of a form, if any. */
  function Message(form: RegisterForm, field: Field): (m: Option<string>)
    ensures field == Username ==> (m.Some? <==> IsBlank(form.username) || |form.username| < 4)
    ensures field == ConfirmPassword ==> (m.Some? <==> form.password != form.confirmPassword)
    ensures field == Phone ==> (m.Some? <==> form.phone != "" && !PhoneShape(form.phone))
    ensures field == AcceptTerms ==> (m.Some? <==> !form.acceptTerms)
  {
    match field
    case FullName => FullNameMessage(form.fullName)
    case Username => UsernameErrorAsWritten(form.username)
    case Email => EmailMessage(form.email)
    case Password => PasswordMessage(form.password)
    case ConfirmPassword => if form.password != form.confirmPassword then Some(PasswordsDiffer) else None
    case Phone => if form.phone != "" && !PhoneShape(form.phone) then Some(PhoneInvalid) else None
    case AcceptTerms => if !form.acceptTerms then Some(TermsNotAccepted) else None
  }

  /** The errors hold exactly the fields that have a message, with that message. */
  predicate Reports(form: RegisterForm, errors: Errors)
  {
    forall f: Field :: (f in errors <==> Message(form, f).Some?) && (f in errors ==> errors[f] == Message(form, f).value)
  }

  /** Every field is acceptable to the page. */
  ghost predicate Acceptable(form: RegisterForm)
  {
    && !IsBlank(form.fullName)
    && !IsBlank(form.username) && |form.username| >= 4
    && !IsBlank(form.email) && EmailShape(form.email)
    && |form.password| >= 6 && form.password == form.confirmPassword
    && (form.phone == "" || PhoneShape(form.phone))
    && form.acceptTerms
  }

  /** A form draws no message at all exactly when every field is acceptable. */
  lemma NoMessageIffAcceptable(form: RegisterForm)
    ensures (forall f: Field :: Message(form, f).None?) <==> Acceptable(form)
  {
    if !Acceptable(form) {
      if Message(form, FullName).Some? {
      } else if Message(form, Username).Some? {
      } else if Message(form, Email).Some? {
      } else if Message(form, Password).Some? {
      } else if Message(form, ConfirmPassword).Some? {
      } else if Message(form, Phone).Some? {
      } else {
        assert Message(form, AcceptTerms).Some?;
      }
    }
  }

  /**
   * A form the page accepts can still carry a username the server refuses:
   * the page passes it on exactly when the name is 4 characters long or
   * longer than 30.
   */
  lemma AcceptedFormRefusedByServer(form: RegisterForm)
    requires Acceptable(form)
    ensures !ServerAcceptsUsername(form.username) <==> |form.username| == 4 || |form.username| > 30
    ensures !ServerAcceptsUsername(form.username) ==> Message(form, Username).None?
  {
  }

  /** The checks of `validateForm` in its order, each adding its field's message when it fails. */
  method NoteAll(message: Field -> Option<string>) returns (errors: Errors)
    ensures forall f: Field :: (f in errors <==> message(f).Some?) && (f in errors ==> errors[f] == message(f).value)
  {
    errors := map[];
    if message(FullName).Some? {
      errors := errors[FullName := message(FullName).value];
    }
    if message(Username).Some? {
      errors := errors[Username := message(Username).value];
    }
    if message(Email).Some? {
      errors := errors[Email := message(Email).value];
    }
    if message(Password).Some? {
      errors := errors[Password := message(Password).value];
    }
    if message(ConfirmPassword).Some? {
      errors := errors[ConfirmPassword := message(ConfirmPassword).value];
    }
    if message(Phone).Some? {
      errors := errors[Phone := message(Phone).value];
    }
    if message(AcceptTerms).Some? {
      errors := errors[AcceptTerms := message(AcceptTerms).value];
    }
    forall f: Field
      ensures (f in errors <==> message(f).Some?) && (f in errors ==> errors[f] == message(f).value)
    {
      match f
      case FullName =>
      case Username =>
      case Email =>
      case Password =>
      case ConfirmPassword =>
      case Phone =>
      case AcceptTerms =>
    }
  }

  /** `validateForm`: a message per failed check, added field by field; valid when none was added. */
  method ValidateForm(form: RegisterForm) returns (errors: Errors, valid: bool)
    ensures Reports(form, errors)
    ensures valid <==> Acceptable(form)
    ensures valid <==> errors == map[]
  {
    errors := NoteAll(f => Message(form, f));
    valid := |errors| == 0;
    NoMessageIffAcceptable(form);
    if !valid {
      var f :| f in errors;
    }
  }

  /** The report of a form is determined by the form. */
  lemma ReportsUnique(form: RegisterForm, e1: Errors, e2: Errors)
    requires Reports(form, e1) && Reports(form, e2)
    ensures e1 == e2
  {
    assert e1.Keys == e2.Keys;
  }

  /** The form with a text input's new value; the terms box is a checkbox and keeps its value. */
  function WithText(form: RegisterForm, field: Field, value: string): (r: RegisterForm)
    ensures field == AcceptTerms ==> r == form
  {
    match field
    case FullName => form.(fullName := value)
    case Username => form.(username := value)
    case Email => form.(email := value)
    case Password => form.(password := value)
    case ConfirmPassword => form.(confirmPassword := value)
    case Phone => form.(phone := value)
    case AcceptTerms => form
  }

  /**
   * The error map after editing a field: a shown message is dropped (set to
   * `undefined`, which reads like an absent entry); nothing else changes,
   * and no message is shown for the field afterwards.
   */
  function Cleared(errors: Errors, field: Field): (r: Errors)
    ensures field in r ==> r[field] == ""
    ensures forall f :: f != field ==> (f in r <==> f in errors) && (f in r ==> r[f] == errors[f])
  {
    if field in errors && errors[field] != "" then errors - {field} else errors
  }

  /** The page's state: the form and the messages shown. */
  class RegisterPage {
    var form: RegisterForm
    var errors: Errors

    constructor()
      ensures form == EmptyForm && errors == map[]
    {
      form := EmptyForm;
      errors := map[];
    }

    /** `handleChange` for a text input. */
    method HandleText(field: Field, value: string)
      modifies this
      ensures form == WithText(old(form), field, value)
      ensures errors == Cleared(old(errors), field)
    {
      form := WithText(form, field, value);
      if field in errors && errors[field] != "" {
        errors := errors - {field};
      }
    }

    /** `handleChange` for the terms checkbox. */
    method HandleTerms(checked: bool)
      modifies this
      ensures form == old(form).(acceptTerms := checked)
      ensures errors == Cleared(old(errors), AcceptTerms)
    {
      form := form.(acceptTerms := checked);
      if AcceptTerms in errors && errors[AcceptTerms] != "" {
        errors := errors - {AcceptTerms};
      }
    }

    /** `validateForm`, whose messages replace the shown ones. */
    method Validate() returns (valid: bool)
      modifies this
      ensures form == old(form) && Reports(form, errors)
      ensures valid <==> Acceptable(form)
    {
      errors, valid := ValidateForm(form);
    }
  }
}
