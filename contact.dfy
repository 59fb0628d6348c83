/**
 * The contact form: its validation, the editing rule that blanks a field's
 * message when the field changes, and the reset after a message is sent.
 *
 * Sending the message is a call to the server; its outcome is the
 * parameter `sent`.
 */
module Contact {
  import opened Seqs
  import opened Strings

  datatype ContactForm = ContactForm(name: string, email: string, subject: string, message: string)

  const EmptyForm := ContactForm("", "", "", "")

  /** The form's inputs (their `name` attributes). */
  datatype Field = Name | Email | Subject | Body

  /** Field to message; a message set to "" is shown as nothing. */
  type Errors = map<Field, string>

  const NameMissing := "Vui lòng nhập họ tên"
  const EmailMissing := "Vui lòng nhập email"
  const EmailInvalid := "Email không hợp lệ"
  const SubjectMissing := "Vui lòng nhập tiêu đề"
  const BodyMissing := "Vui lòng nhập nội dung tin nhắn"

  /**
   * `/^\S+@\S+\.\S+$/` read by positions: no white space, an "@" after a
   * non-empty start and a "." with text on both sides after it.
   */
  predicate EmailSplit(s: string, at: int, dot: int)
  {
    0 < at && at + 1 < dot < |s| - 1 && s[at] == '@' && s[dot] == '.' && NoSpace(s)
  }

  ghost predicate EmailShape(s: string)
  {
    exists at, dot :: EmailSplit(s, at, dot)
  }

  /** The pattern test: the first "@" that is not the first character, then the first "." leaving text on its left. */
  function EmailMatches(s: string): bool
  {
    var at := IndexOfCharFrom(s, '@', 1);
    0 < at && NoSpace(s) &&
    var dot := IndexOfCharFrom(s, '.', at + 2);
    0 <= dot < |s| - 1
  }

  lemma EmailMatchesShape(s: string)
    ensures EmailMatches(s) <==> EmailShape(s)
  {
    var at := IndexOfCharFrom(s, '@', 1);
    if EmailMatches(s) {
      var dot := IndexOfCharFrom(s, '.', at + 2);
      assert EmailSplit(s, at, dot);
    }
    if EmailShape(s) {
      var a, d :| EmailSplit(s, a, d);
      assert 0 < at <= a;
      assert s[d] == '.';
    }
  }

  /** A message that a field needs when it is blank after trimming. */
  function Required(value: string, missing: string): (m: Option<string>)
    ensures m.Some? <==> IsBlank(value)
    ensures m.Some? ==> m.value == missing
  {
    TrimEmptyIffBlank(value);
    if Trim(value) == "" then Some(missing) else None
  }

  /** The email's check: present after trimming, then matching the pattern. */
  function EmailMessage(email: string): (m: Option<string>)
    ensures m.Some? <==> IsBlank(email) || !EmailShape(email)
    ensures m == Some(EmailMissing) <==> IsBlank(email)
    ensures m.Some? ==> m.value in {EmailMissing, EmailInvalid}
  {
    TrimEmptyIffBlank(email);
    EmailMatchesShape(email);
    if Trim(email) == "" then Some(EmailMissing)
    else if !EmailMatches(email) then Some(EmailInvalid)
    else None
  }

  /** The message `validateForm` records for one field, if any. */
  function Message(form: ContactForm, field: Field): Option<string>
  {
    match field
    case Name => Required(form.name, NameMissing)
    case Email => EmailMessage(form.email)
    case Subject => Required(form.subject, SubjectMissing)
    case Body => Required(form.message, BodyMissing)
  }

  /** The errors hold exactly the fields that have a message, with that message. */
  predicate Reports(form: ContactForm, errors: Errors)
  {
    forall f: Field :: (f in errors <==> Message(form, f).Some?) && (f in errors ==> errors[f] == Message(form, f).value)
  }

  /** Every field is acceptable: name, subject and message present, the email present and well formed. */
  ghost predicate Acceptable(form: ContactForm)
  {
    !IsBlank(form.name) && !IsBlank(form.email) && EmailShape(form.email) &&
    !IsBlank(form.subject) && !IsBlank(form.message)
  }

  lemma NoMessageIffAcceptable(form: ContactForm)
    ensures (forall f: Field :: Message(form, f).None?) <==> Acceptable(form)
  {
    if !Acceptable(form) {
      if Message(form, Name).Some? {
      } else if Message(form, Email).Some? {
      } else if Message(form, Subject).Some? {
      } else {
        assert Message(form, Body).Some?;
      }
    }
  }

  /** The checks of `validateForm` in its order, each adding its field's message when it fails. */
  method NoteAll(message: Field -> Option<string>) returns (errors: Errors)
    ensures forall f: Field :: (f in errors <==> message(f).Some?) && (f in errors ==> errors[f] == message(f).value)
  {
    errors := map[];
    if message(Name).Some? {
      errors := errors[Name := message(Name).value];
    }
    if message(Email).Some? {
      errors := errors[Email := message(Email).value];
    }
    if message(Subject).Some? {
      errors := errors[Subject := message(Subject).value];
    }
    if message(Body).Some? {
      errors := errors[Body := message(Body).value];
    }
    forall f: Field
      ensures (f in errors <==> message(f).Some?) && (f in errors ==> errors[f] == message(f).value)
    {
      match f
      case Name =>
      case Email =>
      case Subject =>
      case Body =>
    }
  }

  /** `validateForm`: valid when no message was added. */
  method ValidateForm(form: ContactForm) returns (errors: Errors, valid: bool)
    ensures Reports(form, errors)
    ensures valid <==> Acceptable(form)
    ensures valid <==> errors == map[]
  {
    errors := NoteAll(f => Message(form, f));
    valid := |errors| == 0;
    NoMessageIffAcceptable(form);
    if !valid {
      var f :| f in errors;
    }
  }

  /** The form with an input's new value. */
  function WithValue(form: ContactForm, field: Field, value: string): (r: ContactForm)
  {
    match field
    case Name => form.(name := value)
    case Email => form.(email := value)
    case Subject => form.(subject := value)
    case Body => form.(message := value)
  }

  /** The value an input shows. */
  function ValueOf(form: ContactForm, field: Field): string
  {
    match field
    case Name => form.name
    case Email => form.email
    case Subject => form.subject
    case Body => form.message
  }

  /** Writing an input changes that input only. */
  lemma WithValueSpec(form: ContactForm, field: Field, value: string)
    ensures ValueOf(WithValue(form, field, value), field) == value
    ensures forall g :: g != field ==> ValueOf(WithValue(form, field, value), g) == ValueOf(form, g)
  {
  }

  /** The errors after editing a field: a shown message becomes ""; nothing else changes. */
  function Blanked(errors: Errors, field: Field): (r: Errors)
    ensures field in r <==> field in errors
    ensures field in r ==> r[field] == ""
    ensures forall f :: f != field ==> (f in r <==> f in errors) && (f in r ==> r[f] == errors[f])
  {
    if field in errors && errors[field] != "" then errors[field := ""] else errors
  }

  /** The page's state: the form and the messages shown. */
  class ContactPage {
    var form: ContactForm
    var errors: Errors

    constructor()
      ensures form == EmptyForm && errors == map[]
    {
      form := EmptyForm;
      errors := map[];
    }

    /** `handleChange`. */
    method HandleChange(field: Field, value: string)
      modifies this
      ensures form == WithValue(old(form), field, value)
      ensures errors == Blanked(old(errors), field)
    {
      form := WithValue(form, field, value);
      if field in errors && errors[field] != "" {
        errors := errors[field := ""];
      }
    }

    /**
     * `handleSubmit`: validate; a valid form is sent, and once it has been
     * sent all four fields are emptied. A form that fails to send is kept.
     */
    method HandleSubmit(sent: bool) returns (valid: bool)
      modifies this
      ensures Reports(old(form), errors)
      ensures valid <==> Acceptable(old(form))
      ensures form == if valid && sent then EmptyForm else old(form)
    {
      errors, valid := ValidateForm(form);
      if valid && sent {
        form := EmptyForm;
      }
    }
  }
}
