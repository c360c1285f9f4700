/**
 * The contact form controller: three text fields, a per-field error map,
 * the validation rules, and the edit / submit / "send another" handlers.
 */
module Contact {
  import opened Wrappers
  import opened Text
  import opened EmailPattern

  /** The `name` attribute of each input, which the change handler dispatches on. */
  datatype Field = Name | Email | Message

  /** `formData`: the three field values. */
  datatype Form = Form(name: string, email: string, message: string)
  {
    function Get(f: Field): string
    {
      match f
      case Name => name
      case Email => email
      case Message => message
    }

    /** `{ ...prev, [f]: v }`: one field written, the others kept. */
    function With(f: Field, v: string): (r: Form)
      ensures r.Get(f) == v
      ensures forall g :: g != f ==> r.Get(g) == Get(g)
    {
      match f
      case Name => this.(name := v)
      case Email => this.(email := v)
      case Message => this.(message := v)
    }
  }

  const EmptyForm := Form("", "", "")

  const NameRequired := "Name is required"
  const EmailRequired := "Email is required"
  const EmailInvalid := "Please enter a valid email"
  const MessageRequired := "Message is required"

  /**
   * The error map: a key is absent, holds null (`None`, written by the change
   * handler) or holds a message.
   */
  type Errors = map<Field, Option<string>>

  /** JavaScript truthiness of `errors[f]`: absent, null and "" are all false. */
  predicate HasError(errors: Errors, f: Field)
    ensures WellFormedErrors(errors) ==> (HasError(errors, f) <==> f in errors && errors[f].Some?)
  {
    f in errors && errors[f].Some? && errors[f].value != ""
  }

  /** The one rule for field `f`: `None` when it passes, else its message. */
  function Rule(form: Form, f: Field): (r: Option<string>)
    ensures r in MessagesOf(f)
  {
    match f
    case Name => if Blank(form.name) then Some(NameRequired) else None
    case Email =>
      if Blank(form.email) then Some(EmailRequired)
      else if !Matches(form.email) then Some(EmailInvalid)
      else None
    case Message => if Blank(form.message) then Some(MessageRequired) else None
  }

  /** The error map validation installs: an entry for each failing field and nothing else. */
  function ExpectedErrors(form: Form): (e: Errors)
    ensures WellFormedErrors(e)
    ensures forall f :: f in e ==> e[f].Some?
  {
    map f | f in {Name, Email, Message} && Rule(form, f).Some? :: Rule(form, f)
  }

  /** The messages a field's entry can ever hold. */
  function MessagesOf(f: Field): set<Option<string>>
  {
    match f
    case Name => {None, Some(NameRequired)}
    case Email => {None, Some(EmailRequired), Some(EmailInvalid)}
    case Message => {None, Some(MessageRequired)}
  }

  predicate WellFormedErrors(errors: Errors)
  {
    forall f :: f in errors ==> errors[f] in MessagesOf(f)
  }

  /** What a submit attempt accepts: a name, a matching email and a message. */
  predicate Acceptable(form: Form)
    ensures Acceptable(form) ==> form.name != [] && form.message != [] && |form.email| >= 5
  {
    !Blank(form.name) && !Blank(form.email) && Matches(form.email) && !Blank(form.message)
  }

  /** Validation passes (leaves no error) exactly when the form is acceptable. */
  lemma NoErrorsIffAcceptable(form: Form)
    ensures ExpectedErrors(form) == map[] <==> Acceptable(form)
    ensures |ExpectedErrors(form)| == 0 <==> Acceptable(form)
  {
    ExpectedErrorsAt(form, Name);
    ExpectedErrorsAt(form, Email);
    ExpectedErrorsAt(form, Message);
  }

  /** Field `f` has an entry exactly when its rule fails, and the entry is that rule's message. */
  lemma ExpectedErrorsAt(form: Form, f: Field)
    ensures f in ExpectedErrors(form) <==> Rule(form, f).Some?
    ensures f in ExpectedErrors(form) ==> ExpectedErrors(form)[f] == Rule(form, f)
  {
  }

  /**
   * The map is replaced, not merged: each key is present exactly when that
   * field's rule failed, with that rule's fixed message.
   */
  lemma ExpectedErrorsEntries(form: Form)
    ensures Name in ExpectedErrors(form) <==> Blank(form.name)
    ensures Email in ExpectedErrors(form) <==> Blank(form.email) || !Matches(form.email)
    ensures Message in ExpectedErrors(form) <==> Blank(form.message)
  {
  }

  /** The name and message entries validation installs are their fixed messages. */
  lemma ExpectedErrorsWellFormed(form: Form)
    ensures Name in ExpectedErrors(form) ==> ExpectedErrors(form)[Name] == Some(NameRequired)
    ensures Message in ExpectedErrors(form) ==> ExpectedErrors(form)[Message] == Some(MessageRequired)
  {
  }

  /**
   * An empty or white-space-only email gets "Email is required", never
   * "Please enter a valid email"; a non-blank email that fails the pattern
   * gets only the latter.
   */
  lemma EmailErrorsExclusive(form: Form)
    ensures Blank(form.email) ==> ExpectedErrors(form)[Email] == Some(EmailRequired)
    ensures !Blank(form.email) && !Matches(form.email) ==> ExpectedErrors(form)[Email] == Some(EmailInvalid)
    ensures Email in ExpectedErrors(form) && ExpectedErrors(form)[Email] == Some(EmailInvalid) ==> !Blank(form.email)
  {
  }

  /**
   * The pattern sees the untrimmed value: white space at either end of an
   * otherwise non-blank email makes it invalid.
   */
  lemma PaddedEmailInvalid(form: Form)
    requires !Blank(form.email)
    requires IsSpace(form.email[0]) || IsSpace(form.email[|form.email| - 1])
    ensures ExpectedErrors(form)[Email] == Some(EmailInvalid)
  {
  }

  /** "not-an-email" is refused with the invalid-email message; "a@b.com" draws no email error. */
  lemma EmailExamples(form: Form)
    ensures form.email == "not-an-email" ==> ExpectedErrors(form)[Email] == Some(EmailInvalid)
    ensures form.email == "a@b.com" ==> Email !in ExpectedErrors(form)
  {
    ExpectedErrorsAt(form, Email);
    RejectsBareWord();
    AcceptsSimpleAddress();
    if form.email == "not-an-email" {
      assert !IsSpace(form.email[0]);
    }
  }

  /** The component's state: `formData`, `errors`, `isSubmitting`, `submitSuccess`. */
  class ContactForm {
    var formData: Form
    var errors: Errors
    var isSubmitting: bool
    var submitSuccess: bool

    /**
     * Between events no submission is in flight (each handler runs to the
     * end), and every error entry is null or one of its field's messages.
     */
    ghost predicate Valid()
      reads this
    {
      !isSubmitting && WellFormedErrors(errors)
    }

    constructor ()
      ensures Valid()
      ensures formData == EmptyForm && errors == map[]
      ensures !isSubmitting && !submitSuccess
    {
      formData := EmptyForm;
      errors := map[];
      isSubmitting := false;
      submitSuccess := false;
    }

    /**
     * `handleChange`: writes field `f`; if `f` showed an error, that entry
     * becomes null. Other values and entries are untouched.
     */
    method HandleChange(f: Field, value: string)
      requires Valid()
      modifies this`formData, this`errors
      ensures Valid()
      ensures formData == old(formData).With(f, value)
      ensures errors == if HasError(old(errors), f) then old(errors)[f := None] else old(errors)
      ensures !HasError(errors, f)
      ensures forall g :: g != f ==> formData.Get(g) == old(formData).Get(g)
      ensures forall g :: g != f ==> (g in errors <==> g in old(errors)) && (g in errors ==> errors[g] == old(errors)[g])
    {
      formData := formData.With(f, value);
      if HasError(errors, f) {
        errors := errors[f := None];
      }
    }

    /**
     * `validateForm`: builds a fresh error map rule by rule, installs it in
     * place of the old one, and reports whether it is empty.
     */
    method ValidateForm() returns (ok: bool)
      requires Valid()
      modifies this`errors
      ensures Valid()
      ensures errors == ExpectedErrors(formData)
      ensures ok <==> Acceptable(formData)
    {
      var newErrors: Errors := map[];
      if Blank(formData.name) {
        newErrors := newErrors[Name := Some(NameRequired)];
      }
      if Blank(formData.email) {
        newErrors := newErrors[Email := Some(EmailRequired)];
      } else if !Matches(formData.email) {
        newErrors := newErrors[Email := Some(EmailInvalid)];
      }
      if Blank(formData.message) {
        newErrors := newErrors[Message := Some(MessageRequired)];
      }
      errors := newErrors;
      ghost var expected := ExpectedErrors(formData);
      forall f ensures (f in newErrors <==> f in expected) && (f in newErrors ==> newErrors[f] == expected[f]) {
        ExpectedErrorsAt(formData, f);
      }
      assert errors == expected;
      NoErrorsIffAcceptable(formData);
      ok := |newErrors| == 0;
    }

    /**
     * `handleSubmit`: validates; on success marks the form submitting, hands
     * it to the submission collaborator (whose outcome is `delivered`), and on
     * delivery sets `submitSuccess` and clears the fields; `isSubmitting` is
     * cleared in every case. A failed validation changes only the errors.
     */
    method HandleSubmit(delivered: bool)
      requires Valid()
      modifies this
      ensures Valid()
      ensures errors == ExpectedErrors(old(formData))
      ensures !Acceptable(old(formData)) ==>
        formData == old(formData) && submitSuccess == old(submitSuccess) && isSubmitting == old(isSubmitting)
      ensures Acceptable(old(formData)) && delivered ==>
        submitSuccess && formData == EmptyForm && !isSubmitting
      ensures Acceptable(old(formData)) && !delivered ==>
        formData == old(formData) && submitSuccess == old(submitSuccess) && !isSubmitting
    {
      var ok := ValidateForm();
      if ok {
        isSubmitting := true;
        if delivered {
          submitSuccess := true;
          formData := EmptyForm;
        }
        isSubmitting := false;
      }
    }

    /** The "Send Another Message" button: clears `submitSuccess` and nothing else. */
    method SendAnother()
      requires Valid()
      modifies this`submitSuccess
      ensures Valid()
      ensures !submitSuccess
      ensures formData == old(formData) && errors == old(errors) && isSubmitting == old(isSubmitting)
    {
      submitSuccess := false;
    }
  }

  /**
   * The whole happy path: an acceptable form is submitted and delivered, then
   * "send another" leaves an empty form with no errors and no flags set.
   */
  method SubmitThenSendAnother(c: ContactForm)
    requires c.Valid() && Acceptable(c.formData)
    modifies c
    ensures c.Valid()
    ensures c.formData == EmptyForm && c.errors == map[]
    ensures !c.isSubmitting && !c.submitSuccess
  {
    NoErrorsIffAcceptable(c.formData);
    c.HandleSubmit(true);
    assert c.submitSuccess && c.formData == EmptyForm;
    c.SendAnother();
  }
}
