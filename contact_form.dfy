/**
 * The contact form in the browser: its five text inputs, the error record it shows
 * under them, `validateForm` and the part of `handleChange` that updates a field
 * and clears that field's error. The client checks less than the server does:
 * whatever the server accepts, the client accepts too.
 */
module ContactForm {
  import opened JsRuntime
  import opened EmailPattern
  import opened ContactRoute

  /** The form's state: one string per input, all empty at first. */
  datatype FormData = FormData(name: string, email: string, company: string, mrr: string, message: string)
  {
    /** The input named `f`. */
    function Get(f: Field): string {
      match f
      case Name => name
      case Email => email
      case Company => company
      case Mrr => mrr
      case Message => message
    }

    /** `{...prev, [f]: value}`: input `f` holds `value`, every other input keeps its text. */
    function With(f: Field, value: string): (r: FormData)
      ensures r.Get(f) == value
      ensures forall g :: g != f ==> r.Get(g) == Get(g)
    {
      match f
      case Name => this.(name := value)
      case Email => this.(email := value)
      case Company => this.(company := value)
      case Mrr => this.(mrr := value)
      case Message => this.(message := value)
    }
  }

  const EmptyForm := FormData("", "", "", "", "")

  /** The messages `validateForm` can show, one constructor per string literal of the component. */
  datatype ClientMessage =
    | NameIsRequired
    | EmailIsRequired
    | EnterValidEmail
    | CompanyNameIsRequired
    | SelectMrrRange
  {
    /** The wording shown under the input. */
    function Text(): string {
      match this
      case NameIsRequired => "Name is required"
      case EmailIsRequired => "Email is required"
      case EnterValidEmail => "Please enter a valid email"
      case CompanyNameIsRequired => "Company name is required"
      case SelectMrrRange => "Please select your MRR range"
    }
  }

  /**
   * The error record `validateForm` builds: `name` and `company` must not be blank,
   * `email` must not be blank and must match the pattern (tested on the untrimmed
   * text), `mrr` must not be empty. There are no length limits, no closed set for
   * `mrr`, and the message is never checked.
   */
  function ClientErrors(form: FormData): (e: map<Field, ClientMessage>)
    ensures Message !in e
    ensures (Name in e <==> IsBlank(form.name)) && (Name in e ==> e[Name] == NameIsRequired)
    ensures (Email in e <==> IsBlank(form.email) || !IsEmail(form.email))
    ensures Email in e ==> e[Email] == if IsBlank(form.email) then EmailIsRequired else EnterValidEmail
    ensures (Company in e <==> IsBlank(form.company)) && (Company in e ==> e[Company] == CompanyNameIsRequired)
    ensures (Mrr in e <==> form.mrr == "") && (Mrr in e ==> e[Mrr] == SelectMrrRange)
  {
    var e := if IsBlank(form.name) then map[Name := NameIsRequired] else map[];
    var e := if IsBlank(form.email) then e[Email := EmailIsRequired]
             else if !IsEmail(form.email) then e[Email := EnterValidEmail]
             else e;
    var e := if IsBlank(form.company) then e[Company := CompanyNameIsRequired] else e;
    if form.mrr == "" then e[Mrr := SelectMrrRange] else e
  }

  /** The form passes exactly when every required input is filled and the address matches the regular expression. */
  lemma ClientAcceptsIff(form: FormData)
    ensures ClientErrors(form) == map[] <==>
      !IsBlank(form.name) && MatchesRegex(form.email) && !IsBlank(form.company) && form.mrr != ""
  {
    IsEmailMatchesRegex(form.email);
    MatchingNotBlank(Str(form.email));
    var e := ClientErrors(form);
    if e != map[] {
      var f :| f in e;
    }
  }

  /** What the form posts, read by the server as a JSON body. */
  function AsSubmission(form: FormData, captchaToken: Value, honeypot: Value): Submission {
    Submission(Str(form.name), Str(form.email), Str(form.company), Str(form.mrr), Str(form.message),
               captchaToken, honeypot)
  }

  /**
   * Every field the client flags, the server flags as well; so a form the server
   * would accept is one the client lets through.
   */
  lemma ServerValidImpliesClientValid(form: FormData, captchaToken: Value, honeypot: Value)
    ensures var server := ValidateFormData(AsSubmission(form, captchaToken, honeypot));
      && (forall f | f in ClientErrors(form) :: f in server.errors)
      && (server.valid ==> ClientErrors(form) == map[])
  {
    var d := AsSubmission(form, captchaToken, honeypot);
    var server := ValidateFormData(d);
    var e := ClientErrors(form);
    assert "" !in ValidMrrRanges;
    forall f | f in e ensures f in server.errors {
      match f
      case Name =>
      case Email =>
      case Company =>
      case Mrr =>
      case Message =>
    }
  }

  /** `a@b.co` matches the e-mail pattern. */
  lemma SampleAddressMatches()
    ensures IsEmail("a@b.co")
  {
    var s := "a@b.co";
    assert s[..1] == "a" && s[2..3] == "b" && s[4..] == "co";
    RegexToScanner(s, 1, 3);
  }

  /**
   * On a form the client lets through, the server adds only its own rules: the
   * length limits on `name`, `email`, `company` and `message`, and the closed set
   * of `mrr` ranges.
   */
  lemma ServerOnClientAccepted(form: FormData, captchaToken: Value, honeypot: Value)
    requires ClientErrors(form) == map[]
    ensures var errors := ValidateFormData(AsSubmission(form, captchaToken, honeypot)).errors;
      && (Name in errors <==> |form.name| > 100) && (Name in errors ==> errors[Name] == NameTooLong)
      && (Email in errors <==> |form.email| > 255) && (Email in errors ==> errors[Email] == EmailTooLong)
      && (Company in errors <==> |form.company| > 100) && (Company in errors ==> errors[Company] == CompanyTooLong)
      && (Mrr in errors <==> form.mrr !in ValidMrrRanges) && (Mrr in errors ==> errors[Mrr] == InvalidMrr)
      && (Message in errors <==> |form.message| > 1000) && (Message in errors ==> errors[Message] == MessageTooLong)
  {
    var e := ClientErrors(form);
    assert Name !in e && Email !in e && Company !in e && Mrr !in e;
  }

  /** Filled-in name and company, a matching address and a chosen range pass the client. */
  lemma FilledFormPasses(form: FormData)
    requires !IsBlank(form.name) && IsEmail(form.email) && !IsBlank(form.company) && form.mrr != ""
    ensures ClientErrors(form) == map[]
  {
    MatchingNotBlank(Str(form.email));
    SameErrors(ClientErrors(form), map[]);
  }

  /**
   * The converse of `ServerValidImpliesClientValid` fails: with any matching
   * address (`a@b.co` is one, by `SampleAddressMatches`), a form whose `mrr` is
   * outside the four ranges passes the client and is rejected by the server.
   */
  lemma ClientIsWeaker(email: string, captchaToken: Value, honeypot: Value)
    requires IsEmail(email)
    ensures var form := FormData("Ann", email, "Acme", "12k", "");
      && ClientErrors(form) == map[]
      && !ValidateFormData(AsSubmission(form, captchaToken, honeypot)).valid
  {
    var form := FormData("Ann", email, "Acme", "12k", "");
    assert !IsBlank("Ann") by { assert !IsSpace("Ann"[0]); }
    assert !IsBlank("Acme") by { assert !IsSpace("Acme"[0]); }
    FilledFormPasses(form);
    ServerOnClientAccepted(form, captchaToken, honeypot);
    assert "12k" !in ValidMrrRanges;
    assert Mrr in ValidateFormData(AsSubmission(form, captchaToken, honeypot)).errors;
  }

  /** The component's state: the inputs' text and the errors on display. */
  class ContactFormState {
    var formData: FormData
    var errors: map<Field, ClientMessage>

    /** The message input never carries an error. */
    ghost predicate Valid()
      reads this
    {
      Message !in errors
    }

    /** The initial render: every input empty, no errors. */
    constructor()
      ensures Valid()
      ensures formData == EmptyForm && errors == map[]
    {
      formData := EmptyForm;
      errors := map[];
    }

    /**
     * `validateForm`: the error record is rebuilt from the current inputs, replacing
     * the one on display, and the answer is whether it came out empty.
     */
    method ValidateForm() returns (ok: bool)
      modifies this
      ensures Valid()
      ensures formData == old(formData)
      ensures errors == ClientErrors(formData)
      ensures ok <==> errors == map[]
    {
      var newErrors: map<Field, ClientMessage> := map[];
      TrimEmptyIffBlank(formData.name);
      TrimEmptyIffBlank(formData.email);
      TrimEmptyIffBlank(formData.company);
      if Trim(formData.name) == "" {
        newErrors := newErrors[Name := NameIsRequired];
      }
      if Trim(formData.email) == "" {
        newErrors := newErrors[Email := EmailIsRequired];
      } else if !IsEmail(formData.email) {
        newErrors := newErrors[Email := EnterValidEmail];
      }
      if Trim(formData.company) == "" {
        newErrors := newErrors[Company := CompanyNameIsRequired];
      }
      if formData.mrr == "" {
        newErrors := newErrors[Mrr := SelectMrrRange];
      }
      SameErrors(newErrors, ClientErrors(formData));
      errors := newErrors;
      ok := |newErrors| == 0;
    }

    /**
     * `handleChange` on input `field`: its text becomes `value` and its error, if one
     * is shown, is cleared; every other input and every other error stays.
     */
    method HandleChange(field: Field, value: string)
      requires Valid()
      modifies this
      ensures Valid()
      ensures formData == old(formData).With(field, value)
      ensures field !in errors
      ensures errors == old(errors) - {field}
    {
      formData := formData.With(field, value);
      if field in errors {
        errors := errors - {field};
      }
    }
  }
}
