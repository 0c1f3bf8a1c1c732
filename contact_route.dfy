/**
 * The contact endpoint `/api/contact`: the server-side validator, the captcha
 * verdict, the webhook payload, and the fixed order of early returns in `POST`.
 * The two network calls (Turnstile siteverify and the webhook) enter as their
 * outcomes; `Decide` is the chain of early returns, `Post` adds the rate limiter.
 */
module ContactRoute {
  import opened JsRuntime
  import opened EmailPattern
  import RateLimit

  /** The form fields, as keys of the `errors` record. */
  datatype Field = Name | Email | Company | Mrr | Message

  /** The properties of the parsed body that the route reads. */
  datatype Submission = Submission(
    name: Value, email: Value, company: Value, mrr: Value, message: Value,
    captchaToken: Value, honeypot: Value)

  /**
   * The property reads `body.honeypot`, `body.name`, ...: they throw exactly when the
   * body is `null`; a body that is not an object (a number, a string, an array)
   * has every property undefined.
   */
  function FieldsOf(body: Value): (r: Option<Submission>)
    ensures r.None? <==> body.Null? || body.Undefined?
    ensures r.Some? && !body.Obj? ==>
      r.value == Submission(Undefined, Undefined, Undefined, Undefined, Undefined, Undefined, Undefined)
    ensures body.Obj? ==> r.Some?
    ensures body.Obj? ==> r.value.name == (if "name" in body.props then body.props["name"] else Undefined)
    ensures body.Obj? ==> r.value.email == (if "email" in body.props then body.props["email"] else Undefined)
    ensures body.Obj? ==> r.value.company == (if "company" in body.props then body.props["company"] else Undefined)
    ensures body.Obj? ==> r.value.mrr == (if "mrr" in body.props then body.props["mrr"] else Undefined)
    ensures body.Obj? ==> r.value.message == (if "message" in body.props then body.props["message"] else Undefined)
    ensures body.Obj? ==>
      r.value.captchaToken == (if "captchaToken" in body.props then body.props["captchaToken"] else Undefined)
    ensures body.Obj? ==> r.value.honeypot == (if "honeypot" in body.props then body.props["honeypot"] else Undefined)
  {
    if body.Null? || body.Undefined? then None
    else Some(Submission(
      Prop(body, "name"), Prop(body, "email"), Prop(body, "company"), Prop(body, "mrr"),
      Prop(body, "message"), Prop(body, "captchaToken"), Prop(body, "honeypot")))
  }

  // ---------------------------------------------------------------- validation

  /** The messages `validateFormData` can record, one constructor per string literal of the source. */
  datatype FieldMessage =
    | NameRequired | NameTooLong
    | EmailRequired | InvalidEmailFormat | EmailTooLong
    | CompanyRequired | CompanyTooLong
    | InvalidMrr
    | MessageTooLong

  /** The exact wording sent back in `errors`. */
  function Text(m: FieldMessage): string {
    match m
    case NameRequired => "Name is required"
    case NameTooLong => "Name is too long"
    case EmailRequired => "Email is required"
    case InvalidEmailFormat => "Invalid email format"
    case EmailTooLong => "Email is too long"
    case CompanyRequired => "Company name is required"
    case CompanyTooLong => "Company name is too long"
    case InvalidMrr => "Please select a valid MRR range"
    case MessageTooLong => "Message is too long"
  }

  /** A value matching the e-mail pattern is never blank. */
  lemma MatchingNotBlank(v: Value)
    ensures v.Str? && IsEmail(v.s) ==> !IsBlank(v.s)
  {
    if v.Str? && IsEmail(v.s) { EmailHasNoSpace(v.s); }
  }

  /**
   * The rule chain for `name` and `company`: missing, not a string or blank after
   * trimming (`!v.trim()`, blankness by `TrimEmptyIffBlank`) gives the "required" message; otherwise more than `max` characters
   * (counted before trimming) gives the "too long" message.
   */
  function RequiredText(v: Value, max: nat, required: FieldMessage, tooLong: FieldMessage): (r: Option<FieldMessage>)
    requires required != tooLong
    ensures r == None <==> v.Str? && !IsBlank(v.s) && |v.s| <= max
    ensures r == Some(required) <==> !v.Str? || IsBlank(v.s)
    ensures r == Some(tooLong) <==> v.Str? && !IsBlank(v.s) && |v.s| > max
  {
    if !Truthy(v) || !v.Str? || IsBlank(v.s) then Some(required)
    else if |v.s| > max then Some(tooLong)
    else None
  }

  /**
   * The rule chain for `email`: required, then the pattern, then at most 255
   * characters. The format is tested first, so an over-long malformed address
   * is reported as malformed.
   */
  function EmailError(v: Value): (r: Option<FieldMessage>)
    ensures r == None <==> v.Str? && IsEmail(v.s) && |v.s| <= 255
    ensures r == Some(EmailRequired) <==> !v.Str? || IsBlank(v.s)
    ensures r == Some(InvalidEmailFormat) <==> v.Str? && !IsBlank(v.s) && !IsEmail(v.s)
    ensures r == Some(EmailTooLong) <==> v.Str? && IsEmail(v.s) && |v.s| > 255
  {
    MatchingNotBlank(v);
    if !Truthy(v) || !v.Str? || IsBlank(v.s) then Some(EmailRequired)
    else if !IsEmail(v.s) then Some(InvalidEmailFormat)
    else if |v.s| > 255 then Some(EmailTooLong)
    else None
  }

  const ValidMrrRanges: seq<string> := ["0-10k", "10-25k", "25-50k", "50k+"]

  /** `mrr` must be one of the four range tokens; anything else, a non-string included, is rejected. */
  function MrrError(v: Value): (r: Option<FieldMessage>)
    ensures r == None <==> v.Str? && v.s in ValidMrrRanges
    ensures r.Some? ==> r.value == InvalidMrr
  {
    if !Truthy(v) || !(v.Str? && v.s in ValidMrrRanges) then Some(InvalidMrr)
    else None
  }

  /** `message` is optional: only a string of more than 1000 characters is rejected. */
  function MessageError(v: Value): (r: Option<FieldMessage>)
    ensures r.Some? <==> v.Str? && |v.s| > 1000
    ensures r.Some? ==> r.value == MessageTooLong
  {
    if Truthy(v) && v.Str? && |v.s| > 1000 then Some(MessageTooLong) else None
  }

  /** The one message, if any, that the rule chain of field `f` produces. */
  function FieldError(d: Submission, f: Field): Option<FieldMessage> {
    match f
    case Name => RequiredText(d.name, 100, NameRequired, NameTooLong)
    case Email => EmailError(d.email)
    case Company => RequiredText(d.company, 100, CompanyRequired, CompanyTooLong)
    case Mrr => MrrError(d.mrr)
    case Message => MessageError(d.message)
  }

  /** `errors.<f> = message` when a rule chain produced one. */
  function Record(errors: map<Field, FieldMessage>, f: Field, message: Option<FieldMessage>): map<Field, FieldMessage> {
    if message.Some? then errors[f := message.value] else errors
  }

  /** Recording the five chains in turn keeps, for each field, exactly its own message. */
  lemma RecordedOncePerField(name: Option<FieldMessage>, email: Option<FieldMessage>, company: Option<FieldMessage>,
                             mrr: Option<FieldMessage>, message: Option<FieldMessage>, errors: map<Field, FieldMessage>)
    requires errors == Record(Record(Record(Record(Record(map[], Name, name), Email, email), Company, company), Mrr, mrr), Message, message)
    ensures (Name in errors <==> name.Some?) && (name.Some? ==> errors[Name] == name.value)
    ensures (Email in errors <==> email.Some?) && (email.Some? ==> errors[Email] == email.value)
    ensures (Company in errors <==> company.Some?) && (company.Some? ==> errors[Company] == company.value)
    ensures (Mrr in errors <==> mrr.Some?) && (mrr.Some? ==> errors[Mrr] == mrr.value)
    ensures (Message in errors <==> message.Some?) && (message.Some? ==> errors[Message] == message.value)
  {
  }

  datatype Validation = Validation(valid: bool, errors: map<Field, FieldMessage>)

  /**
   * `validateFormData`: every field is checked, each contributes at most one
   * message (the first rule of its chain that fails), and the submission is
   * valid exactly when no message was recorded.
   */
  function ValidateFormData(d: Submission): (r: Validation)
    ensures r.valid <==> r.errors == map[]
    ensures (Name in r.errors <==> FieldError(d, Name).Some?) && (Name in r.errors ==> r.errors[Name] == FieldError(d, Name).value)
    ensures (Email in r.errors <==> FieldError(d, Email).Some?) && (Email in r.errors ==> r.errors[Email] == FieldError(d, Email).value)
    ensures (Company in r.errors <==> FieldError(d, Company).Some?) && (Company in r.errors ==> r.errors[Company] == FieldError(d, Company).value)
    ensures (Mrr in r.errors <==> FieldError(d, Mrr).Some?) && (Mrr in r.errors ==> r.errors[Mrr] == FieldError(d, Mrr).value)
    ensures (Message in r.errors <==> FieldError(d, Message).Some?) && (Message in r.errors ==> r.errors[Message] == FieldError(d, Message).value)
  {
    var name, email, company, mrr, message :=
      FieldError(d, Name), FieldError(d, Email), FieldError(d, Company), FieldError(d, Mrr), FieldError(d, Message);
    var errors := Record(map[], Name, name);
    var errors := Record(errors, Email, email);
    var errors := Record(errors, Company, company);
    var errors := Record(errors, Mrr, mrr);
    var errors := Record(errors, Message, message);
    RecordedOncePerField(name, email, company, mrr, message, errors);
    Validation(|errors| == 0, errors)
  }

  /**
   * What the server accepts, stated field by field and with the e-mail pattern
   * read as a regular expression.
   */
  ghost predicate ServerAccepts(d: Submission) {
    && d.name.Str? && !IsBlank(d.name.s) && |d.name.s| <= 100
    && d.email.Str? && MatchesRegex(d.email.s) && |d.email.s| <= 255
    && d.company.Str? && !IsBlank(d.company.s) && |d.company.s| <= 100
    && d.mrr.Str? && d.mrr.s in ValidMrrRanges
    && !(d.message.Str? && |d.message.s| > 1000)
  }

  /** `validateFormData` reports valid exactly for the submissions the rules accept. */
  lemma ValidIffAccepted(d: Submission)
    ensures ValidateFormData(d).valid <==> ServerAccepts(d)
  {
    var r := ValidateFormData(d);
    if d.email.Str? { IsEmailMatchesRegex(d.email.s); }
    assert r.valid <==> forall f :: FieldError(d, f).None? by {
      if !r.valid {
        var f :| f in r.errors;
      }
    }
    if !r.valid {
      var f :| f in r.errors;
      match f
      case Name =>
      case Email =>
      case Company =>
      case Mrr =>
      case Message =>
    } else {
      assert FieldError(d, Name).None? && FieldError(d, Email).None? && FieldError(d, Company).None?;
      assert FieldError(d, Mrr).None? && FieldError(d, Message).None?;
    }
  }

  /** The security fields never influence validation. */
  lemma ValidationIgnoresSecurityFields(d: Submission, captchaToken: Value, honeypot: Value)
    ensures ValidateFormData(d.(captchaToken := captchaToken, honeypot := honeypot)) == ValidateFormData(d)
  {
  }

  /**
   * `{name: "", email: "bad", company: "Acme", mrr: "0-10k"}` fails on `name`
   * and `email` only.
   */
  lemma BlankNameAndBadEmail()
    ensures var d := Submission(Str(""), Str("bad"), Str("Acme"), Str("0-10k"), Undefined, Undefined, Undefined);
      ValidateFormData(d).errors == map[Name := NameRequired, Email := InvalidEmailFormat]
  {
    var d := Submission(Str(""), Str("bad"), Str("Acme"), Str("0-10k"), Undefined, Undefined, Undefined);
    assert !IsBlank("bad") by { assert !IsSpace("bad"[0]); }
    assert !IsEmail("bad") by { assert '@' !in "bad"; }
    assert !IsBlank("Acme") by { assert !IsSpace("Acme"[0]); }
    assert "0-10k" in ValidMrrRanges;
    assert FieldError(d, Name) == Some(NameRequired);
    assert FieldError(d, Email) == Some(InvalidEmailFormat);
    assert FieldError(d, Company) == None;
    assert FieldError(d, Mrr) == None;
    assert FieldError(d, Message) == None;
    var errors := ValidateFormData(d).errors;
    SameErrors(errors, map[Name := NameRequired, Email := InvalidEmailFormat]);
  }

  /** Two error records that agree on every field are equal. */
  lemma SameErrors<V>(a: map<Field, V>, b: map<Field, V>)
    requires Name in a <==> Name in b
    requires Email in a <==> Email in b
    requires Company in a <==> Company in b
    requires Mrr in a <==> Mrr in b
    requires Message in a <==> Message in b
    requires forall f | f in a && f in b :: a[f] == b[f]
    ensures a == b
  {
    forall f ensures f in a <==> f in b {
      match f
      case Name =>
      case Email =>
      case Company =>
      case Mrr =>
      case Message =>
    }
  }

  // ---------------------------------------------------------------- captcha

  /** What the call to the Turnstile verification endpoint produced. */
  datatype SiteverifyReply =
    | Unreachable        // `fetch` or `response.json()` threw
    | Answered(json: Value)

  /** A configuration value that is set and non-empty (`if (!value)` fails otherwise). */
  predicate Configured(setting: Option<string>) {
    setting.Some? && setting.value != ""
  }

  /**
   * `verifyCaptcha`, fail-closed: a missing secret or a failed call gives false,
   * and only a reply whose `success` is exactly `true` gives true.
   */
  function VerifyCaptcha(secretKey: Option<string>, reply: SiteverifyReply): (ok: bool)
    ensures ok <==> Configured(secretKey) && reply.Answered? && Prop(reply.json, "success") == Bool(true)
  {
    if !Configured(secretKey) then false
    else match reply
      case Unreachable => false
      case Answered(json) => Prop(json, "success") == Bool(true)
  }

  // ---------------------------------------------------------------- webhook payload

  const Source := "BizAutomates Landing Page"

  /** The record sent to the webhook: business fields only, plus time, source tag and client address. */
  datatype WebhookPayload = WebhookPayload(
    name: string, email: string, company: string, mrr: Value, message: string,
    timestamp: nat, source: string, ipAddress: string)

  /** A valid submission has string `name`, `email`, `company` and `mrr`. */
  lemma ValidFieldsAreStrings(d: Submission)
    requires ValidateFormData(d).valid
    ensures d.name.Str? && !IsBlank(d.name.s) && |d.name.s| <= 100
    ensures d.email.Str? && IsEmail(d.email.s) && |d.email.s| <= 255
    ensures d.company.Str? && !IsBlank(d.company.s) && |d.company.s| <= 100
    ensures d.mrr.Str? && d.mrr.s in ValidMrrRanges
  {
    assert FieldError(d, Name).None? && FieldError(d, Email).None? && FieldError(d, Company).None?;
    assert FieldError(d, Mrr).None?;
  }

  /**
   * `body.message?.trim() || ''`: a missing or null message gives the empty string,
   * a string is trimmed, and any other value has no `trim` and the call throws.
   */
  function MessageText(v: Value): (r: Option<string>)
    ensures r.Some? <==> v.Undefined? || v.Null? || v.Str?
    ensures r.Some? ==> Trimmed(r.value)
    ensures r.Some? && !v.Str? ==> r.value == ""
    ensures v.Str? ==> r == Some(Trim(v.s))
  {
    match v
    case Undefined => Some("")
    case Null => Some("")
    case Str(s) => Some(Trim(s))
    case _ => None
  }

  /**
   * The webhook payload: trimmed name and company, the e-mail trimmed and
   * lower-cased, `mrr` as sent, the trimmed message or '', the time, the source
   * tag and the client address. `None` when building it throws: `trim` called on
   * a name, e-mail or company that is not a string, or on a message that is
   * neither a string nor missing.
   */
  function BuildPayload(d: Submission, ip: string, now: nat): (r: Option<WebhookPayload>)
    ensures r.Some? <==> d.name.Str? && d.email.Str? && d.company.Str? && MessageText(d.message).Some?
  {
    if d.name.Str? && d.email.Str? && d.company.Str? && MessageText(d.message).Some? then
      Some(WebhookPayload(
        Trim(d.name.s), Lower(Trim(d.email.s)), Trim(d.company.s), d.mrr, MessageText(d.message).value,
        now, Source, ip))
    else None
  }

  /**
   * For a valid submission the payload is built unless the message is some other
   * kind of value than a string, and it then carries trimmed, non-empty name and
   * company, the lower-cased matching address, one of the four ranges and a
   * trimmed message.
   */
  lemma PayloadOfValid(d: Submission, ip: string, now: nat)
    requires ValidateFormData(d).valid
    ensures PayloadShape(d, ip, now)
  {
    ValidFieldsAreStrings(d);
    PayloadOfAccepted(d, ip, now);
  }

  /** What `PayloadOfValid` promises of the payload built from `d`. */
  predicate PayloadShape(d: Submission, ip: string, now: nat) {
    var r := BuildPayload(d, ip, now);
    && (r.Some? <==> d.message.Undefined? || d.message.Null? || d.message.Str?)
    && (r.Some? ==>
      && r.value.name == Trim(d.name.s) && Trimmed(r.value.name) && r.value.name != ""
      && r.value.email == Lower(d.email.s) && IsEmail(r.value.email)
      && r.value.company == Trim(d.company.s) && Trimmed(r.value.company) && r.value.company != ""
      && r.value.mrr == d.mrr && r.value.mrr.Str? && r.value.mrr.s in ValidMrrRanges
      && r.value.message == (if d.message.Str? then Trim(d.message.s) else "") && Trimmed(r.value.message)
      && r.value.timestamp == now && r.value.source == Source && r.value.ipAddress == ip)
  }

  lemma PayloadOfAccepted(d: Submission, ip: string, now: nat)
    requires d.name.Str? && !IsBlank(d.name.s)
    requires d.email.Str? && IsEmail(d.email.s)
    requires d.company.Str? && !IsBlank(d.company.s)
    requires d.mrr.Str? && d.mrr.s in ValidMrrRanges
    ensures PayloadShape(d, ip, now)
  {
    var r := BuildPayload(d, ip, now);
    if r.Some? {
      var p := r.value;
      NonBlankTrim(d.name.s);
      NonBlankTrim(d.company.s);
      AddressSent(d.email.s);
      assert p.name == Trim(d.name.s) && Trimmed(p.name) && p.name != "";
      assert p.company == Trim(d.company.s) && Trimmed(p.company) && p.company != "";
      assert p.email == Lower(d.email.s) && IsEmail(p.email);
      assert p.message == MessageText(d.message).value;
      if d.message.Str? {
        assert MessageText(d.message) == Some(Trim(d.message.s));
      }
      assert p.mrr == d.mrr && p.timestamp == now && p.source == Source && p.ipAddress == ip;
    }
    assert r.Some? <==> d.message.Undefined? || d.message.Null? || d.message.Str?;
  }

  /** The address sent for a matching e-mail is the lower-cased original, and it still matches. */
  lemma AddressSent(e: string)
    requires IsEmail(e)
    ensures Lower(Trim(e)) == Lower(e) && IsEmail(Lower(e))
  {
    EmailHasNoSpace(e);
    LowerKeepsEmail(e);
  }

  /** Trimming a string that is not blank leaves a non-empty trimmed string. */
  lemma NonBlankTrim(s: string)
    requires !IsBlank(s)
    ensures Trim(s) != "" && Trimmed(Trim(s))
  {
    TrimIsInfix(s);
    TrimEmptyIffBlank(s);
  }

  /** The captcha token and the honeypot never reach the payload. */
  lemma PayloadIgnoresSecurityFields(d: Submission, captchaToken: Value, honeypot: Value, ip: string, now: nat)
    ensures BuildPayload(d.(captchaToken := captchaToken, honeypot := honeypot), ip, now) == BuildPayload(d, ip, now)
  {
  }

  // ---------------------------------------------------------------- the POST decision

  /** What the webhook call produced. */
  datatype Delivery =
    | DeliveryThrew       // `fetch` rejected: caught by the handler's catch-all
    | Delivered(ok: bool) // `webhookResponse.ok`

  /** The body of each JSON response. */
  datatype Reply =
    | RateLimited(resetTime: int)       // {error: 'Too many requests…', resetTime}
    | Absorbed                          // {success: true}, the honeypot answer
    | Submitted(remaining: int)         // {success: true, message, remaining}
    | ValidationFailed(errors: map<Field, FieldMessage>)
    | CaptchaRequired
    | CaptchaFailed
    | ConfigurationError                // WEBHOOK_URL not set
    | SubmissionFailed                  // webhook answered with a non-ok status
    | UnexpectedError                   // the catch-all: unreadable body, a throw
    | MethodNotAllowed

  datatype Response = Response(status: int, reply: Reply)

  datatype Env = Env(turnstileSecretKey: Option<string>, webhookUrl: Option<string>)

  /** The response, whether `verifyCaptcha` was called, and the payload handed to the webhook call, if any. */
  datatype Outcome = Outcome(response: Response, captchaVerified: bool, sent: Option<WebhookPayload>)

  /** The honeypot lets the request through: absent, falsy, or only white space. */
  predicate HoneypotClear(v: Value) {
    !Truthy(v) || (v.Str? && IsBlank(v.s))
  }

  /** The honeypot is a string with something in it: a bot filled the hidden field. */
  predicate HoneypotTripped(v: Value) {
    v.Str? && !IsBlank(v.s)
  }

  /**
   * The decision sequence of `POST` after the limiter has answered `limit` for
   * client `ip`: rate limit, then the body; `Screen` and `Forward` take the rest.
   */
  function Decide(limit: RateLimit.Verdict, ip: string, body: Option<Value>, env: Env,
                  captcha: SiteverifyReply, delivery: Delivery, now: nat): (r: Outcome)
    ensures r.response.reply.RateLimited? <==> limit.isLimited
    ensures limit.isLimited ==> r.response.reply.resetTime == limit.resetTime && !r.captchaVerified
    ensures r.captchaVerified ==> body.Some? && FieldsOf(body.value).Some?
    ensures r.sent.Some? ==> r.captchaVerified
  {
    if limit.isLimited then Outcome(Response(429, RateLimited(limit.resetTime)), false, None)
    else if body.None? then Outcome(Response(500, UnexpectedError), false, None)
    else match FieldsOf(body.value)
      case None => Outcome(Response(500, UnexpectedError), false, None)
      case Some(d) => Screen(limit.remaining, ip, d, env, captcha, delivery, now)
  }

  /**
   * The honeypot, then validation. `body.honeypot.trim()` on a truthy value that
   * is not a string throws; `trim() !== ''` is non-blankness.
   */
  function Screen(remaining: int, ip: string, d: Submission, env: Env,
                  captcha: SiteverifyReply, delivery: Delivery, now: nat): (r: Outcome)
    ensures r.response.reply.Absorbed? <==> HoneypotTripped(d.honeypot)
    ensures r.response.reply.ValidationFailed? <==> HoneypotClear(d.honeypot) && !ValidateFormData(d).valid
    ensures r.captchaVerified ==> HoneypotClear(d.honeypot) && ValidateFormData(d).valid
    ensures r.sent.Some? ==> r.captchaVerified
    ensures !r.response.reply.RateLimited?
  {
    if Truthy(d.honeypot) && !d.honeypot.Str? then Outcome(Response(500, UnexpectedError), false, None)
    else if Truthy(d.honeypot) && !IsBlank(d.honeypot.s) then Outcome(Response(200, Absorbed), false, None)
    else
      var validation := ValidateFormData(d);
      if !validation.valid then Outcome(Response(400, ValidationFailed(validation.errors)), false, None)
      else Forward(remaining, ip, d, env, captcha, delivery, now)
  }

  /** The captcha token, its verification, the webhook URL, the payload and the webhook's answer. */
  function Forward(remaining: int, ip: string, d: Submission, env: Env,
                   captcha: SiteverifyReply, delivery: Delivery, now: nat): (r: Outcome)
    ensures r.captchaVerified ==> Truthy(d.captchaToken)
    ensures r.sent.Some? ==> r.captchaVerified && VerifyCaptcha(env.turnstileSecretKey, captcha)
    ensures r.response.reply.Submitted? ==> r.sent.Some? && delivery == Delivered(true) && r.response.reply.remaining == remaining
    ensures !(r.response.reply.RateLimited? || r.response.reply.Absorbed? || r.response.reply.ValidationFailed?)
  {
    if !Truthy(d.captchaToken) then Outcome(Response(400, CaptchaRequired), false, None)
    else if !VerifyCaptcha(env.turnstileSecretKey, captcha) then Outcome(Response(400, CaptchaFailed), true, None)
    else if !Configured(env.webhookUrl) then Outcome(Response(500, ConfigurationError), true, None)
    else match BuildPayload(d, ip, now)
      case None => Outcome(Response(500, UnexpectedError), true, None)
      case Some(payload) =>
        match delivery
        case DeliveryThrew => Outcome(Response(500, UnexpectedError), true, Some(payload))
        case Delivered(ok) =>
          if !ok then Outcome(Response(500, SubmissionFailed), true, Some(payload))
          else Outcome(Response(200, Submitted(remaining)), true, Some(payload))
  }

  /** The status each kind of reply is sent with. */
  function StatusOf(reply: Reply): int {
    match reply
    case RateLimited(_) => 429
    case Absorbed => 200
    case Submitted(_) => 200
    case ValidationFailed(_) => 400
    case CaptchaRequired => 400
    case CaptchaFailed => 400
    case ConfigurationError => 500
    case SubmissionFailed => 500
    case UnexpectedError => 500
    case MethodNotAllowed => 405
  }

  /** The last stages answer 200, 400 or 500, each with the status of its kind. */
  lemma ForwardStatus(remaining: int, ip: string, d: Submission, env: Env,
                      captcha: SiteverifyReply, delivery: Delivery, now: nat)
    ensures var r := Forward(remaining, ip, d, env, captcha, delivery, now).response;
      r.status == StatusOf(r.reply) && (r.status == 200 || r.status == 400 || r.status == 500)
  {
    var out := Forward(remaining, ip, d, env, captcha, delivery, now);
    if Truthy(d.captchaToken) && VerifyCaptcha(env.turnstileSecretKey, captcha) && Configured(env.webhookUrl) {
      var payload := BuildPayload(d, ip, now);
      if payload.Some? {
        assert out.response == (if delivery == Delivered(true) then Response(200, Submitted(remaining))
                                else if delivery.Delivered? then Response(500, SubmissionFailed)
                                else Response(500, UnexpectedError));
      }
    }
  }

  /** Every response `POST` gives carries the status of its kind, and never 405. */
  lemma DecideStatusMatchesReply(limit: RateLimit.Verdict, ip: string, body: Option<Value>, env: Env,
                                 captcha: SiteverifyReply, delivery: Delivery, now: nat)
    ensures var r := Decide(limit, ip, body, env, captcha, delivery, now).response;
      r.status == StatusOf(r.reply) && r.status in {200, 400, 429, 500}
  {
    if !limit.isLimited && body.Some? && FieldsOf(body.value).Some? {
      var d := FieldsOf(body.value).value;
      if HoneypotClear(d.honeypot) && ValidateFormData(d).valid {
        ValidReachesForward(limit, ip, body.value, env, captcha, delivery, now);
        ForwardStatus(limit.remaining, ip, d, env, captcha, delivery, now);
      } else if HoneypotClear(d.honeypot) {
        ValidationBeforeCaptcha(limit, ip, body.value, env, captcha, delivery, now);
      }
    }
  }

  /** A limited request gets 429 with the window's end, whatever it carries; nothing else runs. */
  lemma RateLimitComesFirst(limit: RateLimit.Verdict, ip: string, body: Option<Value>, env: Env,
                            captcha: SiteverifyReply, delivery: Delivery, now: nat)
    requires limit.isLimited
    ensures Decide(limit, ip, body, env, captcha, delivery, now)
      == Outcome(Response(429, RateLimited(limit.resetTime)), false, None)
  {
  }

  /**
   * A filled honeypot is answered 200 `{success: true}` whatever the other fields,
   * the configuration and the remote services would say; no captcha check and no
   * webhook call happen.
   */
  lemma HoneypotAbsorbs(limit: RateLimit.Verdict, ip: string, body: Value, env: Env,
                        captcha: SiteverifyReply, delivery: Delivery, now: nat)
    requires !limit.isLimited && FieldsOf(body).Some? && HoneypotTripped(FieldsOf(body).value.honeypot)
    ensures Decide(limit, ip, Some(body), env, captcha, delivery, now) == Outcome(Response(200, Absorbed), false, None)
  {
  }

  /** With the honeypot clear, an invalid submission gets 400 with its field errors, before any captcha check. */
  lemma ValidationBeforeCaptcha(limit: RateLimit.Verdict, ip: string, body: Value, env: Env,
                                captcha: SiteverifyReply, delivery: Delivery, now: nat)
    requires !limit.isLimited && FieldsOf(body).Some?
    requires var d := FieldsOf(body).value; HoneypotClear(d.honeypot) && !ValidateFormData(d).valid
    ensures var d := FieldsOf(body).value;
      && Decide(limit, ip, Some(body), env, captcha, delivery, now)
         == Outcome(Response(400, ValidationFailed(ValidateFormData(d).errors)), false, None)
      && ValidateFormData(d).errors != map[]
  {
  }

  /** A valid submission whose honeypot is clear goes on to the captcha and webhook stages. */
  lemma ValidReachesForward(limit: RateLimit.Verdict, ip: string, body: Value, env: Env,
                            captcha: SiteverifyReply, delivery: Delivery, now: nat)
    requires !limit.isLimited && FieldsOf(body).Some?
    requires var d := FieldsOf(body).value; HoneypotClear(d.honeypot) && ValidateFormData(d).valid
    ensures Decide(limit, ip, Some(body), env, captcha, delivery, now)
      == Forward(limit.remaining, ip, FieldsOf(body).value, env, captcha, delivery, now)
  {
  }

  /**
   * The order of the last stages: a missing token gives 400 before verification; a
   * failed verification gives 400; a missing webhook URL gives 500 before anything
   * is sent; otherwise the payload is sent and the webhook's answer decides
   * between 500 and 200 with the limiter's `remaining`.
   */
  lemma ForwardStages(remaining: int, ip: string, d: Submission, env: Env,
                      captcha: SiteverifyReply, delivery: Delivery, now: nat)
    ensures var out := Forward(remaining, ip, d, env, captcha, delivery, now);
      && (!Truthy(d.captchaToken) ==> out == Outcome(Response(400, CaptchaRequired), false, None))
      && (Truthy(d.captchaToken) && !VerifyCaptcha(env.turnstileSecretKey, captcha) ==>
            out == Outcome(Response(400, CaptchaFailed), true, None))
      && (Truthy(d.captchaToken) && VerifyCaptcha(env.turnstileSecretKey, captcha) && !Configured(env.webhookUrl) ==>
            out == Outcome(Response(500, ConfigurationError), true, None))
      && (Truthy(d.captchaToken) && VerifyCaptcha(env.turnstileSecretKey, captcha) && Configured(env.webhookUrl)
          && BuildPayload(d, ip, now).Some? ==>
            && out.sent == BuildPayload(d, ip, now)
            && out.response == (if delivery == Delivered(true) then Response(200, Submitted(remaining))
                                else if delivery.Delivered? then Response(500, SubmissionFailed)
                                else Response(500, UnexpectedError)))
  {
  }

  /**
   * Nothing reaches the webhook unless every gate passed, and a success answer
   * needs, besides, an ok webhook: in particular a captcha service that cannot be
   * reached, or a missing secret, never leads to a forwarded submission.
   */
  lemma ForwardingNeedsEveryGate(limit: RateLimit.Verdict, ip: string, body: Option<Value>, env: Env,
                                 captcha: SiteverifyReply, delivery: Delivery, now: nat)
    ensures var out := Decide(limit, ip, body, env, captcha, delivery, now);
      && (out.sent.Some? || out.response.reply.Submitted? ==>
            && !limit.isLimited && body.Some? && FieldsOf(body.value).Some?
            && var d := FieldsOf(body.value).value;
            && HoneypotClear(d.honeypot) && ValidateFormData(d).valid && Truthy(d.captchaToken)
            && Configured(env.turnstileSecretKey) && captcha.Answered?
            && Configured(env.webhookUrl) && out.captchaVerified
            && out.sent == BuildPayload(d, ip, now))
      && (out.response.reply.Submitted? ==> delivery == Delivered(true) && out.response.reply.remaining == limit.remaining)
  {
    if !limit.isLimited && body.Some? && FieldsOf(body.value).Some? {
      var d := FieldsOf(body.value).value;
      if HoneypotClear(d.honeypot) && ValidateFormData(d).valid {
        ValidReachesForward(limit, ip, body.value, env, captcha, delivery, now);
        ForwardSends(limit.remaining, ip, d, env, captcha, delivery, now);
      }
    }
  }

  /** Within the last stages, a payload is sent only past every gate, and success needs an ok webhook. */
  lemma ForwardSends(remaining: int, ip: string, d: Submission, env: Env,
                     captcha: SiteverifyReply, delivery: Delivery, now: nat)
    ensures var out := Forward(remaining, ip, d, env, captcha, delivery, now);
      && (out.sent.Some? || out.response.reply.Submitted? ==>
            && Truthy(d.captchaToken) && Configured(env.turnstileSecretKey) && captcha.Answered?
            && Configured(env.webhookUrl) && out.captchaVerified && out.sent == BuildPayload(d, ip, now))
      && (out.response.reply.Submitted? ==> delivery == Delivered(true) && out.response.reply.remaining == remaining)
  {
  }

  // ---------------------------------------------------------------- handlers

  /**
   * The limit the route passes explicitly, 3 requests per 15 minutes per client:
   * the same values as `checkRateLimit`'s default argument.
   */
  const ContactPolicy := RateLimit.DefaultConfig

  /** An incoming request: lower-cased header names, and the body as parsed JSON (`None` when it is not JSON). */
  datatype Request = Request(headers: map<string, string>, body: Option<Value>)

  /**
   * `POST /api/contact` at time `now`: the client's address is read and the limiter
   * consulted (and its count consumed) before the body is looked at; the response
   * then follows `Decide`.
   */
  method Post(store: RateLimit.RateLimitStore, request: Request, env: Env, now: nat,
              captcha: SiteverifyReply, delivery: Delivery) returns (outcome: Outcome)
    requires store.Valid()
    modifies store
    ensures store.Valid()
    ensures var ip := RateLimit.ClientIp(request.headers);
      var admitted := RateLimit.Admit(old(store.entries), ip, ContactPolicy, now);
      && store.entries == admitted.0
      && outcome == Decide(admitted.1, ip, request.body, env, captcha, delivery, now)
  {
    var clientIp := RateLimit.ClientIp(request.headers);
    var rateLimitResult := store.CheckRateLimit(clientIp, ContactPolicy, now);
    outcome := Decide(rateLimitResult, clientIp, request.body, env, captcha, delivery, now);
  }

  /** `GET /api/contact` is refused with 405. */
  function Get(): (r: Response)
    ensures r.status == 405 && r.reply == MethodNotAllowed && StatusOf(r.reply) == r.status
  {
    Response(405, MethodNotAllowed)
  }

  /**
   * Three well-formed submissions from one client inside a fresh window succeed
   * with `remaining` 2, 1 and 0; a fourth inside the same window gets 429.
   */
  lemma ThreeThenLimited(m: map<string, RateLimit.Entry>, ip: string, t0: nat, t1: nat, t2: nat, t3: nat,
                         body: Value, env: Env, captcha: SiteverifyReply, delivery: Delivery)
    requires !RateLimit.Live(m, ip, t0)
    requires t1 <= t0 + ContactPolicy.windowMs && t2 <= t0 + ContactPolicy.windowMs && t3 <= t0 + ContactPolicy.windowMs
    requires Decide(RateLimit.Verdict(false, 0, 0), ip, Some(body), env, captcha, delivery, 0).response.reply.Submitted?
    ensures var a0 := RateLimit.Admit(m, ip, ContactPolicy, t0);
      var a1 := RateLimit.Admit(a0.0, ip, ContactPolicy, t1);
      var a2 := RateLimit.Admit(a1.0, ip, ContactPolicy, t2);
      var a3 := RateLimit.Admit(a2.0, ip, ContactPolicy, t3);
      && Decide(a0.1, ip, Some(body), env, captcha, delivery, t0).response == Response(200, Submitted(2))
      && Decide(a1.1, ip, Some(body), env, captcha, delivery, t1).response == Response(200, Submitted(1))
      && Decide(a2.1, ip, Some(body), env, captcha, delivery, t2).response == Response(200, Submitted(0))
      && Decide(a3.1, ip, Some(body), env, captcha, delivery, t3).response == Response(429, RateLimited(t0 + ContactPolicy.windowMs))
  {
    var a0 := RateLimit.Admit(m, ip, ContactPolicy, t0);
    var a1 := RateLimit.Admit(a0.0, ip, ContactPolicy, t1);
    var a2 := RateLimit.Admit(a1.0, ip, ContactPolicy, t2);
    ForwardingNeedsEveryGate(RateLimit.Verdict(false, 0, 0), ip, Some(body), env, captcha, delivery, 0);
    var d := FieldsOf(body).value;
    SuccessOnlyNeedsAdmission(RateLimit.Verdict(false, 0, 0), a0.1, ip, body, env, captcha, delivery, 0, t0);
    SuccessOnlyNeedsAdmission(RateLimit.Verdict(false, 0, 0), a1.1, ip, body, env, captcha, delivery, 0, t1);
    SuccessOnlyNeedsAdmission(RateLimit.Verdict(false, 0, 0), a2.1, ip, body, env, captcha, delivery, 0, t2);
  }

  /** A body that succeeds under one admitting verdict succeeds under any other, with that verdict's `remaining`. */
  lemma SuccessOnlyNeedsAdmission(v: RateLimit.Verdict, w: RateLimit.Verdict, ip: string, body: Value, env: Env,
                                  captcha: SiteverifyReply, delivery: Delivery, now: nat, now': nat)
    requires Decide(v, ip, Some(body), env, captcha, delivery, now).response.reply.Submitted?
    requires !w.isLimited
    ensures Decide(w, ip, Some(body), env, captcha, delivery, now').response == Response(200, Submitted(w.remaining))
  {
    ForwardingNeedsEveryGate(v, ip, Some(body), env, captcha, delivery, now);
  }
}
