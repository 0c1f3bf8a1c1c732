# BizAutomates contact form: admission core in Dafny

This project models how the BizAutomates landing page decides whether a contact
submission is accepted, and proves properties of that model.

- **Rate limiter** (`lib/rateLimit.ts`). An in-memory table maps each client
  identifier to a fixed window: a count and the instant the window ends.
  - `checkRateLimit` opens, increments or refuses a window.
  - A periodic sweep deletes expired windows.
  - `getClientIp` picks the client key from the proxy headers.
- **Contact endpoint** (`app/api/contact/route.ts`).
  - `validateFormData` builds the per-field error record.
  - `verifyCaptcha` fails closed.
  - The webhook payload is built from the business fields only.
  - `POST` is a fixed chain of early returns: rate limit, body, honeypot,
    validation, captcha token, captcha verdict, webhook URL, payload, webhook
    answer.
  - `GET` is refused with 405.
- **Contact form** (`app/components/ContactForm.tsx`). The client-side
  `validateForm`, and the part of `handleChange` that stores an input and clears
  that input's error.

The model has five files:

- `js_runtime.dfy` covers the pieces of the JavaScript runtime the code relies
  on:
  - parsed JSON values and truthiness;
  - the ECMAScript white-space set;
  - `trim`, `split(',')[0]` and `toLowerCase`.
- `email_pattern.dfy` reads `^[^\s@]+@[^\s@]+\.[^\s@]+$` literally, defines a
  scanner, and proves that both accept the same strings.
- `rate_limit.dfy` defines the specification function `Admit`. The class
  `RateLimitStore` holds the table; its methods `CheckRateLimit` and `Sweep`
  update it in place and are proved against `Admit` and `Swept`. Lemmas cover
  sequences of calls.
- `contact_route.dfy` models validation, the captcha verdict, the payload, and
  the decision `Decide` → `Screen` → `Forward`. `Post` composes the decision
  with the store.
- `contact_form.dfy` models the client form state as a class, and relates the
  client rules to the server rules.

The two network calls enter as their outcomes:

- the Turnstile siteverify reply, or "unreachable";
- the webhook's `ok` flag, or "threw".

The clock is the parameter `now`.

Behaviours of the code that the model keeps as written:

- A `null` body makes the property reads throw, so the catch-all answers 500.
- A truthy honeypot that is not a string has no `trim`, so it throws and the
  answer is 500.
- A `message` that is a number, boolean, array or object passes
  `validateFormData`, which only checks strings. Building the payload then throws
  on `message?.trim()`, so the answer is 500, after the captcha was verified.
- A rate-limit config with `maxRequests < 1` still admits the first call of
  every window (`RateLimit.KthCallInWindow`).

## Model

| member | source | states |
|---|---|---|
| JsRuntime.Trim | bizautomates-landing/lib/rateLimit.ts:93 | `trim` never lengthens a string and leaves no white space at either end |
| JsRuntime.TrimIsInfix | bizautomates-landing/lib/rateLimit.ts:93 | `trim` leaves an infix with no white space at either end, and everything cut off is white space |
| JsRuntime.TrimEmptyIffBlank | bizautomates-landing/app/api/contact/route.ts:59 | `!s.trim()` holds exactly when the string is empty or all white space |
| JsRuntime.TrimNoSpace | bizautomates-landing/app/api/contact/route.ts:173 | trimming a string with no white space leaves it unchanged |
| JsRuntime.FirstField | bizautomates-landing/lib/rateLimit.ts:93 | `split(',')[0]` is a prefix with no comma, and is either the whole string or stops at the first comma |
| JsRuntime.Lower | bizautomates-landing/app/api/contact/route.ts:173 | `toLowerCase` keeps the length and leaves no upper-case ASCII letter. A character changes only if it is an upper-case letter, and then becomes its lower-case partner |
| EmailPattern.IsEmail | bizautomates-landing/app/api/contact/route.ts:68 | an address the test accepts has an `@` that is not its first character, and at least five characters |
| EmailPattern.IsEmailMatchesRegex | bizautomates-landing/app/api/contact/route.ts:68 | the scanner used by both validators accepts exactly the strings matching `^[^\s@]+@[^\s@]+\.[^\s@]+$` |
| EmailPattern.EmailHasNoSpace | bizautomates-landing/app/api/contact/route.ts:66-70 | an address that matches has no white space, so it is not blank, `trim` leaves it unchanged, and it has at least 5 characters |
| EmailPattern.LowerKeepsEmail | bizautomates-landing/app/api/contact/route.ts:173 | lower-casing a matching address gives a matching address |
| RateLimit.Admit | bizautomates-landing/lib/rateLimit.ts:35-76 | only `id`'s entry changes. A missing or expired window is replaced by `(1, now + windowMs)`. A live window gets `count + 1` and keeps its end. The call is limited iff the window is live and the new count exceeds `maxRequests`, and then `remaining` is 0; otherwise `remaining` is `maxRequests - count`. `resetTime` is the window's end |
| RateLimit.RemainingNonNegative | bizautomates-landing/lib/rateLimit.ts:52-74 | with `maxRequests >= 1`, `remaining` is never negative |
| RateLimit.ExpiryIsStrict | bizautomates-landing/lib/rateLimit.ts:46 | at `now == resetTime` the window is still live and is incremented |
| RateLimit.Swept | bizautomates-landing/lib/rateLimit.ts:15-22 | the swept table holds exactly the entries with `now <= resetTime`, unchanged |
| RateLimit.SweepIsInvisible | bizautomates-landing/lib/rateLimit.ts:15-22 | a sweep at `t` never changes the verdict, or the caller's entry, of a later call at `now >= t` |
| RateLimit.RateLimitStore.constructor | bizautomates-landing/lib/rateLimit.ts:12 | the store starts empty |
| RateLimit.RateLimitStore.CheckRateLimit | bizautomates-landing/lib/rateLimit.ts:35-76 | the new table and the verdict are `Admit(old table, identifier, config, now)`. Every entry keeps a positive count |
| RateLimit.RateLimitStore.Sweep | bizautomates-landing/lib/rateLimit.ts:16-21 | the loop deletes exactly the expired entries: the new table is `Swept(old table, now)` |
| RateLimit.OtherCallsLeaveEntry | bizautomates-landing/lib/rateLimit.ts:43-60 | calls for other identifiers never touch `id`'s entry |
| RateLimit.RunWithinWindow | bizautomates-landing/lib/rateLimit.ts:59-69 | inside a live window, interleaved with any other clients, `id`'s count grows by one per call and its end is kept. The j-th call is limited iff the attempts counted so far, this one included, exceed `maxRequests` |
| RateLimit.KthCallInWindow | bizautomates-landing/lib/rateLimit.ts:46-75 | inside one window, the k-th call for `id` is admitted iff `k <= maxRequests` or `k == 1` |
| RateLimit.ClientIp | bizautomates-landing/lib/rateLimit.ts:83-98 | the precedence is `cf-connecting-ip`, then `x-real-ip`, then the trimmed first element of `x-forwarded-for`, then `unknown`. A present but empty header is skipped |
| RateLimit.ForwardedForKey | bizautomates-landing/lib/rateLimit.ts:92-95 | a key taken from `x-forwarded-for` has no comma and no surrounding white space, lies inside the first element, and is empty iff that element is blank |
| ContactRoute.FieldsOf | bizautomates-landing/app/api/contact/route.ts:125-128 | reading the body's properties throws iff the parsed body is null (or the absent value, which `request.json()` never yields). An object body gives each of the seven fields its own property of the same name, or undefined when that key is missing. Any other body has every property undefined |
| ContactRoute.RequiredText | bizautomates-landing/app/api/contact/route.ts:59-63 | for `name` and `company`, exactly one of these holds: no error iff a non-blank string of at most `max` characters; "required" iff not a string or blank; "too long" iff non-blank and over `max` |
| ContactRoute.EmailError | bizautomates-landing/app/api/contact/route.ts:66-72 | no error iff a matching string of at most 255 characters; "required" iff not a string or blank; "invalid format" iff non-blank and not matching; "too long" iff matching and over 255 |
| ContactRoute.MrrError | bizautomates-landing/app/api/contact/route.ts:82-85 | no error iff `mrr` is a string among the four range tokens; otherwise the one MRR message |
| ContactRoute.MessageError | bizautomates-landing/app/api/contact/route.ts:88-90 | an error iff the message is a string over 1000 characters; anything else, a missing message included, passes |
| ContactRoute.ValidateFormData | bizautomates-landing/app/api/contact/route.ts:52-96 | each field has an entry iff its rule chain fails, with that chain's first failing message. `valid` iff the record is empty |
| ContactRoute.ValidIffAccepted | bizautomates-landing/app/api/contact/route.ts:52-96 | `valid` iff every field is a string as required: non-blank and within length for name and company; matching the regular expression and within 255 for e-mail; one of the ranges for mrr; a message of at most 1000 if it is a string |
| ContactRoute.ValidationIgnoresSecurityFields | bizautomates-landing/app/api/contact/route.ts:52-96 | the captcha token and the honeypot never affect validation |
| ContactRoute.BlankNameAndBadEmail | bizautomates-landing/app/api/contact/route.ts:59-72 | an empty name with a malformed address gets exactly a name-required and an invalid-format error |
| ContactRoute.VerifyCaptcha | bizautomates-landing/app/api/contact/route.ts:17-47 | true iff the secret is set and non-empty, the call returned, and the reply's `success` is exactly `true`. A missing secret or a failed call gives false |
| ContactRoute.BuildPayload | bizautomates-landing/app/api/contact/route.ts:171-180 | a payload is built iff name, email and company are strings and the message is a string, null or missing; otherwise the `trim` calls throw |
| ContactRoute.PayloadOfValid | bizautomates-landing/app/api/contact/route.ts:171-180 | for a valid submission: name and company are trimmed and non-empty; the email is the lower-cased address and still matches; mrr is the submitted value unchanged, which is one of the ranges; the message is trimmed or ''; time, source tag and client address are as given |
| ContactRoute.MessageText | bizautomates-landing/app/api/contact/route.ts:176 | `message?.trim() \|\| ''` yields a value iff the message is a string, null or missing; otherwise `trim` throws. A string gives its trimmed text, which has no white space at either end; a missing or null message gives '' |
| ContactRoute.AddressSent | bizautomates-landing/app/api/contact/route.ts:173 | for a matching address, `trim().toLowerCase()` is the lower-cased address, and it still matches |
| ContactRoute.PayloadIgnoresSecurityFields | bizautomates-landing/app/api/contact/route.ts:170-180 | the captcha token and the honeypot never reach the payload |
| ContactRoute.Decide | bizautomates-landing/app/api/contact/route.ts:102-215 | the answer is 429 iff the limiter refused, and then it carries the window's end and no captcha check happens. A captcha check needs a readable body. Nothing is sent without a captcha check |
| ContactRoute.Screen | bizautomates-landing/app/api/contact/route.ts:127-141 | the answer is the silent 200 iff the honeypot is a non-blank string. It is 400 with field errors iff the honeypot is clear and the submission invalid. The captcha is checked only for a clear honeypot and a valid submission, and nothing is sent without that check |
| ContactRoute.Forward | bizautomates-landing/app/api/contact/route.ts:143-207 | the captcha is checked only with a truthy token. A payload is sent only after a successful verification. Success needs a sent payload and an ok webhook, and reports the limiter's `remaining`. These stages never answer 429, the silent 200, or a validation error |
| ContactRoute.DecideStatusMatchesReply | bizautomates-landing/app/api/contact/route.ts:102-215 | every POST response has the status of its kind: 200, 400, 429 or 500, never 405 |
| ContactRoute.ForwardStatus | bizautomates-landing/app/api/contact/route.ts:144-207 | the captcha and webhook stages answer only 200, 400 or 500, each with the status of its kind |
| ContactRoute.RateLimitComesFirst | bizautomates-landing/app/api/contact/route.ts:113-122 | a limited request gets 429 with the window's end whatever the body. No captcha check and no webhook call happen |
| ContactRoute.HoneypotAbsorbs | bizautomates-landing/app/api/contact/route.ts:128-132 | a filled honeypot gets 200 `{success: true}` whatever the rest says, and nothing is verified or sent |
| ContactRoute.ValidationBeforeCaptcha | bizautomates-landing/app/api/contact/route.ts:135-141 | with a clear honeypot, an invalid submission gets 400 with its non-empty error record, before any captcha check |
| ContactRoute.ValidReachesForward | bizautomates-landing/app/api/contact/route.ts:128-141 | an admitted, valid submission with a clear honeypot proceeds to the captcha and webhook stages |
| ContactRoute.ForwardStages | bizautomates-landing/app/api/contact/route.ts:144-207 | a missing token gives 400 before verification. A failed verification gives 400. A missing webhook URL gives 500 before anything is sent. Otherwise the payload is sent, and the webhook's answer decides 200 (with `remaining`) or 500 |
| ContactRoute.ForwardSends | bizautomates-landing/app/api/contact/route.ts:144-207 | a payload leaves only with a token, a set secret, an answered and successful verification, and a set webhook URL. Success also needs an ok webhook |
| ContactRoute.ForwardingNeedsEveryGate | bizautomates-landing/app/api/contact/route.ts:102-207 | nothing reaches the webhook unless the request was admitted, the body was readable, the honeypot clear, the submission valid, a token given, the secret set, the captcha service answered, and the URL set. What is sent is the payload of that body |
| ContactRoute.Post | bizautomates-landing/app/api/contact/route.ts:102-122 | the limiter is consulted with the header-derived key and the 3-per-15-minutes policy, and its count consumed, before the body is read. The response is `Decide` of that verdict |
| ContactRoute.Get | bizautomates-landing/app/api/contact/route.ts:221-223 | GET answers 405 |
| ContactRoute.ThreeThenLimited | bizautomates-landing/app/api/contact/route.ts:105-122 | three good submissions in a fresh window answer `remaining` 2, 1 and 0; a fourth in the same window gets 429 with the window's end |
| ContactRoute.SuccessOnlyNeedsAdmission | bizautomates-landing/app/api/contact/route.ts:200-207 | a body that succeeds under one admitting verdict succeeds under any other, reporting that verdict's `remaining` |
| ContactForm.FormData.With | bizautomates-landing/app/components/ContactForm.tsx:115 | `{...prev, [name]: value}` sets that input and keeps every other one |
| ContactForm.ClientErrors | bizautomates-landing/app/components/ContactForm.tsx:33-56 | the client flags name and company iff blank, e-mail iff blank or not matching (required wins), mrr iff empty. It never flags the message and has no length limits |
| ContactForm.ClientAcceptsIff | bizautomates-landing/app/components/ContactForm.tsx:33-56 | the form passes iff name and company are not blank, the e-mail matches the regular expression, and an mrr range is chosen |
| ContactForm.ServerValidImpliesClientValid | bizautomates-landing/app/components/ContactForm.tsx:33-56 | every field the client flags, the server flags too. So whatever the server accepts, the client accepts |
| ContactForm.ServerOnClientAccepted | bizautomates-landing/app/api/contact/route.ts:52-96 | on a form the client accepts, the server adds exactly its length limits and the closed set of mrr ranges |
| ContactForm.FilledFormPasses | bizautomates-landing/app/components/ContactForm.tsx:36-52 | a non-blank name and company, a matching address and a chosen range raise no client error |
| ContactForm.SampleAddressMatches | bizautomates-landing/app/components/ContactForm.tsx:42 | `a@b.co` matches the e-mail pattern |
| ContactForm.ClientIsWeaker | bizautomates-landing/app/components/ContactForm.tsx:50-52 | the converse fails: an mrr outside the four ranges passes the client and fails the server |
| ContactForm.ContactFormState.constructor | bizautomates-landing/app/components/ContactForm.tsx:21-30 | every input starts empty, with no errors |
| ContactForm.ContactFormState.ValidateForm | bizautomates-landing/app/components/ContactForm.tsx:33-56 | the error record on display is replaced by `ClientErrors` of the current inputs. The result is whether that record is empty. The inputs are unchanged |
| ContactForm.ContactFormState.HandleChange | bizautomates-landing/app/components/ContactForm.tsx:111-120 | only the changed input takes the new text. Only its error is cleared, if one was shown. The message never carries an error |

## Left out

- The network calls are not modelled: the `fetch` to the Turnstile siteverify endpoint, `response.json()`, and the `fetch` to the webhook. Their outcomes are parameters (`SiteverifyReply`, `Delivery`). The token and address sent to siteverify are not modelled.
- `request.json()` is not modelled. Its result is a parsed `Value`, or `None` when the body is not JSON; `None` takes the catch-all 500.
- `Date.now()` and `new Date().toISOString()` are not modelled. Time is the natural number `now` in milliseconds. The payload's `timestamp` and the 429 body's `resetTime` carry that number, not the ISO text.
- The `setInterval` schedule of the sweep is not modelled, nor the module-level singleton. `RateLimitStore.Sweep` is the body of one tick, and the store is passed to `Post` explicitly.
- Concurrent requests and JavaScript's single-threaded interleaving are not modelled. Each call is atomic.
- The `NextResponse` JSON bodies are modelled as `Reply` constructors. Only the validation messages keep their exact text (`ContactRoute.Text`, `ContactForm.ClientMessage.Text`).
- `console.log` / `console.error` and the client's `alert` are not modelled.
- The client's `handleSubmit`, the `isSubmitting` and `isSubmitted` flags, and rendering are not modelled. `handleSubmit` posts the form straight to `NEXT_PUBLIC_WEBHOOK_URL`, not to `/api/contact`. The server-against-client comparison is therefore about the two validators, not about one request path.
- JsRuntime.Lower: models `toLowerCase` on ASCII letters only. Other characters are kept, while JavaScript also folds non-ASCII letters.
- ContactRoute.RequiredText: lengths are counted in Unicode scalar values. JavaScript's `length` counts UTF-16 code units, so texts with characters outside the Basic Multilingual Plane reach the 100 limit later here.
- ContactRoute.EmailError: the 255 limit has the same difference in how length is counted.
- ContactRoute.MessageError: the 1000 limit has the same difference in how length is counted.
- RateLimit.ClientIp: headers are a map from lower-case names to one value each. The `Headers` object's case-insensitive lookup and its joining of repeated headers are outside the model.
- ContactForm.ContactFormState.HandleChange: the source sets the cleared error to `undefined`, which the model represents as removing the key. Both read as "no error" in `errors[name]`. The functional form of React's `setState` and batched updates are not modelled.
- ContactForm.ContactFormState.ValidateForm: `setErrors` takes effect immediately in the model, not on the next render.
- Integer widths are not modelled: counts and times are unbounded integers. JavaScript numbers are exact below 2^53, far beyond any count or timestamp here.
