/**
 * The contact endpoint (src/app/api/contact/route.ts): field validation, the
 * sanitiser, the client-key resolver and the `POST` pipeline, whose only state
 * across requests is the rate-limit table.
 *
 * The mail transport is an oracle (`Transport`) saying whether `verify` and each
 * of the two `sendMail` calls succeed; the clock is the `now` parameter; the
 * environment variables and the request headers and body are parameters.
 */
module ContactRoute {
  import opened Wrappers
  import opened Text
  import opened EmailPattern
  import opened RateLimit

  // VALIDATION_RULES
  const NameMin: nat := 2
  const NameMax: nat := 100
  const MessageMin: nat := 10
  const MessageMax: nat := 1000

  /** The three messages `validateInput` can push, one per field. */
  datatype InputError = NameLength | InvalidEmail | MessageLength

  /** The text pushed for each error. */
  function InputErrorText(e: InputError): string {
    match e
    case NameLength => "Name must be between 2 and 100 characters"
    case InvalidEmail => "Please provide a valid email address"
    case MessageLength => "Message must be between 10 and 1000 characters"
  }

  /** Position of the field an error is about in the order name, email, message. */
  function FieldRank(e: InputError): nat {
    match e
    case NameLength => 0
    case InvalidEmail => 1
    case MessageLength => 2
  }

  /** The errors of the failing fields, in the order name, email, message. */
  function FieldErrors(nameBad: bool, emailBad: bool, messageBad: bool): (errors: seq<InputError>)
    ensures NameLength in errors <==> nameBad
    ensures InvalidEmail in errors <==> emailBad
    ensures MessageLength in errors <==> messageBad
    ensures forall i :: 0 < i < |errors| ==> FieldRank(errors[i - 1]) < FieldRank(errors[i])
    ensures |errors| == (if nameBad then 1 else 0) + (if emailBad then 1 else 0) + (if messageBad then 1 else 0)
  {
    (if nameBad then [NameLength] else [])
    + (if emailBad then [InvalidEmail] else [])
    + (if messageBad then [MessageLength] else [])
  }

  /** A trimmed field is rejected when it is empty or its length is outside `min..max`. */
  predicate LengthOutside(t: string, min: nat, max: nat) {
    t == "" || |t| < min || |t| > max
  }

  /**
   * `validateInput`: one error per failing field, in the order name, email,
   * message. Trimmed name and message lengths must lie in their inclusive bounds
   * and the trimmed email must match the address pattern.
   */
  function ValidateInput(name: string, email: string, message: string): (errors: seq<InputError>)
    ensures NameLength in errors <==> !(NameMin <= |Trim(name)| <= NameMax)
    ensures InvalidEmail in errors <==> !MatchesEmailPattern(Trim(email))
    ensures MessageLength in errors <==> !(MessageMin <= |Trim(message)| <= MessageMax)
    ensures forall i :: 0 < i < |errors| ==> FieldRank(errors[i - 1]) < FieldRank(errors[i])
    ensures |errors| == (if NameLength in errors then 1 else 0) + (if InvalidEmail in errors then 1 else 0)
                        + (if MessageLength in errors then 1 else 0)
  {
    var e := Trim(email);
    FieldErrors(LengthOutside(Trim(name), NameMin, NameMax),
                e == "" || !TestEmail(e),
                LengthOutside(Trim(message), MessageMin, MessageMax))
  }

  /** The texts of a list of errors, in order (the `details` of the 400 response). */
  function ErrorTexts(errors: seq<InputError>): (texts: seq<string>)
    ensures |texts| == |errors|
    ensures forall i :: 0 <= i < |errors| ==> texts[i] == InputErrorText(errors[i])
  {
    if errors == [] then [] else [InputErrorText(errors[0])] + ErrorTexts(errors[1..])
  }

  /**
   * Validation does not stop at the first failure: input failing on every field
   * gets all three errors, in the order name, email, message.
   */
  lemma ValidationIsExhaustive(name: string, email: string, message: string)
    requires !(NameMin <= |Trim(name)| <= NameMax)
    requires !MatchesEmailPattern(Trim(email))
    requires !(MessageMin <= |Trim(message)| <= MessageMax)
    ensures ValidateInput(name, email, message) == [NameLength, InvalidEmail, MessageLength]
  {
    assert ValidateInput(name, email, message) == FieldErrors(true, true, true);
  }

  /**
   * `sanitizeInput`: the input with every `<` and `>` removed, then trimmed. The
   * result holds no angle bracket and no outer whitespace.
   */
  function SanitizeInput(input: string): (r: string)
    ensures '<' !in r && '>' !in r
    ensures HasNoOuterWhitespace(r)
    ensures IsTrimmingOf(r, StripAngleBrackets(input))
    ensures forall c :: c in r ==> c in input
  {
    TrimTakesFromInput(StripAngleBrackets(input));
    Trim(StripAngleBrackets(input))
  }

  /** Sanitising twice gives the same text as sanitising once. */
  lemma SanitizeIsIdempotent(input: string)
    ensures SanitizeInput(SanitizeInput(input)) == SanitizeInput(input)
  {
    var once := SanitizeInput(input);
    assert StripAngleBrackets(once) == once;
    TrimKeepsTrimmed(once);
  }

  /** Text with no angle bracket and no outer whitespace passes through unchanged. */
  lemma SanitizeKeepsCleanText(input: string)
    requires '<' !in input && '>' !in input && HasNoOuterWhitespace(input)
    ensures SanitizeInput(input) == input
  {
    TrimKeepsTrimmed(input);
  }

  /** The markup example: `<b>Bob</b>` sanitises to `bBob/b`. */
  lemma SanitizeExample()
    ensures SanitizeInput("<b>Bob</b>") == "bBob/b"
  {
    StripMarkupExample();
    TrimKeepsTrimmed("bBob/b");
  }

  /** Bracket removal alone on the markup example. */
  lemma StripMarkupExample()
    ensures StripAngleBrackets("<b>Bob</b>") == "bBob/b"
  {
    StripTagPair("b", "Bob");
    assert "<b>Bob</b>" == ("<" + "b" + ">") + "Bob" + ("</" + "b" + ">");
    assert "b" + "Bob" + ("/" + "b") == "bBob/b";
  }

  /** A header is truthy in JavaScript when it is present and not the empty string. */
  predicate IsSet(header: Option<string>) {
    header.Some? && header.value != ""
  }

  /**
   * `getClientIp`: the text before the first `,` of a non-empty `x-forwarded-for`
   * (untrimmed, possibly empty); else a non-empty `x-real-ip`; else "unknown".
   */
  function GetClientIp(forwardedFor: Option<string>, realIp: Option<string>): (ip: string)
    ensures IsSet(forwardedFor) ==>
              && |ip| <= |forwardedFor.value| && ip == forwardedFor.value[..|ip|]
              && ',' !in ip
              && (|ip| < |forwardedFor.value| ==> forwardedFor.value[|ip|] == ',')
    ensures !IsSet(forwardedFor) && IsSet(realIp) ==> ip == realIp.value
    ensures !IsSet(forwardedFor) && !IsSet(realIp) ==> ip == "unknown"
  {
    if IsSet(forwardedFor) then FirstSegment(forwardedFor.value, ',')
    else if IsSet(realIp) then realIp.value
    else "unknown"
  }

  // ---------------------------------------------------------------------------
  // The request pipeline

  /**
   * A property of the parsed JSON body as `POST` sees it: absent (undefined or
   * null), a string, or another JSON value, which is truthy unless it is
   * `false` or `0`.
   */
  datatype FieldValue = Missing | Str(s: string) | NonText(truthy: bool)

  predicate Truthy(v: FieldValue) {
    match v
    case Missing => false
    case Str(s) => s != ""
    case NonText(t) => t
  }

  /**
   * The outcome of `request.json()`: not JSON at all, `null` (destructuring it
   * throws), an object, or any other JSON value (its three properties read as
   * undefined).
   */
  datatype Body = Malformed | JsonNull | JsonObject(name: FieldValue, email: FieldValue, message: FieldValue) | JsonOther

  datatype Request = Request(forwardedFor: Option<string>, realIp: Option<string>, body: Body)

  /** EMAIL_USER and EMAIL_APP_PASSWORD. */
  datatype Env = Env(emailUser: Option<string>, emailAppPassword: Option<string>)

  /** What the mail service answers to `verify` and to the two `sendMail` calls. */
  datatype Transport = Transport(verifyOk: bool, notificationOk: bool, autoReplyOk: bool)

  /**
   * An outbound message; `shown` lists the submitted values its bodies
   * interpolate (the templates themselves are fixed text).
   */
  datatype Mail = Mail(from: string, to: string, subject: string, shown: seq<string>)

  datatype Payload =
    | Failure(error: string)
    | FailureWithDetails(error: string, details: seq<string>)
    | Success(message: string)

  datatype Response = Response(status: int, payload: Payload)

  /** The response and the messages handed to the transport. */
  datatype Outcome = Outcome(response: Response, sent: seq<Mail>)

  datatype PostResult = PostResult(response: Response, sent: seq<Mail>, store: Store)

  const ConfigError := "Server configuration error"
  const TooManyAttempts := "Too many contact attempts. Please try again later."
  const InvalidJson := "Invalid JSON in request body"
  const MissingFields := "Missing required fields"
  const MissingFieldsDetail := "Name, email, and message are all required"
  const CheckInputFields := "Please check your input fields"
  const SendFailed := "Failed to send message. Please try again later or contact me directly."
  const SentMessage := "Message sent successfully! You should receive a confirmation email shortly."
  const OwnerAddress := "ayushmaank25@gmail.com"
  const NotificationSubjectPrefix := "New Portfolio Contact: "
  const AutoReplySubject := "Thanks for reaching out! - Ayushmaan Kumar"

  predicate ConfigPresent(env: Env) {
    IsSet(env.emailUser) && IsSet(env.emailAppPassword)
  }

  /** The owner notification, carrying every sanitised field. */
  function NotificationMail(emailUser: string, name: string, email: string, message: string): Mail {
    Mail("\"Portfolio Contact Form\" <" + emailUser + ">", OwnerAddress, NotificationSubjectPrefix + name, [name, email, message])
  }

  /** The auto-reply to the submitter's sanitised address, greeting them by name. */
  function AutoReplyMail(emailUser: string, name: string, email: string): Mail {
    Mail("\"Ayushmaan Kumar\" <" + emailUser + ">", email, AutoReplySubject, [name])
  }

  const GenericFailure := Response(500, Failure(SendFailed))

  /**
   * `verify`, then both sends together: success only when all three succeed;
   * once `verify` succeeds both messages are handed over whatever happens next.
   */
  function Deliver(emailUser: string, name: string, email: string, message: string, transport: Transport): Outcome {
    if !transport.verifyOk then Outcome(GenericFailure, [])
    else
      var sent := [NotificationMail(emailUser, name, email, message), AutoReplyMail(emailUser, name, email)];
      if transport.notificationOk && transport.autoReplyOk then Outcome(Response(200, Success(SentMessage)), sent)
      else Outcome(GenericFailure, sent)
  }

  /**
   * The part of `POST` after the rate-limit check: parse, presence check,
   * validation, sanitising and delivery. A truthy non-string field makes
   * `validateInput` call a missing `trim` and a `null` body makes the
   * destructuring throw; the outer handler turns both into the generic 500.
   */
  function HandleBody(body: Body, emailUser: string, transport: Transport): Outcome {
    match body
    case Malformed => Outcome(Response(400, Failure(InvalidJson)), [])
    case JsonNull => Outcome(GenericFailure, [])
    case JsonOther => Outcome(Response(400, FailureWithDetails(MissingFields, [MissingFieldsDetail])), [])
    case JsonObject(name, email, message) =>
      if !Truthy(name) || !Truthy(email) || !Truthy(message) then
        Outcome(Response(400, FailureWithDetails(MissingFields, [MissingFieldsDetail])), [])
      else if !name.Str? || !email.Str? || !message.Str? then
        Outcome(GenericFailure, [])
      else
        var errors := ValidateInput(name.s, email.s, message.s);
        if errors != [] then Outcome(Response(400, FailureWithDetails(CheckInputFields, ErrorTexts(errors))), [])
        else Deliver(emailUser, SanitizeInput(name.s), SanitizeInput(email.s), SanitizeInput(message.s), transport)
  }

  /** `POST`: configuration, client key, rate limit, then the body. */
  function PostSpec(env: Env, request: Request, transport: Transport, store: Store, now: int): PostResult {
    if !ConfigPresent(env) then PostResult(Response(500, Failure(ConfigError)), [], store)
    else
      var d := RateLimitCheck(store, GetClientIp(request.forwardedFor, request.realIp), now);
      if d.limited then PostResult(Response(429, Failure(TooManyAttempts)), [], d.store)
      else
        var o := HandleBody(request.body, env.emailUser.value, transport);
        PostResult(o.response, o.sent, d.store)
  }

  /** The body is an object of three non-empty strings that pass validation. */
  predicate AcceptableBody(body: Body) {
    && body.JsonObject?
    && body.name.Str? && body.email.Str? && body.message.Str?
    && body.name.s != "" && body.email.s != "" && body.message.s != ""
    && ValidateInput(body.name.s, body.email.s, body.message.s) == []
  }

  /** Missing credentials stop the request before anything else; the table is untouched. */
  lemma ConfigCheckedFirst(env: Env, request: Request, transport: Transport, store: Store, now: int)
    requires !ConfigPresent(env)
    ensures var r := PostSpec(env, request, transport, store, now);
            r.response == Response(500, Failure(ConfigError)) && r.sent == [] && r.store == store
  {
  }

  /** The body stage answers 200, 400 or 500, and 200 exactly when it reports success. */
  lemma BodyStatuses(body: Body, emailUser: string, transport: Transport)
    ensures var r := HandleBody(body, emailUser, transport).response;
            r.status in {200, 400, 500} && (r.status == 200 <==> r.payload.Success?)
  {
  }

  /**
   * The body stage succeeds exactly for an acceptable body when the mail service
   * accepts both messages; a success hands over exactly those two messages.
   */
  lemma BodySucceedsIff(body: Body, emailUser: string, transport: Transport)
    ensures var o := HandleBody(body, emailUser, transport);
            o.response.status == 200
            <==> AcceptableBody(body) && transport.verifyOk && transport.notificationOk && transport.autoReplyOk
    ensures var o := HandleBody(body, emailUser, transport);
            o.response.status == 200 ==> o.response.payload == Success(SentMessage) && |o.sent| == 2
  {
    if body.JsonObject? && Truthy(body.name) && Truthy(body.email) && Truthy(body.message)
       && body.name.Str? && body.email.Str? && body.message.Str?
    {
      var errors := ValidateInput(body.name.s, body.email.s, body.message.s);
      assert errors == [] <==> AcceptableBody(body);
    }
  }

  /**
   * Once the configuration is present the rate-limit slot is consumed (or the
   * request refused with 429) before the body is looked at: the new table does
   * not depend on the body or the transport.
   */
  lemma RateLimitBeforeBody(env: Env, request: Request, transport: Transport, store: Store, now: int)
    requires ConfigPresent(env)
    ensures var d := RateLimitCheck(store, GetClientIp(request.forwardedFor, request.realIp), now);
            var r := PostSpec(env, request, transport, store, now);
            && r.store == d.store
            && (d.limited <==> r.response.status == 429)
            && (d.limited ==> r.response.payload == Failure(TooManyAttempts) && r.sent == [])
  {
    BodyStatuses(request.body, env.emailUser.value, transport);
  }

  /** The body stage hands messages over only for an acceptable body after a successful `verify`. */
  lemma BodySendsOnlyWhenAcceptable(body: Body, emailUser: string, transport: Transport)
    ensures var o := HandleBody(body, emailUser, transport);
            o.sent != [] ==>
              && AcceptableBody(body) && transport.verifyOk
              && var name, email, message := SanitizeInput(body.name.s), SanitizeInput(body.email.s), SanitizeInput(body.message.s);
                 o.sent == [NotificationMail(emailUser, name, email, message), AutoReplyMail(emailUser, name, email)]
  {
  }

  /**
   * No message reaches the mail service unless the request passed the
   * configuration check, the rate limit and the full validation; the two
   * messages carry the sanitised fields, one to the owner and one to the
   * submitter's sanitised address.
   */
  lemma MailOnlyAfterAllChecks(env: Env, request: Request, transport: Transport, store: Store, now: int)
    requires PostSpec(env, request, transport, store, now).sent != []
    ensures ConfigPresent(env)
    ensures !RateLimitCheck(store, GetClientIp(request.forwardedFor, request.realIp), now).limited
    ensures AcceptableBody(request.body) && transport.verifyOk
    ensures var b := request.body;
            var name, email, message := SanitizeInput(b.name.s), SanitizeInput(b.email.s), SanitizeInput(b.message.s);
            PostSpec(env, request, transport, store, now).sent
              == [NotificationMail(env.emailUser.value, name, email, message), AutoReplyMail(env.emailUser.value, name, email)]
  {
    BodySendsOnlyWhenAcceptable(request.body, env.emailUser.value, transport);
  }

  /** 200 exactly when every stage passes and the service accepts both messages. */
  lemma SuccessIffEveryStagePasses(env: Env, request: Request, transport: Transport, store: Store, now: int)
    ensures var r := PostSpec(env, request, transport, store, now);
            r.response.status == 200
            <==> && ConfigPresent(env)
                 && !RateLimitCheck(store, GetClientIp(request.forwardedFor, request.realIp), now).limited
                 && AcceptableBody(request.body)
                 && transport.verifyOk && transport.notificationOk && transport.autoReplyOk
    ensures var r := PostSpec(env, request, transport, store, now);
            r.response.status == 200 ==> r.response.payload == Success(SentMessage) && |r.sent| == 2
  {
    if ConfigPresent(env) {
      BodySucceedsIff(request.body, env.emailUser.value, transport);
    }
  }

  /**
   * Stage by stage once configuration and rate limit pass: a body that is not
   * JSON is a 400; a falsy field is the presence error, never the validator's
   * messages; failing validation returns every message; any failure of the mail
   * service is the same generic 500 whichever call failed.
   */
  lemma BodyStages(body: Body, emailUser: string, transport: Transport)
    ensures body.Malformed? ==> HandleBody(body, emailUser, transport).response == Response(400, Failure(InvalidJson))
    ensures body.JsonObject? && !(Truthy(body.name) && Truthy(body.email) && Truthy(body.message)) ==>
              HandleBody(body, emailUser, transport).response == Response(400, FailureWithDetails(MissingFields, [MissingFieldsDetail]))
    ensures body.JsonObject? && body.name.Str? && body.email.Str? && body.message.Str?
            && body.name.s != "" && body.email.s != "" && body.message.s != ""
            && ValidateInput(body.name.s, body.email.s, body.message.s) != [] ==>
              HandleBody(body, emailUser, transport).response
                == Response(400, FailureWithDetails(CheckInputFields, ErrorTexts(ValidateInput(body.name.s, body.email.s, body.message.s))))
    ensures AcceptableBody(body) && !(transport.verifyOk && transport.notificationOk && transport.autoReplyOk) ==>
              HandleBody(body, emailUser, transport).response == GenericFailure
  {
    match body
    case JsonObject(name, email, message) =>
      if Truthy(name) && Truthy(email) && Truthy(message) && name.Str? && email.Str? && message.Str? {
        var errors := ValidateInput(name.s, email.s, message.s);
        assert errors == [] <==> AcceptableBody(body);
      }
    case _ =>
  }

  /** Every response carries one of the statuses 200, 400, 429 or 500, and only 200 reports success. */
  lemma StatusesAreFixed(env: Env, request: Request, transport: Transport, store: Store, now: int)
    ensures var r := PostSpec(env, request, transport, store, now).response;
            r.status in {200, 400, 429, 500} && (r.status == 200 <==> r.payload.Success?)
  {
    if ConfigPresent(env) {
      BodyStatuses(request.body, env.emailUser.value, transport);
    }
  }

  /**
   * The module-level state of route.ts: the rate-limit table, kept in the
   * instance so that every request goes through the same table.
   */
  class ContactRoute {
    var rateLimitStore: Store

    ghost predicate Valid()
      reads this
    {
      Bounded(rateLimitStore)
    }

    constructor()
      ensures Valid() && rateLimitStore == map[]
    {
      rateLimitStore := map[];
    }

    /**
     * `isRateLimited`: prunes the key's entry in place (the pruned list is
     * written back even when the request is refused), then records `now`
     * unless five or more timestamps remain.
     */
    method IsRateLimited(ip: string, now: int) returns (limited: bool)
      requires Valid()
      modifies this
      ensures Valid()
      ensures RateLimitCheck(old(rateLimitStore), ip, now) == Decision(limited, rateLimitStore)
    {
      CheckPreservesBound(rateLimitStore, ip, now);
      var windowStart := now - WindowMs;
      var timestamps := if ip in rateLimitStore then rateLimitStore[ip] else [];
      timestamps := KeepAfter(timestamps, windowStart);
      if ip in rateLimitStore {
        // the map holds the very entry object whose list was just reassigned
        rateLimitStore := rateLimitStore[ip := timestamps];
      }
      if |timestamps| >= MaxRequests {
        return true;
      }
      timestamps := timestamps + [now];
      rateLimitStore := rateLimitStore[ip := timestamps];
      return false;
    }

    /** `POST`, stage by stage with an early return at each. */
    method Post(env: Env, request: Request, transport: Transport, now: int) returns (response: Response, sent: seq<Mail>)
      requires Valid()
      modifies this
      ensures Valid()
      ensures PostSpec(env, request, transport, old(rateLimitStore), now) == PostResult(response, sent, rateLimitStore)
    {
      sent := [];
      if !IsSet(env.emailUser) || !IsSet(env.emailAppPassword) {
        return Response(500, Failure(ConfigError)), sent;
      }
      var clientIp := GetClientIp(request.forwardedFor, request.realIp);
      var limited := IsRateLimited(clientIp, now);
      if limited {
        return Response(429, Failure(TooManyAttempts)), sent;
      }
      if request.body.Malformed? {
        return Response(400, Failure(InvalidJson)), sent;
      }
      if request.body.JsonNull? {
        // destructuring null throws; the outer catch answers
        return GenericFailure, sent;
      }
      var name, email, message := Missing, Missing, Missing;
      if request.body.JsonObject? {
        name, email, message := request.body.name, request.body.email, request.body.message;
      }
      if !Truthy(name) || !Truthy(email) || !Truthy(message) {
        return Response(400, FailureWithDetails(MissingFields, [MissingFieldsDetail])), sent;
      }
      if !name.Str? || !email.Str? || !message.Str? {
        // `trim` is not a function on a non-string value; the outer catch answers
        return GenericFailure, sent;
      }
      var validationErrors := ValidateInput(name.s, email.s, message.s);
      if |validationErrors| > 0 {
        return Response(400, FailureWithDetails(CheckInputFields, ErrorTexts(validationErrors))), sent;
      }
      var sanitizedName := SanitizeInput(name.s);
      var sanitizedEmail := SanitizeInput(email.s);
      var sanitizedMessage := SanitizeInput(message.s);
      var emailUser := env.emailUser.value;
      if !transport.verifyOk {
        return GenericFailure, sent;
      }
      sent := [NotificationMail(emailUser, sanitizedName, sanitizedEmail, sanitizedMessage),
               AutoReplyMail(emailUser, sanitizedName, sanitizedEmail)];
      if !transport.notificationOk || !transport.autoReplyOk {
        return GenericFailure, sent;
      }
      return Response(200, Success(SentMessage)), sent;
    }
  }
}
