/**
 * The contact form of the home page (src/app/page.tsx): the browser-side
 * validator, the status line shown after a submission, the field-by-field form
 * state and the profile links.
 *
 * The HTTP round trip is an oracle (`SubmitOutcome`): what came back, if
 * anything. `ClientView` reads a response of the endpoint modelled in
 * `ContactRoute` as such an outcome, which lets the lemmas at the end follow one
 * submission through both sides.
 */
module HomePage {
  import opened Wrappers
  import opened Text
  import opened EmailPattern
  import ContactRoute
  import RateLimit

  datatype FormData = FormData(name: string, email: string, message: string)

  const EmptyForm := FormData("", "", "")

  /** The `name` attribute of the input that fired a change event. */
  datatype Field = Name | Email | Message

  /** The value a field currently holds. */
  function FieldValue(data: FormData, field: Field): string {
    match field
    case Name => data.name
    case Email => data.email
    case Message => data.message
  }

  /** `{ ...prev, [name]: value }`: the named field replaced, the other two kept. */
  function WithField(data: FormData, field: Field, value: string): (r: FormData)
    ensures FieldValue(r, field) == value
    ensures forall other :: other != field ==> FieldValue(r, other) == FieldValue(data, other)
  {
    match field
    case Name => data.(name := value)
    case Email => data.(email := value)
    case Message => data.(message := value)
  }

  // ---------------------------------------------------------------------------
  // validateForm

  /**
   * The five messages `validateForm` can push. The form hard-codes the same
   * bounds as the server (`ContactRoute.NameMin` and the others) but reports too
   * short and too long separately.
   */
  datatype FormError = NameTooShort | NameTooLong | BadEmail | MessageTooShort | MessageTooLong

  function FormErrorText(e: FormError): string {
    match e
    case NameTooShort => "Name must be at least 2 characters long"
    case NameTooLong => "Name must be less than 100 characters"
    case BadEmail => "Please enter a valid email address"
    case MessageTooShort => "Message must be at least 10 characters long"
    case MessageTooLong => "Message must be less than 1000 characters"
  }

  /** Position of a check in the order the form runs them. */
  function CheckRank(e: FormError): nat {
    match e
    case NameTooShort => 0
    case NameTooLong => 1
    case BadEmail => 2
    case MessageTooShort => 3
    case MessageTooLong => 4
  }

  function Count(b: bool): nat {
    if b then 1 else 0
  }

  /** Each error comes from a later check than the one before it. */
  predicate InCheckOrder(errors: seq<FormError>) {
    forall i :: 0 < i < |errors| ==> CheckRank(errors[i - 1]) < CheckRank(errors[i])
  }

  /** `rest` with `e` in front when its check failed; `e`'s check runs before all of `rest`'s. */
  function PushIf(failed: bool, e: FormError, rest: seq<FormError>): (errors: seq<FormError>)
    requires InCheckOrder(rest) && forall x :: x in rest ==> CheckRank(e) < CheckRank(x)
    ensures InCheckOrder(errors)
    ensures forall x :: x in errors ==> CheckRank(e) <= CheckRank(x)
    ensures forall x :: x in errors <==> (failed && x == e) || x in rest
    ensures |errors| == Count(failed) + |rest|
  {
    if failed then [e] + rest else rest
  }

  /** The errors of the failing checks, in the order the form runs them. */
  function FormErrors(shortName: bool, longName: bool, badEmail: bool, shortMessage: bool, longMessage: bool): (errors: seq<FormError>)
    ensures NameTooShort in errors <==> shortName
    ensures NameTooLong in errors <==> longName
    ensures BadEmail in errors <==> badEmail
    ensures MessageTooShort in errors <==> shortMessage
    ensures MessageTooLong in errors <==> longMessage
    ensures InCheckOrder(errors)
    ensures |errors| == Count(shortName) + Count(longName) + Count(badEmail) + Count(shortMessage) + Count(longMessage)
  {
    PushIf(shortName, NameTooShort,
      PushIf(longName, NameTooLong,
        PushIf(badEmail, BadEmail,
          PushIf(shortMessage, MessageTooShort,
            PushIf(longMessage, MessageTooLong, [])))))
  }

  /**
   * `validateForm`: a trimmed name shorter than 2 or longer than 100, a trimmed
   * email not matching the address pattern, a trimmed message shorter than 10 or
   * longer than 1000 each add their message, in that order. A field is never
   * both too short and too long, so there are at most three errors; lengths of
   * exactly 100 and 1000 pass.
   */
  function ValidateForm(data: FormData): (errors: seq<FormError>)
    ensures NameTooShort in errors <==> |Trim(data.name)| < ContactRoute.NameMin
    ensures NameTooLong in errors <==> |Trim(data.name)| > ContactRoute.NameMax
    ensures BadEmail in errors <==> !MatchesEmailPattern(Trim(data.email))
    ensures MessageTooShort in errors <==> |Trim(data.message)| < ContactRoute.MessageMin
    ensures MessageTooLong in errors <==> |Trim(data.message)| > ContactRoute.MessageMax
    ensures !(NameTooShort in errors && NameTooLong in errors)
    ensures !(MessageTooShort in errors && MessageTooLong in errors)
    ensures InCheckOrder(errors)
    ensures |errors| == Count(NameTooShort in errors) + Count(NameTooLong in errors) + Count(BadEmail in errors)
                        + Count(MessageTooShort in errors) + Count(MessageTooLong in errors)
    ensures |errors| <= 3
  {
    var name := Trim(data.name);
    var email := Trim(data.email);
    var message := Trim(data.message);
    FormErrors(name == "" || |name| < ContactRoute.NameMin,
               |name| > ContactRoute.NameMax,
               email == "" || !TestEmail(email),
               message == "" || |message| < ContactRoute.MessageMin,
               |message| > ContactRoute.MessageMax)
  }

  function FormErrorTexts(errors: seq<FormError>): (texts: seq<string>)
    ensures |texts| == |errors|
    ensures forall i :: 0 <= i < |errors| ==> texts[i] == FormErrorText(errors[i])
  {
    if errors == [] then [] else [FormErrorText(errors[0])] + FormErrorTexts(errors[1..])
  }

  // ---------------------------------------------------------------------------
  // The status line

  const FixErrorsPrefix := "Please fix the following errors: "
  const DefaultFailure := "Failed to send message. Please try again."
  const DetailsSeparator := " Details: "
  const SuccessStatus := "Message sent successfully! You should receive a confirmation email shortly."
  const NetworkError := "Network error. Please check your connection and try again."
  const UnexpectedError := "An unexpected error occurred. Please try again."

  /** The line shown when the form refuses to submit. */
  function FixErrorsStatus(errors: seq<FormError>): string {
    FixErrorsPrefix + Join(FormErrorTexts(errors), ", ")
  }

  /**
   * The line built from a failure body: its `error` if that is a non-empty
   * string, else the default text; then the joined `details` if there are any.
   */
  function FailureMessage(error: Option<string>, details: Option<seq<string>>): string {
    var base := if error.Some? && error.value != "" then error.value else DefaultFailure;
    if details.Some? && |details.value| > 0 then base + DetailsSeparator + Join(details.value, ", ") else base
  }

  /** The JSON body of an answer, as far as the form reads it (`ApiResponse`). */
  datatype ApiData = ApiData(success: bool, error: Option<string>, details: Option<seq<string>>)

  /**
   * What `axios.post` ends in: an answer with its status and its body, no answer
   * to a request that went out, or a failure before any request was made. An
   * absent body stands for `null` or `undefined`; a body that is some other
   * non-object value reads as `ApiData(false, None, None)`.
   */
  datatype SubmitOutcome = Answered(status: int, data: Option<ApiData>) | NoResponse | NotSent

  /** axios resolves on a 2xx status and rejects with the answer attached otherwise. */
  predicate Resolves(status: int) {
    200 <= status < 300
  }

  /** The submission counts as delivered: a 2xx answer whose body says `success`. */
  predicate Delivered(outcome: SubmitOutcome) {
    outcome.Answered? && Resolves(outcome.status) && outcome.data.Some? && outcome.data.value.success
  }

  /**
   * The status line after a request went out. A resolved answer without a body
   * makes `data.success` throw, which the handler reports as unexpected; a
   * rejected answer is read with optional chaining and never checked for
   * `success`.
   */
  function StatusAfter(outcome: SubmitOutcome): string {
    match outcome
    case Answered(status, data) =>
      if Resolves(status) then
        if data.None? then UnexpectedError
        else if data.value.success then SuccessStatus
        else FailureMessage(data.value.error, data.value.details)
      else if data.None? then FailureMessage(None, None)
      else FailureMessage(data.value.error, data.value.details)
    case NoResponse => NetworkError
    case NotSent => UnexpectedError
  }

  /** A delivered submission shows the confirmation line. */
  lemma DeliveredShowsConfirmation(outcome: SubmitOutcome)
    requires Delivered(outcome)
    ensures StatusAfter(outcome) == SuccessStatus
  {
  }

  /**
   * A failure answer shows the server's error (or the default line when it has
   * none), followed by its details only when there are some.
   */
  lemma FailureShowsErrorAndDetails(outcome: SubmitOutcome)
    requires outcome.Answered? && outcome.data.Some? && !Delivered(outcome)
    ensures var d := outcome.data.value;
            var base := if d.error.Some? && d.error.value != "" then d.error.value else DefaultFailure;
            && (d.details.None? || d.details.value == [] ==> StatusAfter(outcome) == base)
            && (d.details.Some? && d.details.value != [] ==>
                  StatusAfter(outcome) == base + DetailsSeparator + Join(d.details.value, ", "))
  {
  }

  // ---------------------------------------------------------------------------
  // The form's state

  /** The state `Home` keeps for the contact form. */
  class ContactForm {
    var formData: FormData
    var isSubmitting: bool
    var submitStatus: string

    constructor()
      ensures formData == EmptyForm && !isSubmitting && submitStatus == ""
    {
      formData := EmptyForm;
      isSubmitting := false;
      submitStatus := "";
    }

    /** `handleInputChange`: store the typed value and clear the status line. */
    method HandleInputChange(field: Field, value: string)
      modifies this
      ensures FieldValue(formData, field) == value
      ensures forall other :: other != field ==> FieldValue(formData, other) == FieldValue(old(formData), other)
      ensures submitStatus == "" && isSubmitting == old(isSubmitting)
    {
      formData := WithField(formData, field, value);
      if submitStatus != "" {
        submitStatus := "";
      }
    }

    /**
     * `handleSubmit`, with `outcome` standing for what the request ends in. An
     * invalid form sends nothing and lists its errors; otherwise the current
     * form is sent (`sent`), the status line reports the outcome, and only a
     * delivered submission empties the form.
     */
    method HandleSubmit(outcome: SubmitOutcome) returns (sent: Option<FormData>)
      modifies this
      ensures var errors := ValidateForm(old(formData));
              errors != [] ==>
                && sent == None
                && submitStatus == FixErrorsStatus(errors)
                && formData == old(formData) && isSubmitting == old(isSubmitting)
      ensures ValidateForm(old(formData)) == [] ==>
                && sent == Some(old(formData))
                && submitStatus == StatusAfter(outcome)
                && formData == (if Delivered(outcome) then EmptyForm else old(formData))
                && !isSubmitting
    {
      var validationErrors := ValidateForm(formData);
      if |validationErrors| > 0 {
        submitStatus := FixErrorsStatus(validationErrors);
        return None;
      }
      isSubmitting := true;
      submitStatus := "";
      sent := Some(formData);
      match outcome {
        case Answered(status, data) =>
          if Resolves(status) {
            if data.None? {
              submitStatus := UnexpectedError;
            } else if data.value.success {
              submitStatus := SuccessStatus;
              formData := EmptyForm;
            } else {
              submitStatus := FailureMessage(data.value.error, data.value.details);
            }
          } else {
            var error := if data.Some? then data.value.error else None;
            var details := if data.Some? then data.value.details else None;
            submitStatus := FailureMessage(error, details);
          }
        case NoResponse =>
          submitStatus := NetworkError;
        case NotSent =>
          submitStatus := UnexpectedError;
      }
      isSubmitting := false;
    }
  }

  // ---------------------------------------------------------------------------
  // Profile links

  datatype ContactKind = LeetCode | LinkedIn | GitHub

  function ProfilePrefix(kind: ContactKind): string {
    match kind
    case LeetCode => "https://leetcode.com/u/"
    case LinkedIn => "https://linkedin.com/in/"
    case GitHub => "https://github.com/"
  }

  /** The address `handleContactClick1` opens: the site's profile path followed by the handle. */
  function ContactUrl(kind: ContactKind, value: string): (url: string)
    ensures |ProfilePrefix(kind)| <= |url|
    ensures url[..|ProfilePrefix(kind)|] == ProfilePrefix(kind)
    ensures url[|ProfilePrefix(kind)|..] == value
  {
    ProfilePrefix(kind) + value
  }

  /** Different sites or different handles never give the same address. */
  lemma ContactUrlIsInjective(k1: ContactKind, v1: string, k2: ContactKind, v2: string)
    requires ContactUrl(k1, v1) == ContactUrl(k2, v2)
    ensures k1 == k2 && v1 == v2
  {
    if k1 != k2 {
      DistinctSitesDistinctUrls(k1, v1, k2, v2);
    }
  }

  lemma DistinctSitesDistinctUrls(k1: ContactKind, v1: string, k2: ContactKind, v2: string)
    requires k1 != k2
    ensures ContactUrl(k1, v1) != ContactUrl(k2, v2)
  {
    // the prefixes already differ at index 8 or 9
    var u1, u2 := ContactUrl(k1, v1), ContactUrl(k2, v2);
    assert u1[8] == ProfilePrefix(k1)[8] && u1[9] == ProfilePrefix(k1)[9];
    assert u2[8] == ProfilePrefix(k2)[8] && u2[9] == ProfilePrefix(k2)[9];
  }

  // ---------------------------------------------------------------------------
  // The form and the endpoint together

  /** The body the endpoint receives for a form: three JSON strings. */
  function RequestBody(data: FormData): ContactRoute.Body {
    ContactRoute.JsonObject(ContactRoute.Str(data.name), ContactRoute.Str(data.email), ContactRoute.Str(data.message))
  }

  /** An endpoint response as the form receives it. */
  function ClientView(response: ContactRoute.Response): SubmitOutcome {
    var data := match response.payload
      case Failure(error) => ApiData(false, Some(error), None)
      case FailureWithDetails(error, details) => ApiData(false, Some(error), Some(details))
      case Success(_) => ApiData(true, None, None);
    Answered(response.status, Some(data))
  }

  /**
   * The two validators agree field by field: the form flags a field exactly when
   * the server would, so both accept the same forms.
   */
  lemma ClientAgreesWithServer(data: FormData)
    ensures var client, server := ValidateForm(data), ContactRoute.ValidateInput(data.name, data.email, data.message);
            && (NameTooShort in client || NameTooLong in client <==> ContactRoute.NameLength in server)
            && (BadEmail in client <==> ContactRoute.InvalidEmail in server)
            && (MessageTooShort in client || MessageTooLong in client <==> ContactRoute.MessageLength in server)
            && (client == [] <==> server == [])
  {
    var client, server := ValidateForm(data), ContactRoute.ValidateInput(data.name, data.email, data.message);
    if client != [] {
      assert client[0] in client;
    }
    if server != [] {
      assert server[0] in server;
    }
  }

  /** Both validators report one error per failing field, so they report the same number. */
  lemma ClientAndServerCountAlike(data: FormData)
    ensures |ValidateForm(data)| == |ContactRoute.ValidateInput(data.name, data.email, data.message)|
  {
  }

  /** A form the browser lets through is a body the endpoint accepts. */
  lemma ValidFormIsAcceptable(data: FormData)
    requires ValidateForm(data) == []
    ensures ContactRoute.AcceptableBody(RequestBody(data))
  {
    ClientAgreesWithServer(data);
    TrimTakesFromInput(data.name);
    TrimTakesFromInput(data.email);
    TrimTakesFromInput(data.message);
    assert Trim(data.email) != [];
  }

  /**
   * End to end: a valid form, sent with the credentials configured, from a
   * client the rate limiter admits, through a mail service that accepts both
   * messages, is delivered; the form shows the confirmation and is emptied.
   */
  lemma ValidFormIsDelivered(data: FormData, env: ContactRoute.Env, forwardedFor: Option<string>, realIp: Option<string>,
                             transport: ContactRoute.Transport, store: RateLimit.Store, now: int)
    requires ValidateForm(data) == []
    requires ContactRoute.ConfigPresent(env)
    requires !RateLimit.RateLimitCheck(store, ContactRoute.GetClientIp(forwardedFor, realIp), now).limited
    requires transport.verifyOk && transport.notificationOk && transport.autoReplyOk
    ensures var r := ContactRoute.PostSpec(env, ContactRoute.Request(forwardedFor, realIp, RequestBody(data)), transport, store, now);
            Delivered(ClientView(r.response)) && StatusAfter(ClientView(r.response)) == SuccessStatus
  {
    var request := ContactRoute.Request(forwardedFor, realIp, RequestBody(data));
    var response := ContactRoute.PostSpec(env, request, transport, store, now).response;
    assert response == ContactRoute.Response(200, ContactRoute.Success(ContactRoute.SentMessage)) by {
      ValidFormIsAcceptable(data);
      ContactRoute.SuccessIffEveryStagePasses(env, request, transport, store, now);
    }
    SuccessAnswerIsDelivered(response);
    DeliveredShowsConfirmation(ClientView(response));
  }

  /** Any 200 answer carrying `success: true` counts as delivered in the browser. */
  lemma SuccessAnswerIsDelivered(response: ContactRoute.Response)
    requires response.status == 200 && response.payload.Success?
    ensures Delivered(ClientView(response))
  {
  }

  /**
   * Every refusal of the endpoint reaches the user with its own error text, and
   * a validation refusal with every message the server produced.
   */
  lemma ServerErrorsAreShown(response: ContactRoute.Response)
    requires !Resolves(response.status)
    ensures response.payload.Failure? && response.payload.error != "" ==>
              StatusAfter(ClientView(response)) == response.payload.error
    ensures response.payload.FailureWithDetails? && response.payload.error != "" && response.payload.details != [] ==>
              StatusAfter(ClientView(response))
                == response.payload.error + DetailsSeparator + Join(response.payload.details, ", ")
  {
  }

  /**
   * A body that fails the server's validation is answered with a 400 whose
   * details the form shows in full, after "Please check your input fields".
   */
  lemma ValidationDetailsAreShown(body: ContactRoute.Body, emailUser: string, transport: ContactRoute.Transport)
    requires body.JsonObject? && body.name.Str? && body.email.Str? && body.message.Str?
    requires body.name.s != "" && body.email.s != "" && body.message.s != ""
    requires ContactRoute.ValidateInput(body.name.s, body.email.s, body.message.s) != []
    ensures var errors := ContactRoute.ValidateInput(body.name.s, body.email.s, body.message.s);
            StatusAfter(ClientView(ContactRoute.HandleBody(body, emailUser, transport).response))
              == ContactRoute.CheckInputFields + DetailsSeparator + Join(ContactRoute.ErrorTexts(errors), ", ")
  {
    var errors := ContactRoute.ValidateInput(body.name.s, body.email.s, body.message.s);
    var texts := ContactRoute.ErrorTexts(errors);
    ContactRoute.BodyStages(body, emailUser, transport);
    var response := ContactRoute.HandleBody(body, emailUser, transport).response;
    assert response == ContactRoute.Response(400, ContactRoute.FailureWithDetails(ContactRoute.CheckInputFields, texts));
    assert ClientView(response) == Answered(400, Some(ApiData(false, Some(ContactRoute.CheckInputFields), Some(texts))));
    assert |texts| > 0;
    assert StatusAfter(ClientView(response)) == FailureMessage(Some(ContactRoute.CheckInputFields), Some(texts));
  }
}
