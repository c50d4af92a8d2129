/**
 * The two send endpoints, `send-sms/route.ts` and `send-rcs/route.ts`:
 * request validation, the call into the messaging service, and the
 * classification of failures as 400 or 500. The provider's reply, the
 * default sender and the URL check are parameters.
 */
module SendRoutes {
  import opened Wrappers
  import opened JsonValues
  import opened TwilioService

  datatype RouteResponse =
    | Success(message: string, data: MessageResponse)
    | BadRequest(error: string)
    | Failure(error: string, details: string)

  function StatusCode(r: RouteResponse): int {
    match r
    case Success(_, _) => 200
    case BadRequest(_) => 400
    case Failure(_, _) => 500
  }

  /** What the handler returns, and the create request it handed to the provider, if any. */
  datatype RouteOutcome = RouteOutcome(request: Option<CreateRequest>, response: RouteResponse)

  const InvalidRequestData := "Invalid request data"
  const InvalidPhoneFormat := "Invalid phone number format. Use E.164 format (e.g., +1234567890)"
  const MinRecipientLength := 10

  /** The routes test only `error.name === 'ZodError'`, not the `errors` field. */
  predicate NamedZodError(e: Thrown) {
    e.Object? && e.name == Some("ZodError")
  }

  /** The `catch` block: 400 for a zod failure, otherwise 500 with the route's message. */
  function Catch(e: Thrown, failure: string, details: string): (r: RouteResponse)
    ensures StatusCode(r) == 400 <==> NamedZodError(e)
    ensures r.BadRequest? ==> r.error == InvalidRequestData
    ensures r.Failure? ==> r.error == failure && r.details == details
  {
    if NamedZodError(e) then BadRequest(InvalidRequestData) else Failure(failure, details)
  }

  /** An optional string field: `Some(None)` when absent, `None` when present but not a string. */
  function OptionalString(f: map<string, Json>, key: string): (r: Option<Option<string>>)
    ensures key !in f ==> r == Some(None)
    ensures key in f ==> (r.Some? <==> f[key].JString?) && (r.Some? ==> r.value == Some(f[key].s))
  {
    if key !in f then Some(None)
    else if f[key].JString? then Some(Some(f[key].s))
    else None
  }

  /** A string field of at least `min` characters. */
  predicate LongString(f: map<string, Json>, key: string, min: nat) {
    key in f && f[key].JString? && |f[key].s| >= min
  }

  // SMS

  /** What `sendSMSSchema` accepts: `to` of 10 or more characters, a non-empty body, optional sender and URLs. */
  predicate AcceptableSms(body: Json, isUrl: string -> bool) {
    && body.JObject?
    && var f := body.fields;
    && LongString(f, "to", MinRecipientLength)
    && LongString(f, "body", 1)
    && ("from" !in f || f["from"].JString?)
    && ("mediaUrl" !in f || (f["mediaUrl"].JArray? &&
          forall i :: 0 <= i < |f["mediaUrl"].items| ==>
            f["mediaUrl"].items[i].JString? && isUrl(f["mediaUrl"].items[i].s)))
  }

  /** `sendSMSSchema.parse`: `None` where zod throws. */
  function ParseSms(body: Json, isUrl: string -> bool): (r: Option<SmsMessage>)
    ensures r.Some? <==> AcceptableSms(body, isUrl)
    ensures r.Some? ==> |r.value.to| >= MinRecipientLength && r.value.body != ""
    ensures r.Some? && r.value.mediaUrl.Some? ==>
      forall i :: 0 <= i < |r.value.mediaUrl.value| ==> isUrl(r.value.mediaUrl.value[i])
    ensures r.Some? ==>
      var f := body.fields;
      && r.value.to == f["to"].s && r.value.body == f["body"].s
      && r.value.from == (if "from" in f then Some(f["from"].s) else None)
      && (r.value.mediaUrl.Some? <==> "mediaUrl" in f)
    ensures r.Some? && r.value.mediaUrl.Some? ==>
      var items := body.fields["mediaUrl"].items;
      |r.value.mediaUrl.value| == |items| &&
      forall i :: 0 <= i < |items| ==> items[i] == JString(r.value.mediaUrl.value[i])
  {
    if !body.JObject? then None
    else
      var f := body.fields;
      var from := OptionalString(f, "from");
      var media :=
        if "mediaUrl" !in f then Some(None)
        else if !f["mediaUrl"].JArray? then None
        else match StringItems(f["mediaUrl"].items)
          case None => None
          case Some(urls) =>
            if forall i :: 0 <= i < |urls| ==> isUrl(urls[i]) then Some(Some(urls)) else None;
      if LongString(f, "to", MinRecipientLength) && LongString(f, "body", 1) && from.Some? && media.Some? then
        Some(SmsMessage(f["to"].s, f["body"].s, from.value, media.value))
      else None
  }

  const SmsSent := "SMS sent successfully"
  const SmsFailed := "Failed to send SMS"

  /** The error the service throws when the provider refuses a send. */
  function ServiceError(): Thrown {
    Object(Some("Error"), false)
  }

  /**
   * `POST /api/twilio/send-sms`: a body that is not JSON (`Err` with the
   * parser's message) is a 500, an invalid one a 400; a valid one is sent
   * as it is, and the provider's refusal is a 500 carrying the service's
   * message.
   */
  function SendSmsRoute(body: Result<Json, string>, isUrl: string -> bool, defaultFrom: string,
                        reply: Result<ProviderMessage, string>): (o: RouteOutcome)
    ensures StatusCode(o.response) == 400 <==> body.Ok? && ParseSms(body.value, isUrl).None?
    ensures o.request.Some? <==> body.Ok? && ParseSms(body.value, isUrl).Some?
    ensures o.request.Some? ==> o.request.value == SmsRequest(ParseSms(body.value, isUrl).value, defaultFrom)
    ensures StatusCode(o.response) == 500 <==> body.Err? || (o.request.Some? && reply.Err?)
    ensures o.response.Success? ==>
      o.response.data == SendSms(ParseSms(body.value, isUrl).value, reply).value
  {
    if body.Err? then RouteOutcome(None, Catch(SyntaxFailure, SmsFailed, body.error))
    else match ParseSms(body.value, isUrl)
      case None => RouteOutcome(None, Catch(ZodFailure, SmsFailed, ""))
      case Some(msg) =>
        var request := Some(SmsRequest(msg, defaultFrom));
        match SendSms(msg, reply)
        case Ok(result) => RouteOutcome(request, Success(SmsSent, result))
        case Err(e) => RouteOutcome(request, Catch(ServiceError(), SmsFailed, e))
  }

  /** The JSON body a client sends for an SMS message; absent options are left out. */
  function SmsBody(m: SmsMessage): Json {
    var required := map["to" := JString(m.to), "body" := JString(m.body)];
    var withFrom := if m.from.Some? then required["from" := JString(m.from.value)] else required;
    JObject(if m.mediaUrl.Some? then withFrom["mediaUrl" := JArray(JsonStrings(m.mediaUrl.value))] else withFrom)
  }

  /** Every message the schema admits survives being sent as JSON and parsed back. */
  lemma ParseSmsRoundTrip(m: SmsMessage, isUrl: string -> bool)
    requires |m.to| >= MinRecipientLength && m.body != ""
    requires m.mediaUrl.Some? ==> forall i :: 0 <= i < |m.mediaUrl.value| ==> isUrl(m.mediaUrl.value[i])
    ensures ParseSms(SmsBody(m), isUrl) == Some(m)
  {
    var f := SmsBody(m).fields;
    assert AcceptableSms(SmsBody(m), isUrl);
    var r := ParseSms(SmsBody(m), isUrl).value;
    if m.mediaUrl.Some? {
      assert r.mediaUrl.value == m.mediaUrl.value;
    }
  }

  /**
   * The SMS route does not check the number's format: every acceptable body
   * is handed to the provider, whatever `ValidatePhoneNumber` says of its `to`.
   */
  lemma SmsSkipsPhoneFormat(body: Json, isUrl: string -> bool, defaultFrom: string,
                            reply: Result<ProviderMessage, string>)
    requires AcceptableSms(body, isUrl) && !ValidatePhoneNumber(body.fields["to"].s)
    ensures SendSmsRoute(Ok(body), isUrl, defaultFrom, reply).request
         == Some(SmsRequest(ParseSms(body, isUrl).value, defaultFrom))
    ensures SendSmsRoute(Ok(body), isUrl, defaultFrom, reply).request.value.to == body.fields["to"].s
  {
  }

  // RCS

  /** What `sendRCSSchema` accepts: `to` of 10 or more characters, a content SID, optional variables and sender. */
  predicate AcceptableRcs(body: Json) {
    && body.JObject?
    && var f := body.fields;
    && LongString(f, "to", MinRecipientLength)
    && LongString(f, "contentSid", 1)
    && ("contentVariables" !in f || (f["contentVariables"].JObject? &&
          forall k :: k in f["contentVariables"].fields ==> IsString(f["contentVariables"].fields[k])))
    && ("from" !in f || f["from"].JString?)
  }

  /** `sendRCSSchema.parse`: `None` where zod throws. */
  function ParseRcs(body: Json): (r: Option<RcsMessage>)
    ensures r.Some? <==> AcceptableRcs(body)
    ensures r.Some? ==> |r.value.to| >= MinRecipientLength && r.value.contentSid != ""
    ensures r.Some? ==>
      var f := body.fields;
      && r.value.to == f["to"].s && r.value.contentSid == f["contentSid"].s
      && r.value.from == (if "from" in f then Some(f["from"].s) else None)
      && (r.value.contentVariables.Some? <==> "contentVariables" in f)
    ensures r.Some? && r.value.contentVariables.Some? ==>
      var vars := body.fields["contentVariables"].fields;
      r.value.contentVariables.value.Keys == vars.Keys &&
      forall k :: k in vars ==> vars[k] == JString(r.value.contentVariables.value[k])
  {
    if !body.JObject? then None
    else
      var f := body.fields;
      var from := OptionalString(f, "from");
      var vars :=
        if "contentVariables" !in f then Some(None)
        else if !f["contentVariables"].JObject? then None
        else match StringRecord(f["contentVariables"].fields)
          case None => None
          case Some(m) => Some(Some(m));
      if LongString(f, "to", MinRecipientLength) && LongString(f, "contentSid", 1) && from.Some? && vars.Some? then
        Some(RcsMessage(f["to"].s, f["contentSid"].s, vars.value, from.value))
      else None
  }

  const RcsSent := "RCS message sent successfully"
  const RcsFailed := "Failed to send RCS message"

  /**
   * `POST /api/twilio/send-rcs`: like the SMS route, with an E.164 check of
   * `to` after validation that answers 400 without sending.
   */
  function SendRcsRoute(body: Result<Json, string>, defaultFrom: string, reply: Result<ProviderMessage, string>)
    : (o: RouteOutcome)
    ensures StatusCode(o.response) == 400 <==>
      body.Ok? && (ParseRcs(body.value).None? || !ValidatePhoneNumber(ParseRcs(body.value).value.to))
    ensures body.Ok? && ParseRcs(body.value).Some? && !ValidatePhoneNumber(ParseRcs(body.value).value.to) ==>
      o == RouteOutcome(None, BadRequest(InvalidPhoneFormat))
    ensures o.request.Some? ==>
      && body.Ok? && ParseRcs(body.value).Some?
      && var to := ParseRcs(body.value).value.to;
      && ValidatePhoneNumber(to) && MinRecipientLength <= |to| <= 16
      && o.request.value == RcsRequest(ParseRcs(body.value).value, defaultFrom)
    ensures StatusCode(o.response) == 500 <==> body.Err? || (o.request.Some? && reply.Err?)
    ensures o.response.Success? ==> o.request.Some? && o.response.data == SendRcs(ParseRcs(body.value).value, reply).value
  {
    if body.Err? then RouteOutcome(None, Catch(SyntaxFailure, RcsFailed, body.error))
    else match ParseRcs(body.value)
      case None => RouteOutcome(None, Catch(ZodFailure, RcsFailed, ""))
      case Some(msg) =>
        if !ValidatePhoneNumber(msg.to) then RouteOutcome(None, BadRequest(InvalidPhoneFormat))
        else
          var request := Some(RcsRequest(msg, defaultFrom));
          match SendRcs(msg, reply)
          case Ok(result) => RouteOutcome(request, Success(RcsSent, result))
          case Err(e) => RouteOutcome(request, Catch(ServiceError(), RcsFailed, e))
  }

  /** The JSON body a client sends for an RCS message; absent options are left out. */
  function RcsBody(m: RcsMessage): Json {
    var required := map["to" := JString(m.to), "contentSid" := JString(m.contentSid)];
    var withFrom := if m.from.Some? then required["from" := JString(m.from.value)] else required;
    JObject(if m.contentVariables.Some? then withFrom["contentVariables" := JObject(JsonRecord(m.contentVariables.value))]
            else withFrom)
  }

  /** Every message the schema admits survives being sent as JSON and parsed back. */
  lemma ParseRcsRoundTrip(m: RcsMessage)
    requires |m.to| >= MinRecipientLength && m.contentSid != ""
    ensures ParseRcs(RcsBody(m)) == Some(m)
  {
    assert AcceptableRcs(RcsBody(m));
    var r := ParseRcs(RcsBody(m)).value;
    if m.contentVariables.Some? {
      assert r.contentVariables.value == m.contentVariables.value;
    }
  }

  /**
   * For any recipient of ten or more characters that is not E.164, the SMS
   * route sends while the RCS route refuses with 400 and sends nothing.
   */
  lemma {:induction false} RcsStricterThanSms(to: string, text: string, contentSid: string, isUrl: string -> bool,
                                              defaultFrom: string, reply: Result<ProviderMessage, string>)
    requires |to| >= MinRecipientLength && text != "" && contentSid != "" && !ValidatePhoneNumber(to)
    ensures SendSmsRoute(Ok(SmsBody(SmsMessage(to, text, None, None))), isUrl, defaultFrom, reply).request.Some?
    ensures SendRcsRoute(Ok(RcsBody(RcsMessage(to, contentSid, None, None))), defaultFrom, reply)
         == RouteOutcome(None, BadRequest(InvalidPhoneFormat))
  {
    ParseSmsRoundTrip(SmsMessage(to, text, None, None), isUrl);
    ParseRcsRoundTrip(RcsMessage(to, contentSid, None, None));
  }
}
