/**
 * The provider wrapper of `src/lib/twilio.ts`: the start-up configuration
 * check, the mapping of provider replies to `MessageResponse`, the collation
 * of a bulk send, and the static phone-number helpers. The provider's
 * replies are inputs; the SDK calls themselves are not modelled.
 */
module TwilioService {
  import opened Wrappers
  import opened Domain
  import opened Strings
  import Seqs

  // ---------------------------------------------------------------------------
  // Configuration

  /** The variables the service needs, in declaration order. */
  const RequiredVars: seq<string> := ["TWILIO_ACCOUNT_SID", "TWILIO_AUTH_TOKEN", "TWILIO_PHONE_NUMBER"]

  /** A variable counts as present only when it is defined and non-empty. */
  predicate IsSet(env: map<string, string>, name: string) {
    name in env && env[name] != ""
  }

  datatype EnvVars = EnvVars(accountSid: string, authToken: string, phoneNumber: string)

  /** The names of the missing variables, in declaration order. */
  function MissingVars(env: map<string, string>): (r: seq<string>)
    ensures Seqs.IsSubseq(r, RequiredVars)
    ensures forall i :: 0 <= i < |RequiredVars| ==> (RequiredVars[i] in r <==> !IsSet(env, RequiredVars[i]))
  {
    Seqs.Filter((name: string) => !IsSet(env, name), RequiredVars)
  }

  const MissingVarsPrefix := "Missing required environment variables: "
  const MissingVarsSuffix := ". Please check your .env.local file."

  /** `validateEnvVars`: fails iff a variable is missing, naming exactly the missing ones. */
  function ValidateEnvVars(env: map<string, string>): (r: Result<EnvVars, string>)
    ensures r.Err? <==> exists i :: 0 <= i < |RequiredVars| && !IsSet(env, RequiredVars[i])
    ensures r.Err? ==> r.error == MissingVarsPrefix + Join(MissingVars(env), ", ") + MissingVarsSuffix
    ensures r.Ok? ==> forall i :: 0 <= i < |RequiredVars| ==> IsSet(env, RequiredVars[i])
    ensures r.Ok? ==> r.value == EnvVars(env[RequiredVars[0]], env[RequiredVars[1]], env[RequiredVars[2]])
  {
    var missing := MissingVars(env);
    if |missing| > 0 then
      assert missing[0] in missing;
      Err(MissingVarsPrefix + Join(missing, ", ") + MissingVarsSuffix)
    else
      assert forall i :: 0 <= i < |RequiredVars| ==> RequiredVars[i] !in missing;
      Ok(EnvVars(env[RequiredVars[0]], env[RequiredVars[1]], env[RequiredVars[2]]))
  }

  // ---------------------------------------------------------------------------
  // Messages and provider replies

  datatype SmsMessage = SmsMessage(to: string, body: string, from: Option<string>, mediaUrl: Option<seq<string>>)

  datatype RcsMessage = RcsMessage(
    to: string, contentSid: string, contentVariables: Option<map<string, string>>, from: Option<string>)

  /** The arguments of `messages.create`; the JSON encoding of content variables is not modelled. */
  datatype CreateRequest = CreateRequest(
    to: string,
    from: string,
    body: Option<string>,
    mediaUrl: Option<seq<string>>,
    contentSid: Option<string>,
    contentVariables: Option<map<string, string>>)

  /** A message resource as the provider returns it. */
  datatype ProviderMessage = ProviderMessage(
    sid: string,
    status: string,
    to: string,
    from: string,
    body: Option<string>,
    dateCreated: Time,
    dateSent: Option<Time>,
    errorCode: Option<nat>,
    errorMessage: Option<string>)

  datatype MessageResponse = MessageResponse(
    sid: string,
    status: string,
    to: string,
    from: string,
    body: string,
    dateCreated: Time,
    dateSent: Option<Time>,
    errorCode: Option<string>,
    errorMessage: Option<string>)

  /** The SMS create request: the default sender replaces only a missing `from`; an empty media list is dropped. */
  function SmsRequest(msg: SmsMessage, defaultFrom: string): (q: CreateRequest)
    ensures q.to == msg.to && q.body == Some(msg.body)
    ensures q.from == (if msg.from.Some? then msg.from.value else defaultFrom)
    ensures q.mediaUrl.Some? <==> msg.mediaUrl.Some? && |msg.mediaUrl.value| > 0
    ensures q.mediaUrl.Some? ==> q.mediaUrl == msg.mediaUrl
    ensures q.contentSid.None?
  {
    CreateRequest(
      msg.to, msg.from.GetOr(defaultFrom), Some(msg.body),
      if msg.mediaUrl.Some? && |msg.mediaUrl.value| > 0 then msg.mediaUrl else None,
      None, None)
  }

  /** The RCS create request: a content template instead of a body. */
  function RcsRequest(msg: RcsMessage, defaultFrom: string): (q: CreateRequest)
    ensures q.to == msg.to && q.contentSid == Some(msg.contentSid) && q.body.None?
    ensures q.from == (if msg.from.Some? then msg.from.value else defaultFrom)
    ensures q.contentVariables == msg.contentVariables
  {
    CreateRequest(msg.to, msg.from.GetOr(defaultFrom), None, None, Some(msg.contentSid), msg.contentVariables)
  }

  /** `x || undefined` on an optional string: the empty string counts as absent. */
  function NonEmpty(s: Option<string>): (r: Option<string>)
    ensures r.Some? <==> s.Some? && s.value != ""
    ensures r.Some? ==> r == s
  {
    if s.Some? && s.value != "" then s else None
  }

  /** The reply fields every send copies; `body` is chosen by the caller. */
  function ToResponse(m: ProviderMessage, body: string): (r: MessageResponse)
    ensures r.sid == m.sid && r.status == m.status && r.to == m.to && r.from == m.from
    ensures r.body == body && r.dateCreated == m.dateCreated && r.dateSent == m.dateSent
    ensures r.errorCode.Some? <==> m.errorCode.Some?
    ensures m.errorCode.Some? ==> r.errorCode == Some(NatToString(m.errorCode.value))
    ensures r.errorMessage == NonEmpty(m.errorMessage)
  {
    MessageResponse(
      m.sid, m.status, m.to, m.from, body, m.dateCreated, m.dateSent,
      if m.errorCode.Some? then Some(NatToString(m.errorCode.value)) else None,
      NonEmpty(m.errorMessage))
  }

  const SmsFailurePrefix := "Failed to send SMS: "
  const RcsFailurePrefix := "Failed to send RCS: "
  const StatusFailurePrefix := "Failed to get message status: "

  /** `sendSMS`, given the provider's reply to its create request. */
  function SendSms(msg: SmsMessage, reply: Result<ProviderMessage, string>): (r: Result<MessageResponse, string>)
    ensures reply.Err? ==> r == Err(SmsFailurePrefix + reply.error)
    ensures reply.Ok? ==> r.Ok? && r.value == ToResponse(reply.value, reply.value.body.GetOr(""))
    ensures reply.Ok? ==> (r.value.body == "" <==> reply.value.body.None? || reply.value.body == Some(""))
  {
    match reply
    case Ok(m) => Ok(ToResponse(m, m.body.GetOr("")))
    case Err(e) => Err(SmsFailurePrefix + e)
  }

  /** The fixed body reported for every RCS send. */
  const RcsBody := "RCS Message"

  /** `sendRCS`: like `sendSMS`, but the reported body is always the fixed RCS text. */
  function SendRcs(msg: RcsMessage, reply: Result<ProviderMessage, string>): (r: Result<MessageResponse, string>)
    ensures reply.Err? ==> r == Err(RcsFailurePrefix + reply.error)
    ensures reply.Ok? ==> r.Ok? && r.value == ToResponse(reply.value, RcsBody)
  {
    match reply
    case Ok(m) => Ok(ToResponse(m, RcsBody))
    case Err(e) => Err(RcsFailurePrefix + e)
  }

  /** `getMessageStatus`, given the provider's reply to the fetch. */
  function GetMessageStatus(reply: Result<ProviderMessage, string>): (r: Result<MessageResponse, string>)
    ensures reply.Err? ==> r == Err(StatusFailurePrefix + reply.error)
    ensures reply.Ok? ==> r.Ok? && r.value == ToResponse(reply.value, reply.value.body.GetOr(""))
  {
    match reply
    case Ok(m) => Ok(ToResponse(m, m.body.GetOr("")))
    case Err(e) => Err(StatusFailurePrefix + e)
  }

  /** The stand-in response for the `index`-th message of a bulk send whose send was rejected. */
  function RejectedResponse(msg: SmsMessage, index: nat, reason: string, defaultFrom: string, now: Time): (r: MessageResponse)
    ensures r.sid == "error-" + NatToString(index) && r.status == "failed"
    ensures r.to == msg.to && r.body == msg.body && r.errorMessage == Some(reason)
    ensures r.from == (if msg.from.Some? && msg.from.value != "" then msg.from.value else defaultFrom)
  {
    MessageResponse(
      "error-" + NatToString(index), "failed", msg.to,
      if msg.from.Some? && msg.from.value != "" then msg.from.value else defaultFrom,
      msg.body, now, None, None, Some(reason))
  }

  /**
   * `sendBulkSMS`: every message is sent, the settled results are mapped
   * position by position. `replies[i]` is the provider's reply for
   * `messages[i]`; `now` is the time the stand-ins are created.
   */
  function SendBulkSms(messages: seq<SmsMessage>, replies: seq<Result<ProviderMessage, string>>,
                       defaultFrom: string, now: Time): (r: seq<MessageResponse>)
    requires |replies| == |messages|
    ensures |r| == |messages|
    ensures forall i :: 0 <= i < |messages| && replies[i].Ok? ==>
      r[i] == ToResponse(replies[i].value, replies[i].value.body.GetOr(""))
    ensures forall i :: 0 <= i < |messages| && replies[i].Err? ==>
      r[i] == RejectedResponse(messages[i], i, SmsFailurePrefix + replies[i].error, defaultFrom, now)
  {
    seq(|messages|, i requires 0 <= i < |messages| =>
      match SendSms(messages[i], replies[i])
      case Ok(resp) => resp
      case Err(reason) => RejectedResponse(messages[i], i, reason, defaultFrom, now))
  }

  /** Stand-ins for different positions never share a sid. */
  lemma RejectedSidsDistinct(messages: seq<SmsMessage>, replies: seq<Result<ProviderMessage, string>>,
                             defaultFrom: string, now: Time, i: nat, j: nat)
    requires |replies| == |messages| && i < j < |messages|
    requires replies[i].Err? && replies[j].Err?
    ensures SendBulkSms(messages, replies, defaultFrom, now)[i].sid
         != SendBulkSms(messages, replies, defaultFrom, now)[j].sid
  {
    var r := SendBulkSms(messages, replies, defaultFrom, now);
    if r[i].sid == r[j].sid {
      assert NatToString(i) == r[i].sid[6..];
      assert NatToString(j) == r[j].sid[6..];
      NatToStringInjective(i, j);
    }
  }

  // ---------------------------------------------------------------------------
  // Phone numbers

  /**
   * `validatePhoneNumber`, the pattern `^\+[1-9]\d{1,14}$`: a plus sign, a
   * non-zero digit, then one to fourteen digits.
   */
  predicate ValidatePhoneNumber(s: string) {
    && 3 <= |s| <= 16
    && s[0] == '+'
    && '1' <= s[1] <= '9'
    && forall i :: 2 <= i < |s| ==> IsDigit(s[i])
  }

  /**
   * An accepted number is a plus sign followed by its digits and nothing
   * else: two to fifteen of them (the E.164 maximum), not starting with 0.
   */
  lemma ValidPhoneIsE164(s: string)
    ensures ValidatePhoneNumber(s) <==>
      && |s| > 0 && s[0] == '+'
      && Digits(s) == s[1..]
      && 2 <= |Digits(s)| <= 15
      && Digits(s)[0] != '0'
  {
    if |s| > 0 && s[0] == '+' {
      assert s == [s[0]] + s[1..];
      DigitsConcat([s[0]], s[1..]);
      assert Digits(s) == Digits(s[1..]);
      if ValidatePhoneNumber(s) {
        DigitsOfDigits(s[1..]);
      }
    }
  }

  /** The pattern `^1?(\d{3})(\d{3})(\d{4})$` on a digit string: the ten national digits it captures. */
  function NanpDigits(cleaned: string): (r: Option<string>)
    ensures r.Some? <==> |cleaned| == 10 || (|cleaned| == 11 && cleaned[0] == '1')
    ensures r.Some? ==> |r.value| == 10 && r.value == cleaned[|cleaned| - 10..]
  {
    // the optional `1` is tried first and given back when the rest does not fit
    if |cleaned| > 0 && cleaned[0] == '1' && |cleaned| - 1 == 10 then Some(cleaned[1..])
    else if |cleaned| == 10 then Some(cleaned)
    else None
  }

  /** `(AAA) BBB-CCCC`. */
  function Layout(d: string): string
    requires |d| == 10
  {
    "(" + d[..3] + ") " + d[3..6] + "-" + d[6..]
  }

  lemma {:induction false} LayoutDigits(d: string)
    requires |d| == 10 && AllDigits(d)
    ensures Digits(Layout(d)) == d
    ensures |Layout(d)| == 14
  {
    var a, b, c := d[..3], d[3..6], d[6..];
    DigitsOfDigits(a);
    DigitsOfDigits(b);
    DigitsOfDigits(c);
    var s1 := "(" + a;
    DigitsConcat("(", a);
    var s2 := s1 + ") ";
    DigitsConcat(s1, ") ");
    var s3 := s2 + b;
    DigitsConcat(s2, b);
    var s4 := s3 + "-";
    DigitsConcat(s3, "-");
    var s5 := s4 + c;
    DigitsConcat(s4, c);
    assert s5 == Layout(d);
    assert a + b + c == d;
  }

  /**
   * `formatPhoneNumber`: when the digits are ten, or eleven with a leading
   * 1, the ten national digits laid out as `(AAA) BBB-CCCC`; otherwise the
   * input unchanged.
   */
  function FormatPhoneNumber(phone: string): (r: string)
    ensures NanpDigits(Digits(phone)).None? ==> r == phone
    ensures NanpDigits(Digits(phone)).Some? ==>
      |r| == 14 && Digits(r) == NanpDigits(Digits(phone)).value
      && r[0] == '(' && r[4] == ')' && r[5] == ' ' && r[9] == '-'
  {
    match NanpDigits(Digits(phone))
    case Some(d) =>
      LayoutDigits(d);
      Layout(d)
    case None => phone
  }

  /** Formatting a formatted number changes nothing. */
  lemma FormatIdempotent(phone: string)
    ensures FormatPhoneNumber(FormatPhoneNumber(phone)) == FormatPhoneNumber(phone)
  {
    var n := NanpDigits(Digits(phone));
    if n.Some? {
      LayoutDigits(n.value);
    }
  }

  /** A valid North American E.164 number, `+1` and ten digits, formats to its ten national digits. */
  lemma ValidNanpFormats(s: string)
    requires ValidatePhoneNumber(s) && |s| == 12 && s[1] == '1'
    ensures FormatPhoneNumber(s) == Layout(s[2..])
  {
    ValidPhoneIsE164(s);
    assert Digits(s) == s[1..];
  }
}
