/**
 * Delivery-status reconciliation: the provider posts a form-encoded callback,
 * its status token is normalised to the five-valued `Status`, and every stored
 * message carrying the callback's provider identifier is updated.
 */
module Webhook {
  import opened Wrappers
  import opened Domain
  import Seqs

  /** A decoded `application/x-www-form-urlencoded` body: name/value pairs in order. */
  type FormFields = seq<(string, string)>

  /** `URLSearchParams.get`: the value of the first pair with that name, or null. */
  function FormGet(fields: FormFields, name: string): (r: Option<string>)
    ensures r.None? <==> forall i :: 0 <= i < |fields| ==> fields[i].0 != name
    ensures r.Some? ==>
      exists i ::
        && 0 <= i < |fields| && fields[i] == (name, r.value)
        && forall j :: 0 <= j < i ==> fields[j].0 != name
    decreases |fields|
  {
    if |fields| == 0 then None
    else if fields[0].0 == name then Some(fields[0].1)
    else FormGet(fields[1..], name)
  }

  /** The fields the handler reads from a callback. */
  datatype Callback = Callback(
    messageSid: Option<string>,
    messageStatus: Option<string>,
    to: Option<string>,
    from: Option<string>,
    body: Option<string>,
    errorCode: Option<string>,
    errorMessage: Option<string>)

  function ParseCallback(fields: FormFields): (cb: Callback)
    ensures cb.messageSid == FormGet(fields, "MessageSid")
    ensures cb.messageStatus == FormGet(fields, "MessageStatus")
    ensures cb.errorMessage == FormGet(fields, "ErrorMessage")
  {
    Callback(
      FormGet(fields, "MessageSid"),
      FormGet(fields, "MessageStatus"),
      FormGet(fields, "To"),
      FormGet(fields, "From"),
      FormGet(fields, "Body"),
      FormGet(fields, "ErrorCode"),
      FormGet(fields, "ErrorMessage"))
  }

  /** The provider tokens with a stored meaning; both failure tokens collapse into `Failed`. */
  const KnownTokens: map<string, Status> :=
    map["sent" := Sent, "delivered" := Delivered, "failed" := Failed, "undelivered" := Failed, "read" := Read]

  /** `mapTwilioStatusToDb`: case-sensitive on the token; anything unknown, or no token, is `Pending`. */
  function MapTwilioStatusToDb(token: Option<string>): (s: Status)
    ensures s == Sent <==> token == Some("sent")
    ensures s == Delivered <==> token == Some("delivered")
    ensures s == Read <==> token == Some("read")
    ensures s == Failed <==> token == Some("failed") || token == Some("undelivered")
  {
    match token
    case Some("sent") => Sent
    case Some("delivered") => Delivered
    case Some("failed") => Failed
    case Some("undelivered") => Failed
    case Some("read") => Read
    case _ => Pending
  }

  /** The normaliser is the lookup in the table of known tokens, with `Pending` as its fallback. */
  lemma MapAgreesWithTable(token: Option<string>)
    ensures MapTwilioStatusToDb(token)
         == if token.Some? && token.value in KnownTokens then KnownTokens[token.value] else Pending
    ensures MapTwilioStatusToDb(token) == Pending <==> token.None? || token.value !in KnownTokens
  {
  }

  /** The text stored when a failure callback carries no error message. */
  const DeliveryFailedFallback := "Message delivery failed"

  /** The one field, beyond `status` and `updatedAt`, that a callback sets. */
  datatype FieldUpdate =
    | NoField
    | SetSentAt(at: Time)
    | SetDeliveredAt(at: Time)
    | SetReadAt(at: Time)
    | SetErrorMessage(message: string)

  /** The `updateData` object: always a status and `updatedAt`, plus at most one field. */
  datatype Update = Update(status: Status, updatedAt: Time, field: FieldUpdate)

  /**
   * The construction of `updateData`. The second switch is written over the
   * raw token, yet the field it picks is always the one that matches the
   * normalised status.
   */
  function BuildUpdate(token: Option<string>, errorMessage: Option<string>, now: Time): (u: Update)
    ensures u.status == MapTwilioStatusToDb(token) && u.updatedAt == now
    ensures u.field == NoField <==> u.status == Pending
    ensures u.field.SetSentAt? <==> u.status == Sent
    ensures u.field.SetDeliveredAt? <==> u.status == Delivered
    ensures u.field.SetReadAt? <==> u.status == Read
    ensures u.field.SetErrorMessage? <==> u.status == Failed
    ensures u.field.SetSentAt? || u.field.SetDeliveredAt? || u.field.SetReadAt? ==> u.field.at == now
    ensures u.field.SetErrorMessage? ==>
      u.field.message == (if errorMessage.Some? && errorMessage.value != "" then errorMessage.value
                          else DeliveryFailedFallback)
  {
    var field :=
      match token
      case Some("sent") => SetSentAt(now)
      case Some("delivered") => SetDeliveredAt(now)
      case Some("read") => SetReadAt(now)
      case Some("failed") | Some("undelivered") =>
        SetErrorMessage(if errorMessage.Some? && errorMessage.value != "" then errorMessage.value
                        else DeliveryFailedFallback)
      case _ => NoField;
    Update(MapTwilioStatusToDb(token), now, field)
  }

  /** One row of `updateMany`: the update's fields overwrite the row's, nothing else changes. */
  function ApplyUpdate(m: Message, u: Update): (r: Message)
    ensures r.status == u.status && r.updatedAt == u.updatedAt
    ensures r.sentAt == (if u.field.SetSentAt? then Some(u.field.at) else m.sentAt)
    ensures r.deliveredAt == (if u.field.SetDeliveredAt? then Some(u.field.at) else m.deliveredAt)
    ensures r.readAt == (if u.field.SetReadAt? then Some(u.field.at) else m.readAt)
    ensures r.errorMessage == (if u.field.SetErrorMessage? then Some(u.field.message) else m.errorMessage)
    ensures r.(status := m.status, updatedAt := m.updatedAt, sentAt := m.sentAt,
               deliveredAt := m.deliveredAt, readAt := m.readAt, errorMessage := m.errorMessage) == m
  {
    var base := m.(status := u.status, updatedAt := u.updatedAt);
    match u.field
    case NoField => base
    case SetSentAt(t) => base.(sentAt := Some(t))
    case SetDeliveredAt(t) => base.(deliveredAt := Some(t))
    case SetReadAt(t) => base.(readAt := Some(t))
    case SetErrorMessage(e) => base.(errorMessage := Some(e))
  }

  predicate HasSid(m: Message, sid: string) {
    m.twilioSid == Some(sid)
  }

  /** `updateMany({ where: { twilioSid: sid }, data })` over the message table. */
  function UpdateManyBySid(store: seq<Message>, sid: string, u: Update): (r: seq<Message>)
    ensures |r| == |store|
    ensures forall i :: 0 <= i < |store| && HasSid(store[i], sid) ==> r[i] == ApplyUpdate(store[i], u)
    ensures forall i :: 0 <= i < |store| && !HasSid(store[i], sid) ==> r[i] == store[i]
    ensures forall i :: 0 <= i < |store| ==> r[i].twilioSid == store[i].twilioSid
  {
    seq(|store|, i requires 0 <= i < |store| =>
      if HasSid(store[i], sid) then ApplyUpdate(store[i], u) else store[i])
  }

  /** The row count `updateMany` reports. */
  function MatchCount(store: seq<Message>, sid: string): nat {
    Seqs.CountWhere((m: Message) => HasSid(m, sid), store)
  }

  /** An identifier no stored message carries updates nothing, and that is not an error. */
  lemma {:induction false} UnknownSidChangesNothing(store: seq<Message>, sid: string, u: Update)
    requires MatchCount(store, sid) == 0
    ensures UpdateManyBySid(store, sid, u) == store
  {
    forall i | 0 <= i < |store| ensures !HasSid(store[i], sid) {
      NoMatchAt(store, sid, i);
    }
  }

  lemma {:induction false} NoMatchAt(store: seq<Message>, sid: string, i: nat)
    requires MatchCount(store, sid) == 0 && i < |store|
    ensures !HasSid(store[i], sid)
    decreases i
  {
    if i > 0 {
      NoMatchAt(store[1..], sid, i - 1);
    }
  }

  /** The HTTP answer to the provider. */
  datatype Response = Acknowledged | ServerError

  datatype Outcome = Outcome(store: seq<Message>, response: Response)

  /**
   * `POST` of the webhook route. `body` is `None` when reading the request
   * body fails; `storeFails` says whether the store rejects the update.
   */
  function HandleWebhook(store: seq<Message>, body: Option<FormFields>, now: Time, storeFails: bool): (o: Outcome)
    ensures o.response == ServerError <==> body.None?
    ensures body.None? ==> o.store == store
    ensures body.Some? && ParseCallback(body.value).messageSid in {None, Some("")} ==> o.store == store
    ensures storeFails ==> o.store == store
    ensures body.Some? && !storeFails && ParseCallback(body.value).messageSid.Some?
            && ParseCallback(body.value).messageSid.value != "" ==>
      var cb := ParseCallback(body.value);
      o.store == UpdateManyBySid(store, cb.messageSid.value, BuildUpdate(cb.messageStatus, cb.errorMessage, now))
  {
    match body
    case None => Outcome(store, ServerError)
    case Some(fields) =>
      var cb := ParseCallback(fields);
      if cb.messageSid.None? || cb.messageSid.value == "" || storeFails then
        Outcome(store, Acknowledged)
      else
        var u := BuildUpdate(cb.messageStatus, cb.errorMessage, now);
        Outcome(UpdateManyBySid(store, cb.messageSid.value, u), Acknowledged)
  }

  /** The new status depends on the callback alone, never on the row's prior status. */
  lemma StatusIgnoresPriorState(m1: Message, m2: Message, token: Option<string>, err: Option<string>, now: Time)
    ensures ApplyUpdate(m1, BuildUpdate(token, err, now)).status
         == ApplyUpdate(m2, BuildUpdate(token, err, now)).status
         == MapTwilioStatusToDb(token)
  {
  }

  /** There is no monotonicity guard: a late `sent` callback moves a delivered message back to `Sent`. */
  lemma DeliveredCanRegressToSent(m: Message, now: Time)
    requires m.status == Delivered
    ensures ApplyUpdate(m, BuildUpdate(Some("sent"), None, now)).status == Sent
  {
  }

  /** Replaying a callback (at any later time) leaves the status and error message it produced once. */
  lemma {:induction false} ReplayIsIdempotent(store: seq<Message>, fields: FormFields, t1: Time, t2: Time)
    ensures
      var once := HandleWebhook(store, Some(fields), t1, false).store;
      var twice := HandleWebhook(once, Some(fields), t2, false).store;
      |twice| == |once| == |store| &&
      forall i :: 0 <= i < |store| ==>
        twice[i].status == once[i].status && twice[i].errorMessage == once[i].errorMessage
  {
  }

  /** The position of the last callback in `cbs` that names `sid`, if any. */
  function LastIndex(cbs: seq<Callback>, sid: Option<string>): (r: Option<nat>)
    ensures r.None? <==> forall i :: 0 <= i < |cbs| ==> cbs[i].messageSid != sid
    ensures r.Some? ==> r.value < |cbs| && cbs[r.value].messageSid == sid
    ensures r.Some? ==> forall j :: r.value < j < |cbs| ==> cbs[j].messageSid != sid
    decreases |cbs|
  {
    if |cbs| == 0 then None
    else if cbs[|cbs| - 1].messageSid == sid then Some(|cbs| - 1)
    else LastIndex(cbs[..|cbs| - 1], sid)
  }

  /** The last callback in `cbs` that names `sid`, if any. */
  function LastFor(cbs: seq<Callback>, sid: Option<string>): (r: Option<Callback>)
    ensures r.None? <==> forall i :: 0 <= i < |cbs| ==> cbs[i].messageSid != sid
    ensures r.Some? ==>
      exists i ::
        && 0 <= i < |cbs| && cbs[i] == r.value && r.value.messageSid == sid
        && forall j :: i < j < |cbs| ==> cbs[j].messageSid != sid
  {
    match LastIndex(cbs, sid)
    case None => None
    case Some(k) => Some(cbs[k])
  }

  /** Callbacks handled one after another, each at its own time; store failures are not part of this fold. */
  function ProcessAll(store: seq<Message>, cbs: seq<Callback>, nows: seq<Time>): (r: seq<Message>)
    requires |nows| == |cbs|
    ensures |r| == |store|
    ensures forall i :: 0 <= i < |store| ==> r[i].twilioSid == store[i].twilioSid
    decreases |cbs|
  {
    if |cbs| == 0 then store
    else
      var n := |cbs| - 1;
      var before := ProcessAll(store, cbs[..n], nows[..n]);
      var cb := cbs[n];
      if cb.messageSid.None? || cb.messageSid.value == "" then before
      else UpdateManyBySid(before, cb.messageSid.value, BuildUpdate(cb.messageStatus, cb.errorMessage, nows[n]))
  }

  /** One step of the fold is the route handling that callback's form with a store that accepts the update. */
  lemma ProcessStep(store: seq<Message>, cbs: seq<Callback>, nows: seq<Time>, fields: FormFields, now: Time)
    requires |nows| == |cbs|
    ensures ProcessAll(store, cbs + [ParseCallback(fields)], nows + [now])
         == HandleWebhook(ProcessAll(store, cbs, nows), Some(fields), now, false).store
  {
    assert (cbs + [ParseCallback(fields)])[..|cbs|] == cbs;
    assert (nows + [now])[..|cbs|] == nows;
  }

  /**
   * Last writer wins: after a run of callbacks a message's status is the one
   * carried by the last callback naming its provider identifier, and a
   * message no callback names is untouched.
   */
  lemma {:induction false} LastWriterWins(store: seq<Message>, cbs: seq<Callback>, nows: seq<Time>, i: nat)
    requires |nows| == |cbs| && i < |store|
    requires store[i].twilioSid.Some? && store[i].twilioSid.value != ""
    ensures
      var r := ProcessAll(store, cbs, nows);
      match LastFor(cbs, store[i].twilioSid)
      case Some(cb) => r[i].status == MapTwilioStatusToDb(cb.messageStatus)
      case None => r[i] == store[i]
    decreases |cbs|
  {
    if |cbs| > 0 {
      var n := |cbs| - 1;
      LastWriterWins(store, cbs[..n], nows[..n], i);
    }
  }
}
