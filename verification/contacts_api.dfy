/**
 * The contacts collection endpoint of `src/app/api/contacts/route.ts`:
 * listing with query validation, filtering and pagination (GET), creation
 * with per-user de-duplication by phone number (POST), the lenient JSON
 * decoders for the stored tag and custom-field columns, and the mapping of
 * thrown errors to status codes. The store is a sequence of rows; the JSON
 * codec, the email check and the number coercion are parameters.
 */
module ContactsApi {
  import opened Wrappers
  import opened Domain
  import opened Strings
  import Seqs
  import TwilioService
  import ContactDialog
  import opened JsonValues

  // JSON values and the lenient decoders

  /** `JSON.parse` and `JSON.stringify`; `parse` yields `None` where it throws. */
  datatype Codec = Codec(parse: string -> Option<Json>, stringify: Json -> string)

  /** `safeParseJsonArray`: the array a non-empty column parses to, and `[]` in every other case. */
  function SafeParseJsonArray(value: Option<string>, parse: string -> Option<Json>): (r: seq<Json>)
    ensures value.None? || value.value == "" ==> r == []
    ensures value.Some? && value.value != "" ==>
      r == (if parse(value.value).Some? && parse(value.value).value.JArray? then parse(value.value).value.items else [])
  {
    if value.None? || value.value == "" then []
    else match parse(value.value)
      case Some(JArray(items)) => items
      case _ => []
  }

  /**
   * `safeParseJsonObject`: the object a non-empty column parses to, and `{}`
   * for arrays, other values, and text that does not parse.
   */
  function SafeParseJsonObject(value: Option<string>, parse: string -> Option<Json>): (r: map<string, Json>)
    ensures value.None? || value.value == "" ==> r == map[]
    ensures value.Some? && value.value != "" ==>
      r == (if parse(value.value).Some? && parse(value.value).value.JObject? then parse(value.value).value.fields else map[])
  {
    if value.None? || value.value == "" then map[]
    else match parse(value.value)
      case Some(JObject(fields)) => fields
      case _ => map[]
  }

  /** A decoder whose input came from `stringify` gets the encoded array back. */
  lemma ArrayColumnRoundTrip(items: seq<Json>, codec: Codec)
    requires codec.parse(codec.stringify(JArray(items))) == Some(JArray(items))
    requires codec.stringify(JArray(items)) != ""
    ensures SafeParseJsonArray(Some(codec.stringify(JArray(items))), codec.parse) == items
    ensures SafeParseJsonObject(Some(codec.stringify(JArray(items))), codec.parse) == map[]
  {
  }

  // Thrown values and status codes

  /** `isZodError`: an object named `ZodError` carrying an `errors` field. */
  predicate IsZodError(e: Thrown) {
    e.Object? && e.name == Some("ZodError") && e.hasErrors
  }

  /** A contact as the endpoint returns it, with its JSON columns decoded. */
  datatype ContactView = ContactView(
    id: string, firstName: string, lastName: string, phoneNumber: string, email: Option<string>,
    tags: seq<Json>, customFields: map<string, Json>, createdAt: Time)

  datatype Response =
    | Unauthorized
    | Invalid(message: string)
    | InternalError
    | Listed(data: seq<ContactView>, page: int, pageSize: int, total: nat)
    | AlreadyExists(existing: ContactView)
    | Created(created: ContactView)

  function StatusCode(r: Response): int {
    match r
    case Unauthorized => 401
    case Invalid(_) => 400
    case InternalError => 500
    case _ => 200
  }

  /** The `catch` blocks: 400 with `message` for a zod failure, 500 for anything else. */
  function Classify(e: Thrown, message: string): (r: Response)
    ensures StatusCode(r) == 400 <==> IsZodError(e)
    ensures StatusCode(r) == 500 <==> !IsZodError(e)
    ensures r.Invalid? ==> r.message == message
  {
    if IsZodError(e) then Invalid(message) else InternalError
  }

  /** Validation failures are client errors; a body that is not JSON is a server error. */
  lemma FailureClasses(message: string)
    ensures StatusCode(Classify(ZodFailure, message)) == 400
    ensures StatusCode(Classify(SyntaxFailure, message)) == 500
    ensures StatusCode(Classify(Nullish, message)) == 500
  {
  }

  // Rows and the caller

  /** A stored contact row; `tags` and `customFields` hold JSON text. */
  datatype Row = Row(
    id: string, userId: string, firstName: string, lastName: string, phoneNumber: string,
    email: Option<string>, tags: string, customFields: string, createdAt: Time)

  /** The row with its JSON columns decoded leniently; every other column is copied. */
  function View(row: Row, parse: string -> Option<Json>): (v: ContactView)
    ensures v.id == row.id && v.phoneNumber == row.phoneNumber && v.createdAt == row.createdAt
    ensures v.firstName == row.firstName && v.lastName == row.lastName && v.email == row.email
    ensures v.tags == SafeParseJsonArray(Some(row.tags), parse)
    ensures v.customFields == SafeParseJsonObject(Some(row.customFields), parse)
  {
    ContactView(row.id, row.firstName, row.lastName, row.phoneNumber, row.email,
                SafeParseJsonArray(Some(row.tags), parse), SafeParseJsonObject(Some(row.customFields), parse),
                row.createdAt)
  }

  /**
   * The user a request acts for: the session's email must be present and
   * non-empty and belong to a known user (`users` maps emails to user ids).
   */
  function Caller(sessionEmail: Option<string>, users: map<string, string>): (r: Option<string>)
    ensures r.Some? <==> sessionEmail.Some? && sessionEmail.value != "" && sessionEmail.value in users
    ensures r.Some? ==> r.value == users[sessionEmail.value]
  {
    if sessionEmail.None? || sessionEmail.value == "" || sessionEmail.value !in users then None
    else Some(users[sessionEmail.value])
  }

  // Query parameters

  /** `Object.fromEntries(searchParams.entries())`: every key present, a repeated key keeping its last value. */
  function FromEntries(es: seq<(string, string)>): (m: map<string, string>)
    ensures m.Keys == set i | 0 <= i < |es| :: es[i].0
    decreases |es|
  {
    if |es| == 0 then map[]
    else
      var init := es[..|es| - 1];
      assert forall i :: 0 <= i < |init| ==> init[i] == es[i];
      FromEntries(init)[es[|es| - 1].0 := es[|es| - 1].1]
  }

  /** The value of a key is the one given by its last occurrence. */
  lemma {:induction false} LastEntryWins(es: seq<(string, string)>, i: nat)
    requires i < |es|
    requires forall j :: i < j < |es| ==> es[j].0 != es[i].0
    ensures FromEntries(es)[es[i].0] == es[i].1
    decreases |es|
  {
    if i < |es| - 1 {
      var init := es[..|es| - 1];
      assert init[i] == es[i];
      LastEntryWins(init, i);
    }
  }

  /** What `Number(text)` gives: an integer, or anything else (a fraction, NaN, an infinity). */
  datatype Num = Int(value: int) | NotInteger

  datatype SortField = ByCreatedAt | ByFirstName | ByLastName
  datatype SortDir = Asc | Desc

  datatype Query = Query(
    page: int, pageSize: int, sortBy: SortField, sortDir: SortDir,
    name: Option<string>, phone: Option<string>, tags: Option<string>)

  const DefaultPage := 1
  const DefaultPageSize := 20
  const MaxPageSize := 100

  /**
   * `z.coerce.number().int().positive()` with a default and an optional
   * maximum: the default when the key is absent, otherwise the coerced
   * value when it is a positive integer within the maximum.
   */
  function CoercePositive(params: map<string, string>, key: string, default: int, max: Option<int>,
                          coerce: string -> Num): (r: Option<int>)
    ensures key !in params ==> r == Some(default)
    ensures key in params ==>
      (r.Some? <==> coerce(params[key]).Int? && coerce(params[key]).value >= 1
                    && (max.Some? ==> coerce(params[key]).value <= max.value))
    ensures key in params && r.Some? ==> r.value == coerce(params[key]).value
  {
    if key !in params then Some(default)
    else match coerce(params[key])
      case Int(n) => if n >= 1 && (max.None? || n <= max.value) then Some(n) else None
      case NotInteger => None
  }

  function SortFieldName(f: SortField): string {
    match f
    case ByCreatedAt => "createdAt"
    case ByFirstName => "firstName"
    case ByLastName => "lastName"
  }

  function SortDirName(d: SortDir): string {
    match d
    case Asc => "asc"
    case Desc => "desc"
  }

  /** `z.enum(['createdAt', 'firstName', 'lastName']).optional().default('createdAt')`. */
  function ParseSortField(params: map<string, string>): (r: Option<SortField>)
    ensures "sortBy" !in params ==> r == Some(ByCreatedAt)
    ensures "sortBy" in params ==> (r.Some? <==> params["sortBy"] in {"createdAt", "firstName", "lastName"})
    ensures "sortBy" in params && r.Some? ==> SortFieldName(r.value) == params["sortBy"]
  {
    if "sortBy" !in params then Some(ByCreatedAt)
    else if params["sortBy"] == "createdAt" then Some(ByCreatedAt)
    else if params["sortBy"] == "firstName" then Some(ByFirstName)
    else if params["sortBy"] == "lastName" then Some(ByLastName)
    else None
  }

  /** `z.enum(['asc', 'desc']).optional().default('desc')`. */
  function ParseSortDir(params: map<string, string>): (r: Option<SortDir>)
    ensures "sortDir" !in params ==> r == Some(Desc)
    ensures "sortDir" in params ==> (r.Some? <==> params["sortDir"] in {"asc", "desc"})
    ensures "sortDir" in params && r.Some? ==> SortDirName(r.value) == params["sortDir"]
  {
    if "sortDir" !in params then Some(Desc)
    else if params["sortDir"] == "asc" then Some(Asc)
    else if params["sortDir"] == "desc" then Some(Desc)
    else None
  }

  function Optional(params: map<string, string>, key: string): Option<string> {
    if key in params then Some(params[key]) else None
  }

  /** `querySchema.parse`: `None` where zod throws. An accepted query has a positive page and a page size of 1 to 100. */
  function ParseQuery(params: map<string, string>, coerce: string -> Num): (r: Option<Query>)
    ensures r.Some? <==>
      && CoercePositive(params, "page", DefaultPage, None, coerce).Some?
      && CoercePositive(params, "pageSize", DefaultPageSize, Some(MaxPageSize), coerce).Some?
      && ParseSortField(params).Some? && ParseSortDir(params).Some?
    ensures r.Some? ==> r.value.page >= 1 && 1 <= r.value.pageSize <= MaxPageSize
    ensures r.Some? ==> r.value.name == Optional(params, "name") && r.value.phone == Optional(params, "phone")
                        && r.value.tags == Optional(params, "tags")
    ensures r.Some? ==>
      && r.value.page == (if "page" in params then coerce(params["page"]).value else DefaultPage)
      && r.value.pageSize == (if "pageSize" in params then coerce(params["pageSize"]).value else DefaultPageSize)
      && SortFieldName(r.value.sortBy) == (if "sortBy" in params then params["sortBy"] else "createdAt")
      && SortDirName(r.value.sortDir) == (if "sortDir" in params then params["sortDir"] else "desc")
  {
    var page := CoercePositive(params, "page", DefaultPage, None, coerce);
    var size := CoercePositive(params, "pageSize", DefaultPageSize, Some(MaxPageSize), coerce);
    var sortBy := ParseSortField(params);
    var sortDir := ParseSortDir(params);
    if page.Some? && size.Some? && sortBy.Some? && sortDir.Some? then
      Some(Query(page.value, size.value, sortBy.value, sortDir.value,
                 Optional(params, "name"), Optional(params, "phone"), Optional(params, "tags")))
    else None
  }

  /** With no parameters the query is page 1 of 20, newest first, unfiltered. */
  lemma QueryDefaults(coerce: string -> Num)
    ensures ParseQuery(map[], coerce) == Some(Query(1, 20, ByCreatedAt, Desc, None, None, None))
  {
  }

  /** The search parameters a client sends for a query; absent filters are left out. */
  function QueryParams(q: Query): map<string, string>
    requires q.page >= 1 && q.pageSize >= 1
  {
    var base := map["page" := NatToString(q.page as nat), "pageSize" := NatToString(q.pageSize as nat),
                    "sortBy" := SortFieldName(q.sortBy), "sortDir" := SortDirName(q.sortDir)];
    var withName := if q.name.Some? then base["name" := q.name.value] else base;
    var withPhone := if q.phone.Some? then withName["phone" := q.phone.value] else withName;
    if q.tags.Some? then withPhone["tags" := q.tags.value] else withPhone
  }

  /**
   * Every query the schema admits survives being written as search
   * parameters and parsed back, given a `Number` that reads decimals.
   */
  lemma ParseQueryRoundTrip(q: Query, coerce: string -> Num)
    requires q.page >= 1 && 1 <= q.pageSize <= MaxPageSize
    requires coerce(NatToString(q.page as nat)) == Int(q.page)
    requires coerce(NatToString(q.pageSize as nat)) == Int(q.pageSize)
    ensures ParseQuery(QueryParams(q), coerce) == Some(q)
  {
    var params := QueryParams(q);
    assert params["sortBy"] == SortFieldName(q.sortBy);
    assert params["sortDir"] == SortDirName(q.sortDir);
    assert Optional(params, "name") == q.name;
    assert Optional(params, "phone") == q.phone;
    assert Optional(params, "tags") == q.tags;
  }

  // Pagination

  function Min(a: int, b: int): int {
    if a <= b then a else b
  }

  /** `skip: (page - 1) * pageSize`: never negative, and 0 on the first page. */
  function Skip(page: int, pageSize: int): (r: nat)
    requires page >= 1 && pageSize >= 1
    ensures r >= page - 1
    ensures page == 1 <==> r == 0
  {
    (page - 1) * pageSize
  }

  /** The rows the store returns for `skip` and `take`. */
  function Window<T>(xs: seq<T>, skip: nat, take: nat): (r: seq<T>)
    ensures |r| <= take
    ensures skip <= |xs| ==> |r| == Min(take, |xs| - skip)
    ensures skip >= |xs| ==> r == []
    ensures forall i :: 0 <= i < |r| ==> skip + i < |xs| && r[i] == xs[skip + i]
  {
    if skip >= |xs| then [] else xs[skip..Min(skip + take, |xs|)]
  }

  lemma {:induction false} MulMonotone(a: nat, b: nat, s: nat)
    requires a < b
    ensures a * s + s <= b * s
    decreases b - a
  {
    if a + 1 < b {
      MulMonotone(a + 1, b, s);
    }
    assert (a + 1) * s == a * s + s;
  }

  /** Two different pages of the same size never hold the same row position. */
  lemma PagesDisjoint(p1: int, p2: int, pageSize: int, i: int, j: int)
    requires p1 >= 1 && p2 >= 1 && pageSize >= 1
    requires 0 <= i < pageSize && 0 <= j < pageSize
    requires Skip(p1, pageSize) + i == Skip(p2, pageSize) + j
    ensures p1 == p2 && i == j
  {
    if p1 < p2 {
      MulMonotone(p1 - 1, p2 - 1, pageSize);
    } else if p2 < p1 {
      MulMonotone(p2 - 1, p1 - 1, pageSize);
    }
  }

  /** Pages 1 to `n`, one after the other. */
  function FirstPages<T>(xs: seq<T>, pageSize: int, n: nat): seq<T>
    requires pageSize >= 1
  {
    if n == 0 then [] else FirstPages(xs, pageSize, n - 1) + Window(xs, Skip(n, pageSize), pageSize)
  }

  /** The rows before `s` followed by the window at `s` are the rows before `s + size`. */
  lemma WindowExtendsPrefix<T>(xs: seq<T>, s: nat, size: nat)
    ensures xs[..Min(s, |xs|)] + Window(xs, s, size) == xs[..Min(s + size, |xs|)]
  {
    if s < |xs| {
      assert xs[..s] + xs[s..Min(s + size, |xs|)] == xs[..Min(s + size, |xs|)];
    }
  }

  lemma PageOffset(n: nat, pageSize: int)
    requires n >= 1 && pageSize >= 1
    ensures Skip(n, pageSize) + pageSize == n * pageSize
  {
  }

  /** Reading pages 1 to `n` in turn yields exactly the first `n * pageSize` rows: no row is skipped or repeated. */
  lemma {:induction false} PagesCover<T>(xs: seq<T>, pageSize: int, n: nat)
    requires pageSize >= 1
    ensures FirstPages(xs, pageSize, n) == xs[..Min(n * pageSize, |xs|)]
  {
    if n > 0 {
      PagesCover(xs, pageSize, n - 1);
      PageOffset(n, pageSize);
      WindowExtendsPrefix(xs, Skip(n, pageSize), pageSize);
    }
  }

  // The filter

  /** The `where` object: scoped to a user, with optional name, phone and tag conditions. */
  datatype Where = Where(userId: string, name: Option<string>, phone: Option<string>, tag: Option<string>)

  /** `tags.split(',').map(t => t.trim()).filter(Boolean)[0] ?? ''`. */
  function FirstTag(tags: string): (t: string)
    ensures t == "" <==> ContactDialog.ParseTags(tags) == []
    ensures t != "" ==> ContactDialog.CleanTag(t) && t == ContactDialog.ParseTags(tags)[0]
  {
    var parsed := ContactDialog.ParseTags(tags);
    ContactDialog.ParsedTagsAreClean(tags);
    if |parsed| > 0 then parsed[0] else ""
  }

  function NonEmpty(s: Option<string>): Option<string> {
    if s.Some? && s.value != "" then s else None
  }

  /** The `where` built for a caller and a query: a condition for each non-empty filter. */
  function BuildWhere(userId: string, q: Query): (w: Where)
    ensures w.userId == userId
    ensures w.name == NonEmpty(q.name) && w.phone == NonEmpty(q.phone)
    ensures w.tag.Some? <==> NonEmpty(q.tags).Some?
    ensures w.tag.Some? ==> w.tag.value == FirstTag(q.tags.value)
  {
    Where(userId, NonEmpty(q.name), NonEmpty(q.phone),
          if NonEmpty(q.tags).Some? then Some(FirstTag(q.tags.value)) else None)
  }

  /**
   * The store's reading of a `where`: owned by the user; the name (ignoring
   * case) inside the first or the last name; the phone inside the number;
   * the tag inside the row's JSON tag text.
   */
  predicate Matches(w: Where, row: Row) {
    && row.userId == w.userId
    && (w.name.None? || Contains(ToLower(row.firstName), ToLower(w.name.value))
                     || Contains(ToLower(row.lastName), ToLower(w.name.value)))
    && (w.phone.None? || Contains(row.phoneNumber, w.phone.value))
    && (w.tag.None? || Contains(row.tags, w.tag.value))
  }

  function MatchesWhere(w: Where): Row -> bool {
    (row: Row) => Matches(w, row)
  }

  /** The rows a `where` selects, in store order: exactly the matching rows, so the caller's and no one else's. */
  function Select(store: seq<Row>, w: Where): (r: seq<Row>)
    ensures |r| <= |store| && Seqs.IsSubseq(r, store)
    ensures forall i :: 0 <= i < |r| ==> r[i] in store && Matches(w, r[i]) && r[i].userId == w.userId
    ensures forall i :: 0 <= i < |store| && Matches(w, store[i]) ==> store[i] in r
  {
    Seqs.Filter(MatchesWhere(w), store)
  }

  /** A tag list with no non-blank tag (such as `" , "`) filters nothing. */
  lemma BlankTagsFilterNothing(userId: string, q: Query, row: Row)
    requires q.tags.Some? && ContactDialog.ParseTags(q.tags.value) == []
    ensures Matches(BuildWhere(userId, q), row) <==> Matches(BuildWhere(userId, q.(tags := None)), row)
  {
    ContainsEmpty(row.tags);
  }

  /** A query without filters selects exactly the caller's rows. */
  lemma UnfilteredSelectsOwnRows(userId: string, q: Query, row: Row)
    requires q.name.None? && q.phone.None? && q.tags.None?
    ensures Matches(BuildWhere(userId, q), row) <==> row.userId == userId
  {
  }

  // GET

  /**
   * `GET`: 401 without a known caller, 400 for an invalid query, the store's
   * failure classified, otherwise the requested page of the caller's
   * matching rows with the total count. Sorting is not modelled: rows
   * come in store order.
   */
  function Get(store: seq<Row>, sessionEmail: Option<string>, users: map<string, string>,
               entries: seq<(string, string)>, coerce: string -> Num, parse: string -> Option<Json>,
               storeFailure: Option<Thrown>): (r: Response)
    ensures StatusCode(r) == 401 <==> Caller(sessionEmail, users).None?
    ensures Caller(sessionEmail, users).Some? && ParseQuery(FromEntries(entries), coerce).None? ==>
      r == Invalid("Invalid query")
    ensures r.Listed? <==>
      && Caller(sessionEmail, users).Some? && ParseQuery(FromEntries(entries), coerce).Some? && storeFailure.None?
    ensures Caller(sessionEmail, users).Some? && ParseQuery(FromEntries(entries), coerce).Some? && storeFailure.Some? ==>
      r == Classify(storeFailure.value, "Invalid query")
    ensures r.Listed? ==>
      && 1 <= r.page && 1 <= r.pageSize <= MaxPageSize
      && |r.data| <= r.pageSize && r.total <= |store|
      && |r.data| <= r.total
    ensures r.Listed? ==>
      var q := ParseQuery(FromEntries(entries), coerce).value;
      var rows := Select(store, BuildWhere(Caller(sessionEmail, users).value, q));
      && r.page == q.page && r.pageSize == q.pageSize && r.total == |rows|
      && r.data == Views(Window(rows, Skip(q.page, q.pageSize), q.pageSize), parse)
  {
    match Caller(sessionEmail, users)
    case None => Unauthorized
    case Some(userId) =>
      match ParseQuery(FromEntries(entries), coerce)
      case None => Classify(ZodFailure, "Invalid query")
      case Some(q) =>
        if storeFailure.Some? then Classify(storeFailure.value, "Invalid query")
        else
          var rows := Select(store, BuildWhere(userId, q));
          var page := Window(rows, Skip(q.page, q.pageSize), q.pageSize);
          Listed(Views(page, parse), q.page, q.pageSize, |rows|)
  }

  function Views(rows: seq<Row>, parse: string -> Option<Json>): (r: seq<ContactView>)
    ensures |r| == |rows| && forall i :: 0 <= i < |rows| ==> r[i] == View(rows[i], parse)
  {
    seq(|rows|, i requires 0 <= i < |rows| => View(rows[i], parse))
  }

  /** Every contact GET returns is one of the caller's rows. */
  lemma GetShowsOnlyOwnContacts(store: seq<Row>, sessionEmail: Option<string>, users: map<string, string>,
                                entries: seq<(string, string)>, coerce: string -> Num,
                                parse: string -> Option<Json>, k: int)
    requires Get(store, sessionEmail, users, entries, coerce, parse, None).Listed?
    requires 0 <= k < |Get(store, sessionEmail, users, entries, coerce, parse, None).data|
    ensures exists j ::
      && 0 <= j < |store| && store[j].userId == Caller(sessionEmail, users).value
      && Matches(BuildWhere(Caller(sessionEmail, users).value, ParseQuery(FromEntries(entries), coerce).value), store[j])
      && Get(store, sessionEmail, users, entries, coerce, parse, None).data[k] == View(store[j], parse)
  {
    var userId := Caller(sessionEmail, users).value;
    var q := ParseQuery(FromEntries(entries), coerce).value;
    var rows := Select(store, BuildWhere(userId, q));
    var page := Window(rows, Skip(q.page, q.pageSize), q.pageSize);
    var row := page[k];
    assert row in store;
    var j :| 0 <= j < |store| && store[j] == row;
  }

  // POST

  /** The validated body of a create request. */
  datatype Upsert = Upsert(
    firstName: string, lastName: string, phoneNumber: string, email: Option<string>,
    tags: seq<string>, customFields: map<string, string>)

  /** A required string field accepted by `check`. */
  function RequiredString(fields: map<string, Json>, key: string, check: string -> bool): Option<string> {
    if key in fields && fields[key].JString? && check(fields[key].s) then Some(fields[key].s) else None
  }

  function NotEmptyText(): string -> bool {
    (s: string) => s != ""
  }

  function PhoneCheck(): string -> bool {
    (s: string) => TwilioService.ValidatePhoneNumber(s)
  }

  /** `email`: absent, or a string that is empty or passes the email check. */
  predicate AcceptableEmail(f: map<string, Json>, isEmail: string -> bool) {
    "email" !in f || (f["email"].JString? && (f["email"].s == "" || isEmail(f["email"].s)))
  }

  /** `tags`: absent, or an array of strings. */
  predicate AcceptableTags(f: map<string, Json>) {
    "tags" !in f || (f["tags"].JArray? && forall i :: 0 <= i < |f["tags"].items| ==> IsString(f["tags"].items[i]))
  }

  /** `customFields`: absent, or an object whose values are strings. */
  predicate AcceptableCustomFields(f: map<string, Json>) {
    "customFields" !in f || (f["customFields"].JObject? &&
                             forall k :: k in f["customFields"].fields ==> IsString(f["customFields"].fields[k]))
  }

  /**
   * What `upsertSchema` accepts, written field by field: an object with
   * non-empty first and last names, an E.164 phone number, an optional
   * email that is valid or empty, an optional array of strings and an
   * optional record of strings.
   */
  predicate Acceptable(body: Json, isEmail: string -> bool) {
    && body.JObject?
    && var f := body.fields;
    && ("firstName" in f && f["firstName"].JString? && f["firstName"].s != "")
    && ("lastName" in f && f["lastName"].JString? && f["lastName"].s != "")
    && ("phoneNumber" in f && f["phoneNumber"].JString? && TwilioService.ValidatePhoneNumber(f["phoneNumber"].s))
    && AcceptableEmail(f, isEmail)
    && AcceptableTags(f)
    && AcceptableCustomFields(f)
  }

  /** `z.string().email().optional().or(z.literal('')).transform(...)`: an empty address becomes absent. */
  function EmailField(f: map<string, Json>, isEmail: string -> bool): (r: Option<Option<string>>)
    ensures r.Some? <==> AcceptableEmail(f, isEmail)
    ensures r.Some? && r.value.Some? ==> r.value.value != "" && isEmail(r.value.value)
    ensures r.Some? ==> (r.value.None? <==> "email" !in f || f["email"] == JString(""))
    ensures r.Some? && r.value.Some? ==> f["email"] == JString(r.value.value)
  {
    if "email" !in f then Some(None)
    else if !AcceptableEmail(f, isEmail) then None
    else if f["email"].s == "" then Some(None)
    else Some(Some(f["email"].s))
  }

  /** `z.array(z.string()).optional().default([])`. */
  function TagsField(f: map<string, Json>): (r: Option<seq<string>>)
    ensures r.Some? <==> AcceptableTags(f)
    ensures "tags" !in f ==> r == Some([])
    ensures "tags" in f && r.Some? ==> f["tags"] == JArray(JsonStrings(r.value))
  {
    if "tags" !in f then Some([]) else if f["tags"].JArray? then StringItems(f["tags"].items) else None
  }

  /** `z.record(z.string()).optional().default({})`. */
  function CustomFieldsField(f: map<string, Json>): (r: Option<map<string, string>>)
    ensures r.Some? <==> AcceptableCustomFields(f)
    ensures "customFields" !in f ==> r == Some(map[])
    ensures "customFields" in f && r.Some? ==> f["customFields"] == JObject(JsonRecord(r.value))
  {
    if "customFields" !in f then Some(map[])
    else if f["customFields"].JObject? then StringRecord(f["customFields"].fields) else None
  }

  /**
   * `upsertSchema.parse`: `None` where zod throws. An empty email becomes
   * absent; missing tags and custom fields become empty.
   */
  function ParseUpsert(body: Json, isEmail: string -> bool): (r: Option<Upsert>)
    ensures r.Some? <==> Acceptable(body, isEmail)
    ensures r.Some? ==> r.value.firstName != "" && r.value.lastName != ""
                        && TwilioService.ValidatePhoneNumber(r.value.phoneNumber)
    ensures r.Some? && r.value.email.Some? ==> r.value.email.value != "" && isEmail(r.value.email.value)
    ensures r.Some? ==> (r.value.email.None? <==> "email" !in body.fields || body.fields["email"] == JString(""))
    ensures r.Some? && "tags" !in body.fields ==> r.value.tags == []
    ensures r.Some? && "customFields" !in body.fields ==> r.value.customFields == map[]
    ensures r.Some? ==>
      var f := body.fields;
      && r.value.firstName == f["firstName"].s && r.value.lastName == f["lastName"].s
      && r.value.phoneNumber == f["phoneNumber"].s
      && (r.value.email.Some? ==> f["email"] == JString(r.value.email.value))
      && ("tags" in f ==> f["tags"] == JArray(JsonStrings(r.value.tags)))
      && ("customFields" in f ==> f["customFields"] == JObject(JsonRecord(r.value.customFields)))
  {
    if !body.JObject? then None
    else
      var f := body.fields;
      var first := RequiredString(f, "firstName", NotEmptyText());
      var last := RequiredString(f, "lastName", NotEmptyText());
      var phone := RequiredString(f, "phoneNumber", PhoneCheck());
      var email := EmailField(f, isEmail);
      var tags := TagsField(f);
      var custom := CustomFieldsField(f);
      if first.Some? && last.Some? && phone.Some? && email.Some? && tags.Some? && custom.Some? then
        Some(Upsert(first.value, last.value, phone.value, email.value, tags.value, custom.value))
      else None
  }

  /** The JSON body a client sends to create `u`; an absent email is left out. */
  function UpsertBody(u: Upsert): Json {
    var fields := map["firstName" := JString(u.firstName), "lastName" := JString(u.lastName),
                      "phoneNumber" := JString(u.phoneNumber), "tags" := JArray(JsonStrings(u.tags)),
                      "customFields" := JObject(JsonRecord(u.customFields))];
    JObject(if u.email.Some? then fields["email" := JString(u.email.value)] else fields)
  }

  /** Every contact the schema admits survives being sent as JSON and parsed back. */
  lemma ParseUpsertRoundTrip(u: Upsert, isEmail: string -> bool)
    requires u.firstName != "" && u.lastName != "" && TwilioService.ValidatePhoneNumber(u.phoneNumber)
    requires u.email.Some? ==> u.email.value != "" && isEmail(u.email.value)
    ensures ParseUpsert(UpsertBody(u), isEmail) == Some(u)
  {
    var f := UpsertBody(u).fields;
    StringItemsRoundTrip(u.tags);
    StringRecordRoundTrip(u.customFields);
    assert TagsField(f) == Some(u.tags);
    assert CustomFieldsField(f) == Some(u.customFields);
    assert EmailField(f, isEmail) == Some(u.email);
  }

  predicate SameOwnerAndPhone(row: Row, userId: string, phone: string) {
    row.userId == userId && row.phoneNumber == phone
  }

  /** `findFirst({ where: { userId, phoneNumber } })`: the first such row. */
  function FindByPhone(store: seq<Row>, userId: string, phone: string): (r: Option<nat>)
    ensures r.Some? ==> r.value < |store| && SameOwnerAndPhone(store[r.value], userId, phone)
    ensures r.Some? ==> forall j :: 0 <= j < r.value ==> !SameOwnerAndPhone(store[j], userId, phone)
    ensures r.None? ==> forall j :: 0 <= j < |store| ==> !SameOwnerAndPhone(store[j], userId, phone)
    decreases |store|
  {
    if |store| == 0 then None
    else if SameOwnerAndPhone(store[0], userId, phone) then Some(0)
    else match FindByPhone(store[1..], userId, phone)
      case None => None
      case Some(i) => Some(i + 1)
  }

  /** The row `create` stores for a validated body, its JSON columns encoded. */
  function NewRow(u: Upsert, userId: string, stringify: Json -> string, freshId: string, now: Time): Row {
    Row(freshId, userId, u.firstName, u.lastName, u.phoneNumber, u.email,
        stringify(JArray(JsonStrings(u.tags))), stringify(JObject(JsonRecord(u.customFields))), now)
  }

  datatype PostOutcome = PostOutcome(store: seq<Row>, response: Response)

  /**
   * `POST`: 401 without a known caller; a body that is not JSON is a server
   * error and an invalid one a client error; an existing row of the caller
   * with the same phone number is returned instead of creating one;
   * otherwise exactly one row is appended and returned.
   */
  function Post(store: seq<Row>, sessionEmail: Option<string>, users: map<string, string>, body: Option<Json>,
                isEmail: string -> bool, codec: Codec, storeFailure: Option<Thrown>, freshId: string, now: Time)
    : (o: PostOutcome)
    ensures StatusCode(o.response) == 401 <==> Caller(sessionEmail, users).None?
    ensures Caller(sessionEmail, users).Some? && body.None? ==> o.response == InternalError
    ensures Caller(sessionEmail, users).Some? && body.Some? && ParseUpsert(body.value, isEmail).None? ==>
      o.response == Invalid("Invalid request data")
    ensures o.response.Created? <==>
      && Caller(sessionEmail, users).Some? && body.Some? && ParseUpsert(body.value, isEmail).Some?
      && storeFailure.None?
      && FindByPhone(store, Caller(sessionEmail, users).value, ParseUpsert(body.value, isEmail).value.phoneNumber).None?
    ensures !o.response.Created? ==> o.store == store
    ensures o.response.Created? ==>
      && |o.store| == |store| + 1 && o.store[..|store|] == store
      && o.store[|store|].userId == Caller(sessionEmail, users).value
      && o.store[|store|].phoneNumber == ParseUpsert(body.value, isEmail).value.phoneNumber
      && o.response.created.id == freshId
      && o.response.created == View(o.store[|store|], codec.parse)
    ensures Caller(sessionEmail, users).Some? && body.Some? && ParseUpsert(body.value, isEmail).Some? && storeFailure.Some? ==>
      o.response == Classify(storeFailure.value, "Invalid request data")
    ensures Caller(sessionEmail, users).Some? && body.Some? && ParseUpsert(body.value, isEmail).Some? && storeFailure.None? ==>
      var found := FindByPhone(store, Caller(sessionEmail, users).value, ParseUpsert(body.value, isEmail).value.phoneNumber);
      found.Some? ==> o.response == AlreadyExists(View(store[found.value], codec.parse))
  {
    match Caller(sessionEmail, users)
    case None => PostOutcome(store, Unauthorized)
    case Some(userId) =>
      if body.None? then PostOutcome(store, Classify(SyntaxFailure, "Invalid request data"))
      else match ParseUpsert(body.value, isEmail)
        case None => PostOutcome(store, Classify(ZodFailure, "Invalid request data"))
        case Some(u) =>
          if storeFailure.Some? then PostOutcome(store, Classify(storeFailure.value, "Invalid request data"))
          else match FindByPhone(store, userId, u.phoneNumber)
            case Some(i) => PostOutcome(store, AlreadyExists(View(store[i], codec.parse)))
            case None =>
              var row := NewRow(u, userId, codec.stringify, freshId, now);
              PostOutcome(store + [row], Created(View(row, codec.parse)))
  }

  /** No user has two rows with the same phone number. */
  predicate PhonesUniquePerUser(store: seq<Row>) {
    forall i, j :: 0 <= i < j < |store| ==>
      !SameOwnerAndPhone(store[j], store[i].userId, store[i].phoneNumber)
  }

  /** A POST never gives a user a second row with the same phone number. */
  lemma PostKeepsPhonesUnique(store: seq<Row>, sessionEmail: Option<string>, users: map<string, string>,
                              body: Option<Json>, isEmail: string -> bool, codec: Codec,
                              storeFailure: Option<Thrown>, freshId: string, now: Time)
    requires PhonesUniquePerUser(store)
    ensures PhonesUniquePerUser(Post(store, sessionEmail, users, body, isEmail, codec, storeFailure, freshId, now).store)
  {
    var o := Post(store, sessionEmail, users, body, isEmail, codec, storeFailure, freshId, now);
    if o.response.Created? {
      var userId := Caller(sessionEmail, users).value;
      var phone := ParseUpsert(body.value, isEmail).value.phoneNumber;
      var n := |store|;
      forall i, j | 0 <= i < j < |o.store|
        ensures !SameOwnerAndPhone(o.store[j], o.store[i].userId, o.store[i].phoneNumber)
      {
        if j == n {
          assert o.store[i] == store[i];
          assert !SameOwnerAndPhone(store[i], userId, phone);
        } else {
          assert o.store[i] == store[i] && o.store[j] == store[j];
        }
      }
    }
  }

  datatype PostRequest = PostRequest(
    sessionEmail: Option<string>, body: Option<Json>, storeFailure: Option<Thrown>, freshId: string, now: Time)

  /** The store after handling the requests one after another. */
  function PostAll(store: seq<Row>, users: map<string, string>, requests: seq<PostRequest>,
                   isEmail: string -> bool, codec: Codec): seq<Row>
    decreases |requests|
  {
    if |requests| == 0 then store
    else
      var q := requests[0];
      var next := Post(store, q.sessionEmail, users, q.body, isEmail, codec, q.storeFailure, q.freshId, q.now).store;
      PostAll(next, users, requests[1..], isEmail, codec)
  }

  /** Sequential POSTs starting from a store without duplicates never create one. */
  lemma {:induction false} SequentialPostsKeepPhonesUnique(store: seq<Row>, users: map<string, string>,
                                                           requests: seq<PostRequest>, isEmail: string -> bool,
                                                           codec: Codec)
    requires PhonesUniquePerUser(store)
    ensures PhonesUniquePerUser(PostAll(store, users, requests, isEmail, codec))
    decreases |requests|
  {
    if |requests| > 0 {
      var q := requests[0];
      PostKeepsPhonesUnique(store, q.sessionEmail, users, q.body, isEmail, codec, q.storeFailure, q.freshId, q.now);
      var next := Post(store, q.sessionEmail, users, q.body, isEmail, codec, q.storeFailure, q.freshId, q.now).store;
      SequentialPostsKeepPhonesUnique(next, users, requests[1..], isEmail, codec);
    }
  }

  /**
   * When the codec reads back what it writes, a created contact is returned
   * with exactly the tags and custom fields it was sent.
   */
  lemma CreatedContactRoundTrip(store: seq<Row>, sessionEmail: Option<string>, users: map<string, string>,
                                body: Json, isEmail: string -> bool, codec: Codec, freshId: string, now: Time)
    requires ParseUpsert(body, isEmail).Some?
    requires var u := ParseUpsert(body, isEmail).value;
      && codec.parse(codec.stringify(JArray(JsonStrings(u.tags)))) == Some(JArray(JsonStrings(u.tags)))
      && codec.stringify(JArray(JsonStrings(u.tags))) != ""
      && codec.parse(codec.stringify(JObject(JsonRecord(u.customFields)))) == Some(JObject(JsonRecord(u.customFields)))
      && codec.stringify(JObject(JsonRecord(u.customFields))) != ""
    ensures var o := Post(store, sessionEmail, users, Some(body), isEmail, codec, None, freshId, now).response;
      o.Created? ==>
      var u := ParseUpsert(body, isEmail).value;
      var v := o.created;
      && v.tags == JsonStrings(u.tags) && v.customFields == JsonRecord(u.customFields)
      && v.firstName == u.firstName && v.lastName == u.lastName && v.email == u.email
  {
  }
}
