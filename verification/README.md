# MessageFlow core, modelled in Dafny

MessageFlow is a Next.js dashboard that sends SMS and RCS messages through
Twilio, keeps contacts and message templates, and shows delivery
analytics. This project models the parts of it that decide what is stored
and shown:

- **Delivery-status webhook.** Twilio's status callback becomes an update of
  every stored message carrying the callback's `MessageSid` (`Webhook`).
- **Twilio service wrapper.** This covers the environment check, the mapping
  of provider replies to `MessageResponse`, bulk sends, and the phone-number
  helpers (`TwilioService`).
- **Send endpoints.** The `POST /api/twilio/send-sms` and
  `POST /api/twilio/send-rcs` routes cover request validation, the provider
  call, and the 400/500 split (`SendRoutes`).
- **Template placeholder language.** `{{name}}` placeholders are detected and
  inserted by the template dialog and substituted by the preview
  (`TemplateDialog`, `TemplatePreview`).
- **Client-side lists.** The templates page and the contacts page filter,
  delete, duplicate and save their lists (`TemplatesPage`, `ContactsPage`).
  The contact dialog turns a contact into a form and back (`ContactDialog`).
- **Contacts API.** `GET` and `POST /api/contacts` cover the query schema,
  per-user scoping, filtering and pagination, and the create-or-return-existing
  de-duplication by phone number (`ContactsApi`).
- **Authentication callbacks.** The Auth.js callbacks cover credential
  sign-in, the public path prefixes, and the jwt and session callbacks
  (`Auth`).
- **Analytics widgets.** The chart's totals, maximum and metric toggles
  (`AnalyticsChart`) and the badge and phone helpers of the
  recent-messages list (`RecentMessages`) are modelled.

Everything the running system asks of the outside world is a parameter:
- the Prisma store is a sequence of rows; a store failure is an
  `Option<Thrown>` or a flag;
- the clock is a `now` value; new identifiers are a `freshId` value;
- Twilio's reply is a `Result`;
- the JSON codec, the bcrypt comparison, and zod's e-mail and URL checks are
  functions passed in;
- the number coercion of `z.coerce.number()` is a function returning `Num`.

JavaScript's string operations are spelled out in `Strings`:
- `toLowerCase`/`toUpperCase` (ASCII);
- `trim` (the ECMAScript white-space set);
- `split`, `join`, `includes`;
- `replace` with a global pattern.

Library modules: `Wrappers` (`Option`, `Result`), `Strings`, `Seqs`
(`filter`, counting, order-preserving de-duplication), `Domain` (the
records of `src/types/index.ts`) and `JsonValues` (parsed JSON values and
thrown errors).

## Model

| member | source | states |
|---|---|---|
| Webhook.FormGet | src/app/api/twilio/webhook/route.ts:24-34 | `URLSearchParams.get`: absent iff no pair carries the name; otherwise the value of the first pair with that name |
| Webhook.ParseCallback | src/app/api/twilio/webhook/route.ts:27-36 | the callback's SID, status and error message are the form's `MessageSid`, `MessageStatus` and `ErrorMessage` values |
| Webhook.MapTwilioStatusToDb | src/app/api/twilio/webhook/route.ts:5-19 | each stored status is reached by exactly its Twilio tokens; `failed` and `undelivered` both map to failed |
| Webhook.MapAgreesWithTable | src/app/api/twilio/webhook/route.ts:5-19 | the mapping agrees with the token table; every missing or unknown token falls back to pending |
| Webhook.BuildUpdate | src/app/api/twilio/webhook/route.ts:43-63 | the update sets the mapped status and `updatedAt`; exactly one timestamp or error field per status; pending sets none; a failure without an error message stores "Message delivery failed" |
| Webhook.ApplyUpdate | src/app/api/twilio/webhook/route.ts:65-68 | the updated message takes the new status and field and keeps every other field |
| Webhook.UpdateManyBySid | src/app/api/twilio/webhook/route.ts:65-68 | every message with the SID is updated; every other message is unchanged; the length and the SIDs are kept |
| Webhook.UnknownSidChangesNothing | src/app/api/twilio/webhook/route.ts:65-68 | a SID that matches no message leaves the store unchanged |
| Webhook.HandleWebhook | src/app/api/twilio/webhook/route.ts:21-107 | an unreadable body is the only 500; a missing or empty SID, or a store failure, changes nothing and still answers success; otherwise the store is the SID update |
| Webhook.StatusIgnoresPriorState | src/app/api/twilio/webhook/route.ts:43-46 | the new status depends only on the callback, never on the message's current status |
| Webhook.DeliveredCanRegressToSent | src/app/api/twilio/webhook/route.ts:43-52 | a late `sent` callback moves a delivered message back to sent |
| Webhook.ReplayIsIdempotent | src/app/api/twilio/webhook/route.ts:41-68 | handling the same callback a second time, at any later time, keeps the store's length and every message's status and error message as after the first time |
| Webhook.LastIndex | src/app/api/twilio/webhook/route.ts:41-68 | the position of the last callback naming the SID: none iff no callback names it, and no later callback names it |
| Webhook.LastFor | src/app/api/twilio/webhook/route.ts:41-68 | none iff no callback names the SID; otherwise a callback naming it after which no callback names it |
| Webhook.ProcessAll | src/app/api/twilio/webhook/route.ts:41-68 | a sequence of callbacks keeps the store's length and each message's SID |
| Webhook.ProcessStep | src/app/api/twilio/webhook/route.ts:21-68 | each step of the fold is the route handling that callback's form, at its time, with a store that accepts the update |
| Webhook.LastWriterWins | src/app/api/twilio/webhook/route.ts:43-68 | after a sequence of callbacks a message's status is the one mapped from the last callback for its SID, or unchanged when there is none |
| TwilioService.MissingVars | src/lib/twilio.ts:5-13 | the missing variables, in declaration order: a name is listed iff it is unset or empty |
| TwilioService.ValidateEnvVars | src/lib/twilio.ts:4-22 | fails iff a variable is missing, with the message naming exactly the missing ones; otherwise returns the three values |
| TwilioService.SmsRequest | src/lib/twilio.ts:63-73 | the create request: the default sender when `from` is absent; media URLs only when non-empty; no content SID |
| TwilioService.RcsRequest | src/lib/twilio.ts:94-104 | the create request carries the content SID and variables, no body, and the default sender when `from` is absent |
| TwilioService.NonEmpty | src/lib/twilio.ts:82-84 | `x \|\| undefined`: present iff present and non-empty |
| TwilioService.ToResponse | src/lib/twilio.ts:75-85 | the reply's fields are copied; an error code is rendered as decimal text; an empty error message becomes absent |
| TwilioService.SendSms | src/lib/twilio.ts:60-89 | a refusal becomes "Failed to send SMS: " plus the reason; an accepted send reports the reply's body or "" |
| TwilioService.SendRcs | src/lib/twilio.ts:92-120 | a refusal becomes the RCS failure message; an accepted send reports the body "RCS Message" |
| TwilioService.GetMessageStatus | src/lib/twilio.ts:123-141 | the fetched message as a response, or the status failure message |
| TwilioService.RejectedResponse | src/lib/twilio.ts:153-161 | a rejected bulk entry: SID `error-<index>`, status failed, the request's recipient and body, the reason as the error message |
| TwilioService.SendBulkSms | src/lib/twilio.ts:144-164 | one response per message, in order: the provider's response for a fulfilled send, a rejected entry for a refused one |
| TwilioService.RejectedSidsDistinct | src/lib/twilio.ts:154 | two rejected entries at different indices have different SIDs |
| TwilioService.ValidPhoneIsE164 | src/lib/twilio.ts:196-199 | a number is valid iff it is `+`, a digit 1-9, then 1 to 14 digits |
| TwilioService.NanpDigits | src/lib/twilio.ts:204-208 | ten digits, or eleven starting with 1, yield the last ten digits; anything else is left alone |
| TwilioService.LayoutDigits | src/lib/twilio.ts:207 | the `(XXX) XXX-XXXX` layout is 14 characters whose digits are the ten it was built from |
| TwilioService.FormatPhoneNumber | src/lib/twilio.ts:202-211 | a number without a NANP digit string is returned unchanged; otherwise it is laid out from those ten digits |
| TwilioService.FormatIdempotent | src/lib/twilio.ts:202-211 | formatting a formatted number changes nothing |
| TwilioService.ValidNanpFormats | src/lib/twilio.ts:196-211 | a valid `+1` number of ten further digits is formatted from those ten digits |
| SendRoutes.Catch | src/app/api/twilio/send-sms/route.ts:31-45 | 400 "Invalid request data" iff the error's name is `ZodError`; otherwise 500 with the route's message and the error's message |
| SendRoutes.OptionalString | src/app/api/twilio/send-sms/route.ts:8 | an optional string field: absent is accepted as absent; present is accepted iff it is a string |
| SendRoutes.ParseSms | src/app/api/twilio/send-sms/route.ts:5-15 | accepts iff `to` has 10 or more characters, the body is non-empty, `from` is a string if present, and every media URL passes the URL check; the parsed fields are the body's `to`, `body`, `from` and media URLs |
| SendRoutes.ParseSmsRoundTrip | src/app/api/twilio/send-sms/route.ts:5-15 | a message meeting the schema, written as a JSON body, parses back to itself |
| SendRoutes.SendSmsRoute | src/app/api/twilio/send-sms/route.ts:12-45 | 400 iff the body fails the schema; 500 iff the body is not JSON or the provider refuses; a valid body reaches the provider exactly as parsed |
| SendRoutes.SmsSkipsPhoneFormat | src/app/api/twilio/send-sms/route.ts:17-23 | any schema-valid body whose recipient is not an E.164 number still reaches the provider with that recipient |
| SendRoutes.ParseRcs | src/app/api/twilio/send-rcs/route.ts:5-15 | accepts iff `to` has 10 or more characters, the content SID is non-empty, and the variables are a string record if present; the parsed fields are the body's, the variables with the same keys and strings |
| SendRoutes.ParseRcsRoundTrip | src/app/api/twilio/send-rcs/route.ts:5-15 | a request meeting the schema, written as a JSON body, parses back to itself |
| SendRoutes.SendRcsRoute | src/app/api/twilio/send-rcs/route.ts:12-52 | 400 iff the schema fails or `to` is not E.164, and then nothing is sent; a sent request has a valid `to` of 10 to 16 characters; 500 iff the body is not JSON or the provider refuses |
| SendRoutes.RcsStricterThanSms | src/app/api/twilio/send-rcs/route.ts:18-23 | for every recipient of 10 or more characters that is not E.164, the SMS route sends while the RCS route answers 400 with the phone-format message and sends nothing |
| TemplateDialog.CloseFrom | src/components/templates/template-dialog.tsx:72 | the `[^}]+` scan: stops at the first `}` at or after the start, or at the end |
| TemplateDialog.RawVariables | src/components/templates/template-dialog.tsx:72-73 | every captured name is non-empty and free of `}` |
| TemplateDialog.RawVariablesOccur | src/components/templates/template-dialog.tsx:72-73 | every captured name occurs in the content as `{{name}}` |
| TemplateDialog.NoOpeningNoVariables | src/components/templates/template-dialog.tsx:72-75 | content without `{{` captures nothing |
| TemplateDialog.RawVariablesSkipPlain | src/components/templates/template-dialog.tsx:72-73 | a brace-free prefix does not change what is captured |
| TemplateDialog.TrimGroups | src/components/templates/template-dialog.tsx:74 | each captured group trimmed, in order |
| TemplateDialog.DetectVariables | src/components/templates/template-dialog.tsx:70-76 | the trimmed captured names without duplicates: each capture's trimmed name is listed, and each listed name comes from a capture |
| TemplateDialog.DetectVariablesOrder | src/components/templates/template-dialog.tsx:70-76 | names are listed in the order of their first capture: an earlier name is captured before the later name first is |
| TemplateDialog.InsertVariable | src/components/templates/template-dialog.tsx:98-116 | the selection is replaced by `{{v}}`, the text around it is kept, and the cursor lands just after the inserted placeholder |
| TemplateDialog.LonePlaceholder | src/components/templates/template-dialog.tsx:72-74 | a lone placeholder followed by brace-free text captures exactly its name |
| TemplateDialog.InsertedVariableIsDetected | src/components/templates/template-dialog.tsx:98-108 | inserting a brace-free variable into brace-free content makes it the one detected variable |
| TemplateDialog.QuickInsertDetected | src/components/templates/template-dialog.tsx:98-122 | pressing any quick-insert button over a selection of brace-free content makes that button's name the one detected variable |
| TemplateDialog.OrElse | src/components/templates/template-dialog.tsx:51-56 | `x \|\| fallback`: the value when it is present and non-empty, otherwise the fallback |
| TemplateDialog.LoadForm | src/components/templates/template-dialog.tsx:37-68 | a new template starts from the blank form; an existing one fills each field, or its default when the field is missing or empty |
| TemplateDialog.HandleSubmit | src/components/templates/template-dialog.tsx:78-96 | the saved template carries the form's fields and the detected variables; it keeps its id, usage count and creation time, or takes a fresh id, 0 and now |
| TemplateDialog.EditWithoutChangesKeepsTemplate | src/components/templates/template-dialog.tsx:48-96 | loading a template and saving it unchanged only refreshes `updatedAt` |
| TemplateDialog.CharacterLimit | src/components/templates/template-dialog.tsx:225 | 160 characters for SMS, 1000 for RCS |
| TemplatePreview.Lookup | src/components/templates/template-preview.tsx:26 | a key has a value iff it is one of the entries' keys |
| TemplatePreview.LookupFirstEntry | src/components/templates/template-preview.tsx:26 | the value found is the first entry's for that key |
| TemplatePreview.SetEntry | src/components/templates/template-preview.tsx:71-76 | the key takes the new value and every other key keeps its value; an existing key keeps its position, a new key is appended |
| TemplatePreview.HandleVariableChange | src/components/templates/template-preview.tsx:71-76 | after a change the variable reads the new value and every other variable is unchanged |
| TemplatePreview.InitialValues | src/components/templates/template-preview.tsx:49-52 | one entry per variable, its sample value, or the name in single braces when there is no sample |
| TemplatePreview.SampleValuesUsed | src/components/templates/template-preview.tsx:32-52 | a variable with sample data starts with that sample |
| TemplatePreview.Substitute | src/components/templates/template-preview.tsx:58-64 | empty content stays empty; content without any `{{key}}` is unchanged |
| TemplatePreview.ReplaceFlatten | src/components/templates/template-preview.tsx:61-63 | one global replace of `{{key}}` over text built from literal runs and placeholders fills exactly the placeholders of that key |
| TemplatePreview.RenderFill | src/components/templates/template-preview.tsx:61-64 | filling the first entry's placeholders and then rendering with the others is rendering with all entries |
| TemplatePreview.RenderWithoutValues | src/components/templates/template-preview.tsx:58-64 | with no values every placeholder is shown as written |
| TemplatePreview.SubstituteIsRender | src/components/templates/template-preview.tsx:58-64 | for brace-free keys and values, the entry-by-entry replacement equals the one-pass rendering that shows each placeholder's first value, or the placeholder itself when it has none |
| TemplatePreview.PreviewContent | src/components/templates/template-preview.tsx:58-67 | missing or empty content previews as ""; with no values the content is shown as it is |
| TemplatePreview.SubstituteOne | src/components/templates/template-preview.tsx:61-63 | one substitution replaces every occurrence of `{{key}}` and nothing else; putting `{{key}}` back restores the text |
| TemplatePreview.SegmentNotice | src/components/templates/template-preview.tsx:186-192 | a notice only for SMS over 160 characters, naming the least number of 160-character segments that hold the text |
| TemplatesPage.FilterTemplates | src/app/dashboard/templates/page.tsx:88-93 | an order-preserving subsequence holding exactly the templates matching both the search term and the category |
| TemplatesPage.EmptySearchShowsAll | src/app/dashboard/templates/page.tsx:88-93 | an empty search in all categories shows every template |
| TemplatesPage.DeleteTemplate | src/app/dashboard/templates/page.tsx:105-107 | removes exactly the templates with the id and keeps the rest in order |
| TemplatesPage.DuplicateTemplate | src/app/dashboard/templates/page.tsx:109-119 | prepends a copy named "… (Copy)" with a fresh id, zero usage, new timestamps and otherwise the original's fields |
| TemplatesPage.DeleteUndoesDuplicate | src/app/dashboard/templates/page.tsx:105-119 | deleting the duplicate's fresh id restores the list |
| TemplatesPage.SaveTemplate | src/app/dashboard/templates/page.tsx:333-338 | an edit replaces the templates with the saved id in place; a creation prepends the template under a fresh id |
| TemplatesPage.SaveEditIdempotent | src/app/dashboard/templates/page.tsx:333-335 | saving the same edit twice is the same as saving it once |
| TemplatesPage.DeleteUndoesCreate | src/app/dashboard/templates/page.tsx:333-338 | deleting a just-created template restores the list |
| TemplatesPage.Stats | src/app/dashboard/templates/page.tsx:182-205 | the total is the length, active counts the active templates, SMS plus RCS is the total |
| ContactsPage.FilterContacts | src/app/dashboard/contacts/page.tsx:65-69 | an order-preserving subsequence holding exactly the contacts whose lower-cased "first last phone email" contains the lower-cased term |
| ContactsPage.EmptySearchShowsAll | src/app/dashboard/contacts/page.tsx:65-69 | an empty search shows every contact |
| ContactsPage.FirstNameMatchFinds | src/app/dashboard/contacts/page.tsx:65-69 | a term contained in the first name, in any case, finds the contact |
| ContactsPage.EmailMatchFinds | src/app/dashboard/contacts/page.tsx:65-69 | a term contained in the e-mail address finds the contact |
| ContactsPage.MatchSpansFields | src/app/dashboard/contacts/page.tsx:65-69 | any end of the first name, a space and any start of the last name find the contact |
| ContactsPage.DeleteContact | src/app/dashboard/contacts/page.tsx:81-83 | removes exactly the contacts with the id and keeps the rest in order |
| ContactsPage.GetInitials | src/app/dashboard/contacts/page.tsx:85-87 | the upper-cased first characters of the two names, skipping an empty name |
| ContactsPage.SaveContact | src/app/dashboard/contacts/page.tsx:262-266 | an edit replaces the contacts with the saved id in place; a creation appends the contact under a fresh id |
| ContactsPage.DeleteUndoesCreate | src/app/dashboard/contacts/page.tsx:262-266 | deleting a just-created contact restores the list |
| ContactsPage.Stats | src/app/dashboard/contacts/page.tsx:136-159 | the total, and the customer, prospect and VIP counts are the numbers of contacts with those tags |
| ContactDialog.ParsePieces | src/components/contacts/contact-dialog.tsx:71 | `map(trim).filter(Boolean)`: every kept piece is non-empty and trimmed |
| ContactDialog.ParsePiecesIsFilterMap | src/components/contacts/contact-dialog.tsx:71 | the parsed pieces are exactly the trimmed pieces that are non-empty, in order |
| ContactDialog.ParsePiecesKeepOut | src/components/contacts/contact-dialog.tsx:71 | a character absent from every piece is absent from every parsed tag |
| ContactDialog.ParsedTagsAreClean | src/components/contacts/contact-dialog.tsx:71 | every tag parsed from the field is non-empty, trimmed and comma-free |
| ContactDialog.ConsRoundTrip | src/components/contacts/contact-dialog.tsx:43-71 | a clean tag followed by ", " parses as that tag in front of the rest |
| ContactDialog.TagsRoundTrip | src/components/contacts/contact-dialog.tsx:43-71 | tags joined with ", " for the form parse back to the same tags, when each is non-empty, trimmed and comma-free |
| ContactDialog.TagsRoundTripStep | src/components/contacts/contact-dialog.tsx:43-71 | the round trip extends from the tail of the tags to the whole list |
| ContactDialog.LoadForm | src/components/contacts/contact-dialog.tsx:25-60 | a new contact starts blank; an existing one fills the form, with the tags joined and the company, role and notes fields read from the custom fields |
| ContactDialog.EditedFields | src/components/contacts/contact-dialog.tsx:72-76 | the submitted custom fields are exactly company, role and notes, holding the form's values |
| ContactDialog.HandleSubmit | src/components/contacts/contact-dialog.tsx:62-82 | keeps a non-empty id or takes a fresh one, keeps the creation time or takes now; the tags are parsed; the custom fields are exactly company, role and notes |
| ContactDialog.EditWithoutChangesKeepsContact | src/components/contacts/contact-dialog.tsx:36-82 | loading a contact with clean tags and the three custom fields and saving it unchanged only refreshes `updatedAt` |
| ContactDialog.CustomFieldsRoundTrip | src/components/contacts/contact-dialog.tsx:44-76 | a map holding exactly the three edited fields, read into the form and written back, is unchanged |
| JsonValues.StringItems | src/app/api/contacts/route.ts:25 | `z.array(z.string())`: accepted iff every item is a string, then the strings in order |
| JsonValues.JsonStrings | src/app/api/contacts/route.ts:119 | the tags as JSON strings, in order |
| JsonValues.StringItemsRoundTrip | src/app/api/contacts/route.ts:25 | strings written as a JSON array read back as the same strings |
| JsonValues.StringRecord | src/app/api/contacts/route.ts:26 | `z.record(z.string())`: accepted iff every value is a string, then the same keys and strings |
| JsonValues.JsonRecord | src/app/api/contacts/route.ts:120 | the custom fields as JSON strings, same keys |
| JsonValues.StringRecordRoundTrip | src/app/api/contacts/route.ts:26 | a string map written as a JSON object reads back as the same map |
| ContactsApi.SafeParseJsonArray | src/app/api/contacts/route.ts:140-147 | an absent or empty column is `[]`; otherwise the parsed array, or `[]` when the text is not a JSON array |
| ContactsApi.SafeParseJsonObject | src/app/api/contacts/route.ts:149-156 | an absent or empty column is `{}`; otherwise the parsed object, or `{}` when the text is not a JSON object |
| ContactsApi.ArrayColumnRoundTrip | src/app/api/contacts/route.ts:112-129 | a stored array column reads back as the same array, and as `{}` where an object is expected |
| ContactsApi.Classify | src/app/api/contacts/route.ts:131-137 | 400 iff the error is a zod error (named `ZodError` with an `errors` field), else 500 |
| ContactsApi.FailureClasses | src/app/api/contacts/route.ts:158-163 | a zod failure is 400; a JSON syntax error and a thrown `null` are 500 |
| ContactsApi.View | src/app/api/contacts/route.ts:75-80 | a row is shown with its id, names, phone, e-mail and creation time, and its tag and custom-field columns parsed |
| ContactsApi.Views | src/app/api/contacts/route.ts:75-79 | the listed rows shown one by one, in order |
| ContactsApi.Caller | src/app/api/contacts/route.ts:31-34 | there is a caller iff the session has a known, non-empty e-mail; the caller is that user's id |
| ContactsApi.FromEntries | src/app/api/contacts/route.ts:38 | `Object.fromEntries`: the keys are exactly the entries' names |
| ContactsApi.LastEntryWins | src/app/api/contacts/route.ts:38 | a repeated query parameter keeps its last value |
| ContactsApi.CoercePositive | src/app/api/contacts/route.ts:9-10 | an absent parameter takes the default; a present one is accepted iff it coerces to a positive integer within the maximum |
| ContactsApi.ParseSortField | src/app/api/contacts/route.ts:11 | absent means `createdAt`; present is accepted iff it is one of the three field names |
| ContactsApi.ParseSortDir | src/app/api/contacts/route.ts:12 | absent means `desc`; present is accepted iff it is `asc` or `desc` |
| ContactsApi.ParseQuery | src/app/api/contacts/route.ts:8-16 | accepted iff every field is; the page and page size are the coerced parameters or 1 and 20; the sort field and direction are the given ones or `createdAt` and `desc`; the page is at least 1 and the page size 1 to 100 |
| ContactsApi.ParseQueryRoundTrip | src/app/api/contacts/route.ts:8-16 | a query within the schema, written as parameters, parses back to itself |
| ContactsApi.QueryDefaults | src/app/api/contacts/route.ts:8-16 | an empty query is page 1 of 20, newest first, unfiltered |
| ContactsApi.Skip | src/app/api/contacts/route.ts:61 | the offset is 0 exactly on the first page and at least one row per earlier page |
| ContactsApi.Window | src/app/api/contacts/route.ts:57-62 | the rows from the offset on, in order: as many as `take` allows and the rows left permit, and none past the end |
| ContactsApi.PagesDisjoint | src/app/api/contacts/route.ts:61-62 | two pages of the same size never show the same row |
| ContactsApi.PagesCover | src/app/api/contacts/route.ts:61-62 | the first n pages together are exactly the first n times the page size rows |
| ContactsApi.FirstTag | src/app/api/contacts/route.ts:55 | the tag filter is the first tag of the comma list, or none when the list holds no tag |
| ContactsApi.BuildWhere | src/app/api/contacts/route.ts:47-55 | always scoped to the caller; the name, phone and tag filters apply only when non-empty |
| ContactsApi.Select | src/app/api/contacts/route.ts:47-59 | an order-preserving subsequence of the store holding exactly the rows matching the filter, all of them the caller's |
| ContactsApi.BlankTagsFilterNothing | src/app/api/contacts/route.ts:55 | a tags parameter holding only commas and spaces filters nothing |
| ContactsApi.UnfilteredSelectsOwnRows | src/app/api/contacts/route.ts:47-54 | with no filters, a row matches iff it belongs to the caller |
| ContactsApi.Get | src/app/api/contacts/route.ts:29-88 | 401 iff there is no caller; an invalid query is 400 "Invalid query"; a store failure is classified; a listing reports the parsed page and page size, the count of matching rows as the total, and the shown window of the matching rows as the data |
| ContactsApi.GetShowsOnlyOwnContacts | src/app/api/contacts/route.ts:35-80 | every listed contact is the view of a stored row of the caller that matches the filter |
| ContactsApi.EmailField | src/app/api/contacts/route.ts:24 | accepts an absent, empty or valid address; empty and absent both yield no address; an address is the body's string |
| ContactsApi.TagsField | src/app/api/contacts/route.ts:25 | accepts an absent field or an array of strings, read as those strings; absent means no tags |
| ContactsApi.CustomFieldsField | src/app/api/contacts/route.ts:26 | accepts an absent field or a record of strings, read as that record; absent means no custom fields |
| ContactsApi.ParseUpsert | src/app/api/contacts/route.ts:18-27 | accepted iff the schema holds; the names and phone are the body's strings; an e-mail is valid or "" (read as none); tags and custom fields are the body's, and default to empty when missing |
| ContactsApi.ParseUpsertRoundTrip | src/app/api/contacts/route.ts:18-27 | a contact within the schema, written as a JSON body, parses back to itself |
| ContactsApi.FindByPhone | src/app/api/contacts/route.ts:102-104 | the first row of the caller with the phone number, or none when there is none |
| ContactsApi.Post | src/app/api/contacts/route.ts:90-138 | 401 iff there is no caller; an unreadable body is 500; a schema failure is 400; a store failure is classified; an existing contact with the phone is answered as already existing with its view, leaving the store unchanged; otherwise one row is appended and its view returned |
| ContactsApi.PostKeepsPhonesUnique | src/app/api/contacts/route.ts:101-123 | if no user has two contacts with one phone number, that stays true after a POST |
| ContactsApi.SequentialPostsKeepPhonesUnique | src/app/api/contacts/route.ts:101-123 | the same holds after any sequence of POSTs |
| ContactsApi.CreatedContactRoundTrip | src/app/api/contacts/route.ts:112-129 | a created contact reads back with the posted tags and custom fields |
| RecentMessages.FormatPhoneNumber | src/components/analytics/recent-messages.tsx:76-85 | the number unchanged, or a 14-character layout |
| RecentMessages.FormatAgreesWithService | src/components/analytics/recent-messages.tsx:76-85 | the list's formatter is the service's formatter |
| RecentMessages.NanpNumbersFormat | src/components/analytics/recent-messages.tsx:77-84 | a number with ten digits, or eleven starting with 1, is laid out from its last ten digits |
| RecentMessages.GetStatusColor | src/components/analytics/recent-messages.tsx:55-68 | gray iff the status is not one of the four coloured ones; delivered is green, failed is red |
| RecentMessages.StatusColorsDistinct | src/components/analytics/recent-messages.tsx:55-68 | the coloured statuses have pairwise different badges; pending is gray |
| RecentMessages.GetTypeColor | src/components/analytics/recent-messages.tsx:70-74 | purple iff the type is `rcs`, blue otherwise |
| AnalyticsChart.RowMax | src/components/analytics/analytics-chart.tsx:27 | the largest of a row's four counts: at least each, equal to one |
| AnalyticsChart.MaxValue | src/components/analytics/analytics-chart.tsx:26-28 | none for no data; otherwise at least every count and equal to one of them |
| AnalyticsChart.Total | src/components/analytics/analytics-chart.tsx:148 | the total of non-negative counts is non-negative |
| AnalyticsChart.TotalAppend | src/components/analytics/analytics-chart.tsx:148 | the total of two ranges is the sum of their totals |
| AnalyticsChart.TotalBelowBound | src/components/analytics/analytics-chart.tsx:148 | a total is at most the number of rows times any bound on the counts |
| AnalyticsChart.TotalBelowMax | src/components/analytics/analytics-chart.tsx:26-28 | a total is at most the number of rows times the chart maximum |
| AnalyticsChart.InitiallyAllActive | src/components/analytics/analytics-chart.tsx:19-24 | every metric starts shown |
| AnalyticsChart.ToggleMetric | src/components/analytics/analytics-chart.tsx:30-35 | flips the one metric and no other |
| AnalyticsChart.ToggleTwice | src/components/analytics/analytics-chart.tsx:30-35 | toggling twice restores the state, and toggles of two metrics commute |
| Auth.Authorized | src/lib/auth.ts:35-41 | paths under the auth and webhook prefixes are open; every other path needs a session |
| Auth.RoleOf | src/lib/auth.ts:28 | admin iff the stored role is exactly `admin` |
| Auth.NormaliseEmail | src/lib/auth.ts:20 | the looked-up address is the trimmed lower-cased address, equally the lower-cased trimmed one: trimmed, with no upper-case letter |
| Auth.NormaliseIdempotent | src/lib/auth.ts:20 | normalising twice is normalising once |
| Auth.Authorize | src/lib/auth.ts:18-30 | signs in iff both credentials are given and the normalised address has a user with a password hash that the password matches; returns that user's id, e-mail, name and role |
| Auth.AuthorizeStableUnderNormalising | src/lib/auth.ts:19-27 | signing in with the normalised address gives the same result |
| Auth.Jwt | src/lib/auth.ts:42-52 | on sign-in the token takes the user's id and role (default user), and the user's name and e-mail when given; otherwise it is unchanged |
| Auth.SessionOf | src/lib/auth.ts:53-61 | a session with a user gets the token's id and role (default user) and keeps its name and e-mail |
| Auth.SignInReachesSession | src/lib/auth.ts:28-60 | a signed-in user's id and role reach the session |
| Auth.RoleDefaultsToUser | src/lib/auth.ts:58 | a token without a role gives the session the user role |
| Seqs.Filter | src/app/dashboard/templates/page.tsx:88-93 | `Array.filter`: an order-preserving subsequence keeping exactly the elements that pass |
| Seqs.FilterLength | src/app/dashboard/templates/page.tsx:189 | the filtered length is the count of passing elements |
| Seqs.Dedup | src/components/templates/template-dialog.tsx:75 | `[...new Set(xs)]`: no duplicates, the same elements |
| Seqs.DedupOrder | src/components/templates/template-dialog.tsx:75 | elements are kept in the order of their first occurrence |
| Seqs.DedupDistinct | src/components/templates/template-dialog.tsx:75 | a list without duplicates is its own de-duplication |
| Strings.ToLower | src/app/dashboard/contacts/page.tsx:67-68 | `toLowerCase`, character by character |
| Strings.Trim | src/components/contacts/contact-dialog.tsx:71 | `trim`: the result is trimmed, is empty iff the text is all white space, and leaves trimmed text alone |
| Strings.TrimRemovesOnlyOuterSpace | src/components/contacts/contact-dialog.tsx:71 | the result is one slice of the text, with only white space before and after it |
| Strings.TrimToLower | src/lib/auth.ts:20 | lower-casing and trimming commute |
| Strings.TrimKeepsOut | src/components/contacts/contact-dialog.tsx:71 | trimming adds no character: one absent from the text is absent from the result |
| Strings.SplitPiecesLackSeparator | src/components/contacts/contact-dialog.tsx:71 | no piece of `split(',')` contains a comma |
| Strings.SplitAtSeparator | src/components/contacts/contact-dialog.tsx:71 | `split(',')` cuts at the first comma |
| Strings.ReplaceAllIsSplitJoin | src/components/templates/template-preview.tsx:61-63 | a global replace is split on the pattern and join with the value |
| Strings.SplitOnJoin | src/components/templates/template-preview.tsx:61-63 | splitting on a pattern and joining with it gives the text back |
| Strings.Digits | src/lib/twilio.ts:203 | `replace(/\D/g, '')`: only digits, no longer than the input |
| Strings.DigitsIsFilter | src/lib/twilio.ts:203 | the digits of the text, all of them, in order |
| Strings.NatToStringRoundTrip | src/lib/twilio.ts:83 | the decimal text of a number reads back as the number |
| Strings.NatToStringInjective | src/lib/twilio.ts:154 | different indices have different decimal texts |

## Left out

- Every network and database call is a parameter: the Twilio SDK
  (`messages.create`, `messages(sid).fetch`), Prisma and bcrypt.
  `createContentTemplate` and `listContentTemplates`
  (`src/lib/twilio.ts:167-193`) only forward to the SDK and are not
  modelled.
- The webhook's `GET` handler (`src/app/api/twilio/webhook/route.ts:110-114`)
  and its logging `switch` only log or report liveness.
- Concurrency is out. Webhook callbacks and POSTs are modelled as
  sequential folds over the store; two concurrent POSTs with one phone
  number can both pass the existence check in the running system.
- Webhook.HandleWebhook: one `now` serves `updatedAt` and the status
  timestamp, where the handler reads the clock twice a few instructions
  apart.
- Floating-point presentation is out: `calculatePercentageChange`, the
  metric cards and the bar heights of `getHeight`.
- Strings.ToLower: maps only ASCII letters, where JavaScript maps every
  Unicode letter.
- Strings.Trim: string lengths are counted in characters, not in UTF-16
  code units, here and in every `min`/`max` of the schemas.
- TemplatePreview.Substitute: the variable name is matched literally.
  The preview builds a regular expression from it, so a name holding
  regular-expression metacharacters, or a value holding `$`, behaves
  differently there.
- TemplatePreview.Lookup: entries keep insertion order. JavaScript lists
  integer-like keys first, which only changes the order the inputs are
  rendered in.
- ContactsApi.Get: rows are listed in store order; the `orderBy` sort by
  the chosen field and direction is not modelled (the sort field and
  direction are parsed and validated).
- ContactsApi.ParseUpsert: zod's e-mail check is the `isEmail` parameter;
  `z.coerce.number()` is the `coerce` parameter of `ContactsApi.ParseQuery`.
- SendRoutes.ParseSms: zod's URL check is the `isUrl` parameter.
- Auth.Authorize: the user lookup is a map keyed by e-mail, and the
  bcrypt comparison is the `check` parameter.
- The route middleware matcher, the seed script, `setup.js` and the JSX
  markup are out; only the handlers and helpers they call are modelled.
- The webhook has no guard against a status moving backward: any callback
  overwrites the status, whatever it was (`Webhook.StatusIgnoresPriorState`,
  `Webhook.DeliveredCanRegressToSent`).
- Webhook.FormGet: the body is taken as already-decoded name/value
  pairs; the `URLSearchParams` decoding of `+` and percent escapes is not
  modelled.
- Strings.ToUpper: maps only ASCII letters. JavaScript's `toUpperCase` can
  lengthen a string ("ß" becomes "SS"), so the bound of at most two
  characters stated by `ContactsPage.GetInitials` holds for this model only.
- TemplatePreview.InitialValues: the sample table is a plain map. In
  JavaScript, `sampleData[variable]` also finds the names every object
  inherits (`constructor`, `toString`, `valueOf`, `hasOwnProperty`), whose
  values are functions, and assigning to `initialValues.__proto__` creates
  no entry. A variable with one of these names is given its single-brace
  fallback here instead.
- TemplatePreview.Substitute: the agreement with one-pass rendering
  (`TemplatePreview.SubstituteIsRender`) is proved for text whose only
  braces are its placeholders, with brace-free keys and values. Outside
  that case the entry-by-entry replacement can complete a placeholder for a
  later key. For example, "{{{{a}}}}" with a = "b" and b = "X" becomes
  "{{b}}" and then "X", where a single pass would show "{{b}}".
