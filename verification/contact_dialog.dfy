/**
 * The contact editor of `contact-dialog.tsx`: the form it loads, the
 * comma-separated tag field, and the record it submits.
 */
module ContactDialog {
  import opened Wrappers
  import opened Domain
  import opened Strings
  import opened Seqs

  datatype ContactForm = ContactForm(
    firstName: string, lastName: string, phoneNumber: string, email: string,
    tags: string, company: string, role: string, notes: string)

  const BlankForm := ContactForm("", "", "", "", "", "", "", "")

  const TagSeparator := ", "

  /** `tags.join(", ")`, the text the tag field is loaded with. */
  function JoinTags(tags: seq<string>): string {
    Join(tags, TagSeparator)
  }

  /**
   * `pieces.map(tag => tag.trim()).filter(Boolean)`: each piece trimmed,
   * the empty ones dropped, the rest kept in order.
   */
  function ParsePieces(pieces: seq<string>): (r: seq<string>)
    ensures forall i :: 0 <= i < |r| ==> r[i] != "" && IsTrimmed(r[i])
  {
    if |pieces| == 0 then []
    else
      var t := Trim(pieces[0]);
      (if t == "" then [] else [t]) + ParsePieces(pieces[1..])
  }

  /** The parsed pieces are exactly the trimmed pieces with the empty ones dropped, in order. */
  lemma {:induction false} ParsePiecesIsFilterMap(pieces: seq<string>)
    ensures ParsePieces(pieces) == Filter(NonBlank, Map(Trim, pieces))
  {
    if |pieces| > 0 {
      ParsePiecesIsFilterMap(pieces[1..]);
      assert Map(Trim, pieces)[1..] == Map(Trim, pieces[1..]);
    }
  }

  /** `Boolean` on a string: true unless it is empty. */
  function NonBlank(s: string): bool {
    s != ""
  }

  /** A character absent from every piece is absent from every parsed tag. */
  lemma {:induction false} ParsePiecesKeepOut(pieces: seq<string>, c: char)
    requires forall k :: 0 <= k < |pieces| ==> c !in pieces[k]
    ensures forall i :: 0 <= i < |ParsePieces(pieces)| ==> c !in ParsePieces(pieces)[i]
  {
    if |pieces| > 0 {
      TrimKeepsOut(pieces[0], c);
      ParsePiecesKeepOut(pieces[1..], c);
    }
  }

  /** A tag that survives a join and re-parse: non-empty, without commas, not padded with whitespace. */
  predicate CleanTag(t: string) {
    t != "" && ',' !in t && IsTrimmed(t)
  }

  /** `split(",").map(tag => tag.trim()).filter(Boolean)`. */
  function ParseTags(s: string): seq<string> {
    ParsePieces(Split(s, ','))
  }

  /** Every parsed tag is clean. */
  lemma ParsedTagsAreClean(s: string)
    ensures forall i :: 0 <= i < |ParseTags(s)| ==> CleanTag(ParseTags(s)[i])
  {
    SplitPiecesLackSeparator(s, ',');
    ParsePiecesKeepOut(Split(s, ','), ',');
  }

  lemma TrimSkipsLeadingSpace(x: string)
    ensures Trim(" " + x) == Trim(x)
  {
    assert (" " + x)[1..] == x;
  }

  /** A clean tag in front of the pieces is kept as it is. */
  lemma ParsePiecesCons(t: string, ps: seq<string>)
    requires CleanTag(t)
    ensures ParsePieces([t] + ps) == [t] + ParsePieces(ps)
  {
    assert ([t] + ps)[0] == t;
    assert ([t] + ps)[1..] == ps;
  }

  /** A piece after `", "` parses as if the space were not there. */
  lemma ParsePiecesAfterSpace(j: string)
    ensures ParsePieces(Split(" " + j, ',')) == ParsePieces(Split(j, ','))
  {
    var rest := Split(j, ',');
    assert " " + j == [' '] + j;
    SplitCons(' ', j, ',');
    var spaced := [" " + rest[0]] + rest[1..];
    TrimSkipsLeadingSpace(rest[0]);
    assert spaced[0] == " " + rest[0] && spaced[1..] == rest[1..];
  }

  lemma JoinTagsCons(tags: seq<string>)
    requires |tags| > 1
    ensures JoinTags(tags) == tags[0] + [','] + (" " + JoinTags(tags[1..]))
  {
    assert TagSeparator == [','] + " ";
  }

  lemma NoTagsRoundTrip()
    ensures ParseTags(JoinTags([])) == []
  {
    assert JoinTags([]) == "";
    assert Split("", ',') == [""];
    assert Trim("") == "";
    assert [""][1..] == [];
  }

  lemma OneTagRoundTrip(t: string)
    requires CleanTag(t)
    ensures ParseTags(JoinTags([t])) == [t]
  {
    SplitWithoutSeparator(t, ',');
    ParsePiecesCons(t, []);
  }

  /** A clean tag followed by `", "` parses as that tag in front of whatever follows. */
  lemma ConsRoundTrip(t: string, j: string)
    requires CleanTag(t)
    ensures ParseTags(t + [','] + (" " + j)) == [t] + ParseTags(j)
  {
    SplitAtSeparator(t, ',', " " + j);
    ParsePiecesCons(t, Split(" " + j, ','));
    ParsePiecesAfterSpace(j);
  }

  /** Joining clean tags with `", "` and parsing the result gives the tags back. */
  lemma {:induction false} TagsRoundTrip(tags: seq<string>)
    requires forall i :: 0 <= i < |tags| ==> CleanTag(tags[i])
    ensures ParseTags(JoinTags(tags)) == tags
    decreases |tags|
  {
    if |tags| == 0 {
      NoTagsRoundTrip();
    } else if |tags| == 1 {
      OneTagRoundTrip(tags[0]);
      assert [tags[0]] == tags;
    } else {
      TagsRoundTrip(tags[1..]);
      TagsRoundTripStep(tags);
    }
  }

  /** The inductive step: a clean head in front of tags that already round-trip. */
  lemma TagsRoundTripStep(tags: seq<string>)
    requires |tags| > 1 && CleanTag(tags[0])
    requires ParseTags(JoinTags(tags[1..])) == tags[1..]
    ensures ParseTags(JoinTags(tags)) == tags
  {
    JoinTagsCons(tags);
    ConsRoundTrip(tags[0], JoinTags(tags[1..]));
    assert [tags[0]] + tags[1..] == tags;
  }

  /** A custom field's value, blank when absent. */
  function Field(fields: map<string, string>, key: string): string {
    if key in fields then fields[key] else ""
  }

  /** The form after opening the dialog: blank for a new contact, otherwise the contact's fields. */
  function LoadForm(contact: Option<Contact>): (f: ContactForm)
    ensures contact.None? ==> f == BlankForm
    ensures contact.Some? ==>
      var c := contact.value;
      && f.firstName == c.firstName && f.lastName == c.lastName && f.phoneNumber == c.phoneNumber
      && f.email == c.email.GetOr("") && f.tags == JoinTags(c.tags)
      && f.company == Field(c.customFields, "company") && f.role == Field(c.customFields, "role")
      && f.notes == Field(c.customFields, "notes")
  {
    match contact
    case None => BlankForm
    case Some(c) =>
      ContactForm(c.firstName, c.lastName, c.phoneNumber, c.email.GetOr(""), JoinTags(c.tags),
                  Field(c.customFields, "company"), Field(c.customFields, "role"), Field(c.customFields, "notes"))
  }

  /** The custom fields the form writes: exactly company, role and notes. */
  function EditedFields(company: string, role: string, notes: string): (m: map<string, string>)
    ensures m.Keys == {"company", "role", "notes"}
    ensures m["company"] == company && m["role"] == role && m["notes"] == notes
  {
    map["company" := company, "role" := role, "notes" := notes]
  }

  /**
   * `handleSubmit`: the form's fields, the parsed tags and exactly the three
   * custom fields the form edits; the edited contact's id and creation time,
   * or a fresh id and `now` for a new one.
   */
  function HandleSubmit(contact: Option<Contact>, form: ContactForm, freshId: string, now: Time): (c: Contact)
    ensures c.id == (if contact.Some? && contact.value.id != "" then contact.value.id else freshId)
    ensures c.createdAt == (if contact.Some? then contact.value.createdAt else now)
    ensures c.updatedAt == now
    ensures c.firstName == form.firstName && c.lastName == form.lastName && c.phoneNumber == form.phoneNumber
    ensures c.email == Some(form.email)
    ensures c.tags == ParseTags(form.tags)
    ensures c.customFields == EditedFields(form.company, form.role, form.notes)
  {
    Contact(
      if contact.Some? && contact.value.id != "" then contact.value.id else freshId,
      form.firstName, form.lastName, form.phoneNumber, Some(form.email), ParseTags(form.tags),
      EditedFields(form.company, form.role, form.notes),
      if contact.Some? then contact.value.createdAt else now,
      now)
  }

  /**
   * Opening a contact and saving it unchanged gives it back with `updatedAt`
   * refreshed, when its tags are clean, it has an email and its custom
   * fields are exactly the three the form edits.
   */
  lemma EditWithoutChangesKeepsContact(c: Contact, freshId: string, now: Time)
    requires c.id != "" && c.email.Some?
    requires forall i :: 0 <= i < |c.tags| ==> CleanTag(c.tags[i])
    requires c.customFields.Keys == {"company", "role", "notes"}
    ensures HandleSubmit(Some(c), LoadForm(Some(c)), freshId, now) == c.(updatedAt := now)
  {
    var f := LoadForm(Some(c));
    TagsRoundTrip(c.tags);
    CustomFieldsRoundTrip(c.customFields);
    var r := HandleSubmit(Some(c), f, freshId, now);
    assert r.tags == c.tags && r.email == c.email && r.customFields == c.customFields;
  }

  /** The three edited custom fields, read into the form and written back, give the same map. */
  lemma CustomFieldsRoundTrip(m: map<string, string>)
    requires m.Keys == {"company", "role", "notes"}
    ensures EditedFields(Field(m, "company"), Field(m, "role"), Field(m, "notes")) == m
  {
    var r := EditedFields(Field(m, "company"), Field(m, "role"), Field(m, "notes"));
    forall k | k in m ensures r[k] == m[k] {
      assert k == "company" || k == "role" || k == "notes";
    }
  }
}
