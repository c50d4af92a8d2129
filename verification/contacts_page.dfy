/**
 * The contact list of `src/app/dashboard/contacts/page.tsx`: free-text
 * search, deletion, avatar initials, saving from the dialog, and the
 * tag-based summary counts.
 */
module ContactsPage {
  import opened Wrappers
  import opened Domain
  import opened Strings
  import opened Seqs

  /** How a template literal renders an optional email: a missing one prints as `undefined`. */
  function EmailText(email: Option<string>): string {
    match email
    case Some(e) => e
    case None => "undefined"
  }

  /** The text searched: first name, last name, phone and email joined by single spaces. */
  function SearchText(c: Contact): string {
    c.firstName + " " + c.lastName + " " + c.phoneNumber + " " + EmailText(c.email)
  }

  predicate MatchesSearch(c: Contact, term: string) {
    Contains(ToLower(SearchText(c)), ToLower(term))
  }

  function Shown(term: string): Contact -> bool {
    (c: Contact) => MatchesSearch(c, term)
  }

  /** `filteredContacts`: the contacts whose search text contains the term, ignoring case, in list order. */
  function FilterContacts(cs: seq<Contact>, term: string): (r: seq<Contact>)
    ensures IsSubseq(r, cs)
    ensures forall i :: 0 <= i < |r| ==> r[i] in cs && MatchesSearch(r[i], term)
    ensures forall i :: 0 <= i < |cs| && MatchesSearch(cs[i], term) ==> cs[i] in r
  {
    Filter(Shown(term), cs)
  }

  lemma EmptySearchShowsAll(cs: seq<Contact>)
    ensures FilterContacts(cs, "") == cs
  {
    forall i | 0 <= i < |cs| ensures Shown("")(cs[i]) {
      ContainsEmpty(ToLower(SearchText(cs[i])));
    }
    FilterKeepsAll(Shown(""), cs);
  }

  /** A term found in the first name, ignoring case, finds the contact. */
  lemma FirstNameMatchFinds(c: Contact, term: string)
    requires Contains(ToLower(c.firstName), ToLower(term))
    ensures MatchesSearch(c, term)
  {
    var rest := " " + c.lastName + " " + c.phoneNumber + " " + EmailText(c.email);
    assert SearchText(c) == c.firstName + rest;
    ToLowerConcat(c.firstName, rest);
    ContainsInConcat(ToLower(c.firstName), ToLower(rest), ToLower(term));
  }

  /** A term found in the email, ignoring case, finds the contact. */
  lemma EmailMatchFinds(c: Contact, term: string)
    requires c.email.Some? && Contains(ToLower(c.email.value), ToLower(term))
    ensures MatchesSearch(c, term)
  {
    var front := c.firstName + " " + c.lastName + " " + c.phoneNumber + " ";
    assert SearchText(c) == front + c.email.value;
    ToLowerConcat(front, c.email.value);
    ContainsInConcat(ToLower(front), ToLower(c.email.value), ToLower(term));
  }

  /**
   * Matches may straddle fields: the end of the first name, the joining
   * space and the start of the last name together find the contact.
   */
  lemma MatchSpansFields(c: Contact, a: string, b: string)
    requires |a| <= |c.firstName| && a == c.firstName[|c.firstName| - |a|..]
    requires b <= c.lastName
    ensures MatchesSearch(c, a + " " + b)
  {
    var t := SearchText(c);
    var term := a + " " + b;
    var k := |c.firstName| - |a|;
    var n := |term|;
    var rest := c.lastName[|b|..] + " " + c.phoneNumber + " " + EmailText(c.email);
    assert c.lastName == b + c.lastName[|b|..];
    assert t == c.firstName[..k] + term + rest;
    assert t[k..k + n] == term;
    var lt := ToLower(t);
    assert lt[k..k + n] == ToLower(term);
    ContainsAt(lt, ToLower(term), k);
  }

  function HasId(id: string): Contact -> bool {
    (c: Contact) => c.id == id
  }

  function LacksId(id: string): Contact -> bool {
    (c: Contact) => c.id != id
  }

  /** `handleDeleteContact`: exactly the contacts with that id go, the rest keep their order. */
  function DeleteContact(cs: seq<Contact>, id: string): (r: seq<Contact>)
    ensures IsSubseq(r, cs)
    ensures forall i :: 0 <= i < |r| ==> r[i].id != id
    ensures forall i :: 0 <= i < |cs| && cs[i].id != id ==> cs[i] in r
    ensures |r| + CountWhere(HasId(id), cs) == |cs|
    ensures (forall i :: 0 <= i < |cs| ==> cs[i].id != id) ==> r == cs
  {
    FilterLength(LacksId(id), cs);
    CountComplement(LacksId(id), HasId(id), cs);
    if forall i :: 0 <= i < |cs| ==> cs[i].id != id then
      FilterKeepsAll(LacksId(id), cs);
      Filter(LacksId(id), cs)
    else
      Filter(LacksId(id), cs)
  }

  /** `charAt(0)`: the first character, or the empty string. */
  function FirstChar(s: string): (r: string)
    ensures |r| == (if |s| > 0 then 1 else 0)
    ensures |s| > 0 ==> r == [s[0]]
  {
    if |s| > 0 then [s[0]] else ""
  }

  /** `getInitials`: the upper-cased first character of each name; a blank name contributes nothing. */
  function GetInitials(firstName: string, lastName: string): (r: string)
    ensures |r| == (if |firstName| > 0 then 1 else 0) + (if |lastName| > 0 then 1 else 0)
    ensures |r| <= 2
    ensures |firstName| > 0 ==> r[0] == UpperChar(firstName[0])
    ensures |lastName| > 0 ==> r[|r| - 1] == UpperChar(lastName[0])
  {
    ToUpper(FirstChar(firstName) + FirstChar(lastName))
  }

  /**
   * The dialog's `onSave`: an edit replaces every contact with the saved
   * one's id; a new contact gets another fresh id and goes at the end.
   */
  function SaveContact(cs: seq<Contact>, editing: bool, saved: Contact, freshId: string): (r: seq<Contact>)
    ensures editing ==> |r| == |cs|
    ensures editing ==> forall i :: 0 <= i < |cs| ==> r[i] == (if cs[i].id == saved.id then saved else cs[i])
    ensures !editing ==> |r| == |cs| + 1 && r[|cs|] == saved.(id := freshId) && r[..|cs|] == cs
  {
    if editing then ReplaceWhere(HasId(saved.id), cs, saved)
    else cs + [saved.(id := freshId)]
  }

  /** Deleting a newly saved contact by its fresh id gives the list back. */
  lemma DeleteUndoesCreate(cs: seq<Contact>, saved: Contact, freshId: string)
    requires forall i :: 0 <= i < |cs| ==> cs[i].id != freshId
    ensures DeleteContact(SaveContact(cs, false, saved, freshId), freshId) == cs
  {
    DeleteAppended(cs, saved.(id := freshId), freshId);
  }

  lemma {:induction false} DeleteAppended(cs: seq<Contact>, c: Contact, id: string)
    requires c.id == id && forall i :: 0 <= i < |cs| ==> cs[i].id != id
    ensures Filter(LacksId(id), cs + [c]) == cs
    decreases |cs|
  {
    if |cs| == 0 {
      assert cs + [c] == [c];
    } else {
      assert (cs + [c])[1..] == cs[1..] + [c];
      DeleteAppended(cs[1..], c, id);
      assert [cs[0]] + cs[1..] == cs;
    }
  }

  function HasTag(tag: string): Contact -> bool {
    (c: Contact) => tag in c.tags
  }

  datatype ContactStats = ContactStats(total: nat, customers: nat, prospects: nat, vips: nat)

  /** The four summary cards: each tag count is at most the number of contacts. */
  function Stats(cs: seq<Contact>): (s: ContactStats)
    ensures s.total == |cs|
    ensures s.customers <= s.total && s.prospects <= s.total && s.vips <= s.total
    ensures s.customers == |Filter(HasTag("customer"), cs)|
    ensures s.prospects == |Filter(HasTag("prospect"), cs)|
    ensures s.vips == |Filter(HasTag("vip"), cs)|
  {
    FilterLength(HasTag("customer"), cs);
    FilterLength(HasTag("prospect"), cs);
    FilterLength(HasTag("vip"), cs);
    ContactStats(|cs|, CountWhere(HasTag("customer"), cs), CountWhere(HasTag("prospect"), cs),
                 CountWhere(HasTag("vip"), cs))
  }
}
