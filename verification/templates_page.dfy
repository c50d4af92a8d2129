/**
 * The template list of `src/app/dashboard/templates/page.tsx`: search and
 * category filtering, deletion, duplication, saving from the dialog, and
 * the summary counts.
 */
module TemplatesPage {
  import opened Domain
  import opened Strings
  import opened Seqs

  /** The search term occurs, ignoring case, in the name or in the content. */
  predicate MatchesSearch(t: Template, term: string) {
    Contains(ToLower(t.name), ToLower(term)) || Contains(ToLower(t.content), ToLower(term))
  }

  /** The pseudo-category that selects every template. */
  const AllCategories := "all"

  predicate MatchesCategory(t: Template, category: string) {
    category == AllCategories || t.category == category
  }

  function Shown(term: string, category: string): Template -> bool {
    (t: Template) => MatchesSearch(t, term) && MatchesCategory(t, category)
  }

  /** `filteredTemplates`: the templates passing both tests, in list order. */
  function FilterTemplates(ts: seq<Template>, term: string, category: string): (r: seq<Template>)
    ensures IsSubseq(r, ts)
    ensures forall i :: 0 <= i < |r| ==> r[i] in ts && MatchesSearch(r[i], term) && MatchesCategory(r[i], category)
    ensures forall i :: 0 <= i < |ts| && MatchesSearch(ts[i], term) && MatchesCategory(ts[i], category) ==> ts[i] in r
  {
    Filter(Shown(term, category), ts)
  }

  /** With no search term and every category selected, the whole list is shown. */
  lemma EmptySearchShowsAll(ts: seq<Template>)
    ensures FilterTemplates(ts, "", AllCategories) == ts
  {
    forall i | 0 <= i < |ts| ensures Shown("", AllCategories)(ts[i]) {
      ContainsEmpty(ToLower(ts[i].name));
    }
    FilterKeepsAll(Shown("", AllCategories), ts);
  }

  function HasId(id: string): Template -> bool {
    (t: Template) => t.id == id
  }

  function LacksId(id: string): Template -> bool {
    (t: Template) => t.id != id
  }

  /** The number of templates carrying `id`. */
  function IdCount(ts: seq<Template>, id: string): nat {
    CountWhere(HasId(id), ts)
  }

  /** `handleDeleteTemplate`: exactly the templates with that id go, the rest keep their order. */
  function DeleteTemplate(ts: seq<Template>, id: string): (r: seq<Template>)
    ensures IsSubseq(r, ts)
    ensures forall i :: 0 <= i < |r| ==> r[i].id != id
    ensures forall i :: 0 <= i < |ts| && ts[i].id != id ==> ts[i] in r
    ensures |r| + IdCount(ts, id) == |ts|
    ensures (forall i :: 0 <= i < |ts| ==> ts[i].id != id) ==> r == ts
  {
    FilterLength(LacksId(id), ts);
    CountComplement(LacksId(id), HasId(id), ts);
    if forall i :: 0 <= i < |ts| ==> ts[i].id != id then
      FilterKeepsAll(LacksId(id), ts);
      Filter(LacksId(id), ts)
    else
      Filter(LacksId(id), ts)
  }

  const CopySuffix := " (Copy)"

  /**
   * `handleDuplicateTemplate`: a copy of `t` under a fresh id, named as a
   * copy, unused and created now, is put in front of the list.
   */
  function DuplicateTemplate(ts: seq<Template>, t: Template, freshId: string, now: Time): (r: seq<Template>)
    ensures |r| == |ts| + 1 && r[1..] == ts
    ensures r[0].id == freshId && r[0].name == t.name + CopySuffix && r[0].usageCount == 0
    ensures r[0].createdAt == now && r[0].updatedAt == now
    ensures r[0].content == t.content && r[0].variables == t.variables
    ensures r[0].category == t.category && r[0].kind == t.kind
    ensures r[0].description == t.description && r[0].isActive == t.isActive
  {
    [t.(id := freshId, name := t.name + CopySuffix, usageCount := 0, createdAt := now, updatedAt := now)] + ts
  }

  /** Deleting a duplicate by its fresh id undoes the duplication. */
  lemma DeleteUndoesDuplicate(ts: seq<Template>, t: Template, freshId: string, now: Time)
    requires forall i :: 0 <= i < |ts| ==> ts[i].id != freshId
    ensures DeleteTemplate(DuplicateTemplate(ts, t, freshId, now), freshId) == ts
  {
    var d := DuplicateTemplate(ts, t, freshId, now);
    assert d == [d[0]] + ts;
    FilterKeepsAll(LacksId(freshId), ts);
  }

  /**
   * The dialog's `onSave`: an edit replaces every template with the saved
   * one's id; a new template gets another fresh id and goes in front.
   */
  function SaveTemplate(ts: seq<Template>, editing: bool, saved: Template, freshId: string): (r: seq<Template>)
    ensures editing ==> |r| == |ts|
    ensures editing ==> forall i :: 0 <= i < |ts| ==> r[i] == (if ts[i].id == saved.id then saved else ts[i])
    ensures !editing ==> |r| == |ts| + 1 && r[0] == saved.(id := freshId) && r[1..] == ts
  {
    if editing then ReplaceWhere(HasId(saved.id), ts, saved)
    else [saved.(id := freshId)] + ts
  }

  /** Saving the same edit twice is the same as saving it once. */
  lemma SaveEditIdempotent(ts: seq<Template>, saved: Template, freshId: string)
    ensures SaveTemplate(SaveTemplate(ts, true, saved, freshId), true, saved, freshId)
         == SaveTemplate(ts, true, saved, freshId)
  {
  }

  /** Deleting a newly saved template by its fresh id gives the list back. */
  lemma DeleteUndoesCreate(ts: seq<Template>, saved: Template, freshId: string)
    requires forall i :: 0 <= i < |ts| ==> ts[i].id != freshId
    ensures DeleteTemplate(SaveTemplate(ts, false, saved, freshId), freshId) == ts
  {
    var d := SaveTemplate(ts, false, saved, freshId);
    assert d == [d[0]] + ts;
    FilterKeepsAll(LacksId(freshId), ts);
  }

  datatype TemplateStats = TemplateStats(total: nat, active: nat, sms: nat, rcs: nat)

  function IsActive(): Template -> bool {
    (t: Template) => t.isActive
  }

  function OfKind(kind: Channel): Template -> bool {
    (t: Template) => t.kind == kind
  }

  /** The four summary cards. Every template is SMS or RCS, so those two counts make up the total. */
  function Stats(ts: seq<Template>): (s: TemplateStats)
    ensures s.total == |ts|
    ensures s.active <= s.total
    ensures s.sms + s.rcs == s.total
    ensures s.active == |Filter(IsActive(), ts)|
  {
    CountComplement(OfKind(Sms), OfKind(Rcs), ts);
    FilterLength(IsActive(), ts);
    TemplateStats(|ts|, CountWhere(IsActive(), ts), CountWhere(OfKind(Sms), ts), CountWhere(OfKind(Rcs), ts))
  }
}
