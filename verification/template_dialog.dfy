/**
 * The template editor of `template-dialog.tsx`: the form it loads, the
 * `{{variable}}` placeholders it detects in the content, the quick-insert
 * splice at the text selection, and the record it submits.
 */
module TemplateDialog {
  import opened Wrappers
  import opened Domain
  import opened Strings
  import Seqs

  // ---------------------------------------------------------------------------
  // Placeholder detection: the global pattern `\{\{([^}]+)\}\}`

  /** The first `}` at or after `k`, or `|s|` when there is none. */
  function CloseFrom(s: string, k: nat): (j: nat)
    requires k <= |s|
    ensures k <= j <= |s|
    ensures j < |s| ==> s[j] == '}'
    ensures forall i :: k <= i < j ==> s[i] != '}'
    decreases |s| - k
  {
    if k == |s| || s[k] == '}' then k else CloseFrom(s, k + 1)
  }

  /**
   * A match of the pattern at the start of `s`: `{{`, then the run of
   * non-`}` characters (at least one), then `}}`. The result is the index
   * where the captured group ends.
   */
  function MatchAtStart(s: string): (r: Option<nat>)
    ensures r.Some? ==>
      && 2 < r.value && r.value + 2 <= |s|
      && s[0] == '{' && s[1] == '{' && s[r.value] == '}' && s[r.value + 1] == '}'
      && forall i :: 2 <= i < r.value ==> s[i] != '}'
  {
    if |s| >= 2 && s[0] == '{' && s[1] == '{' then
      var j := CloseFrom(s, 2);
      // the greedy run cannot give characters back: what follows it is `}` or the end
      if 2 < j && j + 1 < |s| && s[j + 1] == '}' then Some(j) else None
    else None
  }

  /** The captured groups of `content.matchAll(...)`, left to right, without overlap. */
  function RawVariables(s: string): (r: seq<string>)
    ensures forall k :: 0 <= k < |r| ==> |r[k]| > 0 && '}' !in r[k]
    decreases |s|
  {
    if |s| == 0 then []
    else
      match MatchAtStart(s)
      case Some(j) =>
        assert forall c :: c in s[2..j] ==> c != '}';
        [s[2..j]] + RawVariables(s[j + 2..])
      case None => RawVariables(s[1..])
  }

  function Placeholder(name: string): string {
    "{{" + name + "}}"
  }

  /** Every captured group is the inside of a `{{…}}` that occurs in the content. */
  lemma {:induction false} RawVariablesOccur(s: string)
    ensures forall k :: 0 <= k < |RawVariables(s)| ==> Contains(s, Placeholder(RawVariables(s)[k]))
    decreases |s|
  {
    if |s| > 0 {
      var r := RawVariables(s);
      match MatchAtStart(s)
      case Some(j) =>
        RawVariablesOccur(s[j + 2..]);
        assert s == s[..j + 2] + s[j + 2..];
        assert s[..j + 2] == Placeholder(s[2..j]);
        forall k | 0 <= k < |r| ensures Contains(s, Placeholder(r[k])) {
          if k == 0 {
            assert Placeholder(r[0]) <= s;
          } else {
            assert r[k] == RawVariables(s[j + 2..])[k - 1];
            ContainsInConcat(s[..j + 2], s[j + 2..], Placeholder(r[k]));
          }
        }
      case None =>
        assert r == RawVariables(s[1..]);
        RawVariablesOccur(s[1..]);
        assert s == s[..1] + s[1..];
        forall k | 0 <= k < |r| ensures Contains(s, Placeholder(r[k])) {
          ContainsInConcat(s[..1], s[1..], Placeholder(r[k]));
        }
    }
  }

  /** Content without `{{` has no placeholders. */
  lemma {:induction false} NoOpeningNoVariables(s: string)
    requires !Contains(s, "{{")
    ensures RawVariables(s) == []
    decreases |s|
  {
    if |s| > 0 {
      assert !("{{" <= s);
      NoOpeningNoVariables(s[1..]);
    }
  }

  /** Text before any opening brace contributes nothing and does not disturb what follows. */
  lemma {:induction false} RawVariablesSkipPlain(x: string, y: string)
    requires '{' !in x
    ensures RawVariables(x + y) == RawVariables(y)
    decreases |x|
  {
    if |x| > 0 {
      assert (x + y)[0] == x[0];
      assert (x + y)[1..] == x[1..] + y;
      RawVariablesSkipPlain(x[1..], y);
    } else {
      assert x + y == y;
    }
  }

  /**
   * The effect that keeps `detectedVariables` in step with the content:
   * the trimmed groups, each once, in the order of first occurrence.
   */
  function DetectVariables(content: string): (r: seq<string>)
    ensures Seqs.NoDuplicates(r)
    ensures forall k :: 0 <= k < |RawVariables(content)| ==> Trim(RawVariables(content)[k]) in r
    ensures forall v :: v in r ==> exists k :: 0 <= k < |RawVariables(content)| && Trim(RawVariables(content)[k]) == v
    ensures !Contains(content, "{{") ==> r == []
  {
    var raw := RawVariables(content);
    var trimmed := TrimGroups(raw);
    assert !Contains(content, "{{") ==> raw == [] by {
      if !Contains(content, "{{") {
        NoOpeningNoVariables(content);
      }
    }
    Seqs.Dedup(trimmed)
  }

  /** Some capture trimming to `a` comes before every capture trimming to `b`. */
  predicate FirstBefore(raw: seq<string>, a: string, b: string) {
    exists p ::
      && 0 <= p < |raw| && Trim(raw[p]) == a
      && forall q :: 0 <= q <= p ==> Trim(raw[q]) != b
  }

  /**
   * Detected names keep the order in which they first appear: of any two
   * names, the earlier one is captured before the later one first is.
   */
  lemma DetectVariablesOrder(content: string, i: nat, j: nat)
    requires i < j < |DetectVariables(content)|
    ensures FirstBefore(RawVariables(content), DetectVariables(content)[i], DetectVariables(content)[j])
  {
    var raw := RawVariables(content);
    var trimmed := TrimGroups(raw);
    assert DetectVariables(content) == Seqs.Dedup(trimmed);
    TrimmedOrder(raw, trimmed, i, j);
  }

  /** The order argument on the trimmed captures, apart from how they are found. */
  lemma TrimmedOrder(raw: seq<string>, trimmed: seq<string>, i: nat, j: nat)
    requires |trimmed| == |raw| && forall k :: 0 <= k < |raw| ==> trimmed[k] == Trim(raw[k])
    requires i < j < |Seqs.Dedup(trimmed)|
    ensures FirstBefore(raw, Seqs.Dedup(trimmed)[i], Seqs.Dedup(trimmed)[j])
  {
    var r := Seqs.Dedup(trimmed);
    Seqs.DedupOrder(trimmed, i, j);
    var p := Seqs.IndexOf(trimmed, r[i]);
    var pj := Seqs.IndexOf(trimmed, r[j]);
    assert forall q :: 0 <= q < pj ==> trimmed[q] != r[j];
    assert Trim(raw[p]) == r[i];
  }

  /** `matches.map(match => match[1].trim())`. */
  function TrimGroups(raw: seq<string>): (r: seq<string>)
    ensures |r| == |raw| && forall k :: 0 <= k < |raw| ==> r[k] == Trim(raw[k])
  {
    seq(|raw|, k requires 0 <= k < |raw| => Trim(raw[k]))
  }

  // ---------------------------------------------------------------------------
  // Quick insert

  /** `s.substring(k)` for `k >= 0`: indices past the end are clamped. */
  function From(s: string, k: nat): string {
    if k <= |s| then s[k..] else ""
  }

  /** `s.substring(0, k)` for `k >= 0`. */
  function UpTo(s: string, k: nat): string {
    if k <= |s| then s[..k] else s
  }

  /** The new content and the caret position after `insertVariable`. */
  datatype Insertion = Insertion(content: string, cursor: nat)

  /**
   * `insertVariable(v)` with the selection `[start, end)`: the selection is
   * replaced by `{{v}}` and the caret lands just after it.
   */
  function InsertVariable(content: string, start: nat, end: nat, v: string): (r: Insertion)
    ensures r.cursor == start + |v| + 4
    ensures start <= end <= |content| ==>
      && |r.content| == |content| - (end - start) + |v| + 4
      && r.content[..start] == content[..start]
      && r.content[start..r.cursor] == Placeholder(v)
      && r.content[r.cursor..] == content[end..]
  {
    Insertion(UpTo(content, start) + Placeholder(v) + From(content, end), start + |v| + 4)
  }

  /** The names offered as quick-insert buttons. */
  const CommonVariables: seq<string> := [
    "name", "first_name", "last_name", "phone", "email",
    "company", "amount", "date", "time", "order_number",
    "tracking_link", "discount", "promo_code", "expiry_date"]

  predicate BraceFree(s: string) {
    '{' !in s && '}' !in s
  }

  /** A lone placeholder for a brace-free name, followed by brace-free text, is captured once. */
  lemma {:induction false} LonePlaceholder(v: string, b: string)
    requires BraceFree(v) && |v| > 0 && '{' !in b
    ensures RawVariables(Placeholder(v) + b) == [v]
  {
    var tail := Placeholder(v) + b;
    assert forall i :: 2 <= i < 2 + |v| ==> tail[i] == v[i - 2];
    assert tail[2 + |v|] == '}' && tail[2 + |v| + 1] == '}';
    assert CloseFrom(tail, 2) == 2 + |v|;
    assert MatchAtStart(tail) == Some(2 + |v|);
    assert tail[2..2 + |v|] == v;
    assert tail[2 + |v| + 2..] == b;
    RawVariablesSkipPlain(b, "");
    assert b + "" == b;
  }

  /** Inserting a brace-free name into brace-free content yields exactly that name as the detected variable. */
  lemma InsertedVariableIsDetected(content: string, start: nat, end: nat, v: string)
    requires start <= end <= |content|
    requires BraceFree(content) && BraceFree(v) && |v| > 0
    ensures DetectVariables(InsertVariable(content, start, end, v).content) == [Trim(v)]
  {
    InsertedCapture(content, start, end, v);
    SingleCapture(InsertVariable(content, start, end, v).content, v);
  }

  /** The inserted placeholder is the only capture. */
  lemma InsertedCapture(content: string, start: nat, end: nat, v: string)
    requires start <= end <= |content|
    requires BraceFree(content) && BraceFree(v) && |v| > 0
    ensures RawVariables(InsertVariable(content, start, end, v).content) == [v]
  {
    var a, b := content[..start], content[end..];
    var tail := Placeholder(v) + b;
    assert InsertVariable(content, start, end, v).content == a + tail;
    assert '{' !in a by { assert forall c :: c in a ==> c in content; }
    assert '{' !in b by { assert forall c :: c in b ==> c in content; }
    RawVariablesSkipPlain(a, tail);
    LonePlaceholder(v, b);
  }

  /** Content with a single capture detects just that name, trimmed. */
  lemma SingleCapture(content: string, x: string)
    requires RawVariables(content) == [x]
    ensures DetectVariables(content) == [Trim(x)]
  {
    assert TrimGroups([x]) == [Trim(x)];
    assert [Trim(x)][..0] == [];
  }

  /**
   * Each quick-insert button, pressed over any selection of brace-free
   * content, makes its own name the one detected variable.
   */
  lemma QuickInsertDetected(content: string, start: nat, end: nat, k: nat)
    requires start <= end <= |content| && BraceFree(content)
    requires k < |CommonVariables|
    ensures DetectVariables(InsertVariable(content, start, end, CommonVariables[k]).content) == [CommonVariables[k]]
  {
    var v := CommonVariables[k];
    assert |v| > 0 && BraceFree(v) && IsTrimmed(v);
    InsertedVariableIsDetected(content, start, end, v);
  }

  // ---------------------------------------------------------------------------
  // Form and submission

  /** The fields of a template handed to the dialog for editing; any of them may be missing. */
  datatype TemplateFields = TemplateFields(
    id: Option<string>,
    name: Option<string>,
    category: Option<string>,
    kind: Option<Channel>,
    content: Option<string>,
    description: Option<string>,
    isActive: Option<bool>,
    usageCount: Option<nat>,
    createdAt: Option<Time>)

  function FieldsOf(t: Template): TemplateFields {
    TemplateFields(Some(t.id), Some(t.name), Some(t.category), Some(t.kind), Some(t.content),
                   Some(t.description), Some(t.isActive), Some(t.usageCount), Some(t.createdAt))
  }

  datatype TemplateForm = TemplateForm(
    name: string, category: string, kind: Channel, content: string, description: string, isActive: bool)

  const DefaultCategory := "marketing"

  /** `s || fallback` on an optional string. */
  function OrElse(s: Option<string>, fallback: string): (r: string)
    ensures r == (if s.Some? && s.value != "" then s.value else fallback)
  {
    if s.Some? && s.value != "" then s.value else fallback
  }

  /**
   * The form state after opening the dialog: the blank form for a new
   * template, otherwise the template's fields with blanks defaulted. Only a
   * missing `isActive` defaults to true; an explicit `false` is kept.
   */
  function LoadForm(template: Option<TemplateFields>): (f: TemplateForm)
    ensures template.None? ==> f == TemplateForm("", DefaultCategory, Sms, "", "", true)
    ensures template.Some? ==>
      && f.name == OrElse(template.value.name, "")
      && f.category == OrElse(template.value.category, DefaultCategory)
      && f.kind == template.value.kind.GetOr(Sms)
      && f.content == OrElse(template.value.content, "")
      && f.description == OrElse(template.value.description, "")
      && (f.isActive <==> template.value.isActive != Some(false))
  {
    match template
    case None => TemplateForm("", DefaultCategory, Sms, "", "", true)
    case Some(t) =>
      TemplateForm(OrElse(t.name, ""), OrElse(t.category, DefaultCategory), t.kind.GetOr(Sms),
                   OrElse(t.content, ""), OrElse(t.description, ""), t.isActive.GetOr(true))
  }

  /**
   * `handleSubmit`: the form's fields and the detected variables; the
   * identity, usage count and creation time of the edited template, or a
   * fresh id, 0 and `now` for a new one.
   */
  function HandleSubmit(template: Option<TemplateFields>, form: TemplateForm, freshId: string, now: Time): (t: Template)
    ensures t.name == form.name && t.category == form.category && t.kind == form.kind
    ensures t.content == form.content && t.description == form.description && t.isActive == form.isActive
    ensures t.variables == DetectVariables(form.content)
    ensures t.updatedAt == now
    ensures t.id == (if template.Some? && template.value.id.Some? && template.value.id.value != ""
                     then template.value.id.value else freshId)
    ensures t.usageCount == (if template.Some? then template.value.usageCount.GetOr(0) else 0)
    ensures t.createdAt == (if template.Some? && template.value.createdAt.Some? then template.value.createdAt.value else now)
  {
    var id := if template.Some? then OrElse(template.value.id, freshId) else freshId;
    var usage := if template.Some? then template.value.usageCount.GetOr(0) else 0;
    var created := if template.Some? then template.value.createdAt.GetOr(now) else now;
    Template(id, form.name, form.category, form.kind, form.content, DetectVariables(form.content),
             form.description, form.isActive, usage, created, now)
  }

  /**
   * Opening a stored template and saving it unchanged gives the template
   * back, with `updatedAt` refreshed and `variables` recomputed from the content.
   */
  lemma EditWithoutChangesKeepsTemplate(t: Template, freshId: string, now: Time)
    requires t.id != "" && t.category != ""
    ensures HandleSubmit(Some(FieldsOf(t)), LoadForm(Some(FieldsOf(t))), freshId, now)
         == t.(variables := DetectVariables(t.content), updatedAt := now)
  {
  }

  /** The character limit shown under the content. */
  function CharacterLimit(kind: Channel): (n: nat)
    ensures kind == Sms <==> n == 160
    ensures kind == Rcs <==> n == 1000
  {
    match kind
    case Sms => 160
    case Rcs => 1000
  }
}
