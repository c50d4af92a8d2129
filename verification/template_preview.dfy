/**
 * The template preview of `template-preview.tsx`: the variable values it
 * starts from, their edits, the substituted preview text and the SMS
 * segment notice. Variable values are an ordered list of entries, the
 * iteration order of a JavaScript object with string keys.
 */
module TemplatePreview {
  import opened Wrappers
  import opened Domain
  import opened Strings
  import opened TemplateDialog

  type Entries = seq<(string, string)>

  function Keys(es: Entries): (ks: seq<string>)
    ensures |ks| == |es|
    decreases |es|
  {
    if |es| == 0 then [] else [es[0].0] + Keys(es[1..])
  }

  lemma {:induction false} KeysAppend(es: Entries, e: (string, string))
    ensures Keys(es + [e]) == Keys(es) + [e.0]
    decreases |es|
  {
    if |es| > 0 {
      assert (es + [e])[1..] == es[1..] + [e];
      KeysAppend(es[1..], e);
    }
  }

  /** The value of the first entry for `key`, if the entries have one. */
  function Lookup(es: Entries, key: string): (r: Option<string>)
    ensures r.Some? <==> key in Keys(es)
    decreases |es|
  {
    if |es| == 0 then None
    else if es[0].0 == key then Some(es[0].1)
    else Lookup(es[1..], key)
  }

  /** The value found is the one of the first entry for the key: a later duplicate is never seen. */
  lemma {:induction false} LookupFirstEntry(es: Entries, key: string, i: nat)
    requires i < |es| && es[i].0 == key
    requires forall j :: 0 <= j < i ==> es[j].0 != key
    ensures Lookup(es, key) == Some(es[i].1)
    decreases i
  {
    if i > 0 {
      LookupFirstEntry(es[1..], key, i - 1);
    }
  }

  /**
   * `{ ...prev, [key]: value }`: an existing key keeps its position and gets
   * the new value; a new key is appended.
   */
  function SetEntry(es: Entries, key: string, value: string): (r: Entries)
    ensures Lookup(r, key) == Some(value)
    ensures forall other :: other != key ==> Lookup(r, other) == Lookup(es, other)
    ensures key in Keys(es) ==> Keys(r) == Keys(es)
    ensures key !in Keys(es) ==> r == es + [(key, value)]
    decreases |es|
  {
    if |es| == 0 then [(key, value)]
    else if es[0].0 == key then [(key, value)] + es[1..]
    else
      var rest := SetEntry(es[1..], key, value);
      assert ([es[0]] + rest)[1..] == rest;
      assert key !in Keys(es) ==> [es[0]] + (es[1..] + [(key, value)]) == es + [(key, value)];
      [es[0]] + rest
  }

  /** `handleVariableChange(key, value)`: sets one variable and leaves every other one as it was. */
  function HandleVariableChange(values: Entries, key: string, value: string): (r: Entries)
    ensures Lookup(r, key) == Some(value)
    ensures forall other :: other != key ==> Lookup(r, other) == Lookup(values, other)
  {
    SetEntry(values, key, value)
  }

  /** The sample values offered for the common variable names. */
  const SampleData: map<string, string> := map[
    "name" := "John Doe",
    "first_name" := "John",
    "last_name" := "Doe",
    "phone" := "+1234567890",
    "email" := "john.doe@example.com",
    "company" := "Acme Corp",
    "amount" := "$99.99",
    "date" := "March 15, 2024",
    "time" := "2:00 PM",
    "order_number" := "ORD-12345",
    "tracking_link" := "https://tracking.example.com/12345",
    "discount" := "20",
    "promo_code" := "SAVE20",
    "expiry_date" := "March 31, 2024"]

  /** The initial value of one variable: its sample value, or the name in single braces. */
  function InitialValue(name: string): string {
    if name in SampleData && SampleData[name] != "" then SampleData[name] else "{" + name + "}"
  }

  /**
   * The values the preview starts from: exactly the template's variables as
   * keys, in order of first appearance; a template without a variable list
   * starts from no values.
   */
  function InitialValues(variables: Option<seq<string>>): (r: Entries)
    ensures variables.None? ==> r == []
    ensures variables.Some? ==> forall name :: name in variables.value <==> name in Keys(r)
    ensures variables.Some? ==> forall name :: name in variables.value ==> Lookup(r, name) == Some(InitialValue(name))
    decreases if variables.Some? then |variables.value| else 0
  {
    match variables
    case None => []
    case Some(vs) =>
      if |vs| == 0 then []
      else
        var init := vs[..|vs| - 1];
        var last := vs[|vs| - 1];
        assert vs == init + [last];
        var before := InitialValues(Some(init));
        var r := SetEntry(before, last, InitialValue(last));
        assert forall name :: name in Keys(r) <==> name in Keys(before) || name == last by {
          if last in Keys(before) {
          } else {
            KeysAppend(before, (last, InitialValue(last)));
          }
        }
        r
  }

  /** The sample value, when there is one, wins over the single-brace fallback. */
  lemma SampleValuesUsed(variables: seq<string>, name: string)
    requires name in variables && name in SampleData
    ensures Lookup(InitialValues(Some(variables)), name) == Some(SampleData[name])
  {
    SamplesNonEmpty();
  }

  lemma SamplesNonEmpty()
    ensures forall k :: k in SampleData ==> SampleData[k] != ""
  {
  }

  /**
   * The substitution effect: for each entry in order, every `{{key}}` of the
   * current text is replaced by the entry's value.
   */
  function Substitute(text: string, values: Entries): (r: string)
    ensures text == "" ==> r == ""
    ensures (forall i :: 0 <= i < |values| ==> !Contains(text, Placeholder(values[i].0))) ==> r == text
    decreases |values|
  {
    if |values| == 0 then text
    else
      var p := Placeholder(values[0].0);
      var next := ReplaceAll(text, p, values[0].1);
      assert !Contains(text, p) ==> next == text by {
        if !Contains(text, p) {
          ReplaceAllAbsent(text, p, values[0].1);
        }
      }
      Substitute(next, values[1..])
  }

  /** The preview text; a template without content previews as the empty string. */
  function PreviewContent(content: Option<string>, values: Entries): (r: string)
    ensures content.None? || content == Some("") ==> r == ""
    ensures values == [] ==> r == content.GetOr("")
  {
    Substitute(content.GetOr(""), values)
  }

  /**
   * One variable: every occurrence of its placeholder is replaced, and the
   * text between occurrences is kept.
   */
  lemma SubstituteOne(text: string, key: string, value: string)
    ensures Substitute(text, [(key, value)]) == Join(SplitOn(text, "{{" + key + "}}"), value)
    ensures text == Join(SplitOn(text, "{{" + key + "}}"), "{{" + key + "}}")
  {
    ReplaceAllIsSplitJoin(text, "{{" + key + "}}", value);
    SplitOnJoin(text, "{{" + key + "}}");
  }

  // Substitution as one pass over the placeholders

  /** A stretch of template text: a run of literal text, or a `{{name}}` placeholder. */
  datatype Piece = Lit(text: string) | Hole(name: string)

  function PieceText(p: Piece): string {
    match p
    case Lit(t) => t
    case Hole(n) => Placeholder(n)
  }

  /** The text the pieces spell, in order. */
  function Flatten(ps: seq<Piece>): string
    decreases |ps|
  {
    if |ps| == 0 then "" else PieceText(ps[0]) + Flatten(ps[1..])
  }

  /** Literal runs and placeholder names without braces: the only braces are the placeholders' own. */
  predicate WellFormed(ps: seq<Piece>) {
    forall i :: 0 <= i < |ps| ==> (if ps[i].Lit? then BraceFree(ps[i].text) else BraceFree(ps[i].name))
  }

  /**
   * The preview read in one pass: every placeholder whose name has a value
   * shows that value, every other placeholder and all literal text stay as
   * they are.
   */
  function Render(ps: seq<Piece>, values: Entries): string
    decreases |ps|
  {
    if |ps| == 0 then ""
    else
      var head := match ps[0]
        case Lit(t) => t
        case Hole(n) => Lookup(values, n).GetOr(Placeholder(n));
      head + Render(ps[1..], values)
  }

  /** The pieces with every `{{key}}` turned into the literal `value`. */
  function FillOne(ps: seq<Piece>, key: string, value: string): (r: seq<Piece>)
    ensures |r| == |ps|
    ensures forall i :: 0 <= i < |ps| ==> r[i] == (if ps[i] == Hole(key) then Lit(value) else ps[i])
  {
    seq(|ps|, i requires 0 <= i < |ps| => if ps[i] == Hole(key) then Lit(value) else ps[i])
  }

  lemma ReplaceSamePlaceholder(key: string, rest: string, value: string)
    ensures ReplaceAll(Placeholder(key) + rest, Placeholder(key), value) == value + ReplaceAll(rest, Placeholder(key), value)
  {
    assert (Placeholder(key) + rest)[|Placeholder(key)|..] == rest;
  }

  /** A placeholder for another brace-free name is copied whole. */
  lemma ReplaceOtherPlaceholder(name: string, key: string, rest: string, value: string)
    requires BraceFree(name) && BraceFree(key) && name != key
    ensures ReplaceAll(Placeholder(name) + rest, Placeholder(key), value)
         == Placeholder(name) + ReplaceAll(rest, Placeholder(key), value)
  {
    var p := Placeholder(key);
    var tail := name + "}}";
    var t := Placeholder(name) + rest;
    var t1 := t[1..];
    NotPlaceholderPrefix(name, key, rest);
    ReplaceAllStep(t, p, value);
    assert t1 == "{" + tail + rest;
    assert p[1] != t1[1] by {
      assert t1[1] == tail[0];
      assert tail[0] in tail;
    }
    ReplaceAllStep(t1, p, value);
    assert t1[1..] == tail + rest;
    assert '{' !in tail;
    ReplaceAllSkipPlain(tail, rest, p, value);
    assert Placeholder(name) == [t[0]] + [t1[0]] + tail;
  }

  /** Two different brace-free names give placeholders that differ within the shorter one's length. */
  lemma NotPlaceholderPrefix(name: string, key: string, rest: string)
    requires BraceFree(name) && BraceFree(key) && name != key
    ensures !(Placeholder(key) <= Placeholder(name) + rest)
  {
    var p, t := Placeholder(key), Placeholder(name) + rest;
    if |key| < |name| {
      assert name[|key|] in name;
      assert p[2 + |key|] != t[2 + |key|];
    } else if |key| > |name| {
      assert key[|name|] in key;
      assert p[2 + |name|] != t[2 + |name|];
    } else {
      var i :| 0 <= i < |key| && key[i] != name[i];
      assert p[2 + i] != t[2 + i];
    }
  }

  /** One pass of the global replace over well-formed pieces fills exactly the placeholders of its key. */
  lemma {:induction false} ReplaceFlatten(ps: seq<Piece>, key: string, value: string)
    requires WellFormed(ps) && BraceFree(key)
    ensures ReplaceAll(Flatten(ps), Placeholder(key), value) == Flatten(FillOne(ps, key, value))
    decreases |ps|
  {
    if |ps| > 0 {
      var p := Placeholder(key);
      var rest := Flatten(ps[1..]);
      assert WellFormed(ps[1..]) by {
        assert forall i :: 0 <= i < |ps| - 1 ==> ps[1..][i] == ps[i + 1];
      }
      ReplaceFlatten(ps[1..], key, value);
      assert FillOne(ps, key, value)[1..] == FillOne(ps[1..], key, value);
      match ps[0]
      case Lit(t) =>
        ReplaceAllSkipPlain(t, rest, p, value);
      case Hole(n) =>
        if n == key {
          ReplaceSamePlaceholder(key, rest, value);
        } else {
          ReplaceOtherPlaceholder(n, key, rest, value);
        }
    }
  }

  /** Filling the first entry's placeholders and rendering with the rest is rendering with all entries. */
  lemma {:induction false} RenderFill(ps: seq<Piece>, values: Entries)
    requires |values| > 0
    ensures Render(FillOne(ps, values[0].0, values[0].1), values[1..]) == Render(ps, values)
    decreases |ps|
  {
    if |ps| > 0 {
      assert FillOne(ps, values[0].0, values[0].1)[1..] == FillOne(ps[1..], values[0].0, values[0].1);
      RenderFill(ps[1..], values);
    }
  }

  lemma {:induction false} RenderWithoutValues(ps: seq<Piece>)
    ensures Render(ps, []) == Flatten(ps)
    decreases |ps|
  {
    if |ps| > 0 {
      RenderWithoutValues(ps[1..]);
    }
  }

  /**
   * The sequential replacement of the preview effect agrees with the
   * one-pass reading: in a text whose only braces are its placeholders',
   * with brace-free names and values, every placeholder of a known variable
   * shows that variable's (first) value, every other placeholder stays, and
   * the literal text between them is kept.
   */
  lemma {:induction false} SubstituteIsRender(ps: seq<Piece>, values: Entries)
    requires WellFormed(ps)
    requires forall i :: 0 <= i < |values| ==> BraceFree(values[i].0) && BraceFree(values[i].1)
    ensures Substitute(Flatten(ps), values) == Render(ps, values)
    decreases |values|
  {
    if |values| == 0 {
      RenderWithoutValues(ps);
    } else {
      var key, value := values[0].0, values[0].1;
      var filled := FillOne(ps, key, value);
      ReplaceFlatten(ps, key, value);
      assert WellFormed(filled);
      SubstituteIsRender(filled, values[1..]);
      RenderFill(ps, values);
    }
  }

  /** The per-segment length of an SMS. */
  const SegmentLength := 160

  /**
   * The "will be sent as N messages" notice: shown only for an SMS preview
   * longer than one segment, with N the number of segments needed.
   */
  function SegmentNotice(kind: Channel, previewLength: nat): (r: Option<nat>)
    ensures r.Some? <==> kind == Sms && previewLength > SegmentLength
    ensures r.Some? ==> r.value >= 2
    ensures r.Some? ==> (r.value - 1) * SegmentLength < previewLength <= r.value * SegmentLength
  {
    if kind == Sms && previewLength > SegmentLength then
      Some((previewLength + SegmentLength - 1) / SegmentLength)
    else None
  }
}
