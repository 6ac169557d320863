/**
 * The bytes between the two halves: the JSON body FastAPI writes for a
 * validated `ResumeSchema`, and the value the browser holds after axios has
 * parsed it. Together with `ResultsDisplay` this says which analyses the
 * panel can show.
 */
module WireFormat {
  import opened Wrappers
  import P = PyJson
  import S = ResumeSchema
  import opened Js
  import RD = ResultsDisplay

  /** A JSON document as the browser sees it after `JSON.parse`. */
  function ToJs(j: P.Json): (v: Value)
    ensures Nullish(v) <==> j.Null?
    ensures j.Str? ==> v == Str(j.s)
    ensures j.Num? ==> v == Num(j.n)
    ensures j.Arr? ==> v.Arr? && |v.items| == |j.items|
    ensures j.Obj? ==> v.Obj? && v.fields.Keys == j.fields.Keys
    decreases j
  {
    match j
    case Null => Null
    case Bool(b) => Bool(b)
    case Num(n) => Num(n)
    case Str(s) => Str(s)
    case Arr(items) => Arr(seq(|items|, i requires 0 <= i < |items| => ToJs(items[i])))
    case Obj(fields) => Obj(map k | k in fields :: ToJs(fields[k]))
  }

  function OptStrJson(o: Option<string>): P.Json {
    match o
    case None => P.Null
    case Some(s) => P.Str(s)
  }

  function OptListJson(o: Option<seq<P.Json>>): P.Json {
    match o
    case None => P.Null
    case Some(xs) => P.Arr(xs)
  }

  function LinksJson(ls: seq<S.LinkSchema>): (r: seq<P.Json>)
    ensures |r| == |ls| && forall i | 0 <= i < |ls| :: r[i] == S.LinkJson(ls[i])
  {
    seq(|ls|, i requires 0 <= i < |ls| => S.LinkJson(ls[i]))
  }

  /** The field names of `ResumeSchema`, which FastAPI writes as the keys of the response body. */
  const SchemaKeys: set<string> := {
    "id", "file_name", "uploaded_at", "name", "email", "phone", "summary", "links", "skills",
    "work_experience", "education", "projects", "resume_rating", "improvement_areas", "upskill_suggestions"}

  /** The value FastAPI writes under one key of the response body: an absent field becomes null. */
  function FieldJson(s: S.ResumeSchema, key: string): P.Json
    requires key in SchemaKeys
  {
    if key == "id" then P.Num(s.id)
    else if key == "file_name" then P.Str(s.fileName)
    else if key == "uploaded_at" then P.Num(s.uploadedAt)
    else if key == "name" then OptStrJson(s.name)
    else if key == "email" then OptStrJson(s.email)
    else if key == "phone" then OptStrJson(s.phone)
    else if key == "summary" then OptStrJson(s.summary)
    else if key == "links" then (match s.links case None => P.Null case Some(ls) => P.Arr(LinksJson(ls)))
    else if key == "skills" then (match s.skills case None => P.Null case Some(sk) => S.SkillsJson(sk))
    else if key == "work_experience" then OptListJson(s.workExperience)
    else if key == "education" then OptListJson(s.education)
    else if key == "projects" then OptListJson(s.projects)
    else if key == "resume_rating" then (match s.resumeRating case None => P.Null case Some(n) => P.Num(n))
    else if key == "improvement_areas" then (match s.improvementAreas case None => P.Null case Some(xs) => P.Arr(S.StrsJson(xs)))
    else OptListJson(s.upskillSuggestions)
  }

  /** The response body of a validated record: one key per schema field. */
  function SchemaJson(s: S.ResumeSchema): (j: P.Json)
    ensures j.Obj? && j.fields.Keys == SchemaKeys
  {
    P.Obj(map key | key in SchemaKeys :: FieldJson(s, key))
  }

  /** The text the panel shows for an optional string field. */
  function ShownText(o: Option<string>, fallback: string): Value {
    match o
    case Some(t) => if t != "" then Str(t) else Str(fallback)
    case None => Str(fallback)
  }

  /** No upskill suggestion of the record is `null`. */
  predicate SuggestionsPresent(s: S.ResumeSchema) {
    s.upskillSuggestions.Some? ==> forall i | 0 <= i < |s.upskillSuggestions.value| :: !s.upskillSuggestions.value[i].Null?
  }

  /**
   * A record the backend accepted renders in the analysis panel exactly when
   * none of its upskill suggestions is `null`, with name, email, phone and
   * summary shown as stored or with their fallbacks.
   */
  lemma ValidatedRecordRenders(s: S.ResumeSchema)
    ensures RD.Render(ToJs(SchemaJson(s))).Shown? <==> SuggestionsPresent(s)
    ensures RD.Render(ToJs(SchemaJson(s))).Shown? ==>
              var d := RD.Render(ToJs(SchemaJson(s))).display;
              && d.name == ShownText(s.name, "N/A")
              && d.email == ShownText(s.email, "N/A")
              && d.phone == ShownText(s.phone, "N/A")
              && d.summary == ShownText(s.summary, "No summary found.")
              && |d.links| == (if s.links.Some? then |s.links.value| else 0)
  {
    var data := ToJs(SchemaJson(s));
    assert Truthy(data);
    var f := RD.ReadFields(data);
    assert RD.Render(data) == RD.Layout(f);
    LinksArePresent(s);
    SkillsAreLists(s, "technical");
    SkillsAreLists(s, "soft");
    ListFieldIsArray(s);
    SuggestionsField(s);
    TextsShown(s);
  }

  /** The text fields, read with their `||` fallbacks. */
  lemma TextsShown(s: S.ResumeSchema)
    ensures var f := RD.ReadFields(ToJs(SchemaJson(s)));
            && f.name == ShownText(s.name, "N/A")
            && f.email == ShownText(s.email, "N/A")
            && f.phone == ShownText(s.phone, "N/A")
            && f.summary == ShownText(s.summary, "No summary found.")
  {
    var fields := SchemaJson(s).fields;
    assert fields["name"] == OptStrJson(s.name) && fields["email"] == OptStrJson(s.email);
    assert fields["phone"] == OptStrJson(s.phone) && fields["summary"] == OptStrJson(s.summary);
    TextShown(s, "name", s.name, "N/A");
    TextShown(s, "email", s.email, "N/A");
    TextShown(s, "phone", s.phone, "N/A");
    TextShown(s, "summary", s.summary, "No summary found.");
  }

  lemma TextShown(s: S.ResumeSchema, key: string, o: Option<string>, fallback: string)
    requires key in SchemaJson(s).fields && SchemaJson(s).fields[key] == OptStrJson(o)
    ensures Or(Prop(ToJs(SchemaJson(s)), key), Str(fallback)) == ShownText(o, fallback)
  {
  }

  /** Each key of the response body reads, in the browser, as its field's value. */
  lemma FieldReadsAs(s: S.ResumeSchema, key: string)
    requires key in SchemaKeys
    ensures Prop(ToJs(SchemaJson(s)), key) == ToJs(FieldJson(s, key))
  {
    var fields := SchemaJson(s).fields;
    assert fields[key] == FieldJson(s, key);
  }

  /** The list fields as the browser reads them from the response body. */
  lemma LinksFieldRead(s: S.ResumeSchema)
    ensures Prop(ToJs(SchemaJson(s)), "links") == ToJs(match s.links case None => P.Null case Some(ls) => P.Arr(LinksJson(ls)))
  {
    FieldReadsAs(s, "links");
  }

  lemma SkillsFieldRead(s: S.ResumeSchema)
    ensures Prop(ToJs(SchemaJson(s)), "skills") == ToJs(match s.skills case None => P.Null case Some(sk) => S.SkillsJson(sk))
  {
    FieldReadsAs(s, "skills");
  }

  lemma AreasFieldRead(s: S.ResumeSchema)
    ensures Prop(ToJs(SchemaJson(s)), "improvement_areas") ==
              ToJs(match s.improvementAreas case None => P.Null case Some(xs) => P.Arr(S.StrsJson(xs)))
  {
    FieldReadsAs(s, "improvement_areas");
  }

  lemma SuggestionsFieldRead(s: S.ResumeSchema)
    ensures Prop(ToJs(SchemaJson(s)), "upskill_suggestions") == ToJs(OptListJson(s.upskillSuggestions))
  {
    FieldReadsAs(s, "upskill_suggestions");
  }

  /** Validated links reach the panel as an array with one non-nullish entry per link. */
  lemma LinksArePresent(s: S.ResumeSchema)
    ensures var links := RD.ReadFields(ToJs(SchemaJson(s))).links;
            && links.Arr?
            && |links.items| == (if s.links.Some? then |s.links.value| else 0)
            && forall i | 0 <= i < |links.items| :: !Nullish(links.items[i])
  {
    LinksFieldRead(s);
    LinksRead(ToJs(SchemaJson(s)), s.links);
  }

  lemma LinksRead(data: Value, o: Option<seq<S.LinkSchema>>)
    requires Prop(data, "links") == ToJs(match o case None => P.Null case Some(ls) => P.Arr(LinksJson(ls)))
    ensures var links := RD.ReadFields(data).links;
            && links.Arr?
            && |links.items| == (if o.Some? then |o.value| else 0)
            && forall i | 0 <= i < |links.items| :: !Nullish(links.items[i])
  {
    match o {
      case None =>
      case Some(ls) =>
        var v := Prop(data, "links");
        assert forall i | 0 <= i < |ls| :: v.items[i] == ToJs(S.LinkJson(ls[i]));
    }
  }

  lemma SkillsAreLists(s: S.ResumeSchema, key: string)
    requires key == "technical" || key == "soft"
    ensures RD.SkillList(ToJs(SchemaJson(s)), key).Arr?
  {
    SkillsFieldRead(s);
    SkillsRead(ToJs(SchemaJson(s)), s.skills, key);
  }

  lemma SkillsRead(data: Value, o: Option<S.SkillsSchema>, key: string)
    requires key == "technical" || key == "soft"
    requires Prop(data, "skills") == ToJs(match o case None => P.Null case Some(sk) => S.SkillsJson(sk))
    ensures RD.SkillList(data, key).Arr?
  {
    match o {
      case None =>
      case Some(sk) =>
        var j := S.SkillsJson(sk);
        assert key in j.fields && j.fields[key].Arr?;
        assert OptMember(Prop(data, "skills"), key) == ToJs(j.fields[key]);
    }
  }

  lemma ListFieldIsArray(s: S.ResumeSchema)
    ensures RD.ReadFields(ToJs(SchemaJson(s))).improvementAreas.Arr?
  {
    AreasFieldRead(s);
  }

  lemma SuggestionsField(s: S.ResumeSchema)
    ensures var u := RD.ReadFields(ToJs(SchemaJson(s))).upskillSuggestions;
            && u.Arr?
            && ((forall i | 0 <= i < |u.items| :: !Nullish(u.items[i])) <==> SuggestionsPresent(s))
  {
    SuggestionsFieldRead(s);
    SuggestionsRead(ToJs(SchemaJson(s)), s.upskillSuggestions);
  }

  lemma SuggestionsRead(data: Value, o: Option<seq<P.Json>>)
    requires Prop(data, "upskill_suggestions") == ToJs(OptListJson(o))
    ensures var u := RD.ReadFields(data).upskillSuggestions;
            && u.Arr?
            && ((forall i | 0 <= i < |u.items| :: !Nullish(u.items[i])) <==>
                (o.Some? ==> forall i | 0 <= i < |o.value| :: !o.value[i].Null?))
  {
    match o {
      case None =>
      case Some(xs) =>
        var u := Prop(data, "upskill_suggestions");
        assert forall i | 0 <= i < |xs| :: u.items[i] == ToJs(xs[i]);
    }
  }
}
