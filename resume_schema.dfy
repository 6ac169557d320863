/**
 * The response shapes of the resume endpoints and how a stored record is
 * validated into them. A field declared `Optional[...] = None` accepts null
 * as "absent"; a value of the wrong shape is rejected. Validation is strict:
 * a string field takes only a JSON string and an integer field only a number.
 */
module ResumeSchema {
  import opened Wrappers
  import opened PyJson
  import opened Models

  /** A link; `label` is a Dafny keyword, so the field is called `labelText`. */
  datatype LinkSchema = LinkSchema(labelText: string, url: string)

  datatype SkillsSchema = SkillsSchema(technical: seq<string>, soft: seq<string>, tools: seq<string>)

  /** One row of the history list. */
  datatype ResumeSummarySchema = ResumeSummarySchema(
    id: int,
    fileName: string,
    uploadedAt: int,
    name: Option<string>,
    email: Option<string>,
    phone: Option<string>)

  /** The full analysis of one resume. */
  datatype ResumeSchema = ResumeSchema(
    id: int,
    fileName: string,
    uploadedAt: int,
    name: Option<string>,
    email: Option<string>,
    phone: Option<string>,
    summary: Option<string>,
    links: Option<seq<LinkSchema>>,
    skills: Option<SkillsSchema>,
    workExperience: Option<seq<Json>>,
    education: Option<seq<Json>>,
    projects: Option<seq<Json>>,
    resumeRating: Option<int>,
    improvementAreas: Option<seq<string>>,
    upskillSuggestions: Option<seq<Json>>)

  /** The outcome of validating a value against a shape. */
  datatype Validated<T> = Accepted(value: T) | Rejected

  // ---------------------------------------------------------------------------
  // Validators, one per declared field type.

  function StrItems(xs: seq<Json>): (r: Validated<seq<string>>)
    ensures r.Accepted? <==> forall i | 0 <= i < |xs| :: xs[i].Str?
    ensures r.Accepted? ==> |r.value| == |xs| && forall i | 0 <= i < |xs| :: r.value[i] == xs[i].s
    decreases |xs|
  {
    if xs == [] then Accepted([])
    else match (xs[0], StrItems(xs[1..]))
      case (Str(s), Accepted(rest)) => Accepted([s] + rest)
      case _ => Rejected
  }

  /** `List[str]`: accepted exactly for an array of strings, which is then the JSON of the result. */
  function StrList(j: Json): (r: Validated<seq<string>>)
    ensures r.Accepted? <==> j.Arr? && forall i | 0 <= i < |j.items| :: j.items[i].Str?
    ensures r.Accepted? ==> j == Arr(StrsJson(r.value))
  {
    if j.Arr? then
      var r := StrItems(j.items);
      assert r.Accepted? ==> j.items == StrsJson(r.value);
      r
    else Rejected
  }

  /** `LinkSchema`: an object whose `label` and `url` are strings; other keys are ignored. */
  function LinkOf(j: Json): (r: Validated<LinkSchema>)
    ensures r.Accepted? <==> j.Obj? && "label" in j.fields && "url" in j.fields &&
                             j.fields["label"].Str? && j.fields["url"].Str?
    ensures r.Accepted? ==> j.fields["label"] == Str(r.value.labelText) && j.fields["url"] == Str(r.value.url)
  {
    if j.Obj? && "label" in j.fields && "url" in j.fields
       && j.fields["label"].Str? && j.fields["url"].Str?
    then Accepted(LinkSchema(j.fields["label"].s, j.fields["url"].s))
    else Rejected
  }

  function LinkItems(xs: seq<Json>): (r: Validated<seq<LinkSchema>>)
    ensures r.Accepted? <==> forall i | 0 <= i < |xs| :: LinkOf(xs[i]).Accepted?
    ensures r.Accepted? ==> |r.value| == |xs| && forall i | 0 <= i < |xs| :: Accepted(r.value[i]) == LinkOf(xs[i])
    decreases |xs|
  {
    if xs == [] then Accepted([])
    else match (LinkOf(xs[0]), LinkItems(xs[1..]))
      case (Accepted(l), Accepted(rest)) => Accepted([l] + rest)
      case _ => Rejected
  }

  /** `SkillsSchema`: an object with the three string lists; other keys are ignored. */
  function SkillsOf(j: Json): (r: Validated<SkillsSchema>)
    ensures r.Accepted? <==> j.Obj? && "technical" in j.fields && "soft" in j.fields && "tools" in j.fields &&
                             StrList(j.fields["technical"]).Accepted? && StrList(j.fields["soft"]).Accepted? &&
                             StrList(j.fields["tools"]).Accepted?
    ensures r.Accepted? ==>
              && j.fields["technical"] == Arr(StrsJson(r.value.technical))
              && j.fields["soft"] == Arr(StrsJson(r.value.soft))
              && j.fields["tools"] == Arr(StrsJson(r.value.tools))
  {
    if j.Obj? && "technical" in j.fields && "soft" in j.fields && "tools" in j.fields then
      match (StrList(j.fields["technical"]), StrList(j.fields["soft"]), StrList(j.fields["tools"]))
      case (Accepted(t), Accepted(s), Accepted(o)) => Accepted(SkillsSchema(t, s, o))
      case _ => Rejected
    else Rejected
  }

  /** `Optional[str] = None`: null is absent, and a string is kept as it is. */
  function OptStr(j: Json): (r: Validated<Option<string>>)
    ensures r.Accepted? <==> TextValue(j)
    ensures r == Accepted(None) <==> j.Null?
    ensures r.Accepted? && r.value.Some? ==> j == Str(r.value.value)
  {
    match j
    case Null => Accepted(None)
    case Str(s) => Accepted(Some(s))
    case _ => Rejected
  }

  /** `Optional[int] = None`: null is absent, and a number is kept as it is. */
  function OptInt(j: Json): (r: Validated<Option<int>>)
    ensures r.Accepted? <==> j.Null? || j.Num?
    ensures r == Accepted(None) <==> j.Null?
    ensures r.Accepted? && r.value.Some? ==> j == Num(r.value.value)
  {
    match j
    case Null => Accepted(None)
    case Num(n) => Accepted(Some(n))
    case _ => Rejected
  }

  /** `Optional[List[Any]] = None`: null is absent, and an array is kept with all its elements. */
  function OptList(j: Json): (r: Validated<Option<seq<Json>>>)
    ensures r.Accepted? <==> j.Null? || j.Arr?
    ensures r == Accepted(None) <==> j.Null?
    ensures r.Accepted? && r.value.Some? ==> j == Arr(r.value.value)
  {
    match j
    case Null => Accepted(None)
    case Arr(xs) => Accepted(Some(xs))
    case _ => Rejected
  }

  /** `Optional[List[str]] = None`: null is absent, and an array of strings is kept. */
  function OptStrList(j: Json): (r: Validated<Option<seq<string>>>)
    ensures r.Accepted? <==> j.Null? || StrList(j).Accepted?
    ensures r == Accepted(None) <==> j.Null?
    ensures r.Accepted? && r.value.Some? ==> j == Arr(StrsJson(r.value.value))
  {
    if j.Null? then Accepted(None)
    else match StrList(j)
      case Accepted(xs) => Accepted(Some(xs))
      case Rejected => Rejected
  }

  /** `Optional[List[LinkSchema]] = None`: null is absent, and an array of valid links is read link by link. */
  function OptLinks(j: Json): (r: Validated<Option<seq<LinkSchema>>>)
    ensures r.Accepted? <==> j.Null? || (j.Arr? && LinkItems(j.items).Accepted?)
    ensures r == Accepted(None) <==> j.Null?
    ensures r.Accepted? && r.value.Some? ==>
              |r.value.value| == |j.items| &&
              forall i | 0 <= i < |j.items| :: LinkOf(j.items[i]) == Accepted(r.value.value[i])
  {
    match j
    case Null => Accepted(None)
    case Arr(xs) => (match LinkItems(xs) case Accepted(ls) => Accepted(Some(ls)) case Rejected => Rejected)
    case _ => Rejected
  }

  /** `Optional[SkillsSchema] = None`: null is absent, and valid skills are read. */
  function OptSkills(j: Json): (r: Validated<Option<SkillsSchema>>)
    ensures r.Accepted? <==> j.Null? || SkillsOf(j).Accepted?
    ensures r == Accepted(None) <==> j.Null?
    ensures r.Accepted? && r.value.Some? ==> SkillsOf(j) == Accepted(r.value.value)
  {
    if j.Null? then Accepted(None)
    else match SkillsOf(j)
      case Accepted(s) => Accepted(Some(s))
      case Rejected => Rejected
  }

  /**
   * `Optional[EmailStr] = None`: null is absent; a string must be an address,
   * and the normalised address is what the schema holds.
   */
  function OptEmail(j: Json, check: EmailCheck): (r: Validated<Option<string>>)
    ensures r.Accepted? <==> j.Null? || (j.Str? && check(j.s).Some?)
    ensures r == Accepted(None) <==> j.Null?
    ensures r.Accepted? && r.value.Some? ==> check(j.s) == Some(r.value.value)
  {
    match j
    case Null => Accepted(None)
    case Str(s) => (match check(s) case Some(e) => Accepted(Some(e)) case None => Rejected)
    case _ => Rejected
  }

  // ---------------------------------------------------------------------------
  // Serialising a stored record (`from_attributes`).

  /** `ResumeSummarySchema` read from a record: only the six summary fields are looked at. */
  function ToSummary(r: Resume, check: EmailCheck): (t: Validated<ResumeSummarySchema>)
    ensures t.Accepted? <==>
              OptStr(r.analysis.name).Accepted? && OptEmail(r.analysis.email, check).Accepted? &&
              OptStr(r.analysis.phone).Accepted?
    ensures t.Accepted? ==>
              && t.value.id == r.id && t.value.fileName == r.fileName && t.value.uploadedAt == r.uploadedAt
              && (t.value.name.None? <==> r.analysis.name.Null?)
              && (t.value.email.None? <==> r.analysis.email.Null?)
              && (t.value.phone.None? <==> r.analysis.phone.Null?)
  {
    match (OptStr(r.analysis.name), OptEmail(r.analysis.email, check), OptStr(r.analysis.phone))
    case (Accepted(n), Accepted(e), Accepted(p)) =>
      Accepted(ResumeSummarySchema(r.id, r.fileName, r.uploadedAt, n, e, p))
    case _ => Rejected
  }

  /**
   * `ResumeSchema` read from a record: every field validated against its
   * declared type; a null column is an absent field.
   */
  function ToSchema(r: Resume, check: EmailCheck): (t: Validated<ResumeSchema>)
    ensures t.Accepted? <==>
              var a := r.analysis;
              && OptStr(a.name).Accepted? && OptEmail(a.email, check).Accepted?
              && OptStr(a.phone).Accepted? && OptStr(a.summary).Accepted?
              && OptLinks(a.links).Accepted? && OptSkills(a.skills).Accepted?
              && OptList(a.workExperience).Accepted? && OptList(a.education).Accepted?
              && OptList(a.projects).Accepted? && OptInt(a.resumeRating).Accepted?
              && OptStrList(a.improvementAreas).Accepted? && OptList(a.upskillSuggestions).Accepted?
    ensures t.Accepted? ==>
              var a := r.analysis;
              var s := t.value;
              && s.id == r.id && s.fileName == r.fileName && s.uploadedAt == r.uploadedAt
              && (s.name.None? <==> a.name.Null?) && (s.email.None? <==> a.email.Null?)
              && (s.phone.None? <==> a.phone.Null?) && (s.summary.None? <==> a.summary.Null?)
              && (s.links.None? <==> a.links.Null?) && (s.skills.None? <==> a.skills.Null?)
              && (s.workExperience.None? <==> a.workExperience.Null?) && (s.education.None? <==> a.education.Null?)
              && (s.projects.None? <==> a.projects.Null?) && (s.resumeRating.None? <==> a.resumeRating.Null?)
              && (s.improvementAreas.None? <==> a.improvementAreas.Null?)
              && (s.upskillSuggestions.None? <==> a.upskillSuggestions.Null?)
  {
    var a := r.analysis;
    match (OptStr(a.name), OptEmail(a.email, check), OptStr(a.phone), OptStr(a.summary))
    case (Accepted(name), Accepted(email), Accepted(phone), Accepted(summary)) =>
      (match (OptLinks(a.links), OptSkills(a.skills), OptList(a.workExperience), OptList(a.education))
       case (Accepted(links), Accepted(skills), Accepted(work), Accepted(education)) =>
         (match (OptList(a.projects), OptInt(a.resumeRating), OptStrList(a.improvementAreas), OptList(a.upskillSuggestions))
          case (Accepted(projects), Accepted(rating), Accepted(areas), Accepted(upskill)) =>
            Accepted(ResumeSchema(r.id, r.fileName, r.uploadedAt, name, email, phone, summary,
                                  links, skills, work, education, projects, rating, areas, upskill))
          case _ => Rejected)
       case _ => Rejected)
    case _ => Rejected
  }

  /** The summary fields of a full schema. */
  function SummaryOf(s: ResumeSchema): (t: ResumeSummarySchema)
    ensures t.id == s.id && t.fileName == s.fileName && t.uploadedAt == s.uploadedAt
    ensures t.name == s.name && t.email == s.email && t.phone == s.phone
  {
    ResumeSummarySchema(s.id, s.fileName, s.uploadedAt, s.name, s.email, s.phone)
  }

  // ---------------------------------------------------------------------------
  // The JSON a schema value is written as, used to state round trips.

  function StrsJson(xs: seq<string>): (r: seq<Json>)
    ensures |r| == |xs| && forall i | 0 <= i < |xs| :: r[i] == Str(xs[i])
  {
    seq(|xs|, i requires 0 <= i < |xs| => Str(xs[i]))
  }

  function LinkJson(l: LinkSchema): Json {
    Obj(map["label" := Str(l.labelText), "url" := Str(l.url)])
  }

  function SkillsJson(s: SkillsSchema): Json {
    Obj(map["technical" := Arr(StrsJson(s.technical)), "soft" := Arr(StrsJson(s.soft)), "tools" := Arr(StrsJson(s.tools))])
  }

  // ---------------------------------------------------------------------------
  // Properties.

  /** A list of strings written as JSON is accepted as exactly that list. */
  lemma StrListRoundTrip(xs: seq<string>)
    ensures StrList(Arr(StrsJson(xs))) == Accepted(xs)
  {
    var r := StrItems(StrsJson(xs));
    assert r.value == xs;
  }

  /** Skills written as JSON are accepted as exactly those skills. */
  lemma SkillsRoundTrip(s: SkillsSchema)
    ensures SkillsOf(SkillsJson(s)) == Accepted(s)
  {
    StrListRoundTrip(s.technical);
    StrListRoundTrip(s.soft);
    StrListRoundTrip(s.tools);
  }

  /** A list of links written as JSON is accepted as exactly those links. */
  lemma {:induction false} LinksRoundTrip(ls: seq<LinkSchema>)
    ensures LinkItems(seq(|ls|, i requires 0 <= i < |ls| => LinkJson(ls[i]))) == Accepted(ls)
    decreases |ls|
  {
    var js := seq(|ls|, i requires 0 <= i < |ls| => LinkJson(ls[i]));
    if ls != [] {
      LinksRoundTrip(ls[1..]);
      assert js[1..] == seq(|ls[1..]|, i requires 0 <= i < |ls[1..]| => LinkJson(ls[1..][i]));
      assert LinkOf(js[0]) == Accepted(ls[0]);
      assert [ls[0]] + ls[1..] == ls;
    }
  }

  /** A record whose analysed fields are all null validates, with every optional field absent. */
  lemma AbsentFieldsDefaultToNone(r: Resume, check: EmailCheck)
    requires r.analysis == Analysis(Null, Null, Null, Null, Null, Null, Null, Null, Null, Null, Null, Null)
    ensures ToSchema(r, check) == Accepted(ResumeSchema(r.id, r.fileName, r.uploadedAt, None, None, None, None,
                                                 None, None, None, None, None, None, None, None))
  {
  }

  /** Whenever the full schema validates, the summary validates too and agrees with it on every shared field. */
  lemma SummaryAgreesWithSchema(r: Resume, check: EmailCheck)
    requires ToSchema(r, check).Accepted?
    ensures ToSummary(r, check) == Accepted(SummaryOf(ToSchema(r, check).value))
  {
  }

  /** The summary depends only on its six fields: changing any other analysed field leaves it as it was. */
  lemma SummaryIgnoresOtherFields(r: Resume, a: Analysis, check: EmailCheck)
    requires a.name == r.analysis.name && a.email == r.analysis.email && a.phone == r.analysis.phone
    ensures ToSummary(r.(analysis := a), check) == ToSummary(r, check)
  {
  }

  /**
   * A stored row always passes the summary's `Optional[str]` fields, since
   * its text columns hold text or null; it fails only on an email that is not
   * an address.
   */
  lemma StoredRowSummarises(r: Resume, check: EmailCheck)
    requires Storable(r.analysis)
    ensures ToSummary(r, check).Accepted? <==> r.analysis.email.Null? || check(r.analysis.email.s).Some?
  {
  }

  /** A stored email the check refuses, such as an "N/A" from the analysis, fails both schemas. */
  lemma UncheckedEmailFailsBothSchemas(r: Resume, check: EmailCheck)
    requires r.analysis.email.Str? && check(r.analysis.email.s).None?
    ensures ToSummary(r, check).Rejected? && ToSchema(r, check).Rejected?
  {
  }
}
