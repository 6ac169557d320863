/**
 * `ResultsDisplay`: what the analysis panel shows for the value it is given.
 * Missing fields fall back through `||`; a list field is then walked with
 * `.map`, which throws when the fallen-back value is truthy but not an array,
 * and reading `.url`/`.label` of a link or `.skill` of a suggestion throws
 * when that element is `null` or `undefined`. A throw during rendering is
 * `Crashed`.
 */
module ResultsDisplay {
  import opened Wrappers
  import opened Js

  /** A link badge: its React key and its text. */
  datatype LinkBadge = LinkBadge(key: Value, text: Value)

  datatype Display = Display(
    name: Value,
    email: Value,
    phone: Value,
    links: seq<LinkBadge>,
    technical: seq<Value>,
    soft: seq<Value>,
    summary: Value,
    rating: Value,
    improvementAreas: seq<Value>,
    upskillSuggestions: seq<Value>)

  datatype Rendered = Nothing | Crashed | Shown(display: Display)

  /** `v || []`: the value when truthy, otherwise an empty array; never falsy. */
  function ListOrEmpty(v: Value): (r: Value)
    ensures Truthy(r)
    ensures !Truthy(v) ==> r == Arr([])
    ensures Truthy(v) ==> r == v
  {
    Or(v, Arr([]))
  }

  /** The elements `.map` walks: only an array has them; `None` is the TypeError. */
  function Elements(v: Value): (r: Option<seq<Value>>)
    ensures r.Some? <==> v.Arr?
    ensures r.Some? ==> r.value == v.items
  {
    match v
    case Arr(items) => Some(items)
    case _ => None
  }

  /** `links.map(link => <span key={link.url}>{link.label}</span>)`. */
  function Badges(links: seq<Value>): (r: Option<seq<LinkBadge>>)
    ensures r.Some? <==> forall i | 0 <= i < |links| :: !Nullish(links[i])
    ensures r.Some? ==>
              (|r.value| == |links| &&
               forall i | 0 <= i < |links| :: r.value[i] == LinkBadge(Prop(links[i], "url"), Prop(links[i], "label")))
    decreases |links|
  {
    if links == [] then Some([])
    else match (Member(links[0], "url"), Member(links[0], "label"), Badges(links[1..]))
      case (Some(key), Some(text), Some(rest)) => Some([LinkBadge(key, text)] + rest)
      case _ => None
  }

  /** `upskillSuggestions.map(item => item.skill || item)`. */
  function SuggestionLines(items: seq<Value>): (r: Option<seq<Value>>)
    ensures r.Some? <==> forall i | 0 <= i < |items| :: !Nullish(items[i])
    ensures r.Some? ==>
              (|r.value| == |items| &&
               forall i | 0 <= i < |items| :: r.value[i] == Or(Prop(items[i], "skill"), items[i]))
    decreases |items|
  {
    if items == [] then Some([])
    else match (Member(items[0], "skill"), SuggestionLines(items[1..]))
      case (Some(skill), Some(rest)) => Some([Or(skill, items[0])] + rest)
      case _ => None
  }

  /** The normalised skill lists: `data.skills?.technical || []` and its siblings. */
  function SkillList(data: Value, key: string): (r: Value)
    ensures Truthy(r)
  {
    ListOrEmpty(OptMember(Prop(data, "skills"), key))
  }

  /** The values the panel reads from a truthy `data`, after the `||` fallbacks. */
  datatype Fields = Fields(
    name: Value, email: Value, phone: Value, summary: Value, rating: Value,
    links: Value, technical: Value, soft: Value, improvementAreas: Value, upskillSuggestions: Value)

  /**
   * Reading `data`. `data.skills?.tools || []` is also computed by the
   * component, but never used, and it cannot throw; it has no place here.
   */
  function ReadFields(data: Value): (f: Fields)
    ensures Truthy(f.name) && Truthy(f.email) && Truthy(f.phone) && Truthy(f.summary)
    ensures Truthy(f.links) && Truthy(f.technical) && Truthy(f.soft)
    ensures Truthy(f.improvementAreas) && Truthy(f.upskillSuggestions)
    ensures !Truthy(Prop(data, "name")) ==> f.name == Str("N/A")
    ensures !Truthy(Prop(data, "email")) ==> f.email == Str("N/A")
    ensures !Truthy(Prop(data, "phone")) ==> f.phone == Str("N/A")
    ensures !Truthy(Prop(data, "summary")) ==> f.summary == Str("No summary found.")
    ensures !Truthy(Prop(data, "resume_rating")) ==> f.rating == Num(0)
    ensures Truthy(Prop(data, "name")) ==> f.name == Prop(data, "name")
    ensures Truthy(Prop(data, "email")) ==> f.email == Prop(data, "email")
    ensures Truthy(Prop(data, "phone")) ==> f.phone == Prop(data, "phone")
    ensures Truthy(Prop(data, "summary")) ==> f.summary == Prop(data, "summary")
    ensures Truthy(Prop(data, "resume_rating")) ==> f.rating == Prop(data, "resume_rating")
    ensures !Truthy(Prop(data, "links")) ==> f.links == Arr([])
    ensures !Truthy(Prop(data, "improvement_areas")) ==> f.improvementAreas == Arr([])
    ensures !Truthy(Prop(data, "upskill_suggestions")) ==> f.upskillSuggestions == Arr([])
    ensures Truthy(Prop(data, "links")) ==> f.links == Prop(data, "links")
    ensures Truthy(Prop(data, "improvement_areas")) ==> f.improvementAreas == Prop(data, "improvement_areas")
    ensures Truthy(Prop(data, "upskill_suggestions")) ==> f.upskillSuggestions == Prop(data, "upskill_suggestions")
    ensures var t := OptMember(Prop(data, "skills"), "technical");
            f.technical == if Truthy(t) then t else Arr([])
    ensures var t := OptMember(Prop(data, "skills"), "soft");
            f.soft == if Truthy(t) then t else Arr([])
  {
    Fields(
      Or(Prop(data, "name"), Str("N/A")),
      Or(Prop(data, "email"), Str("N/A")),
      Or(Prop(data, "phone"), Str("N/A")),
      Or(Prop(data, "summary"), Str("No summary found.")),
      Or(Prop(data, "resume_rating"), Num(0)),
      ListOrEmpty(Prop(data, "links")),
      SkillList(data, "technical"),
      SkillList(data, "soft"),
      ListOrEmpty(Prop(data, "improvement_areas")),
      ListOrEmpty(Prop(data, "upskill_suggestions")))
  }

  /** The panel for the read fields: every `.map` and element read must succeed. */
  function Layout(f: Fields): (r: Rendered)
    ensures !r.Nothing?
    ensures r.Shown? <==>
              f.links.Arr? && f.technical.Arr? && f.soft.Arr? && f.improvementAreas.Arr? &&
              f.upskillSuggestions.Arr? &&
              (forall i | 0 <= i < |f.links.items| :: !Nullish(f.links.items[i])) &&
              (forall i | 0 <= i < |f.upskillSuggestions.items| :: !Nullish(f.upskillSuggestions.items[i]))
    ensures r.Shown? ==>
              var d := r.display;
              && d.name == f.name && d.email == f.email && d.phone == f.phone
              && d.summary == f.summary && d.rating == f.rating
              && d.technical == f.technical.items && d.soft == f.soft.items
              && d.improvementAreas == f.improvementAreas.items
              && d.links == Badges(f.links.items).value
              && d.upskillSuggestions == SuggestionLines(f.upskillSuggestions.items).value
  {
    var links := Elements(f.links);
    var technical := Elements(f.technical);
    var soft := Elements(f.soft);
    var areas := Elements(f.improvementAreas);
    var upskill := Elements(f.upskillSuggestions);
    if links.None? || technical.None? || soft.None? || areas.None? || upskill.None? then Crashed
    else
      var badges := Badges(links.value);
      var lines := SuggestionLines(upskill.value);
      if badges.None? || lines.None? then Crashed
      else
        Shown(Display(f.name, f.email, f.phone, badges.value, technical.value, soft.value,
                      f.summary, f.rating, areas.value, lines.value))
  }

  /** `ResultsDisplay({ data })`: nothing for falsy data, otherwise the laid-out fields. */
  function Render(data: Value): (r: Rendered)
    ensures r.Nothing? <==> !Truthy(data)
    ensures Truthy(data) ==> r == Layout(ReadFields(data))
  {
    if !Truthy(data) then Nothing else Layout(ReadFields(data))
  }

  // ---------------------------------------------------------------------------
  // Properties.

  /** An object lacking every list field renders with every list empty. */
  lemma MissingListsAreEmpty(fields: map<string, Value>)
    requires "links" !in fields && "skills" !in fields
    requires "improvement_areas" !in fields && "upskill_suggestions" !in fields
    ensures Render(Obj(fields)).Shown?
    ensures var d := Render(Obj(fields)).display;
            d.links == [] && d.technical == [] && d.soft == [] &&
            d.improvementAreas == [] && d.upskillSuggestions == []
  {
  }

  /** Two values whose read keys and skill lists agree are read alike. */
  lemma ReadFieldsAgree(a: Value, b: Value)
    requires Prop(a, "name") == Prop(b, "name") && Prop(a, "email") == Prop(b, "email")
    requires Prop(a, "phone") == Prop(b, "phone") && Prop(a, "summary") == Prop(b, "summary")
    requires Prop(a, "resume_rating") == Prop(b, "resume_rating") && Prop(a, "links") == Prop(b, "links")
    requires Prop(a, "improvement_areas") == Prop(b, "improvement_areas")
    requires Prop(a, "upskill_suggestions") == Prop(b, "upskill_suggestions")
    requires SkillList(a, "technical") == SkillList(b, "technical") && SkillList(a, "soft") == SkillList(b, "soft")
    ensures ReadFields(a) == ReadFields(b)
  {
  }

  /** The `tools` list is never shown: changing it changes nothing. */
  lemma ToolsNeverRendered(fields: map<string, Value>, skills: map<string, Value>, tools: Value)
    ensures Render(Obj(fields["skills" := Obj(skills)])) == Render(Obj(fields["skills" := Obj(skills["tools" := tools])]))
  {
    var a := Obj(fields["skills" := Obj(skills)]);
    var b := Obj(fields["skills" := Obj(skills["tools" := tools])]);
    assert SkillList(a, "technical") == SkillList(b, "technical");
    assert SkillList(a, "soft") == SkillList(b, "soft");
    ReadFieldsAgree(a, b);
  }

  /** A suggestion with a truthy `skill` shows that; any other non-null one shows itself. */
  lemma SuggestionShowsSkillOrItself(fields: map<string, Value>, item: Value)
    requires "links" !in fields && "skills" !in fields && "improvement_areas" !in fields
    requires !Nullish(item)
    ensures var r := Render(Obj(fields["upskill_suggestions" := Arr([item])]));
            r.Shown? && r.display.upskillSuggestions ==
              [if Truthy(Prop(item, "skill")) then Prop(item, "skill") else item]
  {
  }

  /** A `null` suggestion makes the panel throw. */
  lemma NullSuggestionCrashes(fields: map<string, Value>)
    ensures Render(Obj(fields["upskill_suggestions" := Arr([Null])])) == Crashed
  {
  }

  /** A truthy list field that is not an array makes the panel throw. */
  lemma NonArrayListCrashes(fields: map<string, Value>, v: Value)
    requires Truthy(v) && !v.Arr?
    ensures Render(Obj(fields["improvement_areas" := v])) == Crashed
  {
  }
}
