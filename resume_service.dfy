/**
 * `parse_and_save_resume`: extract the PDF's text, reject an empty text,
 * analyse it, reject a failed analysis, copy the analysed fields into one new
 * record and store it. PDF parsing, the language model and `json.loads` are
 * supplied from outside.
 */
module ResumeService {
  import opened Wrappers
  import opened PyJson
  import opened Models
  import opened Database
  import LlmService

  /**
   * An uploaded file. `pages` is what the PDF reader yields: `None` when the
   * file cannot be opened as a PDF, otherwise each page's extracted text,
   * `None` for a page without a text layer.
   */
  datatype UploadFile = UploadFile(filename: string, contentType: string, pages: Option<seq<Option<string>>>)

  /** The language model: the reply content for a resume text, `None` when the content is not a string. */
  type Llm = string -> Option<string>

  /** `json.loads`: the decoded document, `None` when the text is not JSON. */
  type Parser = string -> Option<Json>

  /** What the service does with an upload: return `None`, raise out of the service, or store a record. */
  datatype Plan = NoRecord | Raises | Store(analysis: Analysis)

  /** What the service returns to the route. */
  datatype SaveResult = NotSaved | Raised | Saved(record: Resume)

  /**
   * `"".join(page.extract_text() for page in pdf.pages)`: the page texts in
   * order, or `None` when some page has no text (joining `None` raises).
   */
  function JoinPages(pages: seq<Option<string>>): (r: Option<string>)
    ensures r.Some? <==> forall i | 0 <= i < |pages| :: pages[i].Some?
    decreases |pages|
  {
    if pages == [] then Some("")
    else match (pages[0], JoinPages(pages[1..]))
      case (Some(t), Some(rest)) => Some(t + rest)
      case _ => None
  }

  /** The text extraction step inside the `try`: any failure gives `None`. */
  function ExtractText(pages: Option<seq<Option<string>>>): (text: Option<string>)
    ensures text.Some? <==> pages.Some? && forall i | 0 <= i < |pages.value| :: pages.value[i].Some?
    ensures text.Some? ==> text == JoinPages(pages.value)
  {
    match pages
    case None => None
    case Some(ps) => JoinPages(ps)
  }

  const AnalysedKeys: seq<string> := [
    "name", "email", "phone", "summary", "links", "skills", "work_experience",
    "education", "projects", "resume_rating", "improvement_areas", "upskill_suggestions"]

  /** The column of an analysis that a key of the analysis document fills. */
  function Field(a: Analysis, key: string): Json {
    match key
    case "name" => a.name
    case "email" => a.email
    case "phone" => a.phone
    case "summary" => a.summary
    case "links" => a.links
    case "skills" => a.skills
    case "work_experience" => a.workExperience
    case "education" => a.education
    case "projects" => a.projects
    case "resume_rating" => a.resumeRating
    case "improvement_areas" => a.improvementAreas
    case "upskill_suggestions" => a.upskillSuggestions
    case _ => Null
  }

  /** The `analysis_result.get(...)` calls: every column copied from its key, null when the key is missing. */
  function CopyFields(d: map<string, Json>): (a: Analysis)
    ensures forall i | 0 <= i < |AnalysedKeys| :: Field(a, AnalysedKeys[i]) == Get(d, AnalysedKeys[i])
  {
    Analysis(
      Get(d, "name"), Get(d, "email"), Get(d, "phone"), Get(d, "summary"),
      Get(d, "links"), Get(d, "skills"), Get(d, "work_experience"), Get(d, "education"),
      Get(d, "projects"), Get(d, "resume_rating"), Get(d, "improvement_areas"), Get(d, "upskill_suggestions"))
  }

  /**
   * What the service does with a truthy analysis: one that is not an object
   * has no `.get` and raises; an object is copied into a record, and the
   * commit raises when a column refuses its value.
   */
  function Record(result: Json): (plan: Plan)
    ensures plan.Store? <==> result.Obj? && Columns(CopyFields(result.fields)).Some?
    ensures plan.Store? ==> plan.analysis == Columns(CopyFields(result.fields)).value
    ensures plan.Store? ==> Storable(plan.analysis)
    ensures !plan.NoRecord?
  {
    if !result.Obj? then Raises
    else
      match Columns(CopyFields(result.fields))
      case Some(row) => Store(row)
      case None => Raises
  }

  /**
   * The decisions of the service, in order: a failed extraction or an empty
   * text gives no record; so does a missing or falsy analysis; anything else
   * is recorded.
   */
  function Pipeline(pages: Option<seq<Option<string>>>, llm: Llm, parse: Parser): (plan: Plan)
    ensures ExtractText(pages).None? || ExtractText(pages) == Some("") ==> plan == NoRecord
    ensures plan.Store? ==> Storable(plan.analysis)
    ensures !plan.NoRecord? ==>
              var a := LlmService.AnalyzeResponse(llm(ExtractText(pages).value), parse);
              a.Some? && Truthy(a.value) && plan == Record(a.value)
  {
    match ExtractText(pages)
    case None => NoRecord
    case Some(text) =>
      if text == "" then NoRecord
      else
        match LlmService.AnalyzeResponse(llm(text), parse)
        case None => NoRecord
        case Some(result) => if !Truthy(result) then NoRecord else Record(result)
  }

  /**
   * `parse_and_save_resume`: follows the early returns of `Pipeline`, inserts
   * at most one record, which gets the database clock's time for its
   * `server_default`, and stores nothing when the commit fails.
   */
  method ParseAndSaveResume(db: Db, file: UploadFile, userId: nat, llm: Llm, parse: Parser, now: int)
    returns (out: SaveResult)
    requires db.Valid() && userId in db.users
    modifies db
    ensures db.Valid()
    ensures db.users == old(db.users) && db.nextUserId == old(db.nextUserId)
    ensures match Pipeline(file.pages, llm, parse)
            case NoRecord =>
              out == NotSaved && db.resumes == old(db.resumes) && db.nextResumeId == old(db.nextResumeId)
            case Raises =>
              out == Raised && db.resumes == old(db.resumes) && db.nextResumeId == old(db.nextResumeId)
            case Store(a) =>
              var id := old(db.nextResumeId);
              && id !in old(db.resumes)
              && out == Saved(Resume(id, file.filename, now, userId, a))
              && db.resumes == old(db.resumes)[id := out.record]
              && db.nextResumeId == id + 1
  {
    var fullText := ExtractText(file.pages);
    if fullText.None? {
      return NotSaved;
    }
    if fullText.value == "" {
      return NotSaved;
    }
    var analysisResult := LlmService.AnalyzeResponse(llm(fullText.value), parse);
    if analysisResult.None? || !Truthy(analysisResult.value) {
      return NotSaved;
    }
    if !analysisResult.value.Obj? {
      return Raised;
    }
    var newResume := CopyFields(analysisResult.value.fields);
    var row := Columns(newResume);
    if row.None? {
      return Raised;
    }
    assert Pipeline(file.pages, llm, parse) == Store(row.value);
    var id := db.nextResumeId;
    var record := Resume(id, file.filename, now, userId, row.value);
    db.resumes := db.resumes[id := record];
    db.nextResumeId := id + 1;
    out := Saved(record);
  }

  // ---------------------------------------------------------------------------
  // Properties of the pipeline.

  /** The extracted text of concatenated page lists is the concatenation of their texts. */
  lemma {:induction false} JoinPagesAppend(a: seq<Option<string>>, b: seq<Option<string>>)
    ensures JoinPages(a + b) ==
            if JoinPages(a).Some? && JoinPages(b).Some? then Some(JoinPages(a).value + JoinPages(b).value) else None
    decreases |a|
  {
    if a == [] {
      assert a + b == b;
      if JoinPages(b).Some? {
        assert "" + JoinPages(b).value == JoinPages(b).value;
      }
    } else {
      assert (a + b)[1..] == a[1..] + b;
      JoinPagesAppend(a[1..], b);
      if JoinPages(a).Some? && JoinPages(b).Some? {
        var t, x, y := a[0].value, JoinPages(a[1..]).value, JoinPages(b).value;
        assert JoinPages(a).value == t + x;
        assert JoinPages(a + b).value == t + (x + y);
        assert t + (x + y) == (t + x) + y;
      }
    }
  }

  /** When every page has text, the extracted text is the pages' texts in order. */
  lemma {:induction false} JoinPagesInOrder(pages: seq<Option<string>>, k: nat)
    requires k < |pages| && forall i | 0 <= i < |pages| :: pages[i].Some?
    ensures JoinPages(pages).Some?
    ensures JoinPages(pages).value == JoinPages(pages[..k]).value + pages[k].value + JoinPages(pages[k + 1..]).value
  {
    assert pages == pages[..k] + ([pages[k]] + pages[k + 1..]);
    JoinPagesAppend(pages[..k], [pages[k]] + pages[k + 1..]);
    JoinPagesAppend([pages[k]], pages[k + 1..]);
    assert JoinPages([pages[k]]) == Some(pages[k].value + "");
    assert pages[k].value + "" == pages[k].value;
  }

  /** A file that is not a PDF, or has a page without text, is never stored. */
  lemma ExtractionFailureStoresNothing(pages: Option<seq<Option<string>>>, llm: Llm, parse: Parser)
    requires pages.None? || exists i | 0 <= i < |pages.value| :: pages.value[i].None?
    ensures Pipeline(pages, llm, parse) == NoRecord
  {
  }

  /** An empty text gives no record, and the analyser's answer plays no part in that. */
  lemma EmptyTextSkipsAnalyser(pages: Option<seq<Option<string>>>, llm1: Llm, llm2: Llm, parse: Parser)
    requires ExtractText(pages) == Some("")
    ensures Pipeline(pages, llm1, parse) == NoRecord
    ensures Pipeline(pages, llm1, parse) == Pipeline(pages, llm2, parse)
  {
  }

  /** A failed analysis (`None`, or a falsy document such as `{}`) gives no record. */
  lemma FailedAnalysisStoresNothing(pages: Option<seq<Option<string>>>, llm: Llm, parse: Parser)
    requires ExtractText(pages).Some?
    requires var a := LlmService.AnalyzeResponse(llm(ExtractText(pages).value), parse);
             a.None? || !Truthy(a.value)
    ensures Pipeline(pages, llm, parse) == NoRecord
  {
  }

  /** Once the text is non-empty and the analysis truthy, the record step decides. */
  lemma TruthyAnalysisIsRecorded(pages: Option<seq<Option<string>>>, llm: Llm, parse: Parser)
    requires ExtractText(pages).Some? && ExtractText(pages).value != ""
    requires var a := LlmService.AnalyzeResponse(llm(ExtractText(pages).value), parse);
             a.Some? && Truthy(a.value)
    ensures Pipeline(pages, llm, parse) == Record(LlmService.AnalyzeResponse(llm(ExtractText(pages).value), parse).value)
  {
  }

  /**
   * A record is stored exactly when the text is non-empty, the analysis is a
   * non-empty object and every column takes its value.
   */
  lemma StoresExactlyForObjects(pages: Option<seq<Option<string>>>, llm: Llm, parse: Parser)
    ensures Pipeline(pages, llm, parse).Store? <==>
            && ExtractText(pages).Some? && ExtractText(pages).value != ""
            && var a := LlmService.AnalyzeResponse(llm(ExtractText(pages).value), parse);
               a.Some? && Truthy(a.value) && Record(a.value).Store?
  {
    var t := ExtractText(pages);
    if t.Some? && t.value != "" {
      var a := LlmService.AnalyzeResponse(llm(t.value), parse);
      if a.Some? && Truthy(a.value) {
        TruthyAnalysisIsRecorded(pages, llm, parse);
      }
    }
  }

  /** A stored row holds the analysis's fields as the columns wrote them. */
  lemma StoredRowIsWrittenCopy(pages: Option<seq<Option<string>>>, llm: Llm, parse: Parser)
    requires Pipeline(pages, llm, parse).Store?
    ensures var d := LlmService.AnalyzeResponse(llm(ExtractText(pages).value), parse).value.fields;
            Pipeline(pages, llm, parse).analysis == Columns(CopyFields(d)).value
  {
    TruthyAnalysisIsRecorded(pages, llm, parse);
  }

  /** An analysis object holding a value some column refuses makes the service raise, so nothing is stored. */
  lemma RefusedColumnRaises(pages: Option<seq<Option<string>>>, llm: Llm, parse: Parser)
    requires ExtractText(pages).Some? && ExtractText(pages).value != ""
    requires var a := LlmService.AnalyzeResponse(llm(ExtractText(pages).value), parse);
             a.Some? && a.value.Obj? && a.value.fields != map[] && Columns(CopyFields(a.value.fields)).None?
    ensures Pipeline(pages, llm, parse) == Raises
  {
    var t := ExtractText(pages);
    if t.Some? && t.value != "" {
      var a := LlmService.AnalyzeResponse(llm(t.value), parse);
      if a.Some? && a.value.Obj? && a.value.fields != map[] {
        TruthyAnalysisIsRecorded(pages, llm, parse);
      }
    }
  }

  /** An analysis whose text columns hold text and whose rating fits 32 bits is stored exactly as copied. */
  lemma StorableAnalysisStoredAsCopied(pages: Option<seq<Option<string>>>, llm: Llm, parse: Parser)
    requires ExtractText(pages).Some? && ExtractText(pages).value != ""
    requires var a := LlmService.AnalyzeResponse(llm(ExtractText(pages).value), parse);
             a.Some? && a.value.Obj? && a.value.fields != map[] && Storable(CopyFields(a.value.fields))
    ensures var d := LlmService.AnalyzeResponse(llm(ExtractText(pages).value), parse).value.fields;
            Pipeline(pages, llm, parse) == Store(CopyFields(d))
  {
    var a := LlmService.AnalyzeResponse(llm(ExtractText(pages).value), parse).value;
    TruthyAnalysisIsRecorded(pages, llm, parse);
    assert Columns(CopyFields(a.fields)) == Some(CopyFields(a.fields));
  }
}
