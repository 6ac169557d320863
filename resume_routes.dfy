/**
 * The resume endpoints. The caller is the user the authentication dependency
 * resolved from the bearer token; that dependency is not part of this model,
 * so the routes take the caller's id, which names a stored user.
 */
module ResumeRoutes {
  import opened Wrappers
  import opened Models
  import opened Database
  import opened ResumeService
  import opened UserRoutes
  import opened ResumeSchema

  const PdfContentType := "application/pdf"
  const OnlyPdf := HttpError(400, "Only PDF files are accepted.", map[])
  const SaveFailed := HttpError(500, "Failed to parse or save the resume.", map[])
  const ResumeNotFound := HttpError(404, "Resume not found.", map[])

  /**
   * `POST /resumes`. A non-PDF content type is refused before the service
   * runs; a service that returns nothing becomes a 500; otherwise the stored
   * record, owned by the caller, is returned.
   */
  method UploadResume(db: Db, file: UploadFile, currentUser: nat, llm: Llm, parse: Parser, now: int)
    returns (r: Result<Resume, HttpError>)
    requires db.Valid() && currentUser in db.users
    modifies db
    ensures db.Valid()
    ensures db.users == old(db.users) && db.nextUserId == old(db.nextUserId)
    ensures file.contentType != PdfContentType ==>
              r == Failure(OnlyPdf) && db.resumes == old(db.resumes) && db.nextResumeId == old(db.nextResumeId)
    ensures file.contentType == PdfContentType ==>
              match Pipeline(file.pages, llm, parse)
              case NoRecord =>
                r == Failure(SaveFailed) && db.resumes == old(db.resumes) && db.nextResumeId == old(db.nextResumeId)
              case Raises =>
                r == Failure(InternalServerError) && db.resumes == old(db.resumes) && db.nextResumeId == old(db.nextResumeId)
              case Store(a) =>
                var id := old(db.nextResumeId);
                && id !in old(db.resumes)
                && r == Success(Resume(id, file.filename, now, currentUser, a))
                && db.resumes == old(db.resumes)[id := r.value]
                && db.nextResumeId == id + 1
  {
    if file.contentType != PdfContentType {
      return Failure(OnlyPdf);
    }
    var newResume := ParseAndSaveResume(db, file, currentUser, llm, parse, now);
    match newResume {
      case NotSaved => r := Failure(SaveFailed);
      case Raised => r := Failure(InternalServerError);
      case Saved(record) => r := Success(record);
    }
  }

  // ---------------------------------------------------------------------------
  // `GET /resumes`: the caller's resumes, newest first.

  predicate NewestFirst(s: seq<Resume>) {
    forall i, j | 0 <= i < j < |s| :: s[i].uploadedAt >= s[j].uploadedAt
  }

  predicate DistinctIds(s: seq<Resume>) {
    forall i, j | 0 <= i < j < |s| :: s[i].id != s[j].id
  }

  /** The records with an id below `bound` that `owner` owns, by increasing id. */
  function OwnedBelow(resumes: map<nat, Resume>, owner: nat, bound: nat): (s: seq<Resume>)
    requires ResumesKeyed(resumes)
    ensures forall r :: r in s <==> r in resumes.Values && r.ownerId == owner && r.id < bound
    ensures forall i | 0 <= i < |s| :: s[i].id < bound
    ensures DistinctIds(s)
    decreases bound
  {
    if bound == 0 then []
    else
      var earlier := OwnedBelow(resumes, owner, bound - 1);
      var id := bound - 1;
      if id in resumes && resumes[id].ownerId == owner then
        assert forall r :: r in resumes.Values && r.id == id ==> r == resumes[id];
        earlier + [resumes[id]]
      else
        assert forall r :: r in resumes.Values && r.id == id ==> r.ownerId != owner;
        earlier
  }

  /** `x` placed before the first record that is strictly older. */
  function Insert(x: Resume, s: seq<Resume>): (r: seq<Resume>)
    ensures forall y | y in r :: y == x || y in s
    ensures multiset(r) == multiset(s) + multiset{x}
    decreases |s|
  {
    if s == [] || x.uploadedAt >= s[0].uploadedAt then [x] + s
    else
      assert s == [s[0]] + s[1..];
      [s[0]] + Insert(x, s[1..])
  }

  lemma {:induction false} InsertKeepsOrder(x: Resume, s: seq<Resume>)
    requires NewestFirst(s)
    ensures NewestFirst(Insert(x, s))
    decreases |s|
  {
    if s == [] || x.uploadedAt >= s[0].uploadedAt {
    } else {
      var tail := Insert(x, s[1..]);
      InsertKeepsOrder(x, s[1..]);
      assert s == [s[0]] + s[1..];
      forall k | 0 <= k < |tail| ensures s[0].uploadedAt >= tail[k].uploadedAt {
        assert tail[k] in tail;
      }
    }
  }

  /** An insertion sort by `uploaded_at`, newest first. */
  function SortNewestFirst(s: seq<Resume>): (r: seq<Resume>)
    ensures NewestFirst(r)
    ensures multiset(r) == multiset(s)
    decreases |s|
  {
    if s == [] then []
    else
      assert [s[0]] + s[1..] == s;
      var rest := SortNewestFirst(s[1..]);
      InsertKeepsOrder(s[0], rest);
      Insert(s[0], rest)
  }

  /** Reordering keeps records with distinct ids distinct. */
  lemma DistinctIdsPermutation(s: seq<Resume>, t: seq<Resume>)
    requires multiset(s) == multiset(t) && DistinctIds(s)
    ensures DistinctIds(t)
  {
    forall i, j | 0 <= i < j < |t|
      ensures t[i].id != t[j].id
    {
      if t[i].id == t[j].id {
        var a := t[i];
        var b := t[j];
        assert a in multiset(s) && b in multiset(s);
        var p :| 0 <= p < |s| && s[p] == a;
        var q :| 0 <= q < |s| && s[q] == b;
        if p == q {
          assert a == b;
          assert multiset(t)[a] >= 2 by {
            TwoOccurrences(t, i, j);
          }
          assert multiset(s)[a] >= 2;
          OneOccurrence(s, p);
        }
      }
    }
  }

  lemma TwoOccurrences(t: seq<Resume>, i: int, j: int)
    requires 0 <= i < j < |t| && t[i] == t[j]
    ensures multiset(t)[t[i]] >= 2
  {
    assert t == t[..i] + [t[i]] + t[i + 1..j] + [t[j]] + t[j + 1..];
  }

  lemma OneOccurrence(s: seq<Resume>, p: int)
    requires 0 <= p < |s| && DistinctIds(s)
    ensures multiset(s)[s[p]] == 1
  {
    assert s == s[..p] + [s[p]] + s[p + 1..];
    assert forall k | 0 <= k < p :: s[..p][k] != s[p];
    assert forall k | p < k < |s| :: s[k] != s[p];
  }

  /**
   * `GET /resumes`: exactly the caller's records, each once, ordered by
   * `uploaded_at` newest first (the order among equal timestamps is not
   * fixed by the query).
   */
  function GetAllResumes(db: Db, currentUser: nat): (list: seq<Resume>)
    reads db
    requires db.Valid()
    ensures forall r :: r in list <==> r in db.resumes.Values && r.ownerId == currentUser
    ensures DistinctIds(list)
    ensures NewestFirst(list)
  {
    var owned := OwnedBelow(db.resumes, currentUser, db.nextResumeId);
    var sorted := SortNewestFirst(owned);
    DistinctIdsPermutation(owned, sorted);
    assert forall r :: r in sorted <==> r in multiset(owned);
    sorted
  }

  // ---------------------------------------------------------------------------
  // `GET /resumes/{resume_id}`.

  /** The record when it exists and the caller owns it; the same 404 in both other cases. */
  function GetResumeDetails(db: Db, currentUser: nat, resumeId: int): (r: Result<Resume, HttpError>)
    reads db
    ensures r.Success? <==> resumeId >= 0 && resumeId in db.resumes && db.resumes[resumeId].ownerId == currentUser
    ensures r.Success? ==> r.value == db.resumes[resumeId]
    ensures r.Failure? ==> r.error == ResumeNotFound
  {
    if resumeId < 0 || resumeId !in db.resumes || db.resumes[resumeId].ownerId != currentUser
    then Failure(ResumeNotFound)
    else Success(db.resumes[resumeId])
  }

  /** A missing id and another user's id are answered identically. */
  lemma DetailsHideForeignResumes(db: Db, currentUser: nat, missing: int, foreign: nat)
    requires missing < 0 || missing !in db.resumes
    requires foreign in db.resumes && db.resumes[foreign].ownerId != currentUser
    ensures GetResumeDetails(db, currentUser, missing) == GetResumeDetails(db, currentUser, foreign)
  {
  }

  /** A record the caller can open is one the list shows, and the other way round. */
  lemma DetailsAgreeWithList(db: Db, currentUser: nat, resumeId: nat)
    requires db.Valid()
    ensures GetResumeDetails(db, currentUser, resumeId).Success? <==>
            exists k | 0 <= k < |GetAllResumes(db, currentUser)| :: GetAllResumes(db, currentUser)[k].id == resumeId
  {
    var list := GetAllResumes(db, currentUser);
    if GetResumeDetails(db, currentUser, resumeId).Success? {
      var r := db.resumes[resumeId];
      assert r in db.resumes.Values;
      var k :| 0 <= k < |list| && list[k] == r;
    }
    if exists k | 0 <= k < |list| :: list[k].id == resumeId {
      var k :| 0 <= k < |list| && list[k].id == resumeId;
      assert list[k] in list;
      var id :| id in db.resumes && db.resumes[id] == list[k];
    }
  }

  // ---------------------------------------------------------------------------
  // The `response_model` of each route: what is returned is validated against
  // the declared schema, and a record that does not fit becomes a 500.

  /** The body of `POST /resumes` and `GET /resumes/{resume_id}`. */
  function RecordResponse(r: Result<Resume, HttpError>, check: EmailCheck): (resp: Result<ResumeSchema, HttpError>)
    ensures r.Failure? ==> resp == Failure(r.error)
    ensures r.Success? ==> (resp.Success? <==> ToSchema(r.value, check).Accepted?)
    ensures r.Success? && resp.Success? ==>
              resp.value.id == r.value.id && resp.value.fileName == r.value.fileName &&
              resp.value.uploadedAt == r.value.uploadedAt
    ensures r.Success? && resp.Failure? ==> resp.error == InternalServerError
  {
    match r
    case Failure(e) => Failure(e)
    case Success(record) =>
      match ToSchema(record, check)
      case Accepted(s) => Success(s)
      case Rejected => Failure(InternalServerError)
  }

  /** The body of `GET /resumes`: every record read as a summary, in the same order. */
  function ListResponse(list: seq<Resume>, check: EmailCheck): (resp: Result<seq<ResumeSummarySchema>, HttpError>)
    ensures resp.Success? <==> forall i | 0 <= i < |list| :: ToSummary(list[i], check).Accepted?
    ensures resp.Success? ==>
              |resp.value| == |list| &&
              forall i | 0 <= i < |list| :: resp.value[i] == ToSummary(list[i], check).value &&
                                            resp.value[i].id == list[i].id &&
                                            resp.value[i].uploadedAt == list[i].uploadedAt
    ensures resp.Failure? ==> resp.error == InternalServerError
    decreases |list|
  {
    if list == [] then Success([])
    else
      match (ToSummary(list[0], check), ListResponse(list[1..], check))
      case (Accepted(first), Success(rest)) => Success([first] + rest)
      case _ => Failure(InternalServerError)
  }

  /** The summaries the list endpoint sends are newest first, like the records. */
  lemma ListResponseNewestFirst(db: Db, currentUser: nat, check: EmailCheck)
    requires db.Valid()
    requires ListResponse(GetAllResumes(db, currentUser), check).Success?
    ensures var sent := ListResponse(GetAllResumes(db, currentUser), check).value;
            forall i, j | 0 <= i < j < |sent| :: sent[i].uploadedAt >= sent[j].uploadedAt
  {
  }

  /** Every stored record fits its table's column types. */
  lemma StoredRecordStorable(db: Db, r: Resume)
    requires db.Valid() && r in db.resumes.Values
    ensures Storable(r.analysis)
  {
    var id :| id in db.resumes && db.resumes[id] == r;
  }

  /**
   * The list endpoint fails for the caller exactly when one of their stored
   * records has an email the check refuses; every other column of a stored
   * row passes the summary schema.
   */
  lemma ListFailsOnlyOnEmail(db: Db, currentUser: nat, check: EmailCheck)
    requires db.Valid()
    ensures var list := GetAllResumes(db, currentUser);
            ListResponse(list, check).Failure? <==>
            exists i | 0 <= i < |list| :: list[i].analysis.email.Str? && check(list[i].analysis.email.s).None?
  {
    var list := GetAllResumes(db, currentUser);
    forall i | 0 <= i < |list|
      ensures ToSummary(list[i], check).Accepted? <==>
              list[i].analysis.email.Null? || check(list[i].analysis.email.s).Some?
    {
      assert list[i] in list;
      StoredRecordStorable(db, list[i]);
      StoredRowSummarises(list[i], check);
    }
  }
}
