/**
 * The records of the two database tables, `users` and `resumes`, and the
 * request/response shapes of the user endpoints. The column constraints
 * (primary keys, the unique email, the owner foreign key) are stated as
 * predicates over whole tables; the database class keeps them as its invariant.
 */
module Models {
  import opened Wrappers
  import opened PyJson
  import Decimal

  /** A row of `users`. Both text columns are non-null, so they are plain strings. */
  datatype User = User(id: nat, email: string, hashedPassword: string)

  /**
   * The analysed columns of a resume. Before the insert they hold whatever
   * JSON value the analysis gave; a stored row holds only what its column
   * types allow (`Storable`).
   */
  datatype Analysis = Analysis(
    name: Json,
    email: Json,
    phone: Json,
    summary: Json,
    links: Json,
    skills: Json,
    workExperience: Json,
    education: Json,
    projects: Json,
    resumeRating: Json,
    improvementAreas: Json,
    upskillSuggestions: Json)

  /** A row of `resumes`. `file_name` is non-null; `uploaded_at` is a timestamp from the database clock. */
  datatype Resume = Resume(id: nat, fileName: string, uploadedAt: int, ownerId: nat, analysis: Analysis)

  // ---------------------------------------------------------------------------
  // What the column types let the database store.

  /** A value written to a column: what the row then holds, or the refusal that fails the commit. */
  datatype ColumnWrite = Written(value: Json) | Refused

  /** The range of a Postgres `integer` (`Column(Integer)`), 32 bits wide. */
  const Int32Min: int := -0x8000_0000
  const Int32Max: int := 0x7fff_ffff

  predicate InInt32(n: int) {
    Int32Min <= n <= Int32Max
  }

  /** What a `String` column can hold. */
  predicate TextValue(j: Json) {
    j.Null? || j.Str?
  }

  /** What an `Integer` column can hold. */
  predicate IntegerValue(j: Json) {
    j.Null? || (j.Num? && InInt32(j.n))
  }

  /**
   * A write to a `String` column. Text and null are stored as given; a number
   * or a boolean is cast to its text, as Postgres casts on assignment to a
   * text column; an object cannot be sent as a parameter and a list is
   * refused as well.
   */
  function StringColumn(j: Json): (w: ColumnWrite)
    ensures w.Written? ==> TextValue(w.value)
    ensures TextValue(j) ==> w == Written(j)
    ensures w.Refused? <==> j.Arr? || j.Obj?
    ensures j.Num? ==> w == Written(Str(Decimal.IntToString(j.n)))
  {
    match j
    case Null => Written(Null)
    case Str(_) => Written(j)
    case Num(n) => Written(Str(Decimal.IntToString(n)))
    case Bool(b) => Written(Str(if b then "true" else "false"))
    case Arr(_) => Refused
    case Obj(_) => Refused
  }

  /**
   * A write to an `Integer` column. A number in range is stored as given and
   * a text that spells an integer in range is read as that integer; a number
   * out of range, any other text, a boolean, a list or an object is refused.
   */
  function IntegerColumn(j: Json): (w: ColumnWrite)
    ensures w.Written? ==> IntegerValue(w.value)
    ensures IntegerValue(j) ==> w == Written(j)
    ensures j.Num? && !InInt32(j.n) ==> w.Refused?
    ensures j.Bool? || j.Arr? || j.Obj? ==> w.Refused?
    ensures j.Str? ==> (w.Written? <==> Decimal.ParseInt(j.s).Some? && InInt32(Decimal.ParseInt(j.s).value))
  {
    match j
    case Null => Written(Null)
    case Num(n) => if InInt32(n) then Written(j) else Refused
    case Str(s) =>
      (match Decimal.ParseInt(s)
       case Some(n) => if InInt32(n) then Written(Num(n)) else Refused
       case None => Refused)
    case _ => Refused
  }

  /** The analysed columns of a stored row hold only what their column types allow; the JSONB ones hold any JSON. */
  predicate Storable(a: Analysis) {
    && TextValue(a.name) && TextValue(a.email) && TextValue(a.phone) && TextValue(a.summary)
    && IntegerValue(a.resumeRating)
  }

  /** The two analyses agree on every JSONB column. */
  predicate SameJsonColumns(a: Analysis, b: Analysis) {
    && a.links == b.links && a.skills == b.skills && a.workExperience == b.workExperience
    && a.education == b.education && a.projects == b.projects
    && a.improvementAreas == b.improvementAreas && a.upskillSuggestions == b.upskillSuggestions
  }

  /**
   * The row the insert writes for an analysis, or `None` when some column
   * refuses its value and the commit fails.
   */
  function Columns(a: Analysis): (r: Option<Analysis>)
    ensures r.Some? <==>
              && StringColumn(a.name).Written? && StringColumn(a.email).Written?
              && StringColumn(a.phone).Written? && StringColumn(a.summary).Written?
              && IntegerColumn(a.resumeRating).Written?
    ensures r.Some? ==> Storable(r.value) && SameJsonColumns(r.value, a)
    ensures Storable(a) ==> r == Some(a)
  {
    match (StringColumn(a.name), StringColumn(a.email), StringColumn(a.phone), StringColumn(a.summary),
           IntegerColumn(a.resumeRating))
    case (Written(name), Written(email), Written(phone), Written(summary), Written(rating)) =>
      Some(a.(name := name, email := email, phone := phone, summary := summary, resumeRating := rating))
    case _ => None
  }

  /** Writing a row that was already written changes nothing. */
  lemma ColumnsIdempotent(a: Analysis)
    requires Columns(a).Some?
    ensures Columns(Columns(a).value) == Columns(a)
  {
  }

  /** An object or a list in a text column, or a rating outside 32 bits, fails the insert. */
  lemma RefusedColumnsFailInsert(a: Analysis)
    requires || a.name.Obj? || a.email.Obj? || a.phone.Obj? || a.summary.Obj?
             || a.name.Arr? || a.email.Arr? || a.phone.Arr? || a.summary.Arr?
             || (a.resumeRating.Num? && !InInt32(a.resumeRating.n))
    ensures Columns(a).None?
  {
  }

  /** A rating written as a decimal text is stored as the number it spells. */
  lemma RatingTextIsRead(a: Analysis, n: int)
    requires InInt32(n) && a.resumeRating == Str(Decimal.IntToString(n))
    requires Storable(a.(resumeRating := Null))
    ensures Columns(a) == Some(a.(resumeRating := Num(n)))
  {
    Decimal.ParseIntRoundTrip(n);
  }

  // ---------------------------------------------------------------------------
  // The user endpoints' shapes.

  /**
   * Pydantic's `EmailStr`, as the email-validator library applies it: the
   * normalised address (its domain lower-cased, for one), or `None` when the
   * text is not an address. The library is not part of this model.
   */
  type EmailCheck = string -> Option<string>

  /** The body of a registration request. */
  datatype UserCreate = UserCreate(email: string, password: string)

  /** What the registration endpoint sends back: the id and the email, never the password hash. */
  datatype UserResponse = UserResponse(id: nat, email: string)

  /** What the token endpoint sends back. */
  datatype Token = Token(accessToken: string, tokenType: string)

  /** Primary keys: every user is stored under its own id. */
  ghost predicate UsersKeyed(users: map<nat, User>) {
    forall id | id in users :: users[id].id == id
  }

  /** `email` is `unique=True`: no two users share one. */
  ghost predicate UniqueEmails(users: map<nat, User>) {
    forall a, b | a in users && b in users && a != b :: users[a].email != users[b].email
  }

  /** Primary keys: every resume is stored under its own id. */
  ghost predicate ResumesKeyed(resumes: map<nat, Resume>) {
    forall id | id in resumes :: resumes[id].id == id
  }

  /** `owner_id` is a foreign key into `users.id`. */
  ghost predicate OwnersExist(resumes: map<nat, Resume>, users: map<nat, User>) {
    forall id | id in resumes :: resumes[id].ownerId in users
  }

  /** Some stored user has this email (the `filter(User.email == email).first()` query is not empty). */
  predicate EmailTaken(users: map<nat, User>, email: string) {
    exists id | id in users :: users[id].email == email
  }
}
