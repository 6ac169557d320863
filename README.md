# Resume Analyzer, modelled in Dafny

Resume Analyzer is a small web application. A user registers and logs in to get a bearer token, then uploads a PDF resume. The backend (FastAPI and SQLAlchemy) extracts the PDF's text and asks a language model to analyse it. It stores the analysis as one row of the `resumes` table, owned by that user. The React front end shows the analysis and a history of the user's earlier uploads.

This project models the rules of both halves:

- **Backend.**
  - The `users` and `resumes` tables live in a class `Database.Db`. They are maps from primary key to row, and `Valid()` keeps their column constraints: primary keys, the unique email, the owner foreign key and the column types of every stored resume.
  - The registration and login routes (`UserRoutes`).
  - The resume routes (`ResumeRoutes`): the PDF content-type gate, the owner-filtered list ordered newest first, the detail lookup that hides other users' resumes behind the 404 a missing id gets, and the `response_model` validation of what they return.
  - The ingestion pipeline (`ResumeService`): extract the text, reject empty text, analyse it, reject a failed analysis, copy the fields into one new record, and write it through the column types (`Models`), where a refused value makes the commit raise.
  - The clean-up of the language model's reply before it is parsed (`LlmService`).
  - The record and schema shapes (`Models`, `ResumeSchema`).
- **Front end.**
  - JavaScript values and the language rules the components depend on: truthiness, `||`, property reads that throw on `null`, `?.` and `String` (`Js`).
  - `localStorage` and the bearer-header interceptor (`Session`, `Api`).
  - The `App` shell as a class whose fields are its `useState` hooks (`AppShell`).
  - The history table with its in-flight `isLoadingDetails` (`HistoryView`).
  - The uploader's enablement rules (`Uploader`).
  - The analysis panel's defaulting, and the places where it throws (`ResultsDisplay`).
- **Between the halves.** `WireFormat` takes a record the backend validated, follows it through JSON to the browser, and states exactly when the panel can show it.

Foreign calls are parameters of the operations they feed:
- page text extraction (the pages are an input);
- the language model (`Llm`) and `json.loads` (`Parser`);
- password hashing and verification, and token minting;
- the `EmailStr` address check and normalisation (`EmailCheck`);
- the database clock (`now`);
- the replies of every HTTP call the front end makes.

The authentication dependency `get_current_user` is not part of this model. The resume routes take the id of the calling user.

`ResumeSummarySchema` declares `phone`, so `ResumeSchema.ResumeSummarySchema` and `ResumeSchema.ToSummary` carry it. `backend/app/db/database.py` and `backend/app/services/auth.py` are not part of this model.

## Model

| member | source | states |
|---|---|---|
| Database.Db.constructor | backend/app/db/models.py:8-37 | An empty database satisfies every table constraint: primary keys, unique emails, owners that exist, ids below their sequence counters, and every stored row within its column types. |
| Models.StringColumn | backend/app/db/models.py:26-29 | A `String` column stores text and null as given, and a number as its decimal text. It refuses exactly arrays and objects, and whatever it stores is text or null. |
| Models.IntegerColumn | backend/app/db/models.py:35 | An `Integer` column stores null and 32-bit numbers as given, and refuses a number outside 32 bits, a boolean, an array and an object. A text is stored exactly when it reads as a 32-bit integer. Whatever it stores is null or a 32-bit number. |
| Models.Columns | backend/app/db/models.py:26-37 | The insert succeeds exactly when all five typed columns accept their values. The written row then fits every column type and keeps each JSONB value unchanged, and a row that already fits is written unchanged. |
| Models.ColumnsIdempotent | backend/app/db/models.py:26-37 | Writing a written row again changes nothing. |
| Models.RefusedColumnsFailInsert | backend/app/db/models.py:26-35 | An object or array in a text column, or a rating outside 32 bits, fails the insert. |
| Models.RatingTextIsRead | backend/app/db/models.py:35 | A rating sent as the decimal text of a 32-bit integer is stored as that integer. |
| UserRoutes.CreateUser | backend/app/api/user_routes.py:13-25 | An email the `EmailStr` check refuses gives 422 and changes nothing. The duplicate test compares the normalised address, and a taken one gives 400 "Email already registered" with the users table and its counter unchanged. Otherwise exactly one user is added under a fresh id, storing the normalised address and `hash(password)`, not the password. The response holds that id and the stored address validated again; a refusal there is a 500 after the commit. The resumes table is untouched, and the table constraints, unique emails among them, hold after every call. |
| UserRoutes.SpellingsOfOneAddressCollide | backend/app/api/user_routes.py:15-17 | Two spellings that normalise to one address are one registration: once either is stored, the other counts as taken. |
| UserRoutes.LoginForAccessToken | backend/app/api/user_routes.py:28-38 | An unknown email and a failed password check give the same 401 "Incorrect email or password" with `WWW-Authenticate: Bearer`. A successful check returns the token minted for `str(user.id)` with type "bearer". The method has no `modifies` clause, so logging in changes nothing. |
| Decimal.NatToStringRoundTrip | backend/app/api/user_routes.py:37 | Reading back the decimal subject `str(id)` gives the id. |
| Decimal.NatToStringInjective | backend/app/api/user_routes.py:37 | Different user ids give different token subjects. |
| Decimal.NatToString | backend/app/api/user_routes.py:37 | `str(id)` is a non-empty string of decimal digits with no leading zero. |
| Decimal.ParseInt | backend/app/db/models.py:35 | A text reads as an integer exactly when it is digits, optionally after one `+` or `-` sign. A minus sign gives a value at most 0, and no sign or `+` a value at least 0. |
| Decimal.ParseIntRoundTrip | backend/app/db/models.py:35 | Every integer written in decimal reads back as itself. |
| ResumeRoutes.UploadResume | backend/app/api/resume_routes.py:14-27 | A content type other than `application/pdf` gives 400 "Only PDF files are accepted." before the service runs, and nothing is stored. If the service stores nothing, the route gives 500 "Failed to parse or save the resume.". When the service raises, including when a column refuses a value at commit, the route gives a 500 and nothing is stored. Otherwise the one new record is owned by the caller, holds the columns as written, and is returned. The users table is untouched and the table constraints hold. |
| ResumeRoutes.OwnedBelow | backend/app/api/resume_routes.py:35 | The owner filter: a record is listed exactly when it is stored, belongs to the owner and has an id below the bound. No id is listed twice. |
| ResumeRoutes.Insert | backend/app/api/resume_routes.py:35 | Inserting into the ordered list adds exactly the one record, as a multiset. It brings in nothing else. |
| ResumeRoutes.InsertKeepsOrder | backend/app/api/resume_routes.py:35 | Inserting into a newest-first list keeps it newest-first. |
| ResumeRoutes.SortNewestFirst | backend/app/api/resume_routes.py:35 | The `order_by(uploaded_at.desc())` result is non-increasing in `uploaded_at` and a permutation of its input. |
| ResumeRoutes.DistinctIdsPermutation | backend/app/api/resume_routes.py:35 | Reordering records with distinct ids keeps them distinct. |
| ResumeRoutes.GetAllResumes | backend/app/api/resume_routes.py:30-36 | The list holds exactly the caller's records, none missing and none foreign. Each appears once, newest first. The function only reads the database. |
| ResumeRoutes.GetResumeDetails | backend/app/api/resume_routes.py:39-47 | The record is returned exactly when the id exists and its owner is the caller. Every other case gives 404 "Resume not found.". The function only reads the database. |
| ResumeRoutes.DetailsHideForeignResumes | backend/app/api/resume_routes.py:44-46 | A missing id and another user's id get identical answers. |
| ResumeRoutes.DetailsAgreeWithList | backend/app/api/resume_routes.py:35-47 | A caller can open exactly the records whose ids the list shows. |
| ResumeRoutes.RecordResponse | backend/app/api/resume_routes.py:13-38 | An error passes through as it is. A record is sent exactly when it validates against `ResumeSchema`, email check included, keeping its id, file name and timestamp. Otherwise the answer is a 500. |
| ResumeRoutes.ListResponse | backend/app/api/resume_routes.py:29 | The list is sent exactly when every record validates against `ResumeSummarySchema`, email check included. It is then one summary per record, in the same order, with the same ids and timestamps. Otherwise the answer is a 500. |
| ResumeRoutes.ListResponseNewestFirst | backend/app/api/resume_routes.py:29-36 | The summaries the list endpoint sends are newest first. |
| ResumeRoutes.StoredRecordStorable | backend/app/db/models.py:26-37 | Every stored record fits the column types of its table. |
| ResumeRoutes.ListFailsOnlyOnEmail | backend/app/api/resume_routes.py:29-36 | The list endpoint fails for a caller exactly when one of their stored records has an email text the `EmailStr` check refuses. Name and phone of a stored row always pass. |
| ResumeService.JoinPages | backend/app/services/resume_service.py:17 | The join succeeds exactly when every page yields text. A page without text makes the join fail. |
| ResumeService.JoinPagesAppend | backend/app/services/resume_service.py:17 | The text of two runs of pages is the text of the first followed by the text of the second. |
| ResumeService.JoinPagesInOrder | backend/app/services/resume_service.py:17 | Every page's text sits exactly between the texts of the pages before it and after it. |
| ResumeService.ExtractText | backend/app/services/resume_service.py:15-20 | Text is extracted exactly when the PDF opens and every page yields text, and it is then the pages joined in order. |
| ResumeService.CopyFields | backend/app/services/resume_service.py:37-50 | Each of the twelve analysed columns is `analysis_result.get(key)` of its key: the stored value, or null when the key is missing. |
| ResumeService.ParseAndSaveResume | backend/app/services/resume_service.py:9-58 | When the pipeline gives up, the call returns `None` and the store is unchanged. When the analysis is truthy but not an object, or a column refuses one of its values at commit, the call raises and the store is unchanged. Otherwise exactly one record is added under a fresh id, with the upload's file name, the caller as owner, the insertion time and the copied fields as the columns wrote them. The users table is untouched, and the table constraints still hold. |
| ResumeService.Record | backend/app/services/resume_service.py:33-56 | A truthy analysis is stored exactly when it is an object whose copied fields every column accepts, and the stored row is then what the columns wrote, within the column types. Any other truthy analysis raises; none is dropped silently. |
| ResumeService.Pipeline | backend/app/services/resume_service.py:9-56 | A failed extraction or empty text stores nothing. Whenever the service does not return `None`, the analysis was truthy and its outcome is the one `Record` gives. A stored row fits the column types. |
| ResumeService.ExtractionFailureStoresNothing | backend/app/services/resume_service.py:15-20 | When the PDF cannot be opened, or a page has no text, nothing is stored. |
| ResumeService.EmptyTextSkipsAnalyser | backend/app/services/resume_service.py:23-24 | Empty text stores nothing, and the result is the same whatever the analyser would have answered, so it is never consulted. |
| ResumeService.FailedAnalysisStoresNothing | backend/app/services/resume_service.py:26-30 | A `None` or empty analysis stores nothing. |
| ResumeService.StoresExactlyForObjects | backend/app/services/resume_service.py:15-56 | A record is stored exactly when the text extracts and is non-empty, and the analysis is truthy and a JSON object whose copied fields every column accepts. |
| ResumeService.StoredRowIsWrittenCopy | backend/app/services/resume_service.py:33-56 | A stored row is the analysis object's fields, copied by `get` and then written by the columns. |
| ResumeService.RefusedColumnRaises | backend/app/services/resume_service.py:53-55 | An analysis object holding a value some column refuses makes the service raise, so nothing is stored. |
| ResumeService.StorableAnalysisStoredAsCopied | backend/app/services/resume_service.py:33-56 | An analysis object whose copied fields already fit the column types is stored exactly as copied. |
| LlmService.TrimStart | backend/app/services/llm_service.py:78 | The leading part removed by `strip` is all whitespace, and what remains starts with a non-space character. |
| LlmService.TrimEnd | backend/app/services/llm_service.py:78 | The trailing part removed by `strip` is all whitespace, and what remains ends with a non-space character. |
| LlmService.Strip | backend/app/services/llm_service.py:78 | `strip()` leaves a slice of the text that neither starts nor ends with whitespace, with only whitespace cut on either side. |
| LlmService.RemoveAll | backend/app/services/llm_service.py:78 | `replace(pattern, "")` never makes a string longer. |
| LlmService.Clean | backend/app/services/llm_service.py:78 | Removing the fences never makes the stripped reply longer. |
| LlmService.CleanNotLonger | backend/app/services/llm_service.py:78 | The cleaned reply is no longer than the stripped reply, which is no longer than the reply. |
| LlmService.AbsentFromSlice | backend/app/services/llm_service.py:78 | A pattern absent from a string is absent from every slice of it. |
| LlmService.RemoveAllAbsent | backend/app/services/llm_service.py:78 | Removing a pattern that does not occur changes nothing. |
| LlmService.RemoveAllKeepsPrefix | backend/app/services/llm_service.py:78 | A prefix in which no occurrence starts passes through the removal unchanged. |
| LlmService.NoFenceNoJsonFence | backend/app/services/llm_service.py:78 | Text without "```" contains no "```json" either. |
| LlmService.CleanWithoutFence | backend/app/services/llm_service.py:78 | A reply without "```" only loses its surrounding whitespace. |
| LlmService.TrimStartPadded | backend/app/services/llm_service.py:78 | Leading whitespace in front of a non-space character is exactly what is stripped. |
| LlmService.TrimEndPadded | backend/app/services/llm_service.py:78 | Trailing whitespace after a non-space character is exactly what is stripped. |
| LlmService.StripPadded | backend/app/services/llm_service.py:78 | Text padded on both sides strips to the text. |
| LlmService.RemoveClosingFence | backend/app/services/llm_service.py:78 | One or two backticks followed by the fence lose only the fence. |
| LlmService.NoFenceStartsInside | backend/app/services/llm_service.py:78 | No "```" starts inside a fence-free text that ends before the closing fence. |
| LlmService.RemoveFenceAfter | backend/app/services/llm_service.py:78 | For fence-free X, removing "```" from X followed by "```" gives X. |
| LlmService.RemoveOpeningFence | backend/app/services/llm_service.py:78 | For fence-free X, removing "```json" from "```json" + X + "```" leaves X + "```". |
| LlmService.CleanFencedBlock | backend/app/services/llm_service.py:78 | Whitespace, "```json", X, "```", whitespace cleans to exactly X when X contains no "```". |
| LlmService.AnalyzeResponse | backend/app/services/llm_service.py:75-84 | A parsed value is returned exactly as the parser gave it for the cleaned reply. A parse failure, or a reply content that is not a string, gives `None` instead of an error. |
| LlmService.FencedReplyParsesInner | backend/app/services/llm_service.py:78-80 | A fenced reply is parsed as the text inside the fence. |
| ResumeSchema.StrItems | backend/app/schemas/resume_schema.py:12-46 | A JSON list is accepted as `List[str]` exactly when every element is a string. The result holds those strings in order. |
| ResumeSchema.StrList | backend/app/schemas/resume_schema.py:13-15 | `List[str]` accepts exactly an array of strings, and that array is then the JSON of the accepted list and nothing else. |
| ResumeSchema.LinkOf | backend/app/schemas/resume_schema.py:8-10 | `LinkSchema` accepts exactly an object whose `label` and `url` are strings, and reads those two strings. |
| ResumeSchema.LinkItems | backend/app/schemas/resume_schema.py:8-39 | A JSON list is accepted as `List[LinkSchema]` exactly when every element is an object with string `label` and `url`. |
| ResumeSchema.SkillsOf | backend/app/schemas/resume_schema.py:12-15 | `SkillsSchema` accepts exactly an object whose `technical`, `soft` and `tools` are string lists, and those fields are then the JSON of the accepted lists. |
| ResumeSchema.OptStr | backend/app/schemas/resume_schema.py:34-37 | `Optional[str] = None` accepts exactly null and strings. Null alone gives the absent value, and a string is kept as it is. |
| ResumeSchema.OptEmail | backend/app/schemas/resume_schema.py:35 | `Optional[EmailStr] = None` accepts exactly null and strings the email check accepts. Null alone gives the absent value, and an address is replaced by its normalised form. |
| ResumeSchema.OptInt | backend/app/schemas/resume_schema.py:45 | `Optional[int] = None` accepts exactly null and numbers. Null alone gives the absent value, and a number is kept. |
| ResumeSchema.OptList | backend/app/schemas/resume_schema.py:41-47 | `Optional[List[Any]] = None` accepts exactly null and arrays. Null alone gives the absent value, and an array is kept with every element. |
| ResumeSchema.OptStrList | backend/app/schemas/resume_schema.py:46 | `Optional[List[str]] = None` accepts exactly null and string arrays. Null alone gives the absent value, and a string array is read as its strings. |
| ResumeSchema.OptLinks | backend/app/schemas/resume_schema.py:39 | `Optional[List[LinkSchema]] = None` accepts exactly null and arrays of valid links. Null alone gives the absent value, and the links are read one per element. |
| ResumeSchema.OptSkills | backend/app/schemas/resume_schema.py:40 | `Optional[SkillsSchema] = None` accepts exactly null and valid skills. Null alone gives the absent value, and the skills are those read. |
| ResumeSchema.ToSummary | backend/app/schemas/resume_schema.py:17-26 | A record validates as a summary exactly when its name, email and phone do. The summary keeps id, file name and upload time, and a field is absent exactly when its column is null. |
| ResumeSchema.ToSchema | backend/app/schemas/resume_schema.py:29-50 | A record validates exactly when each of its twelve analysed columns passes its field's validator. The schema keeps id, file name and upload time, and each optional field is absent exactly when its column is null. |
| ResumeSchema.StrListRoundTrip | backend/app/schemas/resume_schema.py:12-15 | A list of strings sent as JSON is read back as exactly that list. |
| ResumeSchema.SkillsRoundTrip | backend/app/schemas/resume_schema.py:12-40 | Skills sent as JSON are read back as exactly those skills. |
| ResumeSchema.LinksRoundTrip | backend/app/schemas/resume_schema.py:8-39 | Links sent as JSON are read back as exactly those label/URL pairs. |
| ResumeSchema.AbsentFieldsDefaultToNone | backend/app/schemas/resume_schema.py:34-47 | A record whose twelve analysed columns are all null validates, with every optional field absent. This is the all-absent instance of `ToSchema`'s per-field rule that a field is absent exactly when its column is null. |
| ResumeSchema.SummaryAgreesWithSchema | backend/app/schemas/resume_schema.py:17-36 | When the full schema validates, the summary validates too and agrees with it on every shared field. |
| ResumeSchema.SummaryIgnoresOtherFields | backend/app/schemas/resume_schema.py:17-23 | The summary depends on no analysed field other than name, email and phone. |
| ResumeSchema.StoredRowSummarises | backend/app/schemas/resume_schema.py:17-23 | A row within its column types validates as a summary exactly when its email is null or the email check accepts it. |
| ResumeSchema.UncheckedEmailFailsBothSchemas | backend/app/schemas/resume_schema.py:22-35 | A stored email text the check refuses, such as an "N/A" from the analysis, fails both schemas. |
| Js.Or | frontend/src/components/ResultsDisplay.jsx:16-26 | `a \|\| b` is `a` when `a` is truthy and `b` otherwise, and it is truthy exactly when one of them is. |
| Js.Truthy | frontend/src/components/ResultsDisplay.jsx:14-26 | The falsy values are exactly `undefined`, `null`, `false`, `0` and `""`. Arrays and objects, empty ones included, are truthy. |
| Js.Prop | frontend/src/components/ResultsDisplay.jsx:16-26 | A property of a primitive or an array is `undefined`. An object gives its own field when it has the key, and `undefined` when it lacks it. |
| Js.OptMember | frontend/src/components/ResultsDisplay.jsx:17-19 | `?.` gives `undefined` on `null` and `undefined`, and otherwise reads the property. |
| Js.ToJsString | frontend/src/App.jsx:43 | `String(v)` of a truthy value that is not an array is a non-empty string, and of a string is that string. |
| Js.Join | frontend/src/App.jsx:43 | `String` of an array joins its elements: no elements give "", a single element gives its own string, or "" for `null` and `undefined`, and the text is never shorter than one comma between each pair. |
| Js.StrictEquals | frontend/src/App.jsx:61-65 | `===` holds only between values of one type. Strings and numbers compare by value, and `null` and `undefined` are each equal only to themselves. |
| PyJson.Truthy | backend/app/services/resume_service.py:23-28 | The false values are exactly `None`, `False`, `0`, `""`, the empty list and the empty dict. |
| Session.StoreToken | frontend/src/App.jsx:41-46 | A truthy token is stored under "token" as `String(token)`. A falsy one removes the entry. No other key changes. |
| Session.AuthorizationHeader | frontend/src/App.jsx:25-31 | The header is `Bearer <t>` exactly when a non-empty string `t` is stored under "token". Otherwise there is no header. |
| Session.StoredTokenIsSent | frontend/src/App.jsx:25-46 | After a truthy token that is not an array is stored, requests carry `Bearer` followed by that token. |
| Session.ClearedTokenIsNotSent | frontend/src/App.jsx:25-46 | After a falsy token is stored, requests carry no header. |
| Session.EmptyArrayTokenIsNotSent | frontend/src/App.jsx:25-46 | An empty array is truthy and kept, but it is stored as "" and so sends no header. |
| Api.Dispatch | frontend/src/App.jsx:24-31 | A request through `api` keeps its verb, endpoint and body. It carries `Bearer <t>` exactly when a non-empty `t` is stored at send time. |
| Api.ErrorDetail | frontend/src/App.jsx:85-104 | `error.response?.data?.detail` is `undefined` when no response arrived, and the server's `detail` when there is one. |
| AppShell.FailureAlert | frontend/src/App.jsx:85-104 | The alert shows the fallback when the detail is falsy, and the server's message when it is a non-empty string. |
| AppShell.App.constructor | frontend/src/App.jsx:34-39 | The token is read back from storage. There is no analysis, upload or history yet, the register page is off, and the analyzer tab is active. The token invariant holds. |
| AppShell.App.FetchHistory | frontend/src/App.jsx:50-58 | One `GET /resumes` is sent through the interceptor. A success replaces the history with the reply's data, and a failure alerts and keeps it. Nothing else changes. |
| AppShell.App.TokenEffect | frontend/src/App.jsx:61-65 | The history is fetched exactly when the token changed and is truthy. Otherwise nothing is sent and nothing changes. |
| AppShell.App.Mounted | frontend/src/App.jsx:61-65 | The first render fetches the history exactly when a truthy token was restored. |
| AppShell.App.SetAuthToken | frontend/src/App.jsx:41-48 | Storage is updated by `StoreToken`, and the in-memory token equals the argument. Nothing else changes, and the token invariant holds. |
| AppShell.App.HandleLogin | frontend/src/App.jsx:67-77 | The form is posted without a bearer header. On failure, or when the reply's data is null, the only effect is the alert and the state is unchanged. On success `access_token` is installed, and the history is fetched once if the token changed to a truthy value. |
| AppShell.App.HandleRegister | frontend/src/App.jsx:79-87 | A success alerts and returns to the login page. A failure alerts the server's detail or "Registration failed." and changes nothing. |
| AppShell.App.HandleLogout | frontend/src/App.jsx:89-120 | The token is cleared from memory and storage. The next view is the anonymous one and no request carries a header. |
| AppShell.App.HandleUpload | frontend/src/App.jsx:91-98 | Without a file nothing is sent and nothing changes. With one, loading starts, the previous analysis is cleared, and the file is posted through the interceptor. |
| AppShell.App.UploadSettled | frontend/src/App.jsx:98-107 | A success shows the reply's data, alerts "Analysis Complete!" and sends exactly one history fetch, which replaces the history. A failure alerts the detail or "An unexpected error occurred." and sends nothing. Loading ends either way. |
| AppShell.App.HandleViewDetails | frontend/src/App.jsx:110-113 | The record is shown and the analyzer tab is selected. Nothing else changes. |
| AppShell.App.SelectAnalyzerTab | frontend/src/App.jsx:133 | Only the active tab changes. |
| AppShell.App.SelectHistoryTab | frontend/src/App.jsx:136 | The history tab is selected and the analysis on display is dropped. |
| AppShell.App.ShowRegisterPage | frontend/src/App.jsx:119 | Only the register flag is set. |
| AppShell.App.ShowLoginPage | frontend/src/App.jsx:118 | Only the register flag is cleared. |
| AppShell.App.View | frontend/src/App.jsx:116-149 | Without a truthy token the view is the register page when `showRegister` is set, else the login page. With one it is the active tab: the analyzer shows its loading flag and the analysis only when that is truthy, and the history tab shows the history. |
| AppShell.HeaderFollowsToken | frontend/src/App.jsx:25-48 | While signed in with a non-array token, every request carries that token. While signed out, none carries one. |
| HistoryView.HistoryTable.constructor | frontend/src/components/HistoryTable.jsx:13 | No details fetch is in flight at first. |
| HistoryView.HistoryTable.HandleDetailsClick | frontend/src/components/HistoryTable.jsx:17-28 | `isLoadingDetails` becomes the clicked id. `GET /resumes/<id>` is sent with the bearer header exactly when storage holds a non-empty token. |
| HistoryView.HistoryTable.DetailsSettled | frontend/src/components/HistoryTable.jsx:28-35 | `isLoadingDetails` is null again after success and after failure. On success `onViewDetails` receives exactly the reply's data. On failure it is not called and the alert is raised. |
| HistoryView.RowsOf | frontend/src/components/HistoryTable.jsx:50-66 | One row per entry, in list order. An entry that is null or undefined makes rendering throw. |
| HistoryView.RenderRows | frontend/src/components/HistoryTable.jsx:50-51 | The rows render exactly when the history is an array of non-null entries, one row each, keyed by the entry ids. |
| HistoryView.OnlyLoadingRowDisabled | frontend/src/components/HistoryTable.jsx:60-62 | Only the rows whose id is loading are disabled. With distinct ids, at most one row is. |
| HistoryView.IdleTableEnablesRows | frontend/src/components/HistoryTable.jsx:34-62 | With no fetch in flight, every row with a non-null id is enabled and reads "Details". |
| Uploader.ResumeUploader.constructor | frontend/src/components/ResumeUploader.jsx:13 | No file is selected at first. |
| Uploader.ResumeUploader.HandleFileChange | frontend/src/components/ResumeUploader.jsx:14 | Only the first chosen file is kept. An empty choice clears the selection. |
| Uploader.ResumeUploader.HandleUploadClick | frontend/src/components/ResumeUploader.jsx:15-27 | `onUpload` is called exactly when the button would be enabled while idle, that is when a file is selected. It gets exactly that file, and the file name line then names it. |
| Uploader.EnabledButtonHasFile | frontend/src/components/ResumeUploader.jsx:15-27 | An enabled button always has a selected file behind it and the idle label. |
| ResultsDisplay.ListOrEmpty | frontend/src/components/ResultsDisplay.jsx:16-21 | `v \|\| []` is truthy. A missing or falsy list becomes the empty array. |
| ResultsDisplay.Badges | frontend/src/components/ResultsDisplay.jsx:28 | One badge per link, keyed by its `url` and showing its `label`. A null link throws. |
| ResultsDisplay.SuggestionLines | frontend/src/components/ResultsDisplay.jsx:53 | An upskill entry shows its `skill` when that is truthy, else the entry itself. A null entry throws. |
| ResultsDisplay.SkillList | frontend/src/components/ResultsDisplay.jsx:17-19 | `data.skills?.technical \|\| []` and its siblings are always truthy. |
| ResultsDisplay.ReadFields | frontend/src/components/ResultsDisplay.jsx:16-47 | Every value read is truthy. A truthy name, email, phone, summary or rating is kept as it is; otherwise they become "N/A", "No summary found." and 0. A truthy `links`, `improvement_areas`, `upskill_suggestions`, `skills?.technical` or `skills?.soft` is kept as it is, and a falsy one becomes `[]`. |
| ResultsDisplay.Layout | frontend/src/components/ResultsDisplay.jsx:22-58 | The panel renders exactly when every list is an array and no link or suggestion is null. It then shows the text fields as read, the skills and improvement areas as given, one badge per link from `Badges`, and one line per suggestion from `SuggestionLines`. |
| ResultsDisplay.Render | frontend/src/components/ResultsDisplay.jsx:14-22 | Falsy data renders nothing. Any other data is read and laid out. |
| ResultsDisplay.MissingListsAreEmpty | frontend/src/components/ResultsDisplay.jsx:16-21 | An analysis with no `links`, `skills`, `improvement_areas` or `upskill_suggestions` renders with every list empty. |
| ResultsDisplay.ToolsNeverRendered | frontend/src/components/ResultsDisplay.jsx:19-43 | Changing `skills.tools` never changes what is rendered. |
| ResultsDisplay.SuggestionShowsSkillOrItself | frontend/src/components/ResultsDisplay.jsx:53 | A non-null suggestion shows its truthy `skill`, or else itself. |
| ResultsDisplay.NullSuggestionCrashes | frontend/src/components/ResultsDisplay.jsx:53 | A `null` upskill suggestion makes the panel throw. |
| ResultsDisplay.NonArrayListCrashes | frontend/src/components/ResultsDisplay.jsx:20-50 | A truthy `improvement_areas` that is not an array makes the panel throw. |
| WireFormat.ToJs | backend/app/schemas/resume_schema.py:29-50 | The browser's parse of a JSON body keeps strings, numbers, array lengths and object keys, and maps exactly JSON null to a nullish value. |
| WireFormat.SchemaJson | backend/app/schemas/resume_schema.py:29-50 | The response body of a validated record is an object with exactly the fifteen field names of `ResumeSchema` as keys. |
| WireFormat.ValidatedRecordRenders | frontend/src/components/ResultsDisplay.jsx:14-58 | A record the backend validated always renders in the analysis panel unless one of its upskill suggestions is null. When it renders, name, email, phone and summary show as stored, or with their fallbacks when empty or absent, and there is one badge per link. |
| WireFormat.LinksArePresent | backend/app/schemas/resume_schema.py:8-39 | Validated links reach the panel as an array of non-nullish values, one per link. |
| WireFormat.SkillsAreLists | backend/app/schemas/resume_schema.py:12-40 | Validated skills reach the panel as arrays, or as the empty fallback when absent. |
| WireFormat.ListFieldIsArray | backend/app/schemas/resume_schema.py:46 | Validated improvement areas reach the panel as an array. |
| WireFormat.SuggestionsField | backend/app/schemas/resume_schema.py:47 | Validated suggestions reach the panel as an array. Its entries are non-null exactly when the record's are. |
| WireFormat.TextsShown | frontend/src/components/ResultsDisplay.jsx:25-33 | The four text fields of a validated record show as stored, or fall back when empty or absent. |

## Left out

- The language model client and its prompt (backend/app/services/llm_service.py:9-73) are left out. The reply's content is an input, and the 1 to 10 rating the prompt asks for is not enforced, so nothing is claimed about it.
- pdfplumber, `json.loads`, password hashing and verification, token creation and `get_current_user` are foreign calls, so they are function parameters. The PDF is its list of page texts, or nothing when it cannot be opened.
- SQLAlchemy sessions, `refresh` and transactions are left out. The tables are maps in `Database.Db` and autoincrement is a counter. Of `commit`, only the column type checks of the `resumes` row are modelled (`Models.Columns`); a refused row raises and stores nothing. The database clock is the `now` parameter.
- Transport and configuration are left out: axios and HTTP, `FormData` encoding, CORS, router wiring (backend/app/main.py) and settings (backend/app/core/config.py). HTTP status codes of successful responses (201) are not modelled.
- Concurrency is left out: interleaved handlers, replies arriving after navigation, and storage shared between tabs. Each handler runs to completion given its replies; the upload and the details click are split at their `await`. The fetch started after an upload, which the source does not await, settles within `UploadSettled`.
- Presentation is left out: styling, JSX layout and locale date formatting. `alert` texts are returned as values, and `console` output is dropped.
- frontend/src/components/LoginPage.jsx and frontend/src/components/RegisterPage.jsx only forward form fields to callbacks. The callbacks are modelled; the pages are not.
- backend/app/schemas/user_schema.py is folded into `Models` (`UserCreate`, `UserResponse`, `Token`). `EmailStr` validation is the email-validator library, a foreign call: it is the `check` parameter (`Models.EmailCheck`), which refuses a text or gives its normalised address. Its syntax rules and its normalisation are not modelled.
- Floating-point JSON numbers, `datetime` values and their ISO text are left out. Numbers and timestamps are integers, and `uploaded_at` crosses the wire as that integer.
- Pydantic's lax coercions, such as a numeric string accepted as an integer, are left out. Validation is strict.
- Models.StringColumn: a list in a text column is refused, whereas Postgres would store the array's text form; the model claims nothing about that text.
- Models.IntegerColumn: an integer text with surrounding whitespace, underscores or a base prefix is refused, although newer Postgres versions accept some of these; only an optional sign and decimal digits are read.
- ResumeRoutes.GetAllResumes: the order among records with equal `uploaded_at` is left open by the query. The model fixes one order, and its contract promises only non-increasing timestamps.
- Js.StrictEquals: `===` and React's comparison of effect dependencies compare arrays and objects by identity, which values cannot express. Equal arrays or objects count as identical. This matters only for non-primitive tokens and ids.
- React's refusal to render an object as a child, and duplicate-key warnings, are not modelled: not in the analysis panel, where skills and improvement areas are shown as given, and not in the history table's `<td>{item.name}</td>`.
- Js.Prop: properties inherited from built-in prototypes (such as `length` of a string) are not modelled, and they are `undefined` here. The fields the components read are not among them.
- No claim is made that the cleaned reply is free of "```", since removing one can join neighbouring backticks into a new one.
