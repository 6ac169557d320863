/**
 * `App`: the signed-in state, the analyzer and history tabs, and the handlers
 * that move between them. Each handler runs to completion given the replies
 * of the calls it makes, except the upload, which is split at its `await`
 * (`HandleUpload`, then `UploadSettled`) so that the loading state can be
 * seen in between. The effect that fetches the history whenever the token
 * changes to a truthy value runs as part of the handler that changed it.
 */
module AppShell {
  import opened Wrappers
  import opened Js
  import opened Session
  import opened Api

  datatype Tab = AnalyzerTab | HistoryTab

  /** What `App` renders. */
  datatype Screen =
    | RegisterScreen
    | LoginScreen
      /** The uploader with its loading flag and, when there is one, the analysis shown below it. */
    | AnalyzerScreen(uploaderLoading: bool, results: Option<Value>)
    | HistoryScreen(history: Value)

  /** Every piece of state `App` keeps, for stating what a handler leaves alone. */
  datatype AppState = AppState(
    storage: Storage,
    token: Value,
    showRegister: bool,
    analysisResult: Value,
    isLoading: bool,
    history: Value,
    activeTab: Tab)

  const HistoryFailedAlert := "Failed to fetch history."
  const LoginFailedAlert := "Login failed. Please check your credentials."
  const RegisteredAlert := "Registration successful! Please log in."
  const RegisterFallback := "Registration failed."
  const AnalysisCompleteAlert := "Analysis Complete!"
  const UploadFallback := "An unexpected error occurred."

  /** The history after a fetch settles: the reply's data on success, unchanged otherwise. */
  function Fetched(history: Value, reply: Reply): Value {
    if reply.Succeeded? then reply.data else history
  }

  function FetchAlerts(reply: Reply): seq<string> {
    if reply.Succeeded? then [] else [HistoryFailedAlert]
  }

  /** `GET /resumes` through the interceptor. */
  function HistoryRequest(storage: Storage): Request {
    Dispatch(storage, Get, ResumesEndpoint, NoBody)
  }

  /** `alert(error.response?.data?.detail || fallback)`. */
  function FailureAlert(response: Value, fallback: string): (text: string)
    ensures !Truthy(ErrorDetail(response)) ==> text == fallback
    ensures ErrorDetail(response).Str? && ErrorDetail(response).s != "" ==> text == ErrorDetail(response).s
  {
    ToJsString(Or(ErrorDetail(response), Str(fallback)))
  }

  class App {
    var storage: Storage
    var token: Value
    var showRegister: bool
    var analysisResult: Value
    var isLoading: bool
    var history: Value
    var activeTab: Tab

    /**
     * The in-memory token agrees with storage: a truthy token is stored as
     * `String(token)`, and while it is falsy no request carries a header.
     */
    ghost predicate Valid()
      reads this
    {
      && (Truthy(token) ==> TokenKey in storage && storage[TokenKey] == ToJsString(token))
      && (!Truthy(token) ==> AuthorizationHeader(storage).None?)
    }

    function Snapshot(): AppState
      reads this
    {
      AppState(storage, token, showRegister, analysisResult, isLoading, history, activeTab)
    }

    /** The first render: the token is read back from storage. */
    constructor (initialStorage: Storage)
      ensures Valid()
      ensures Snapshot() == AppState(initialStorage,
                                     if TokenKey in initialStorage then Str(initialStorage[TokenKey]) else Null,
                                     false, Null, false, Arr([]), AnalyzerTab)
    {
      storage := initialStorage;
      token := match GetItem(initialStorage, TokenKey)
               case Some(t) => Str(t)
               case None => Null;
      showRegister := false;
      analysisResult := Null;
      isLoading := false;
      history := Arr([]);
      activeTab := AnalyzerTab;
    }

    /** `fetchHistory`: a successful reply replaces the history outright. */
    method FetchHistory(reply: Reply) returns (req: Request, alerts: seq<string>)
      requires Valid()
      modifies this
      ensures Valid()
      ensures req == HistoryRequest(storage)
      ensures Snapshot() == old(Snapshot()).(history := Fetched(old(history), reply))
      ensures alerts == FetchAlerts(reply)
    {
      req := HistoryRequest(storage);
      match reply {
        case Succeeded(data) =>
          history := data;
          alerts := [];
        case Failed(_) =>
          alerts := [HistoryFailedAlert];
      }
    }

    /** The `[token]` effect: fetch the history when the token changed and is truthy. */
    method TokenEffect(previous: Value, historyReply: Reply) returns (requests: seq<Request>, alerts: seq<string>)
      requires Valid()
      modifies this
      ensures Valid()
      ensures previous != token && Truthy(token) ==>
                && requests == [HistoryRequest(storage)]
                && Snapshot() == old(Snapshot()).(history := Fetched(old(history), historyReply))
                && alerts == FetchAlerts(historyReply)
      ensures !(previous != token && Truthy(token)) ==>
                requests == [] && alerts == [] && Snapshot() == old(Snapshot())
    {
      if previous != token && Truthy(token) {
        var req;
        req, alerts := FetchHistory(historyReply);
        requests := [req];
      } else {
        requests, alerts := [], [];
      }
    }

    /** After mounting, the effect runs once for the initial token. */
    method Mounted(historyReply: Reply) returns (requests: seq<Request>, alerts: seq<string>)
      requires Valid()
      modifies this
      ensures Valid()
      ensures Truthy(old(token)) ==>
                && requests == [HistoryRequest(storage)]
                && Snapshot() == old(Snapshot()).(history := Fetched(old(history), historyReply))
                && alerts == FetchAlerts(historyReply)
      ensures !Truthy(old(token)) ==> requests == [] && alerts == [] && Snapshot() == old(Snapshot())
    {
      requests, alerts := TokenEffect(Null, historyReply);
    }

    /** `setAuthToken`: store a truthy token or remove a falsy one, and keep it in memory. */
    method SetAuthToken(newToken: Value)
      modifies this
      ensures Valid()
      ensures Snapshot() == old(Snapshot()).(storage := StoreToken(old(storage), newToken), token := newToken)
    {
      storage := StoreToken(storage, newToken);
      token := newToken;
    }

    /**
     * `handleLogin`: post the form with bare `axios`; on success install
     * `response.data.access_token`, whatever it is. A failed call, or a reply
     * whose data is `null` or `undefined`, only raises the alert.
     */
    method HandleLogin(email: string, password: string, reply: Reply, historyReply: Reply)
      returns (requests: seq<Request>, alerts: seq<string>)
      requires Valid()
      modifies this
      ensures Valid()
      ensures |requests| >= 1 && requests[0] == Plain(Post, TokenEndpoint, LoginFormData(email, password))
      ensures (reply.Failed? || Member(reply.data, "access_token").None?) ==>
                requests == [requests[0]] && alerts == [LoginFailedAlert] && Snapshot() == old(Snapshot())
      ensures reply.Succeeded? && Member(reply.data, "access_token").Some? ==>
                var t := Member(reply.data, "access_token").value;
                var effect := t != old(token) && Truthy(t);
                && storage == StoreToken(old(storage), t)
                && token == t
                && Snapshot() == old(Snapshot()).(storage := storage, token := t,
                                                  history := if effect then Fetched(old(history), historyReply) else old(history))
                && requests == [requests[0]] + (if effect then [HistoryRequest(storage)] else [])
                && alerts == (if effect then FetchAlerts(historyReply) else [])
    {
      var sent := Plain(Post, TokenEndpoint, LoginFormData(email, password));
      if reply.Failed? {
        return [sent], [LoginFailedAlert];
      }
      match Member(reply.data, "access_token") {
        case None =>
          requests, alerts := [sent], [LoginFailedAlert];
        case Some(t) =>
          var previous := token;
          SetAuthToken(t);
          var fetches;
          fetches, alerts := TokenEffect(previous, historyReply);
          requests := [sent] + fetches;
      }
    }

    /** `handleRegister`: on success go back to the login page; on failure report the server's detail. */
    method HandleRegister(email: string, password: string, reply: Reply) returns (request: Request, alerts: seq<string>)
      requires Valid()
      modifies this
      ensures Valid()
      ensures request == Plain(Post, RegisterEndpoint, RegisterJson(email, password))
      ensures reply.Succeeded? ==> alerts == [RegisteredAlert] && Snapshot() == old(Snapshot()).(showRegister := false)
      ensures reply.Failed? ==>
                alerts == [FailureAlert(reply.response, RegisterFallback)] && Snapshot() == old(Snapshot())
    {
      request := Plain(Post, RegisterEndpoint, RegisterJson(email, password));
      match reply {
        case Succeeded(_) =>
          alerts := [RegisteredAlert];
          showRegister := false;
        case Failed(response) =>
          alerts := [FailureAlert(response, RegisterFallback)];
      }
    }

    /** `handleLogout`: `setAuthToken(null)`; a `null` token triggers no fetch. */
    method HandleLogout()
      requires Valid()
      modifies this
      ensures Valid()
      ensures Snapshot() == old(Snapshot()).(storage := StoreToken(old(storage), Null), token := Null)
      ensures View().LoginScreen? || View().RegisterScreen?
      ensures AuthorizationHeader(storage).None?
    {
      SetAuthToken(Null);
    }

    /**
     * `handleUpload` up to its `await`: with a file, mark loading, clear the
     * previous analysis and post the file through the interceptor; without
     * one, do nothing.
     */
    method HandleUpload(file: Option<File>) returns (request: Option<Request>)
      requires Valid()
      modifies this
      ensures Valid()
      ensures file.None? ==> request.None? && Snapshot() == old(Snapshot())
      ensures file.Some? ==>
                && request == Some(Dispatch(storage, Post, ResumesEndpoint, UploadFormData(file.value)))
                && Snapshot() == old(Snapshot()).(isLoading := true, analysisResult := Null)
    {
      if file.None? {
        return None;
      }
      isLoading := true;
      analysisResult := Null;
      request := Some(Dispatch(storage, Post, ResumesEndpoint, UploadFormData(file.value)));
    }

    /**
     * `handleUpload` after its `await`: a success shows the analysis and
     * refreshes the history once; a failure reports the server's detail;
     * either way loading ends.
     */
    method UploadSettled(reply: Reply, historyReply: Reply) returns (requests: seq<Request>, alerts: seq<string>)
      requires Valid()
      modifies this
      ensures Valid()
      ensures !isLoading
      ensures reply.Succeeded? ==>
                && requests == [HistoryRequest(storage)]
                && alerts == [AnalysisCompleteAlert] + FetchAlerts(historyReply)
                && Snapshot() == old(Snapshot()).(analysisResult := reply.data, isLoading := false,
                                                  history := Fetched(old(history), historyReply))
      ensures reply.Failed? ==>
                && requests == []
                && alerts == [FailureAlert(reply.response, UploadFallback)]
                && Snapshot() == old(Snapshot()).(isLoading := false)
    {
      match reply {
        case Succeeded(data) =>
          analysisResult := data;
          var req, fetchAlerts := FetchHistory(historyReply);
          requests := [req];
          alerts := [AnalysisCompleteAlert] + fetchAlerts;
        case Failed(response) =>
          requests := [];
          alerts := [FailureAlert(response, UploadFallback)];
      }
      isLoading := false;
    }

    /** `handleViewDetails`: show the record on the analyzer tab. */
    method HandleViewDetails(resumeData: Value)
      requires Valid()
      modifies this
      ensures Valid()
      ensures Snapshot() == old(Snapshot()).(analysisResult := resumeData, activeTab := AnalyzerTab)
    {
      analysisResult := resumeData;
      activeTab := AnalyzerTab;
    }

    method SelectAnalyzerTab()
      requires Valid()
      modifies this
      ensures Valid()
      ensures Snapshot() == old(Snapshot()).(activeTab := AnalyzerTab)
    {
      activeTab := AnalyzerTab;
    }

    /** Selecting the History tab also drops the analysis on display. */
    method SelectHistoryTab()
      requires Valid()
      modifies this
      ensures Valid()
      ensures Snapshot() == old(Snapshot()).(activeTab := HistoryTab, analysisResult := Null)
    {
      activeTab := HistoryTab;
      analysisResult := Null;
    }

    method ShowRegisterPage()
      requires Valid()
      modifies this
      ensures Valid()
      ensures Snapshot() == old(Snapshot()).(showRegister := true)
    {
      showRegister := true;
    }

    method ShowLoginPage()
      requires Valid()
      modifies this
      ensures Valid()
      ensures Snapshot() == old(Snapshot()).(showRegister := false)
    {
      showRegister := false;
    }

    /** Which page `App` renders. */
    function View(): (s: Screen)
      reads this
      ensures s.RegisterScreen? <==> !Truthy(token) && showRegister
      ensures s.LoginScreen? <==> !Truthy(token) && !showRegister
      ensures s.AnalyzerScreen? <==> Truthy(token) && activeTab == AnalyzerTab
      ensures s.HistoryScreen? <==> Truthy(token) && activeTab == HistoryTab
      ensures s.AnalyzerScreen? ==>
                s.uploaderLoading == isLoading &&
                (s.results.Some? <==> Truthy(analysisResult)) &&
                (s.results.Some? ==> s.results.value == analysisResult)
      ensures s.HistoryScreen? ==> s.history == history
    {
      if !Truthy(token) then
        if showRegister then RegisterScreen else LoginScreen
      else
        match activeTab
        case AnalyzerTab => AnalyzerScreen(isLoading, if Truthy(analysisResult) then Some(analysisResult) else None)
        case HistoryTab => HistoryScreen(history)
    }
  }

  /**
   * While signed in with a token that is not an array, every request through
   * the interceptor carries that token; while signed out, none carries one.
   */
  lemma HeaderFollowsToken(app: App)
    requires app.Valid()
    ensures Truthy(app.token) && !app.token.Arr? ==>
              AuthorizationHeader(app.storage) == Some("Bearer " + ToJsString(app.token))
    ensures !Truthy(app.token) ==> AuthorizationHeader(app.storage).None?
  {
  }
}
