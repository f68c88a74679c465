/**
 * The issue-tracker client: listing and creating issues through the GitHub REST API v3
 * (API version 2022-11-28), and the fallback to a built-in sample list whenever the
 * repository is not configured or the call does not succeed.
 *
 * The HTTP exchange is an oracle: `fetch` maps the request the client would issue to what
 * came back (a response, or a thrown error). A result that does not depend on the oracle is
 * a result for which no request was issued.
 */
module GithubService {
  import opened Types
  import opened JsText

  const ApiBase := "https://api.github.com"
  const AcceptV3 := "application/vnd.github.v3+json"
  const ApiVersion := "2022-11-28"

  const NotFoundMessage := "Repository not found. Check spelling or token permissions (Private repos require 'repo' scope)."
  const UnknownApiError := "Unknown API Error"
  const NetworkFailed := "Network connection failed"
  const RepoMissing := "Owner and Repository must be set."
  const TokenMissing := "Personal Access Token is required to create issues."
  const CreationNetworkError := "Network error during creation"

  datatype Header = Header(name: string, value: string)

  datatype HttpMethod = Get | Post

  /** The JSON body `{title, body}` of a creation request. */
  datatype NewIssue = NewIssue(title: string, body: string)

  /** A request as handed to fetch: method, URL, headers in insertion order, optional JSON body. */
  datatype Request = Request(verb: HttpMethod, url: string, headers: seq<Header>, payload: Option<NewIssue>)

  /**
   * What `response.json()` yields: a syntax error with its message, or a document seen in the
   * two ways the client reads it, as the expected payload (the cast is unchecked) and through
   * its `message` and `error` string fields (None when absent).
   */
  datatype Body<T> = Malformed(syntaxMessage: string) | Json(asData: T, message: Option<string>, error: Option<string>)

  /** What a fetch call produced: a thrown value (its message when it is an Error), or a response. */
  datatype HttpOutcome<T> = Threw(thrown: Option<string>) | Responded(status: nat, statusText: string, body: Body<T>)

  /** `response.ok`: the status is in the range 200 to 299. */
  predicate IsOk(status: nat)
  {
    200 <= status <= 299
  }

  datatype IssueList = IssueList(issues: seq<Issue>, error: Option<string>)

  datatype Created = Created(issue: Option<Issue>, error: Option<string>)

  /** The ISO timestamps of module load time, one day and two days before it (the mock dates). */
  datatype LoadTime = LoadTime(now: string, dayBefore: string, twoDaysBefore: string)

  // The bodies of the three sample issues.
  const LeakBody: string := "After about 2 hours of continuous uptime, the memory usage spikes by 400MB. I suspect the event listeners aren't being cleaned up in the `SocketProvider`."
  const DarkModeBody: string := "Users are requesting a manual toggle for dark mode instead of relying solely on system preference."
  const RefactorBody: string := "The current auth middleware is too coupled with the user service. We need to extract it into a standalone package."

  /** MOCK_ISSUES: the built-in sample of three issues. */
  function MockIssues(t: LoadTime): (r: seq<Issue>)
    ensures |r| == 3
  {
    [Issue(101, 42, "Memory leak in WebSocket connection",
           LeakBody,
           Open, "#", t.now, [Label("bug", "d73a4a"), Label("urgent", "b60205")],
           User("dev_guru", "https://picsum.photos/40/40?random=1"), 3),
     Issue(102, 45, "Add support for dark mode toggling",
           DarkModeBody,
           Open, "#", t.dayBefore, [Label("feature", "a2eeef")],
           User("frontend_wiz", "https://picsum.photos/40/40?random=2"), 1),
     Issue(103, 51, "Refactor Authentication Middleware",
           RefactorBody,
           Closed, "#", t.twoDaysBefore, [Label("refactor", "cfd3d7")],
           User("arch_lead", "https://picsum.photos/40/40?random=3"), 5)]
  }

  /** Two of the sample issues are open and one is closed. */
  lemma MockIssuesStates(t: LoadTime)
    ensures |IssuesInState(MockIssues(t), Open)| == 2 && |IssuesInState(MockIssues(t), Closed)| == 1
  {
    var r := MockIssues(t);
    var first, second, third := r[0], r[1], r[2];
    assert r == [first, second, third];
    assert r[1..] == [second, third] && [second, third][1..] == [third] && [third][1..] == [];
    assert IssuesInState([third], Open) == [] && IssuesInState([third], Closed) == [third];
    assert IssuesInState([second, third], Open) == [second];
    assert IssuesInState([second, third], Closed) == [third];
  }

  /** The value of the first header called `name`, if any. */
  function HeaderValue(headers: seq<Header>, name: string): Option<string>
  {
    if headers == [] then None
    else if headers[0].name == name then Some(headers[0].value)
    else HeaderValue(headers[1..], name)
  }

  /** HeaderValue finds a header exactly when one carries that name, and returns its value. */
  lemma {:induction false} HeaderValueFinds(headers: seq<Header>, name: string)
    ensures HeaderValue(headers, name).Some? <==> exists i :: 0 <= i < |headers| && headers[i].name == name
    ensures HeaderValue(headers, name).Some? ==>
              exists i :: 0 <= i < |headers| && headers[i] == Header(name, HeaderValue(headers, name).value)
  {
    if headers != [] && headers[0].name != name {
      HeaderValueFinds(headers[1..], name);
      assert forall i :: 1 <= i < |headers| ==> headers[i] == headers[1..][i - 1];
      if exists i :: 0 <= i < |headers| && headers[i].name == name {
        var i :| 0 <= i < |headers| && headers[i].name == name;
        assert headers[1..][i - 1].name == name;
      }
    } else if headers != [] {
      assert headers[0] == Header(name, HeaderValue(headers, name).value);
    }
  }

  /** True when the trimmed owner or repository is empty: nothing remote can be addressed. */
  predicate RepoUnset(config: GithubConfig)
  {
    Trim(config.owner) == "" || Trim(config.repo) == ""
  }

  function IssuesUrl(owner: string, repo: string): string
  {
    ApiBase + "/repos/" + owner + "/" + repo + "/issues"
  }

  /** The headers of the listing request: Accept, the API version, and Authorization when a token is set. */
  function ListHeaders(token: string): (h: seq<Header>)
    ensures HeaderValue(h, "Accept") == Some(AcceptV3)
    ensures HeaderValue(h, "X-GitHub-Api-Version") == Some(ApiVersion)
    ensures HeaderValue(h, "Authorization") == (if token == "" then None else Some("Bearer " + token))
  {
    var accept, version := Header("Accept", AcceptV3), Header("X-GitHub-Api-Version", ApiVersion);
    var auth := if token != "" then [Header("Authorization", "Bearer " + token)] else [];
    var h := [accept, version] + auth;
    assert h[1..] == [version] + auth && ([version] + auth)[1..] == auth;
    assert HeaderValue(auth, "Authorization") == (if token == "" then None else Some("Bearer " + token));
    assert HeaderValue([version] + auth, "Authorization") == HeaderValue(auth, "Authorization");
    h
  }

  /** The listing request fetchIssues issues, or None when it issues none. */
  function ListRequest(config: GithubConfig): (r: Option<Request>)
    ensures r.None? <==> RepoUnset(config)
  {
    var owner, repo := Trim(config.owner), Trim(config.repo);
    if owner == "" || repo == "" then None
    else Some(Request(Get, IssuesUrl(owner, repo) + "?state=all&per_page=100", ListHeaders(Trim(config.token)), None))
  }

  /**
   * The listing request is a GET without a body on the trimmed repository's issues, all
   * states, 100 per page, with the v3 media type, the API version, and a bearer token
   * exactly when the trimmed token is not empty.
   */
  lemma ListRequestShape(config: GithubConfig)
    requires !RepoUnset(config)
    ensures var r := ListRequest(config).value;
            r.verb == Get && r.payload.None?
            && r.url == IssuesUrl(Trim(config.owner), Trim(config.repo)) + "?state=all&per_page=100"
            && HeaderValue(r.headers, "Accept") == Some(AcceptV3)
            && HeaderValue(r.headers, "X-GitHub-Api-Version") == Some(ApiVersion)
            && HeaderValue(r.headers, "Authorization")
               == (if Trim(config.token) == "" then None else Some("Bearer " + Trim(config.token)))
  {
  }

  /** The message of a failed listing response; the body is read only when the status is not 404. */
  function ListErrorMessage(status: nat, statusText: string, body: Body<seq<Issue>>): (m: string)
    ensures m != ""
    ensures status == 404 ==> m == NotFoundMessage
    ensures status != 404 && body.Malformed? ==>
              StartsWith(m, "HTTP Error ") && AllDigits(m[11..]) && DigitsValue(m[11..]) == status
  {
    if status == 404 then NotFoundMessage
    else match body
      case Malformed(_) =>
        DecimalRoundTrip(status);
        "HTTP Error " + NatToString(status)
      case Json(_, message, error) =>
        OrElse(message, OrElse(error, OrElse(Some(statusText), UnknownApiError)))
  }

  /** The first non-empty string of a list, or `fallback`: an independent reading of a chain of `||`. */
  function FirstNonEmpty(candidates: seq<string>, fallback: string): string
  {
    if candidates == [] then fallback
    else if candidates[0] != "" then candidates[0]
    else FirstNonEmpty(candidates[1..], fallback)
  }

  function Text(s: Option<string>): string
  {
    if s.Some? then s.value else ""
  }

  /** For a status other than 404 the message is the first non-empty of message, error, status text. */
  lemma ListErrorPrecedence(status: nat, statusText: string, data: seq<Issue>, message: Option<string>, error: Option<string>)
    requires status != 404
    ensures ListErrorMessage(status, statusText, Json(data, message, error))
            == FirstNonEmpty([Text(message), Text(error), statusText], UnknownApiError)
  {
    var candidates := [Text(message), Text(error), statusText];
    assert candidates[1..] == [Text(error), statusText] && candidates[1..][1..] == [statusText];
    assert [statusText][1..] == [];
    assert Truthy(message) <==> Text(message) != "";
    assert Truthy(error) <==> Text(error) != "";
    assert FirstNonEmpty([statusText], UnknownApiError) == OrElse(Some(statusText), UnknownApiError);
    assert FirstNonEmpty([Text(error), statusText], UnknownApiError)
        == OrElse(error, OrElse(Some(statusText), UnknownApiError));
  }

  /** A 404 is reported without looking at the body. */
  lemma NotFoundIgnoresBody(statusText: string, b1: Body<seq<Issue>>, b2: Body<seq<Issue>>)
    ensures ListErrorMessage(404, statusText, b1) == ListErrorMessage(404, statusText, b2)
  {
  }

  /** How fetchIssues turns what its one fetch call produced into a list. */
  function ListOutcome(t: LoadTime, o: HttpOutcome<seq<Issue>>): (r: IssueList)
    ensures r.error.Some? ==> r.issues == MockIssues(t)
    ensures r.error.None? <==> o.Responded? && IsOk(o.status) && o.body.Json?
    ensures r.error.None? ==> r.issues == o.body.asData
    ensures o.Threw? ==> r.error == Some(if o.thrown.Some? then o.thrown.value else NetworkFailed)
    ensures o.Responded? && !IsOk(o.status) ==> r.error == Some(ListErrorMessage(o.status, o.statusText, o.body))
    ensures o.Responded? && IsOk(o.status) && o.body.Malformed? ==> r.error == Some(o.body.syntaxMessage)
  {
    match o
    case Threw(thrown) =>
      IssueList(MockIssues(t), Some(if thrown.Some? then thrown.value else NetworkFailed))
    case Responded(status, statusText, body) =>
      if !IsOk(status) then IssueList(MockIssues(t), Some(ListErrorMessage(status, statusText, body)))
      else match body
        case Malformed(syntaxMessage) => IssueList(MockIssues(t), Some(syntaxMessage))
        case Json(data, _, _) => IssueList(data, None)
  }

  /** fetchIssues: the remote list, or the sample list with the reason the remote list is missing. */
  function FetchIssues(config: GithubConfig, t: LoadTime, fetch: Request -> HttpOutcome<seq<Issue>>): (r: IssueList)
    ensures RepoUnset(config) ==> r == IssueList(MockIssues(t), None)
    ensures r.error.Some? ==> r.issues == MockIssues(t)
    ensures r.error.None? && !RepoUnset(config) ==>
              var o := fetch(ListRequest(config).value);
              o.Responded? && IsOk(o.status) && o.body.Json? && r.issues == o.body.asData
    ensures !RepoUnset(config) ==>
              var o := fetch(ListRequest(config).value);
              o.Responded? && IsOk(o.status) && o.body.Json? ==> r == IssueList(o.body.asData, None)
  {
    match ListRequest(config)
    case None => IssueList(MockIssues(t), None)
    case Some(request) => ListOutcome(t, fetch(request))
  }

  /**
   * Once a request is made, the error fetchIssues reports: the thrown message (or the fixed
   * network text), the failure message of a non-ok response, or the syntax error of an ok
   * response whose body does not parse.
   */
  lemma FetchIssuesErrorText(config: GithubConfig, t: LoadTime, fetch: Request -> HttpOutcome<seq<Issue>>)
    requires !RepoUnset(config)
    ensures var o, r := fetch(ListRequest(config).value), FetchIssues(config, t, fetch);
            (o.Threw? ==> r.error == Some(if o.thrown.Some? then o.thrown.value else NetworkFailed))
            && (o.Responded? && !IsOk(o.status) ==> r.error == Some(ListErrorMessage(o.status, o.statusText, o.body)))
            && (o.Responded? && IsOk(o.status) && o.body.Malformed? ==> r.error == Some(o.body.syntaxMessage))
  {
    assert FetchIssues(config, t, fetch) == ListOutcome(t, fetch(ListRequest(config).value));
  }

  /** fetchIssues calls fetch at most once, with exactly the request ListRequest describes. */
  lemma FetchUsesOnlyItsRequest(config: GithubConfig, t: LoadTime, f1: Request -> HttpOutcome<seq<Issue>>, f2: Request -> HttpOutcome<seq<Issue>>)
    requires ListRequest(config).Some? ==> f1(ListRequest(config).value) == f2(ListRequest(config).value)
    ensures FetchIssues(config, t, f1) == FetchIssues(config, t, f2)
  {
  }

  /** Without a repository the sample list comes back whatever the token and the network do. */
  lemma UnsetRepoIgnoresTokenAndNetwork(config: GithubConfig, token: string, t: LoadTime,
                                        f1: Request -> HttpOutcome<seq<Issue>>, f2: Request -> HttpOutcome<seq<Issue>>)
    requires RepoUnset(config)
    ensures FetchIssues(config, t, f1) == FetchIssues(config.(token := token), t, f2) == IssueList(MockIssues(t), None)
  {
  }

  /** A non-ok response always carries a non-empty error, so the controller always shows it. */
  lemma FailedResponseReported(config: GithubConfig, t: LoadTime, fetch: Request -> HttpOutcome<seq<Issue>>)
    requires !RepoUnset(config)
    requires fetch(ListRequest(config).value).Responded? && !IsOk(fetch(ListRequest(config).value).status)
    ensures Truthy(FetchIssues(config, t, fetch).error)
    ensures |FetchIssues(config, t, fetch).issues| == 3
  {
  }

  /** The headers of the creation request: Authorization, Accept, the API version and the JSON content type. */
  function CreateHeaders(token: string): (h: seq<Header>)
    ensures HeaderValue(h, "Authorization") == Some("Bearer " + token)
    ensures HeaderValue(h, "Accept") == Some(AcceptV3)
    ensures HeaderValue(h, "X-GitHub-Api-Version") == Some(ApiVersion)
    ensures HeaderValue(h, "Content-Type") == Some("application/json")
  {
    var auth, accept := Header("Authorization", "Bearer " + token), Header("Accept", AcceptV3);
    var version, content := Header("X-GitHub-Api-Version", ApiVersion), Header("Content-Type", "application/json");
    var h := [auth, accept, version, content];
    assert h[1..] == [accept, version, content];
    assert [accept, version, content][1..] == [version, content];
    assert [version, content][1..] == [content];
    assert HeaderValue([content], "Content-Type") == Some("application/json");
    assert HeaderValue([version, content], "Content-Type") == Some("application/json");
    assert HeaderValue([accept, version, content], "Content-Type") == Some("application/json");
    assert HeaderValue([version, content], "X-GitHub-Api-Version") == Some(ApiVersion);
    assert HeaderValue([accept, version, content], "X-GitHub-Api-Version") == Some(ApiVersion);
    h
  }

  /** The creation request createIssue issues, or None when a local check refuses it. */
  function CreateRequest(config: GithubConfig, title: string, body: string): (r: Option<Request>)
    ensures r.None? <==> RepoUnset(config) || Trim(config.token) == ""
  {
    var owner, repo, token := Trim(config.owner), Trim(config.repo), Trim(config.token);
    if owner == "" || repo == "" || token == "" then None
    else Some(Request(Post, IssuesUrl(owner, repo), CreateHeaders(token), Some(NewIssue(title, body))))
  }

  /**
   * The creation request is a POST of `{title, body}` as given (untrimmed) to the trimmed
   * repository's issues, with the bearer token, the v3 Accept type, the API version and a
   * JSON content type.
   */
  lemma CreateRequestShape(config: GithubConfig, title: string, body: string)
    requires !RepoUnset(config) && Trim(config.token) != ""
    ensures var r := CreateRequest(config, title, body).value;
            r.verb == Post && r.payload == Some(NewIssue(title, body))
            && r.url == IssuesUrl(Trim(config.owner), Trim(config.repo))
            && HeaderValue(r.headers, "Authorization") == Some("Bearer " + Trim(config.token))
            && HeaderValue(r.headers, "Accept") == Some(AcceptV3)
            && HeaderValue(r.headers, "X-GitHub-Api-Version") == Some(ApiVersion)
            && HeaderValue(r.headers, "Content-Type") == Some("application/json")
  {
  }

  /** How createIssue turns what its one fetch call produced into an issue or an error. */
  function CreationOutcome(o: HttpOutcome<Issue>): (r: Created)
    ensures r.issue.Some? <==> r.error.None?
    ensures r.issue.Some? <==> o.Responded? && IsOk(o.status) && o.body.Json?
    ensures r.issue.Some? ==> r.issue.value == o.body.asData
    ensures o.Threw? ==> r.error == Some(if o.thrown.Some? then o.thrown.value else CreationNetworkError)
    ensures o.Responded? && o.body.Malformed? ==> r.error == Some(o.body.syntaxMessage)
    ensures o.Responded? && !IsOk(o.status) && o.body.Json? ==> r.error == Some(OrElse(o.body.message, o.statusText))
  {
    match o
    case Threw(thrown) =>
      Created(None, Some(if thrown.Some? then thrown.value else CreationNetworkError))
    case Responded(status, statusText, responseBody) =>
      match responseBody
      case Malformed(syntaxMessage) => Created(None, Some(syntaxMessage))
      case Json(data, message, _) =>
        if !IsOk(status) then Created(None, Some(OrElse(message, statusText)))
        else Created(Some(data), None)
  }

  /** createIssue: the created issue, or the reason there is none. */
  function CreateIssue(config: GithubConfig, title: string, body: string, post: Request -> HttpOutcome<Issue>): (r: Created)
    ensures r.issue.Some? <==> r.error.None?
    ensures RepoUnset(config) ==> r == Created(None, Some(RepoMissing))
    ensures !RepoUnset(config) && Trim(config.token) == "" ==> r == Created(None, Some(TokenMissing))
    ensures r.issue.Some? ==>
              var o := post(CreateRequest(config, title, body).value);
              CreateRequest(config, title, body).Some? && o.Responded? && IsOk(o.status) && o.body.Json?
              && r.issue.value == o.body.asData
  {
    var owner, repo, token := Trim(config.owner), Trim(config.repo), Trim(config.token);
    if owner == "" || repo == "" then Created(None, Some(RepoMissing))
    else if token == "" then Created(None, Some(TokenMissing))
    else CreationOutcome(post(CreateRequest(config, title, body).value))
  }

  /**
   * Once the request is made, what createIssue reports: the body of an ok, readable response
   * as the issue; otherwise the error message of the body or the status text for a non-ok
   * response, the syntax error of a body that does not parse, or the thrown message (or the
   * fixed network text).
   */
  lemma CreateIssueAfterRequest(config: GithubConfig, title: string, body: string, post: Request -> HttpOutcome<Issue>)
    requires !RepoUnset(config) && Trim(config.token) != ""
    ensures var o, r := post(CreateRequest(config, title, body).value), CreateIssue(config, title, body, post);
            (o.Responded? && IsOk(o.status) && o.body.Json? ==> r == Created(Some(o.body.asData), None))
            && (o.Responded? && !IsOk(o.status) && o.body.Json? ==> r == Created(None, Some(OrElse(o.body.message, o.statusText))))
            && (o.Responded? && o.body.Malformed? ==> r == Created(None, Some(o.body.syntaxMessage)))
            && (o.Threw? ==> r == Created(None, Some(if o.thrown.Some? then o.thrown.value else CreationNetworkError)))
  {
    assert CreateIssue(config, title, body, post) == CreationOutcome(post(CreateRequest(config, title, body).value));
  }

  /** createIssue calls post at most once, with exactly the request CreateRequest describes. */
  lemma CreateUsesOnlyItsRequest(config: GithubConfig, title: string, body: string,
                                 p1: Request -> HttpOutcome<Issue>, p2: Request -> HttpOutcome<Issue>)
    requires CreateRequest(config, title, body).Some? ==>
               p1(CreateRequest(config, title, body).value) == p2(CreateRequest(config, title, body).value)
    ensures CreateIssue(config, title, body, p1) == CreateIssue(config, title, body, p2)
  {
  }
}
