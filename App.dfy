/**
 * The application controller: the GitHub configuration (built from defaults, the saved
 * record and the page's query parameters), the loaded issue list with its error and loading
 * flags, issue creation through the modal, and the current screen.
 *
 * Browser storage, the query string and JSON.parse are inputs: the saved value is an
 * optional string, the query parameters an optional string each, and `parse` the oracle that
 * reads a saved value into a record (None when JSON.parse throws).
 */
module App {
  import opened Types
  import opened JsText
  import GithubService

  /** The fields of a saved configuration record; a field the record lacks is None. */
  datatype StoredRecord = StoredRecord(token: Option<string>, owner: Option<string>, repo: Option<string>)

  /** The owner, repo and token query parameters; a missing parameter is None. */
  datatype UrlParams = UrlParams(owner: Option<string>, repo: Option<string>, token: Option<string>)

  const Defaults := GithubConfig("", "facebook", "react")

  /** The value of an optional field, or the fallback when the field is absent. */
  function FieldOr(field: Option<string>, fallback: string): (r: string)
    ensures field.Some? ==> r == field.value
    ensures field.None? ==> r == fallback
  {
    if field.Some? then field.value else fallback
  }

  /** `{ ...base, ...record }`: each field the record carries replaces the base's. */
  function Merge(base: GithubConfig, record: StoredRecord): (c: GithubConfig)
    ensures c.token == FieldOr(record.token, base.token)
    ensures c.owner == FieldOr(record.owner, base.owner)
    ensures c.repo == FieldOr(record.repo, base.repo)
  {
    GithubConfig(FieldOr(record.token, base.token), FieldOr(record.owner, base.owner), FieldOr(record.repo, base.repo))
  }

  /**
   * The configuration the application starts with: the defaults, overridden field by field
   * by the saved record when a non-empty saved value parses; exactly the defaults otherwise.
   */
  function InitialConfig(saved: Option<string>, parse: string -> Option<StoredRecord>): (c: GithubConfig)
    ensures !Truthy(saved) ==> c == Defaults
    ensures Truthy(saved) && parse(saved.value).None? ==> c == Defaults
    ensures Truthy(saved) && parse(saved.value).Some? ==> c == Merge(Defaults, parse(saved.value).value)
  {
    if Truthy(saved) then
      match parse(saved.value)
      case Some(record) => Merge(Defaults, record)
      case None => Defaults
    else Defaults
  }

  /** The record JSON.stringify writes for a configuration: every field present. */
  function Persisted(config: GithubConfig): (r: StoredRecord)
    ensures r.token.Some? && r.owner.Some? && r.repo.Some?
  {
    StoredRecord(Some(config.token), Some(config.owner), Some(config.repo))
  }

  /** A saved configuration comes back unchanged: saving and then starting again restores it. */
  lemma SaveRestore(config: GithubConfig, text: string, parse: string -> Option<StoredRecord>)
    requires text != "" && parse(text) == Some(Persisted(config))
    ensures InitialConfig(Some(text), parse) == config
  {
  }

  /** Fields the saved record lacks keep their defaults. */
  lemma PartialRecordKeepsDefaults(text: string, parse: string -> Option<StoredRecord>)
    requires text != "" && parse(text).Some? && parse(text).value.token.None?
    ensures InitialConfig(Some(text), parse).token == ""
    ensures parse(text).value.owner.None? ==> InitialConfig(Some(text), parse).owner == "facebook"
    ensures parse(text).value.repo.None? ==> InitialConfig(Some(text), parse).repo == "react"
  {
  }

  /** The query parameters take effect only when both owner and repo are non-empty. */
  predicate UrlApplies(params: UrlParams)
  {
    Truthy(params.owner) && Truthy(params.repo)
  }

  /** The configuration after the query parameters: owner and repo replaced, the token only when given. */
  function UrlConfig(prev: GithubConfig, params: UrlParams): (c: GithubConfig)
    ensures !UrlApplies(params) ==> c == prev
    ensures UrlApplies(params) ==> c.owner == params.owner.value && c.repo == params.repo.value
    ensures UrlApplies(params) ==> c.token == (if Truthy(params.token) then params.token.value else prev.token)
  {
    if UrlApplies(params) then GithubConfig(OrElse(params.token, prev.token), params.owner.value, params.repo.value)
    else prev
  }

  /**
   * Precedence of the three sources: query parameters over the saved record over the defaults.
   * Once the query names a repository, the saved owner and repo no longer matter.
   */
  lemma ConfigPrecedence(saved: Option<string>, parse: string -> Option<StoredRecord>, params: UrlParams)
    requires UrlApplies(params)
    ensures UrlConfig(InitialConfig(saved, parse), params).owner == params.owner.value
    ensures UrlConfig(InitialConfig(saved, parse), params).repo == params.repo.value
    ensures UrlConfig(InitialConfig(saved, parse), params).token
            == OrElse(params.token, InitialConfig(saved, parse).token)
    ensures UrlConfig(InitialConfig(saved, parse), params)
            == UrlConfig(InitialConfig(None, parse), params).(token := OrElse(params.token, InitialConfig(saved, parse).token))
  {
  }

  /** Applying the same query parameters twice is applying them once. */
  lemma UrlConfigIdempotent(prev: GithubConfig, params: UrlParams)
    ensures UrlConfig(UrlConfig(prev, params), params) == UrlConfig(prev, params)
  {
  }

  /** The text of the alert shown when creation reports an error. */
  function CreateAlert(error: string): (r: string)
    ensures StartsWith(r, "Failed to create issue: ") && r[|"Failed to create issue: "|..] == error
  {
    "Failed to create issue: " + error
  }

  /**
   * A creation that fails with an empty message: a server error answered with no status
   * text and a body without a message. createIssue then reports "" as its error.
   */
  lemma EmptyCreationError(config: GithubConfig, title: string, body: string, sample: Issue)
    requires !GithubService.RepoUnset(config) && Trim(config.token) != ""
    ensures GithubService.CreateIssue(config, title, body,
              _ => GithubService.Responded(500, "", GithubService.Json(sample, None, None))).error == Some("")
  {
  }

  /** The application's state: configuration, issue list and its status, the modal and the screen. */
  class Controller {
    var config: GithubConfig
    var issues: seq<Issue>
    var error: Option<string>
    var isLoading: bool
    var isCreatingIssue: bool
    var isNewIssueModalOpen: bool
    var currentView: View
    /** The timestamps the sample issues were given when the service module loaded. */
    const loadTime: GithubService.LoadTime

    /** The first render: the initial configuration, no issues, no error, the dashboard. */
    constructor (saved: Option<string>, parse: string -> Option<StoredRecord>, loadTime: GithubService.LoadTime)
      ensures config == InitialConfig(saved, parse) && this.loadTime == loadTime
      ensures issues == [] && error == None && !isLoading && !isCreatingIssue && !isNewIssueModalOpen
      ensures currentView == Dashboard
    {
      config := InitialConfig(saved, parse);
      issues := [];
      error := None;
      isLoading := false;
      isCreatingIssue := false;
      isNewIssueModalOpen := false;
      currentView := Dashboard;
      this.loadTime := loadTime;
    }

    /** The mount effect reading the query string: a named repository replaces the configuration and opens the issue list. */
    method ApplyUrlParams(params: UrlParams)
      modifies this
      ensures config == UrlConfig(old(config), params)
      ensures currentView == (if UrlApplies(params) then Issues else old(currentView))
      ensures issues == old(issues) && error == old(error) && isLoading == old(isLoading)
      ensures isCreatingIssue == old(isCreatingIssue) && isNewIssueModalOpen == old(isNewIssueModalOpen)
    {
      if UrlApplies(params) {
        config := UrlConfig(config, params);
        currentView := Issues;
      }
    }

    /** The part of loadIssues before the request resolves: loading, no error; returns the configuration it uses. */
    method BeginLoad() returns (snapshot: GithubConfig)
      modifies this
      ensures snapshot == config == old(config)
      ensures isLoading && error == None
      ensures issues == old(issues) && isCreatingIssue == old(isCreatingIssue)
      ensures isNewIssueModalOpen == old(isNewIssueModalOpen) && currentView == old(currentView)
    {
      isLoading := true;
      error := None;
      snapshot := config;
    }

    /** The part of loadIssues after the request resolves: the returned list shown, its error recorded, loading over. */
    method FinishLoad(result: GithubService.IssueList)
      modifies this
      ensures issues == result.issues && !isLoading
      ensures error == (if Truthy(result.error) then result.error else old(error))
      ensures config == old(config) && isCreatingIssue == old(isCreatingIssue)
      ensures isNewIssueModalOpen == old(isNewIssueModalOpen) && currentView == old(currentView)
    {
      if Truthy(result.error) {
        error := result.error;
      }
      issues := result.issues;
      isLoading := false;
    }

    /**
     * loadIssues: fetch with the current configuration; afterwards the issues are the returned
     * list, the error is the returned error (none when there is none), and loading is over.
     * A failed load always shows the sample issues next to its message.
     */
    method LoadIssues(fetch: GithubService.Request -> GithubService.HttpOutcome<seq<Issue>>)
      modifies this
      ensures var result := GithubService.FetchIssues(old(config), loadTime, fetch);
              issues == result.issues && error == (if Truthy(result.error) then result.error else None)
      ensures error.Some? ==> issues == GithubService.MockIssues(loadTime)
      ensures !isLoading && config == old(config) && isCreatingIssue == old(isCreatingIssue)
      ensures isNewIssueModalOpen == old(isNewIssueModalOpen) && currentView == old(currentView)
    {
      var snapshot := BeginLoad();
      var result := GithubService.FetchIssues(snapshot, loadTime, fetch);
      FinishLoad(result);
    }

    /**
     * handleCreateIssue: on a reported error the alert text is returned and the list and
     * modal are left as they were; on success the new issue goes first and the modal closes.
     * An error that is the empty string is falsy, so it is neither alerted nor a success.
     * Creation is over either way.
     */
    method HandleCreateIssue(title: string, body: string,
                             post: GithubService.Request -> GithubService.HttpOutcome<Issue>)
      returns (alert: Option<string>)
      modifies this
      ensures var result := GithubService.CreateIssue(old(config), title, body, post);
              Truthy(result.error) ==> alert == Some(CreateAlert(result.error.value))
                                       && issues == old(issues) && isNewIssueModalOpen == old(isNewIssueModalOpen)
      ensures var result := GithubService.CreateIssue(old(config), title, body, post);
              result.issue.Some? ==> alert == None && issues == [result.issue.value] + old(issues)
                                     && !isNewIssueModalOpen
      ensures var result := GithubService.CreateIssue(old(config), title, body, post);
              result.error == Some("") ==> alert == None && issues == old(issues)
                                           && isNewIssueModalOpen == old(isNewIssueModalOpen)
      ensures !isCreatingIssue
      ensures config == old(config) && error == old(error) && isLoading == old(isLoading)
      ensures currentView == old(currentView)
    {
      var result := GithubService.CreateIssue(config, title, body, post);
      isCreatingIssue := true;
      alert := FinishCreate(result);
    }

    /** What handleCreateIssue does once createIssue has answered. */
    method FinishCreate(result: GithubService.Created) returns (alert: Option<string>)
      modifies this
      ensures Truthy(result.error) ==> alert == Some(CreateAlert(result.error.value))
                                       && issues == old(issues) && isNewIssueModalOpen == old(isNewIssueModalOpen)
      ensures !Truthy(result.error) && result.issue.Some? ==>
                alert == None && issues == [result.issue.value] + old(issues) && !isNewIssueModalOpen
      ensures !Truthy(result.error) && result.issue.None? ==>
                alert == None && issues == old(issues) && isNewIssueModalOpen == old(isNewIssueModalOpen)
      ensures !isCreatingIssue
      ensures config == old(config) && error == old(error) && isLoading == old(isLoading)
      ensures currentView == old(currentView)
    {
      if Truthy(result.error) {
        alert := Some(CreateAlert(result.error.value));
        isCreatingIssue := false;
        return;
      }
      alert := None;
      if result.issue.Some? {
        issues := [result.issue.value] + issues;
        isNewIssueModalOpen := false;
      }
      isCreatingIssue := false;
    }

    /**
     * The Save button: the current configuration is written to storage (returned here),
     * the issues are reloaded with it, and the issue list is shown.
     */
    method Save(fetch: GithubService.Request -> GithubService.HttpOutcome<seq<Issue>>)
      returns (persisted: StoredRecord)
      modifies this
      ensures persisted == Persisted(old(config)) && config == old(config)
      ensures var result := GithubService.FetchIssues(old(config), loadTime, fetch);
              issues == result.issues && error == (if Truthy(result.error) then result.error else None)
      ensures !isLoading && currentView == Issues
      ensures isCreatingIssue == old(isCreatingIssue) && isNewIssueModalOpen == old(isNewIssueModalOpen)
    {
      persisted := Persisted(config);
      LoadIssues(fetch);
      currentView := Issues;
    }

    /** The issues the Issues screen lists: the open ones, in list order. */
    function OpenIssues(): (r: seq<Issue>)
      reads this
      ensures forall x :: x in r <==> x in issues && x.state == Open
      ensures |r| <= |issues|
    {
      IssuesInStateMembers(issues, Open);
      IssuesInState(issues, Open)
    }

    /** The "New Issue" button. */
    method OpenNewIssueModal()
      modifies this
      ensures isNewIssueModalOpen
      ensures config == old(config) && issues == old(issues) && error == old(error) && isLoading == old(isLoading)
      ensures isCreatingIssue == old(isCreatingIssue) && currentView == old(currentView)
    {
      isNewIssueModalOpen := true;
    }

    /** The modal's close button. */
    method CloseNewIssueModal()
      modifies this
      ensures !isNewIssueModalOpen
      ensures config == old(config) && issues == old(issues) && error == old(error) && isLoading == old(isLoading)
      ensures isCreatingIssue == old(isCreatingIssue) && currentView == old(currentView)
    {
      isNewIssueModalOpen := false;
    }

    /** The dismiss button of the error banner. */
    method DismissError()
      modifies this
      ensures error == None
      ensures config == old(config) && issues == old(issues) && isLoading == old(isLoading)
      ensures isCreatingIssue == old(isCreatingIssue) && isNewIssueModalOpen == old(isNewIssueModalOpen)
      ensures currentView == old(currentView)
    {
      error := None;
    }

    /** The sidebar's navigation. */
    method ShowView(view: View)
      modifies this
      ensures currentView == view
      ensures config == old(config) && issues == old(issues) && error == old(error) && isLoading == old(isLoading)
      ensures isCreatingIssue == old(isCreatingIssue) && isNewIssueModalOpen == old(isNewIssueModalOpen)
    {
      currentView := view;
    }

    /** The settings fields: each edit replaces one field of the configuration. */
    method EditConfig(token: Option<string>, owner: Option<string>, repo: Option<string>)
      modifies this
      ensures config == Merge(old(config), StoredRecord(token, owner, repo))
      ensures issues == old(issues) && error == old(error) && isLoading == old(isLoading)
      ensures isCreatingIssue == old(isCreatingIssue) && isNewIssueModalOpen == old(isNewIssueModalOpen)
      ensures currentView == old(currentView)
    {
      config := Merge(config, StoredRecord(token, owner, repo));
    }
  }
}
