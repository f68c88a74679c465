/**
 * The records of types.ts, shared by every part of the client, and the filter by
 * issue state that both the issue list and the dashboard apply.
 */
module Types {

  datatype Option<+T> = None | Some(value: T)

  /** A string used as a JavaScript condition: true when it is present and not empty. */
  predicate Truthy(s: Option<string>)
  {
    s.Some? && s.value != ""
  }

  /** JavaScript's `x || y` for an optional string and a string. */
  function OrElse(x: Option<string>, y: string): (r: string)
    ensures Truthy(x) ==> r == x.value
    ensures !Truthy(x) ==> r == y
    ensures r != "" <==> Truthy(x) || y != ""
  {
    if Truthy(x) then x.value else y
  }

  /** No string occurs twice in s. */
  predicate Distinct(s: seq<string>)
  {
    forall i, j :: 0 <= i < j < |s| ==> s[i] != s[j]
  }

  /** The four screens of the application. */
  datatype View = Dashboard | Issues | Research | Settings

  /** The personal access token and the repository the client talks to. */
  datatype GithubConfig = GithubConfig(token: string, owner: string, repo: string)

  datatype IssueState = Open | Closed

  datatype Label = Label(name: string, color: string)

  datatype User = User(login: string, avatarUrl: string)

  /** An issue as the issue tracker returns it (html_url, created_at, user and comments renamed). */
  datatype Issue = Issue(
    id: nat,
    number: nat,
    title: string,
    body: string,
    state: IssueState,
    htmlUrl: string,
    createdAt: string,
    labels: seq<Label>,
    user: User,
    comments: nat)

  /** A research note: free-form markdown with an ordered list of tags. */
  datatype ResearchNote = ResearchNote(
    id: string,
    title: string,
    content: string,
    tags: seq<string>,
    createdAt: string,
    aiAnalysis: Option<string>)

  /** The issues whose state is `state`, in list order (`issues.filter(i => i.state === state)`). */
  function IssuesInState(issues: seq<Issue>, state: IssueState): (r: seq<Issue>)
    ensures |r| <= |issues|
  {
    if issues == [] then []
    else (if issues[0].state == state then [issues[0]] else []) + IssuesInState(issues[1..], state)
  }

  /** The filter keeps exactly the issues in that state. */
  lemma {:induction false} IssuesInStateMembers(issues: seq<Issue>, state: IssueState)
    ensures forall i :: 0 <= i < |IssuesInState(issues, state)| ==> IssuesInState(issues, state)[i].state == state
    ensures forall x :: x in IssuesInState(issues, state) <==> x in issues && x.state == state
  {
    if issues != [] {
      IssuesInStateMembers(issues[1..], state);
      assert forall x :: x in issues <==> x == issues[0] || x in issues[1..] by {
        assert issues == [issues[0]] + issues[1..];
      }
    }
  }

  /** The filter keeps list order: filtering a concatenation concatenates the filtered parts. */
  lemma {:induction false} IssuesInStateAppend(a: seq<Issue>, b: seq<Issue>, state: IssueState)
    ensures IssuesInState(a + b, state) == IssuesInState(a, state) + IssuesInState(b, state)
  {
    if a != [] {
      var head := if a[0].state == state then [a[0]] else [];
      assert (a + b)[0] == a[0] && (a + b)[1..] == a[1..] + b;
      IssuesInStateAppend(a[1..], b, state);
      assert head + (IssuesInState(a[1..], state) + IssuesInState(b, state))
          == (head + IssuesInState(a[1..], state)) + IssuesInState(b, state);
    } else {
      assert a + b == b;
    }
  }

  /** Every issue is open or closed, so the two filters split the list between them. */
  lemma {:induction false} OpenClosedPartition(issues: seq<Issue>)
    ensures |IssuesInState(issues, Open)| + |IssuesInState(issues, Closed)| == |issues|
  {
    if issues != [] {
      OpenClosedPartition(issues[1..]);
    }
  }
}
