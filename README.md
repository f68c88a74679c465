# devnexus core, modelled in Dafny

devnexus is a single-page developer dashboard. It has four parts:

- an issue list pulled from the GitHub REST API, with a built-in sample list as a fallback;
- a form for opening new issues;
- a notebook of markdown research notes;
- a Gemini-backed assistant that analyses issues and suggests research avenues.

This project models the core of that application:

- `GithubService` models the GitHub client, `fetchIssues` and `createIssue`.
- `GeminiService` models the AI client: `parseGeminiJson`, `analyzeIssue` and `generateResearchIdeas`.
- `App` models the application controller: the configuration from storage and from the query string, loading, creation, saving, and the modal and screen state.
- `ResearchNotes` models the notebook panel: create, delete, update, select, tag entry and AI assist.
- `IssueCard` models the issue card: analysing once, and the `git checkout -b` command built from a slug.
- `Dashboard` models the dashboard: the stat counters, the label chart and its colours, and the recent-activity list.
- `JsText` models the JavaScript string operations the core relies on: `trim` with ECMAScript's white-space set, `includes`, `split`, `join`, single-character `replace` and the decimal form of a number.
- `Types` holds the shared records: Issue, Label, User, ResearchNote, GithubConfig and View. It also holds JavaScript truthiness of strings (`Truthy`, `OrElse` for `||`) and the open/closed filter.

The outside world is passed in as function-valued parameters, and the model proves what the core does with whatever those functions answer:

- `fetch` becomes `Request -> HttpOutcome<T>`: a thrown error, or a status, a status text and a body that parses or not.
- The Gemini SDK becomes `AiRequest -> Reply`.
- `JSON.parse` becomes `string -> Option<T>`.
- The saved configuration and the query parameters are given as values.

For each call, a function gives the exact request the code makes, or `None` when it makes none. Independence lemmas then show that the result depends on the outside world only through that one request: `FetchUsesOnlyItsRequest`, `CreateUsesOnlyItsRequest`, `AnalyzeWithoutKeySendsNothing` and `IdeasWithoutKeySendNothing`.

The components that change state are classes whose methods state the whole new state. These are `App.Controller`, `ResearchNotes.NotesPanel` and `IssueCard.Card`, which hold the React state of `App`, `ResearchNotes` and `IssueCard`. The dashboard's label chart is computed by two nested loops over an insertion-ordered map. `Dashboard.ChartData` keeps those loops and is proved equal to the pure `Histogram` of the label names. The total, distinctness and first-seen order are then proved about `Histogram`.

Behaviour of the code worth knowing, all proved here:

- The query string replaces the configuration only when BOTH `owner` and `repo` are present and non-empty. The token is then taken only when it is given and non-empty.
- AI assist appends `ai-enhanced` without checking for it. A note that already has the tag gets it twice (`AiTagMayRepeat`).
- The slug lowercases with full Unicode `toLowerCase`. A title with no ASCII letters or digits can therefore still have a non-empty slug: the Kelvin sign U+212A lowers to `k` (`KelvinSignSlug`). `SlugEmpty` gives the exact condition for an empty slug.
- `createIssue` can report the empty string as its error: a 500 with an empty status text and a body without `message` (`EmptyCreationError`). `handleCreateIssue` treats that error as falsy. No alert is shown, nothing is added, the modal stays open, and creation is marked finished.

## Model

| member | source | states |
|---|---|---|
| Types.OrElse | services/githubService.ts:80 | `x \|\| y` on an optional string: x when it is a non-empty string, else y. The result is non-empty iff one of them is. |
| Types.IssuesInStateMembers | App.tsx:195-198 | The state filter keeps exactly the issues in that state, and every kept issue has it. |
| Types.IssuesInStateAppend | App.tsx:195 | The filter keeps list order: filtering a concatenation concatenates the filtered parts. |
| Types.IssuesInState | App.tsx:195 | `issues.filter(i => i.state === s)` never yields more issues than it is given; the members and order are stated by IssuesInStateMembers and IssuesInStateAppend. |
| Types.OpenClosedPartition | components/Dashboard.tsx:25-26 | Every issue is open or closed, so the open and closed counts add up to the list length. |
| JsText.Trim | services/githubService.ts:44-46 | `trim()`: empty iff the input is all ECMAScript white space; otherwise it neither starts nor ends with white space. |
| JsText.TrimStart | services/githubService.ts:44-46 | Leading-white-space removal: a suffix of the input whose dropped prefix is all white space and which does not start with white space. |
| JsText.TrimEnd | services/githubService.ts:44-46 | Trailing-white-space removal: a prefix of the input whose dropped suffix is all white space and which does not end with white space. |
| JsText.TrimKeeps | services/githubService.ts:44-46 | Trimming only removes characters: every character of the result was in the input. |
| JsText.TrimPadded | services/githubService.ts:44-46 | Trimming a string padded with white space on both sides gives back the unpadded core. |
| JsText.TrimIdempotent | services/githubService.ts:44-46 | Trimming twice is trimming once. |
| JsText.IncludesAt | components/IssueCard.tsx:31 | `includes` holds iff the substring occurs at some index. |
| JsText.RemoveFirst | components/ResearchNotes.tsx:44 | `replace('#', '')`: when the character occurs, the result is the string with its FIRST occurrence cut out (no occurrence before it) and every other character kept in order; otherwise the string is unchanged. |
| JsText.IndexOf | components/ResearchNotes.tsx:44 | The index of the first occurrence of a character, or the length exactly when it does not occur. |
| JsText.RemoveFirstCount | components/ResearchNotes.tsx:44 | Removing the first occurrence takes exactly one copy of the character out of the multiset of characters and shortens the string by one when it occurs. |
| JsText.Split | components/ResearchNotes.tsx:44 | `split` with a one-character separator: at least one piece, and no piece contains the separator. |
| JsText.SplitFirst | components/ResearchNotes.tsx:44 | The first piece is the prefix before the first separator, which follows it. |
| JsText.SplitJoin | components/ResearchNotes.tsx:49 | Splitting a joined list of separator-free pieces gives the list back. |
| JsText.NatToString | components/IssueCard.tsx:33 | The decimal form of an issue number: non-empty, all digits, and no leading zero except for 0. |
| JsText.DecimalRoundTrip | components/IssueCard.tsx:33 | Reading the decimal form back gives the number. |
| GithubService.MockIssues | services/githubService.ts:3-40 | The sample list has three issues. |
| GithubService.MockIssuesStates | services/githubService.ts:9-33 | Two sample issues are open and one is closed. |
| GithubService.HeaderValueFinds | services/githubService.ts:55-63 | A header lookup succeeds iff a header with that name is present, and it returns that header's value. |
| GithubService.HeaderValue | services/githubService.ts:55-63 | The value of the first header with a name; HeaderValueFinds states when it is found. |
| GithubService.ListHeaders | services/githubService.ts:55-63 | The listing headers carry the v3 Accept type and the API version 2022-11-28. Authorization is `Bearer <token>` when the trimmed token is non-empty and absent otherwise. |
| GithubService.ListRequest | services/githubService.ts:44-53 | fetchIssues sends no request exactly when the trimmed owner or repo is empty. |
| GithubService.RepoUnset | services/githubService.ts:44-53 | `!owner \|\| !repo` on the trimmed values; ListRequest and CreateRequest state that it suppresses every request. |
| GithubService.IssuesUrl | services/githubService.ts:67 | The issues endpoint of a repository; ListRequestShape and CreateRequestShape state the URLs built from it. |
| GithubService.ListRequestShape | services/githubService.ts:55-69 | Otherwise it is one GET, with no body, of `https://api.github.com/repos/<owner>/<repo>/issues?state=all&per_page=100` built from the trimmed values, with the listing headers. |
| GithubService.ListErrorMessage | services/githubService.ts:71-86 | A failed response always has a non-empty message. For 404 it is the fixed "Repository not found…" text. For an unreadable body on any other status it is `HTTP Error <status>`. |
| GithubService.ListErrorPrecedence | services/githubService.ts:78-80 | For a non-404 status with a readable body, the message is the first non-empty of body.message, body.error and statusText, else "Unknown API Error". |
| GithubService.NotFoundIgnoresBody | services/githubService.ts:75-76 | A 404 is reported the same way whatever its body is. |
| GithubService.ListOutcome | services/githubService.ts:71-101 | No error iff the response is ok with a readable body, and then the list is that body verbatim. Any error comes with the sample list. The error text: a thrown error's message, else "Network connection failed"; for a non-ok response, ListErrorMessage of its status, status text and body; for an ok response whose body does not parse, the parser's message. |
| GithubService.FetchIssues | services/githubService.ts:42-102 | With no repository, the sample list and no error. Any error comes with the sample list. An ok, readable response gives its data verbatim and no error, and no error implies such a response. |
| GithubService.FetchIssuesErrorText | services/githubService.ts:71-101 | With a repository set, the error texts of the one response, exactly as ListOutcome states them. |
| GithubService.FetchUsesOnlyItsRequest | services/githubService.ts:65-101 | fetchIssues makes at most the one request ListRequest describes: two fetch functions that agree on it give the same result. |
| GithubService.UnsetRepoIgnoresTokenAndNetwork | services/githubService.ts:48-53 | Without a repository the result is the sample list, whatever the token and the network do. |
| GithubService.FailedResponseReported | services/githubService.ts:71-91 | A non-ok response always yields a truthy error and the three sample issues. |
| GithubService.CreateHeaders | services/githubService.ts:120-125 | The creation headers carry `Bearer <token>`, the v3 Accept type, the API version 2022-11-28 and the JSON content type. |
| GithubService.CreateRequest | services/githubService.ts:105-115 | createIssue sends nothing exactly when the trimmed owner/repo or the trimmed token is empty. |
| GithubService.CreateRequestShape | services/githubService.ts:117-127 | Otherwise it is one POST to `https://api.github.com/repos/<owner>/<repo>/issues`, with the four headers and the JSON body `{title, body}`. |
| GithubService.CreationOutcome | services/githubService.ts:129-138 | Exactly one of issue and error is present. There is an issue iff the response is ok and readable, and it is the body verbatim. The error text: for a non-ok response with a readable body, its message when non-empty, else the status text; for an unreadable body, the parser's message; for a throw, its message, else "Network error during creation". |
| GithubService.CreateIssue | services/githubService.ts:104-139 | The owner/repo check comes before the token check, each with its fixed message. Success returns the created issue verbatim. Exactly one of issue and error is present. |
| GithubService.CreateIssueAfterRequest | services/githubService.ts:117-138 | With owner, repository and token set: an ok, readable response gives that issue and no error; a non-ok readable one gives `message \|\| statusText`; an unreadable body the parser's message; a throw its message or the fixed network text. |
| GithubService.CreateUsesOnlyItsRequest | services/githubService.ts:117-138 | createIssue makes at most the one request CreateRequest describes. |
| GeminiService.FenceLength | services/geminiService.ts:12 | The match of ``` ```json\n? ``` or ``` ``` ``` at the head of a string: 0 iff no three backticks start it, else 3, 7 or 8. |
| GeminiService.RemoveFencesLeavesNone | services/geminiService.ts:12 | Removing fences left to right leaves no three consecutive backticks. |
| GeminiService.RemoveFences | services/geminiService.ts:12 | The global fence replace never lengthens the text; with RemoveFencesLeavesNone, no fence is left. |
| GeminiService.RemoveFencesKeepsFenceFree | services/geminiService.ts:12 | Text without three backticks anywhere is left unchanged. |
| GeminiService.StripFences | services/geminiService.ts:12 | The cleaned text (fences removed, then trimmed) is never longer than the reply. |
| GeminiService.StripFencesLeavesNone | services/geminiService.ts:12 | The cleaned text handed to JSON.parse never contains a fence. |
| GeminiService.ClosingFenceRemoved | services/geminiService.ts:12 | A fence-free body followed by a closing fence loses exactly the closing fence. |
| GeminiService.FencedReply | services/geminiService.ts:9-13 | A reply ```` ```json\n<body>``` ```` with a fence-free body is cleaned to the trimmed body. |
| GeminiService.ParseGeminiJson | services/geminiService.ts:9-18 | The parser is applied to the cleaned text only; ParseCleanJson and ParseFencedJson state what it sees. |
| GeminiService.ParseCleanJson | services/geminiService.ts:9-13 | Fence-free JSON with no edge white space reaches JSON.parse unchanged. |
| GeminiService.ParseFencedJson | services/geminiService.ts:9-13 | A ```` ```json\n<body>``` ```` reply with a fence-free body is parsed as the trimmed body. |
| GeminiService.AnalyzePrompt | services/geminiService.ts:35-44 | The analysis prompt holds the title and the body at their places in the template. |
| GeminiService.AnalyzeRequest | services/geminiService.ts:25-61 | No request without an API key. Otherwise one request to gemini-2.5-flash with the analysis object schema, whose contents include the title and the body. |
| GeminiService.ResearchRequest | services/geminiService.ts:78-92 | No request without an API key. Otherwise one request to gemini-2.5-flash with the string-array schema, whose contents quote the topic after the fixed lead. |
| GeminiService.AnalyzeIssue | services/geminiService.ts:20-75 | Without a key, the fixed "API Key missing" record with priority Low. A thrown request or an empty text gives "Analysis failed." Otherwise the parse of the cleaned text, with a parse failure also giving "Analysis failed." It never throws. |
| GeminiService.AnalysisOf | services/geminiService.ts:63-74 | A thrown request gives the failure record; a non-empty text that parses gives the parsed analysis; any result is the failure record or the parse of the reply's text. |
| GeminiService.AnalysisFailuresAgree | services/geminiService.ts:63-74 | A thrown request, an empty text and an unparsable text all give the same failure record, whose priority is Medium. |
| GeminiService.AnalyzeWithoutKeySendsNothing | services/geminiService.ts:25-31 | Without a key, the analysis depends on neither the SDK nor the parser. |
| GeminiService.GenerateResearchIdeas | services/geminiService.ts:77-101 | Without a key, `["API Key missing"]`. A throw gives `["Error fetching research ideas."]`, an empty text `[]`, and otherwise the parsed list, with a parse failure giving the error list. |
| GeminiService.IdeasWithoutKeySendNothing | services/geminiService.ts:78 | Without a key, the ideas are `["API Key missing"]` whatever the SDK and the parser do. |
| App.FieldOr | App.tsx:25 | A present field wins over the fallback. |
| App.Merge | App.tsx:25 | `{...base, ...record}`: each field the record carries replaces the base's, and the others are kept. |
| App.InitialConfig | App.tsx:17-31 | No saved text, or text JSON.parse rejects, gives the defaults (empty token, facebook/react). Otherwise the defaults are overlaid with the saved record. |
| App.Persisted | App.tsx:275 | The record written by Save carries all three fields. |
| App.SaveRestore | App.tsx:17-31 | A saved configuration is restored exactly on the next start. |
| App.PartialRecordKeepsDefaults | App.tsx:18-25 | Fields the saved record lacks keep their default values. |
| App.UrlConfig | App.tsx:47-63 | Without both owner and repo the configuration is unchanged. With both, they replace owner and repo, and the token is replaced only by a non-empty token parameter. |
| App.ConfigPrecedence | App.tsx:17-63 | Query parameters, when they apply, win over the stored configuration for owner and repo. The token falls back to the stored one. |
| App.UrlConfigIdempotent | App.tsx:47-63 | Applying the same query parameters twice is applying them once. |
| App.UrlApplies | App.tsx:53 | `urlOwner && urlRepo`; UrlConfig states that the configuration changes only when it holds. |
| App.CreateAlert | App.tsx:89 | The alert is "Failed to create issue: " followed by the error text. |
| App.EmptyCreationError | services/githubService.ts:129-132 | A 500 with an empty status text and a body without `message` makes createIssue report the empty string as its error. |
| App.Controller.constructor | App.tsx:14-44 | The first render: the initial configuration, no issues, no error, not loading or creating, the modal closed, the dashboard shown. |
| App.Controller.ApplyUrlParams | App.tsx:47-63 | The mount effect: the configuration becomes UrlConfig of the old one. The issue screen is shown iff the parameters apply. Nothing else changes. The reload that follows an owner/repo change (App.tsx:65-68) is Controller.LoadIssues, run by the caller. |
| App.Controller.BeginLoad | App.tsx:70-72 | Loading starts with the error cleared; the configuration used is the current one. |
| App.Controller.FinishLoad | App.tsx:74-81 | The returned list is shown; a truthy error is recorded; loading is over. |
| App.Controller.LoadIssues | App.tsx:70-82 | The issues are FetchIssues of the configuration at the time of the call. The error is its error when truthy, else none. A shown error always comes with the sample issues. Nothing else changes. |
| App.Controller.HandleCreateIssue | App.tsx:84-100 | On a truthy error, the alert is shown and the list and modal are kept. On success, the new issue is put first, the modal closes and no alert is shown. An empty error shows nothing and changes nothing. Creation is over either way. |
| App.Controller.FinishCreate | App.tsx:88-99 | What follows createIssue's answer, case by case, as above. |
| App.Controller.Save | App.tsx:274-278 | The current configuration is persisted and reloaded, the issue screen is shown, and the modal and creation flags are kept. |
| App.Controller.OpenIssues | App.tsx:195-198 | The issue screen lists exactly the open issues. |
| App.Controller.OpenNewIssueModal | App.tsx:158 | The modal opens; nothing else changes. |
| App.Controller.CloseNewIssueModal | App.tsx:341 | The modal closes; nothing else changes. |
| App.Controller.DismissError | App.tsx:181 | The error banner is cleared; nothing else changes. |
| App.Controller.ShowView | App.tsx:336 | The sidebar switches the screen; nothing else changes. |
| App.Controller.EditConfig | App.tsx:232-266 | A settings edit replaces the edited fields of the configuration; nothing else changes. The reload that follows an owner/repo change (App.tsx:65-68) is Controller.LoadIssues, run by the caller. |
| ResearchNotes.FirstWithId | components/ResearchNotes.tsx:15 | The index of the first note with the id, or the length when there is none. |
| ResearchNotes.Find | components/ResearchNotes.tsx:15 | The active note exists iff a note carries the selected id, and then it is such a note from the list. |
| ResearchNotes.Removed | components/ResearchNotes.tsx:30 | The filter keeps exactly the notes whose id differs. |
| ResearchNotes.RemovedAppend | components/ResearchNotes.tsx:30 | The filter keeps order: it distributes over concatenation. |
| ResearchNotes.RemovedAbsent | components/ResearchNotes.tsx:30 | Deleting an id no note carries changes nothing. |
| ResearchNotes.Apply | components/ResearchNotes.tsx:35 | `{...note, ...patch}`: the supplied fields replaced, and id, creation date and analysis kept. |
| ResearchNotes.EmptyPatchKeeps | components/ResearchNotes.tsx:35 | An empty update leaves a note as it is. |
| ResearchNotes.Patched | components/ResearchNotes.tsx:34-36 | The list keeps its length and order; exactly the notes with the id are updated. |
| ResearchNotes.PatchedKeepsIds | components/ResearchNotes.tsx:34-36 | After an update, a selected note is still found iff it was found before. |
| ResearchNotes.WithTag | components/ResearchNotes.tsx:140-142 | The trimmed input is appended iff it is non-empty and not already a tag. The tag is present afterwards iff it is non-empty or was there already. |
| ResearchNotes.WithTagIdempotent | components/ResearchNotes.tsx:140-142 | Entering the same tag twice is entering it once. |
| ResearchNotes.WithTagKeepsDistinct | components/ResearchNotes.tsx:140-142 | Tag entry never introduces a duplicate. |
| ResearchNotes.FirstLine | components/ResearchNotes.tsx:44 | `split('\n')[0]`: the longest prefix without a line break. |
| ResearchNotes.Topic | components/ResearchNotes.tsx:42-45 | A titled note asks about its title. An untitled note asks about the trimmed first line without its first '#', which has no line break. |
| ResearchNotes.HeadingTopic | components/ResearchNotes.tsx:43-44 | An untitled note whose content starts with a `# ` heading asks about the heading text. |
| ResearchNotes.NewNoteTopic | components/ResearchNotes.tsx:18-24 | A fresh note asks about "New Research Topic". |
| ResearchNotes.NewNote | components/ResearchNotes.tsx:18-24 | The fresh note; NewNoteTopic and NotesPanel.CreateNote state what follows from it. |
| ResearchNotes.Bullets | components/ResearchNotes.tsx:49 | One `- [ ] idea` line per idea, in order. |
| ResearchNotes.SectionLines | components/ResearchNotes.tsx:49 | Two line breaks, a one-line header and separator-free lines split back into "", "", the header and those lines. |
| ResearchNotes.IdeasSectionLines | components/ResearchNotes.tsx:49 | Read line by line, the appended text is two empty lines, "## AI Generated Research Avenues" and one checkbox line per idea; with no ideas, the header is followed by one empty line. |
| ResearchNotes.IdeasSection | components/ResearchNotes.tsx:49 | The appended text; IdeasSectionLines states it line by line. |
| ResearchNotes.AssistPatch | components/ResearchNotes.tsx:49-54 | Applied to the note, the content gains the ideas section, the tags gain 'ai-enhanced', and the id and title are kept. |
| ResearchNotes.AiTagMayRepeat | components/ResearchNotes.tsx:53 | Appending 'ai-enhanced' to tags that already hold it creates a duplicate. |
| ResearchNotes.NotesPanel.constructor | components/ResearchNotes.tsx:12-13 | The seeded note (App.tsx:35-37), nothing selected, not generating. |
| ResearchNotes.NotesPanel.ActiveNote | components/ResearchNotes.tsx:15 | `notes.find(n => n.id === selectedNoteId)`, as stated by Find. |
| ResearchNotes.NotesPanel.CreateNote | components/ResearchNotes.tsx:17-27 | The new untitled draft note goes first and becomes the selected, active note. |
| ResearchNotes.NotesPanel.DeleteNote | components/ResearchNotes.tsx:29-32 | Every note with the id goes, in order; the selection is cleared iff it was that id; no note with the id remains. |
| ResearchNotes.NotesPanel.UpdateNote | components/ResearchNotes.tsx:34-36 | The notes become the patched list; the selection is kept. |
| ResearchNotes.NotesPanel.Select | components/ResearchNotes.tsx:72 | Clicking a note selects its id; the notes are kept. |
| ResearchNotes.NotesPanel.AddTagFromInput | components/ResearchNotes.tsx:138-146 | On Enter with a new, non-blank trimmed tag, the active note gets it and the field clears. Otherwise the notes and the field are unchanged. |
| ResearchNotes.NotesPanel.AIAssist | components/ResearchNotes.tsx:38-56 | Without an active note nothing happens. Otherwise the note's topic is asked about, its content gets the ideas section, 'ai-enhanced' is appended to its tags, and generation is over. |
| IssueCard.Dasherize | components/IssueCard.tsx:27 | Every maximal run of non-`[a-z0-9]` characters becomes one dash: only slug characters and no "--" remain. The `[a-z0-9]` characters are kept in order. |
| IssueCard.DasherizeAppend | components/IssueCard.tsx:27 | After a slug character, dasherizing a concatenation dasherizes the parts separately. |
| IssueCard.DasherizeGap | components/IssueCard.tsx:27 | A non-empty run of non-slug characters before a slug character (or the end) becomes exactly one dash. |
| IssueCard.DasherizeBetween | components/IssueCard.tsx:27 | Words separated by a non-slug run are dasherized word by word with one dash between. |
| IssueCard.JoinEnds | components/IssueCard.tsx:25-28 | A join of non-empty words starts with the first word's first character and ends with the last word's last character. |
| IssueCard.LowerWords | components/IssueCard.tsx:26 | Lowering a space-joined list of `[a-z0-9]` words changes nothing. |
| IssueCard.DasherizeWords | components/IssueCard.tsx:27 | Dasherizing a space-joined list of `[a-z0-9]` words joins them with dashes. |
| IssueCard.StripEdgeDashes | components/IssueCard.tsx:28 | `replace(/(^-\|-$)/g, '')`: exactly the input with one leading dash and one trailing dash cut off where present, and nothing else changed; a dash-run-free input then has no edge dash. |
| IssueCard.AlnumsAppend | components/IssueCard.tsx:25-28 | Keeping the letters and digits distributes over concatenation. |
| IssueCard.Slug | components/IssueCard.tsx:25-28 | The slug has only `[a-z0-9-]`, no "--", no leading or trailing dash, and exactly the letters and digits of the lowered title, in order. |
| IssueCard.SlugOfWords | components/IssueCard.tsx:25-28 | Kebab case: the slug of space-separated `[a-z0-9]` words is those words joined with single dashes. |
| IssueCard.LowerAlnums | components/IssueCard.tsx:26 | The lowered title has no `[a-z0-9]` iff no title character lowers to (or starts with) one. |
| IssueCard.LowerChar | components/IssueCard.tsx:26 | Lowering never yields nothing; `[a-z0-9]` is kept and A-Z map to a-z. |
| IssueCard.Lower | components/IssueCard.tsx:26 | Lowering a string never shortens it. |
| IssueCard.SlugEmpty | components/IssueCard.tsx:25-28 | The slug is empty iff no character of the title feeds it. |
| IssueCard.KelvinSignSlug | components/IssueCard.tsx:26-28 | The title "K" (Kelvin sign) has slug "k". |
| IssueCard.SlugIdempotent | components/IssueCard.tsx:25-28 | A slug is its own slug. |
| IssueCard.HasBugLabel | components/IssueCard.tsx:31 | True iff some label name contains "bug". |
| IssueCard.BranchType | components/IssueCard.tsx:31 | "fix" iff some label name contains "bug", else "feature". |
| IssueCard.BranchRoundTrip | components/IssueCard.tsx:33 | `<kind>/<number>-<slug>` reads back into its kind, number and slug. |
| IssueCard.CommandRoundTrip | components/IssueCard.tsx:33 | A checkout command reads back into the branch it names. |
| IssueCard.GitCommandRoundTrip | components/IssueCard.tsx:25-33 | The copied command is `git checkout -b ` followed by the branch type, "/", the issue number, "-" and the slug. |
| IssueCard.GitCommand | components/IssueCard.tsx:25-33 | The command starts with `git checkout -b ` and names a branch after it. |
| IssueCard.BranchName | components/IssueCard.tsx:33 | `<kind>/<number>-<slug>`; BranchRoundTrip reads it back. |
| IssueCard.Card.constructor | components/IssueCard.tsx:11-13 | A card starts with no analysis, not analysing, not copied. |
| IssueCard.Card.HandleAnalyze | components/IssueCard.tsx:15-21 | analyzeIssue is called iff no analysis is stored. A stored analysis is kept; otherwise the analysis of the title and body is stored and analysing ends. |
| IssueCard.Card.CopyGitCommand | components/IssueCard.tsx:23-38 | The copied text is the checkout command of this card's issue, and the copied flag is raised. |
| Dashboard.ComputeStats | components/Dashboard.tsx:24-29 | The open and closed counts are the filter sizes and add up to the number of issues; the note count is the number of notes. |
| Dashboard.Count | components/Dashboard.tsx:35 | Occurrences: at most the length, and zero iff absent. |
| Dashboard.Dedup | components/Dashboard.tsx:32-38 | The distinct names, each once, exactly those of the input. |
| Dashboard.Entries | components/Dashboard.tsx:38 | One entry per name, holding its number of occurrences. |
| Dashboard.LabelNames | components/Dashboard.tsx:33-36 | Every label name, issue by issue; LabelNamesLength gives its length. |
| Dashboard.LabelNamesLength | components/Dashboard.tsx:33-36 | There are as many label names as labels across the issues. |
| Dashboard.Histogram | components/Dashboard.tsx:31-39 | The chart of a list of names: one entry per distinct name with its count; ChartTotal, ChartNames and ChartFirstSeen state its properties. |
| Dashboard.TallyLabels | components/Dashboard.tsx:34-36 | The inner loop keeps the insertion-ordered map in step with every label name seen so far. |
| Dashboard.ChartData | components/Dashboard.tsx:31-39 | The two loops over the Map produce exactly the histogram of all label names. |
| Dashboard.TallyChart | components/Dashboard.tsx:38 | The entries of a complete tally, in insertion order, are the histogram. |
| Dashboard.ChartTotal | components/Dashboard.tsx:31-39 | The chart's values add up to the number of labels across all issues. |
| Dashboard.ChartNames | components/Dashboard.tsx:31-39 | The chart's names are distinct, and a name appears iff it is a label name. |
| Dashboard.DedupFirstSeen | components/Dashboard.tsx:32-38 | Distinct names come in order of first appearance. |
| Dashboard.ChartFirstSeen | components/Dashboard.tsx:31-39 | Chart entries are ordered by where their names first occur among the labels (Map insertion order). |
| Dashboard.Recent | components/Dashboard.tsx:89 | The first min(3, n) issues, in order; empty iff there are no issues. |
| Dashboard.ActivityDot | components/Dashboard.tsx:91 | The warning dot iff the issue is open. |
| Dashboard.BarColor | components/Dashboard.tsx:41-78 | Bar i is filled with COLORS[i mod 5], always a palette colour. |
| Dashboard.BarColorsCycle | components/Dashboard.tsx:41-78 | The colours repeat every five bars, and neighbouring bars differ. |

## Left out

- fetch, the Gemini SDK and `JSON.parse` are parameters. The parse functions are typed to return an Issue list, an Issue, an analysis record, a string list or a saved-configuration record (`StoredRecord`, whose fields are optional strings): the model assumes those shapes, as the casts `as Issue[]` and `as Issue` do, and does not model what happens when the JSON has another shape. For the saved configuration, a field that is not a string (`{"owner": 5}`) would be spread into the configuration (App.tsx:25) and make `config.owner?.trim()` throw outside the try (services/githubService.ts:44); the model cannot represent that record.
- ResearchNotes.NotesPanel.AIAssist: if the model's JSON were not an array, `ideas.map` would throw (components/ResearchNotes.tsx:49) and `isGenerating` would stay set. The ideas parser is typed to return a list, so the model does not reach that case and its ensures `!isGenerating` holds only for well-shaped replies. It also does not capture the lost-edit interleaving: the update is built from the note and the list captured when the button was pressed (components/ResearchNotes.tsx:34-36, 51-54), so an edit typed while generation runs (components/ResearchNotes.tsx:101, 125) is overwritten; the model runs AIAssist as one step with no edit in between.
- IssueCard.Card.HandleAnalyze: if the reply parsed to JSON `null`, the stored analysis would be falsy and the guard at components/IssueCard.tsx:16 would let a second request through. The analysis parser is typed to return a record, so the model's analyse-once guarantee holds only for well-shaped replies.
- The 800 ms delay before the sample list is returned is left out: timing is not modelled.
- `localStorage`, `URLSearchParams`, `window`, `crypto.randomUUID()`, `new Date()`, the clipboard, `setTimeout` (the 2-second reset of the copied flag) and `console` output are left out. Their values are parameters (saved text, query parameters, id, timestamps, load time) or they are left out.
- `typeof window === 'undefined'` (server rendering) is not modelled: the model covers the browser case only.
- Overlapping loads are not modelled. The effect that reloads on owner/repo changes (App.tsx:65-68) is modelled as one finished call of Controller.LoadIssues, made by the caller after ApplyUrlParams or EditConfig; the in-flight flags are likewise modelled as one finished call.
- Concurrent presses while `isGenerating` or `isAnalyzing` is set are not modelled for the same reason.
- JSX rendering is left out, as are the Sidebar, the New Issue modal's form, `getSnippet` (App.tsx:102-135) and the copied-snippet flag.
- App.Controller.HandleCreateIssue: the modal's rule that a blank title is never submitted (components/NewIssueModal.tsx:19) is not a precondition, because handleCreateIssue itself accepts any title.
- JsText.NatToString: issue numbers are printed as JavaScript prints integers below 10^21. Exponent notation for larger numbers is not modelled.
- IssueCard.LowerChar: `toLowerCase` is modelled only as far as the slug can see it. A-Z lower to a-z, the Kelvin sign to 'k', and U+0130 to 'i' plus a combining dot. Every other character is kept: its lower case holds no `[a-z0-9]`, so the slug treats it the same.
- The module-level API key (geminiService.ts:4) is a parameter of the AI functions.
- The prose of the analysis prompt and the research prompt is kept only as far as where the title, body and topic sit.
- The AIAnalysisResult type (types.ts:36-41) is not used by the core and is left out. A note's optional `aiAnalysis` field is carried unchanged: nothing in the core writes it.
- The notes list is held by the panel rather than lifted into App (App.tsx:35-37). The dashboard's note count reads it as a parameter.
