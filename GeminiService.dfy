/**
 * The AI assist client: issue analysis and research-idea expansion against the Gemini
 * generate-content endpoint, with a fixed placeholder whenever no API key is configured or
 * the call, the response text or its JSON does not come through.
 *
 * The SDK call and JSON.parse are oracles: `sdk` maps the request to the reply, `parse`
 * maps the cleaned text to the parsed value (None when JSON.parse throws). The API key,
 * read once from the environment, is a parameter.
 */
module GeminiService {
  import opened Types
  import opened JsText

  datatype Priority = Low | Medium | High

  datatype Analysis = Analysis(summary: string, priority: Priority, suggestedFix: string)

  /** The response schema declared with the request. */
  datatype Schema = AnalysisObject | StringArray

  datatype AiRequest = AiRequest(model: string, contents: string, schema: Schema)

  /** What the SDK call produced: a thrown error, or a response whose text is "" when absent. */
  datatype Reply = Threw | Answered(text: string)

  const Model := "gemini-2.5-flash"

  const KeyMissingAnalysis := Analysis("API Key missing. Cannot analyze.", Low, "Please configure environment variables.")
  const FailedAnalysis := Analysis("Analysis failed.", Medium, "Could not generate suggestion.")
  const KeyMissingIdeas: seq<string> := ["API Key missing"]
  const FailedIdeas: seq<string> := ["Error fetching research ideas."]

  const Fence := "```"

  /** s begins with three backticks. */
  predicate TicksAhead(s: string)
  {
    |s| >= 3 && s[0] == '`' && s[1] == '`' && s[2] == '`'
  }

  /**
   * The length of the fence at the head of s, 0 when there is none: the alternation
   * `/```json\n?|```/` tries "```json" with an optional newline before a bare "```".
   */
  function FenceLength(s: string): (k: nat)
    ensures k == 0 || k == 3 || k == 7 || k == 8
    ensures k <= |s|
    ensures k == 0 <==> !TicksAhead(s)
    ensures k > 3 ==> |s| >= 7 && s[3] == 'j'
  {
    if !TicksAhead(s) then 0
    else if StartsWith(s, "```json\n") then 8
    else if StartsWith(s, "```json") then 7
    else 3
  }

  /**
   * `text.replace(/```json\n?|```/g, '')`: scanning left to right, a fence is dropped and
   * scanning resumes after it; any other character is kept.
   */
  function RemoveFences(s: string): (r: string)
    ensures |r| <= |s|
    decreases |s|
  {
    if s == [] then []
    else if FenceLength(s) > 0 then RemoveFences(s[FenceLength(s)..])
    else [s[0]] + RemoveFences(s[1..])
  }

  /** The text handed to JSON.parse: fences removed, then trimmed. */
  function StripFences(text: string): (r: string)
    ensures |r| <= |text|
  {
    Trim(RemoveFences(text))
  }

  /** No "```" occurs anywhere in s. */
  ghost predicate FenceFree(s: string)
  {
    forall i :: !OccursAt(s, Fence, i)
  }

  /** parseGeminiJson: the oracle applied to the cleaned text. */
  function ParseGeminiJson<T>(text: string, parse: string -> Option<T>): Option<T>
  {
    parse(StripFences(text))
  }

  lemma OccursAtTicks(s: string, i: nat)
    requires i + 3 <= |s|
    ensures OccursAt(s, Fence, i) <==> s[i] == '`' && s[i + 1] == '`' && s[i + 2] == '`'
  {
    if s[i] == '`' && s[i + 1] == '`' && s[i + 2] == '`' {
      assert s[i..i + 3] == Fence;
    }
  }

  lemma RemovedStartsWithTick(s: string)
    requires RemoveFences(s) != [] && RemoveFences(s)[0] == '`'
    ensures s != [] && s[0] == '`'
  {
  }

  lemma RemovedStartsWithTwoTicks(s: string)
    requires |RemoveFences(s)| >= 2 && RemoveFences(s)[0] == '`' && RemoveFences(s)[1] == '`'
    ensures |s| >= 2 && s[0] == '`' && s[1] == '`'
  {
    if FenceLength(s) == 0 {
      var rest := RemoveFences(s[1..]);
      assert RemoveFences(s) == [s[0]] + rest;
      assert rest[0] == '`';
      RemovedStartsWithTick(s[1..]);
    }
  }

  /** A character kept in front of a fence-free remainder cannot complete a fence with it. */
  lemma KeptCharacterKeepsFenceFree(s: string)
    requires s != [] && FenceLength(s) == 0 && FenceFree(RemoveFences(s[1..]))
    ensures FenceFree([s[0]] + RemoveFences(s[1..]))
  {
    var rest := RemoveFences(s[1..]);
    var r := [s[0]] + rest;
    forall i ensures !OccursAt(r, Fence, i) {
      if 0 < i && i + 3 <= |r| {
        assert !OccursAt(rest, Fence, i - 1);
        OccursAtTicks(rest, i - 1);
        OccursAtTicks(r, i);
        assert r[i] == rest[i - 1] && r[i + 1] == rest[i] && r[i + 2] == rest[i + 1];
      } else if i == 0 && 3 <= |r| {
        OccursAtTicks(r, 0);
        if rest[0] == '`' && rest[1] == '`' {
          RemovedStartsWithTwoTicks(s[1..]);
          assert s[0] != '`';
        }
      }
    }
  }

  /** Removing fences cannot assemble a new fence out of the backticks that remain. */
  lemma {:induction false} RemoveFencesLeavesNone(s: string)
    ensures FenceFree(RemoveFences(s))
    decreases |s|
  {
    if s != [] {
      var k := FenceLength(s);
      if k > 0 {
        RemoveFencesLeavesNone(s[k..]);
      } else {
        RemoveFencesLeavesNone(s[1..]);
        KeptCharacterKeepsFenceFree(s);
      }
    }
  }

  lemma FenceFreeSuffix(s: string, k: nat)
    requires FenceFree(s) && k <= |s|
    ensures FenceFree(s[k..])
  {
    forall i | OccursAt(s[k..], Fence, i) ensures false {
      assert s[k..][i..i + 3] == s[i + k..i + k + 3];
      assert OccursAt(s, Fence, i + k);
    }
  }

  lemma FenceFreePrefix(s: string, k: nat)
    requires FenceFree(s) && k <= |s|
    ensures FenceFree(s[..k])
  {
    forall i | OccursAt(s[..k], Fence, i) ensures false {
      assert s[..k][i..i + 3] == s[i..i + 3];
      assert OccursAt(s, Fence, i);
    }
  }

  /** Text without a fence passes through fence removal unchanged: only fences are dropped. */
  lemma {:induction false} RemoveFencesKeepsFenceFree(s: string)
    requires FenceFree(s)
    ensures RemoveFences(s) == s
    decreases |s|
  {
    if s != [] {
      if |s| >= 3 {
        OccursAtTicks(s, 0);
      }
      assert FenceLength(s) == 0;
      FenceFreeSuffix(s, 1);
      RemoveFencesKeepsFenceFree(s[1..]);
      assert s == [s[0]] + s[1..];
    }
  }

  /** The cleaned text never contains a fence. */
  lemma StripFencesLeavesNone(text: string)
    ensures FenceFree(StripFences(text))
  {
    var r := RemoveFences(text);
    RemoveFencesLeavesNone(text);
    var t := TrimStart(r);
    FenceFreeSuffix(r, |r| - |t|);
    FenceFreePrefix(t, |TrimEnd(t)|);
  }

  lemma AllTicksKept(s: string)
    requires |s| < 3 && forall i | 0 <= i < |s| :: s[i] == '`'
    ensures RemoveFences(s) == s
  {
    if s != [] {
      assert FenceLength(s) == 0;
      AllTicksKept(s[1..]);
      assert s == [s[0]] + s[1..];
    }
  }

  /** A fence-free body followed by a closing fence loses exactly the closing fence. */
  lemma {:induction false} ClosingFenceRemoved(body: string)
    requires FenceFree(body)
    ensures RemoveFences(body + Fence) == body
    decreases |body|
  {
    var s := body + Fence;
    if |body| < 3 && FenceLength(s) > 0 {
      ShortBodyBeforeFence(body);
    } else {
      if |body| >= 3 {
        NoFenceAtHead(body);
      }
      assert body != [];
      assert s[1..] == body[1..] + Fence;
      FenceFreeSuffix(body, 1);
      ClosingFenceRemoved(body[1..]);
      assert s == [body[0]] + s[1..];
    }
  }

  /** A fence-free body of three or more characters does not open with a fence. */
  lemma NoFenceAtHead(body: string)
    requires FenceFree(body) && |body| >= 3
    ensures FenceLength(body + Fence) == 0
  {
    assert !OccursAt(body, Fence, 0);
    OccursAtTicks(body, 0);
    var s := body + Fence;
    assert s[0] == body[0] && s[1] == body[1] && s[2] == body[2];
  }

  /** A fence at the head is dropped and the scan resumes after it. */
  lemma SkipFence(s: string)
    requires FenceLength(s) > 0
    ensures RemoveFences(s) == RemoveFences(s[FenceLength(s)..])
  {
  }

  /** Too short to hold "```json", a string opening with backticks has a fence of three. */
  lemma ShortFence(s: string)
    requires TicksAhead(s) && |s| < 7
    ensures FenceLength(s) == 3
  {
    assert |"```json"| == 7 && |"```json\n"| == 8;
  }

  /** A body of fewer than three characters that opens a fence with the closing one is all backticks. */
  lemma ShortBodyBeforeFence(body: string)
    requires |body| < 3 && TicksAhead(body + Fence)
    ensures RemoveFences(body + Fence) == body
  {
    var s := body + Fence;
    assert forall i | 0 <= i < |body| :: body[i] == '`' by {
      assert forall i | 0 <= i < |body| :: body[i] == s[i];
    }
    AllTicksKept(body);
    ShortFence(s);
    SkipFence(s);
    assert s[3..] == body;
  }

  /** A reply of the form "```json\n" + body + "```" reduces to the trimmed body. */
  lemma FencedReply(body: string)
    requires FenceFree(body)
    ensures StripFences("```json\n" + body + Fence) == Trim(body)
  {
    var s := "```json\n" + body + Fence;
    assert s[..8] == "```json\n";
    assert FenceLength(s) == 8;
    assert s[8..] == body + Fence;
    ClosingFenceRemoved(body);
  }

  /** JSON without fences or edge white space reaches the parser unchanged. */
  lemma ParseCleanJson<T>(text: string, parse: string -> Option<T>)
    requires FenceFree(text) && Trim(text) == text
    ensures ParseGeminiJson(text, parse) == parse(text)
  {
    RemoveFencesKeepsFenceFree(text);
  }

  /** A fenced reply is parsed as its trimmed body. */
  lemma ParseFencedJson<T>(body: string, parse: string -> Option<T>)
    requires FenceFree(body)
    ensures ParseGeminiJson("```json\n" + body + Fence, parse) == parse(Trim(body))
  {
    FencedReply(body);
  }

  const AnalyzeLead := "\n      Analyze the following GitHub issue.\n      Title: "
  const AnalyzeMiddle := "\n      Body: "
  const AnalyzeTail := "\n      \n      Return a JSON object with:\n      1. A concise summary (max 2 sentences).\n      2. A priority level (Low, Medium, High) based on urgency and severity implications.\n      3. A suggested technical approach or fix strategy (max 3 bullet points).\n    "

  /** The analysis prompt, laid out as the source's template literal lays it out. */
  function AnalyzePrompt(title: string, body: string): (p: string)
    ensures OccursAt(p, title, |AnalyzeLead|)
    ensures OccursAt(p, body, |AnalyzeLead| + |title| + |AnalyzeMiddle|)
  {
    var p := AnalyzeLead + title + AnalyzeMiddle + body + AnalyzeTail;
    assert p[|AnalyzeLead|..|AnalyzeLead| + |title|] == title;
    assert p[|AnalyzeLead| + |title| + |AnalyzeMiddle|..][..|body|] == body;
    p
  }

  const ResearchLead := "Provide 5 key research areas or technical concepts related to: \""
  const ResearchTail := "\" for a senior software engineer. Return a simple JSON array of strings."

  /** The request analyzeIssue sends, or None when it sends none. */
  function AnalyzeRequest(apiKey: string, title: string, body: string): (r: Option<AiRequest>)
    ensures r.None? <==> apiKey == ""
    ensures r.Some? ==> r.value.model == Model && r.value.schema == AnalysisObject
    ensures r.Some? ==> Includes(r.value.contents, title) && Includes(r.value.contents, body)
  {
    if apiKey == "" then None
    else
      var prompt := AnalyzePrompt(title, body);
      IncludesAt(prompt, title);
      IncludesAt(prompt, body);
      Some(AiRequest(Model, prompt, AnalysisObject))
  }

  /** The request generateResearchIdeas sends, or None when it sends none. */
  function ResearchRequest(apiKey: string, topic: string): (r: Option<AiRequest>)
    ensures r.None? <==> apiKey == ""
    ensures r.Some? ==> r.value.model == Model && r.value.schema == StringArray
    ensures r.Some? ==> OccursAt(r.value.contents, topic, |ResearchLead|)
  {
    if apiKey == "" then None
    else
      var prompt := ResearchLead + topic + ResearchTail;
      assert prompt[|ResearchLead|..|ResearchLead| + |topic|] == topic;
      Some(AiRequest(Model, prompt, StringArray))
  }

  /** The analysis carried by a reply: the parsed cleaned text, or the failure record. */
  function AnalysisOf(reply: Reply, parse: string -> Option<Analysis>): (r: Analysis)
    ensures reply.Threw? ==> r == FailedAnalysis
    ensures reply.Answered? && reply.text != "" && ParseGeminiJson(reply.text, parse).Some? ==>
              r == ParseGeminiJson(reply.text, parse).value
    ensures r == FailedAnalysis || (reply.Answered? && ParseGeminiJson(reply.text, parse) == Some(r))
  {
    match reply
    case Threw => FailedAnalysis
    case Answered(text) =>
      if text == "" then FailedAnalysis
      else match ParseGeminiJson(text, parse)
        case None => FailedAnalysis
        case Some(analysis) => analysis
  }

  /** analyzeIssue: the parsed analysis, or a fixed placeholder; it never throws. */
  function AnalyzeIssue(apiKey: string, title: string, body: string,
                        sdk: AiRequest -> Reply, parse: string -> Option<Analysis>): (r: Analysis)
    ensures apiKey == "" ==> r == KeyMissingAnalysis && r.priority == Low
    ensures apiKey != "" ==>
              var reply := sdk(AnalyzeRequest(apiKey, title, body).value);
              (reply.Threw? ==> r == FailedAnalysis)
              && (reply == Answered("") ==> r == FailedAnalysis)
              && (reply.Answered? && reply.text != "" ==>
                    r == (var parsed := parse(StripFences(reply.text)); if parsed.Some? then parsed.value else FailedAnalysis))
  {
    match AnalyzeRequest(apiKey, title, body)
    case None => KeyMissingAnalysis
    case Some(request) => AnalysisOf(sdk(request), parse)
  }

  /** Empty text, a parse failure and a request failure all give the same "Analysis failed." record. */
  lemma AnalysisFailuresAgree(apiKey: string, title: string, body: string, parse: string -> Option<Analysis>,
                              s1: AiRequest -> Reply, s2: AiRequest -> Reply, s3: AiRequest -> Reply)
    requires apiKey != ""
    requires s1(AnalyzeRequest(apiKey, title, body).value) == Threw
    requires s2(AnalyzeRequest(apiKey, title, body).value) == Answered("")
    requires s3(AnalyzeRequest(apiKey, title, body).value).Answered?
    requires parse(StripFences(s3(AnalyzeRequest(apiKey, title, body).value).text)).None?
    ensures AnalyzeIssue(apiKey, title, body, s1, parse) == AnalyzeIssue(apiKey, title, body, s2, parse)
            == AnalyzeIssue(apiKey, title, body, s3, parse) == FailedAnalysis
    ensures FailedAnalysis.priority == Medium
  {
  }

  /** Without a key, analyzeIssue sends nothing: its result depends on neither oracle. */
  lemma AnalyzeWithoutKeySendsNothing(title: string, body: string, s1: AiRequest -> Reply, s2: AiRequest -> Reply,
                                      p1: string -> Option<Analysis>, p2: string -> Option<Analysis>)
    ensures AnalyzeIssue("", title, body, s1, p1) == AnalyzeIssue("", title, body, s2, p2)
  {
  }

  /** generateResearchIdeas: the parsed list of ideas, or a fixed placeholder list; it never throws. */
  function GenerateResearchIdeas(apiKey: string, topic: string,
                                 sdk: AiRequest -> Reply, parse: string -> Option<seq<string>>): (r: seq<string>)
    ensures apiKey == "" ==> r == KeyMissingIdeas
    ensures apiKey != "" ==>
              var reply := sdk(ResearchRequest(apiKey, topic).value);
              (reply.Threw? ==> r == FailedIdeas)
              && (reply == Answered("") ==> r == [])
              && (reply.Answered? && reply.text != "" ==>
                    r == (var parsed := parse(StripFences(reply.text)); if parsed.Some? then parsed.value else FailedIdeas))
  {
    match ResearchRequest(apiKey, topic)
    case None => KeyMissingIdeas
    case Some(request) =>
      match sdk(request)
      case Threw => FailedIdeas
      case Answered(text) =>
        if text == "" then []
        else match ParseGeminiJson(text, parse)
          case None => FailedIdeas
          case Some(ideas) => ideas
  }

  /** Without a key, generateResearchIdeas sends nothing: its result depends on neither oracle. */
  lemma IdeasWithoutKeySendNothing(topic: string, s1: AiRequest -> Reply, s2: AiRequest -> Reply,
                                   p1: string -> Option<seq<string>>, p2: string -> Option<seq<string>>)
    ensures GenerateResearchIdeas("", topic, s1, p1) == GenerateResearchIdeas("", topic, s2, p2) == ["API Key missing"]
  {
  }
}
