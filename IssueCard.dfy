/**
 * The per-issue card: the one-shot AI analysis behind its guard, and the
 * "git checkout -b" command the card copies, built from a kebab-case slug of the title,
 * a fix/feature prefix chosen from the labels, and the issue number.
 */
module IssueCard {
  import opened Types
  import opened JsText
  import GeminiService

  const KelvinSign: char := '\U{212A}'
  const CapitalIWithDot: char := '\U{0130}'

  /** The characters the slug pattern keeps: `[a-z0-9]`. */
  predicate IsSlugAlnum(c: char)
  {
    'a' <= c <= 'z' || '0' <= c <= '9'
  }

  predicate IsSlugChar(c: char)
  {
    IsSlugAlnum(c) || c == '-'
  }

  /**
   * String.prototype.toLowerCase, one character, as far as the slug can tell: A-Z map to
   * a-z, the Kelvin sign to 'k', capital I with dot above to 'i' and a combining dot; every
   * other character either is unchanged or lowers to characters outside `[a-z0-9]`, which the
   * slug treats alike, so it is kept as it is.
   */
  function LowerChar(c: char): (r: string)
    ensures |r| >= 1
    ensures IsSlugAlnum(c) ==> r == [c]
    ensures 'A' <= c <= 'Z' ==> r == [(c as int + 32) as char] && IsSlugAlnum(r[0])
  {
    if 'A' <= c <= 'Z' then [(c as int - 'A' as int + 'a' as int) as char]
    else if c == KelvinSign then "k"
    else if c == CapitalIWithDot then "i\U{0307}"
    else [c]
  }

  function Lower(s: string): (r: string)
    ensures |r| >= |s|
  {
    if s == [] then [] else LowerChar(s[0]) + Lower(s[1..])
  }

  /** The `[a-z0-9]` characters of s, in order. */
  function Alnums(s: string): string
  {
    if s == [] then [] else (if IsSlugAlnum(s[0]) then [s[0]] else []) + Alnums(s[1..])
  }

  predicate NoDoubleDash(s: string)
  {
    forall i :: 0 <= i < |s| - 1 ==> !(s[i] == '-' && s[i + 1] == '-')
  }

  predicate AllSlugChars(s: string)
  {
    forall i :: 0 <= i < |s| ==> IsSlugChar(s[i])
  }

  /** `replace(/[^a-z0-9]+/g, '-')`: every maximal run of other characters becomes one dash. */
  function Dasherize(s: string): (r: string)
    ensures AllSlugChars(r) && NoDoubleDash(r)
    ensures r == [] <==> s == []
    ensures r != [] ==> (r[0] == '-' <==> !IsSlugAlnum(s[0]))
    ensures Alnums(r) == Alnums(s)
  {
    if s == [] then []
    else
      var rest := Dasherize(s[1..]);
      if IsSlugAlnum(s[0]) then [s[0]] + rest
      else if rest != [] && rest[0] == '-' then rest
      else "-" + rest
  }

  /** The `^-` alternative: a leading dash is dropped. */
  function DropLeadingDash(s: string): (r: string)
    ensures Alnums(r) == Alnums(s)
    ensures AllSlugChars(s) ==> AllSlugChars(r)
    ensures NoDoubleDash(s) ==> NoDoubleDash(r) && (r == [] || r[0] != '-')
    ensures r == s || (s != [] && r == s[1..])
  {
    if s != [] && s[0] == '-' then s[1..] else s
  }

  /** The `-$` alternative: a trailing dash is dropped. */
  function DropTrailingDash(s: string): (r: string)
    ensures Alnums(r) == Alnums(s)
    ensures AllSlugChars(s) ==> AllSlugChars(r)
    ensures NoDoubleDash(s) ==> NoDoubleDash(r) && (r == [] || r[|r| - 1] != '-')
    ensures r == s || (s != [] && r == s[..|s| - 1])
  {
    if s != [] && s[|s| - 1] == '-' then
      var r := s[..|s| - 1];
      assert s == r + "-";
      AlnumsAppend(r, "-");
      r
    else s
  }

  /** `replace(/(^-|-$)/g, '')`: a leading dash and a trailing dash are dropped. */
  function StripEdgeDashes(s: string): (r: string)
    ensures var i := if s != [] && s[0] == '-' then 1 else 0;
            var j := if |s| > i && s[|s| - 1] == '-' then 1 else 0;
            r == s[i..|s| - j]
    ensures Alnums(r) == Alnums(s)
    ensures AllSlugChars(s) ==> AllSlugChars(r)
    ensures NoDoubleDash(s) ==> NoDoubleDash(r) && (r == [] || (r[0] != '-' && r[|r| - 1] != '-'))
  {
    var t := DropLeadingDash(s);
    var r := DropTrailingDash(t);
    assert r != [] ==> r[0] == t[0];
    r
  }

  lemma {:induction false} AlnumsAppend(a: string, b: string)
    ensures Alnums(a + b) == Alnums(a) + Alnums(b)
    decreases |a|
  {
    if a == [] {
      assert a + b == b;
    } else {
      var head := if IsSlugAlnum(a[0]) then [a[0]] else [];
      assert (a + b)[0] == a[0] && (a + b)[1..] == a[1..] + b;
      AlnumsAppend(a[1..], b);
      assert head + (Alnums(a[1..]) + Alnums(b)) == (head + Alnums(a[1..])) + Alnums(b);
    }
  }

  /** The kebab-case slug of an issue title. */
  function Slug(title: string): (r: string)
    ensures AllSlugChars(r)
    ensures NoDoubleDash(r)
    ensures r == [] || (r[0] != '-' && r[|r| - 1] != '-')
    ensures Alnums(r) == Alnums(Lower(title))
  {
    StripEdgeDashes(Dasherize(Lower(title)))
  }

  /** Text ending in a letter or digit is dasherized on its own: what follows cannot change it. */
  lemma {:induction false} DasherizeAppend(a: string, t: string)
    requires a != [] && IsSlugAlnum(a[|a| - 1])
    ensures Dasherize(a + t) == Dasherize(a) + Dasherize(t)
    decreases |a|
  {
    if |a| == 1 {
      assert (a + t)[1..] == t;
      assert a[1..] == [];
    } else {
      var tail := a[1..];
      assert (a + t)[1..] == tail + t;
      DasherizeAppend(tail, t);
    }
  }

  /** A run of other characters in front of a letter or digit (or of the end) becomes a single dash. */
  lemma {:induction false} DasherizeGap(gap: string, b: string)
    requires gap != [] && forall i :: 0 <= i < |gap| ==> !IsSlugAlnum(gap[i])
    requires b == [] || IsSlugAlnum(b[0])
    ensures Dasherize(gap + b) == "-" + Dasherize(b)
    decreases |gap|
  {
    assert (gap + b)[0] == gap[0] && (gap + b)[1..] == gap[1..] + b;
    if |gap| > 1 {
      DasherizeGap(gap[1..], b);
    } else {
      assert gap[1..] + b == b;
    }
  }

  /**
   * `replace(/[^a-z0-9]+/g, '-')` between two words: a maximal run of other characters
   * between a letter or digit and the next one becomes exactly one dash.
   */
  lemma DasherizeBetween(a: string, gap: string, b: string)
    requires a != [] && IsSlugAlnum(a[|a| - 1])
    requires gap != [] && forall i :: 0 <= i < |gap| ==> !IsSlugAlnum(gap[i])
    requires b == [] || IsSlugAlnum(b[0])
    ensures Dasherize(a + gap + b) == Dasherize(a) + ("-" + Dasherize(b))
  {
    assert a + gap + b == a + (gap + b);
    DasherizeAppend(a, gap + b);
    DasherizeGap(gap, b);
  }

  /** A word: a non-empty run of `[a-z0-9]`. */
  predicate IsWord(w: string)
  {
    w != [] && forall i :: 0 <= i < |w| ==> IsSlugAlnum(w[i])
  }

  lemma {:induction false} JoinEnds(ws: seq<string>, sep: char)
    requires ws != [] && forall k :: 0 <= k < |ws| ==> ws[k] != []
    ensures Join(ws, sep) != []
    ensures Join(ws, sep)[0] == ws[0][0]
    ensures Join(ws, sep)[|Join(ws, sep)| - 1] == ws[|ws| - 1][|ws[|ws| - 1]| - 1]
    decreases |ws|
  {
    if |ws| > 1 {
      JoinEnds(ws[1..], sep);
    }
  }

  lemma {:induction false} LowerWords(ws: seq<string>)
    requires forall k :: 0 <= k < |ws| ==> IsWord(ws[k])
    ensures Lower(Join(ws, ' ')) == Join(ws, ' ')
    decreases |ws|
  {
    if |ws| == 1 {
      LowerKeepsSlugChars(ws[0]);
    } else if |ws| > 1 {
      LowerWords(ws[1..]);
      LowerKeepsSlugChars(ws[0]);
      LowerAppend(ws[0], [' '] + Join(ws[1..], ' '));
      assert ws[0] + [' '] + Join(ws[1..], ' ') == ws[0] + ([' '] + Join(ws[1..], ' '));
    }
  }

  lemma {:induction false} LowerAppend(a: string, b: string)
    ensures Lower(a + b) == Lower(a) + Lower(b)
    decreases |a|
  {
    if a == [] {
      assert a + b == b;
    } else {
      assert (a + b)[0] == a[0] && (a + b)[1..] == a[1..] + b;
      LowerAppend(a[1..], b);
    }
  }

  lemma {:induction false} DasherizeWords(ws: seq<string>)
    requires forall k :: 0 <= k < |ws| ==> IsWord(ws[k])
    ensures Dasherize(Join(ws, ' ')) == Join(ws, '-')
    decreases |ws|
  {
    if |ws| == 1 {
      DasherizeKeepsSlug(ws[0]);
    } else if |ws| > 1 {
      var w, rest := ws[0], Join(ws[1..], ' ');
      JoinEnds(ws[1..], ' ');
      DasherizeWords(ws[1..]);
      DasherizeKeepsSlug(w);
      DasherizeBetween(w, " ", rest);
    }
  }

  /** Words separated by spaces become the same words separated by single dashes: kebab case. */
  lemma SlugOfWords(ws: seq<string>)
    requires forall k :: 0 <= k < |ws| ==> IsWord(ws[k])
    ensures Slug(Join(ws, ' ')) == Join(ws, '-')
  {
    LowerWords(ws);
    DasherizeWords(ws);
    if ws != [] {
      JoinEnds(ws, '-');
    }
  }

  /** A title character that leaves a trace in the slug: after lowering it is, or starts with, `[a-z0-9]`. */
  predicate FeedsSlug(c: char)
  {
    'A' <= c <= 'Z' || IsSlugAlnum(c) || c == KelvinSign || c == CapitalIWithDot
  }

  lemma {:induction false} LowerAlnums(s: string)
    ensures Alnums(Lower(s)) == [] <==> forall i :: 0 <= i < |s| ==> !FeedsSlug(s[i])
    decreases |s|
  {
    if s != [] {
      LowerAlnums(s[1..]);
      AlnumsAppend(LowerChar(s[0]), Lower(s[1..]));
      if FeedsSlug(s[0]) {
        assert Alnums(LowerChar(s[0])) != [];
      } else {
        assert Alnums(LowerChar(s[0])) == [];
      }
      assert forall i :: 1 <= i < |s| ==> s[i] == s[1..][i - 1];
    }
  }

  /** A string of slug characters without a letter or digit is all dashes. */
  lemma {:induction false} SlugDashesOnly(r: string)
    requires AllSlugChars(r) && Alnums(r) == []
    ensures forall i :: 0 <= i < |r| ==> r[i] == '-'
    decreases |r|
  {
    if r != [] {
      var tail := r[1..];
      assert !IsSlugAlnum(r[0]) && Alnums(tail) == [];
      assert forall i :: 0 <= i < |tail| ==> tail[i] == r[i + 1];
      SlugDashesOnly(tail);
    }
  }

  /**
   * The slug is empty exactly when no character of the title is an ASCII letter or digit,
   * a Kelvin sign or a capital I with dot above (the last two lower to ASCII letters).
   */
  lemma SlugEmpty(title: string)
    ensures Slug(title) == [] <==> forall i :: 0 <= i < |title| ==> !FeedsSlug(title[i])
  {
    var r := Slug(title);
    LowerAlnums(title);
    if r != [] && Alnums(r) == [] {
      SlugDashesOnly(r);
    }
  }

  /** A title without ASCII letters or digits can still have a slug: the Kelvin sign lowers to 'k'. */
  lemma KelvinSignSlug()
    ensures Slug([KelvinSign]) == "k"
  {
    assert Lower([KelvinSign]) == "k";
    assert Dasherize("k") == "k";
  }

  /** A slug is its own slug: running the transform again changes nothing. */
  lemma SlugIdempotent(title: string)
    ensures Slug(Slug(title)) == Slug(title)
  {
    var r := Slug(title);
    LowerKeepsSlugChars(r);
    DasherizeKeepsSlug(r);
  }

  lemma {:induction false} LowerKeepsSlugChars(s: string)
    requires AllSlugChars(s)
    ensures Lower(s) == s
    decreases |s|
  {
    if s != [] {
      LowerKeepsSlugChars(s[1..]);
      assert s == [s[0]] + s[1..];
    }
  }

  lemma {:induction false} DasherizeKeepsSlug(s: string)
    requires AllSlugChars(s) && NoDoubleDash(s)
    ensures Dasherize(s) == s
    decreases |s|
  {
    if s != [] {
      DasherizeKeepsSlug(s[1..]);
      assert s == [s[0]] + s[1..];
    }
  }

  /** labels.some(l => l.name.includes('bug')). */
  function HasBugLabel(labels: seq<Label>): (r: bool)
    ensures r <==> exists i :: 0 <= i < |labels| && Includes(labels[i].name, "bug")
  {
    if labels == [] then false
    else if Includes(labels[0].name, "bug") then true
    else
      var r := HasBugLabel(labels[1..]);
      assert forall i :: 1 <= i < |labels| ==> labels[i] == labels[1..][i - 1];
      assert r ==> exists i :: 0 <= i < |labels| && Includes(labels[i].name, "bug") by {
        if r {
          var i :| 0 <= i < |labels[1..]| && Includes(labels[1..][i].name, "bug");
          assert labels[i + 1] == labels[1..][i];
        }
      }
      r
  }

  /** The branch prefix: "fix" when some label name contains "bug", "feature" otherwise. */
  function BranchType(labels: seq<Label>): (t: string)
    ensures t == "fix" || t == "feature"
    ensures t == "fix" <==> exists i :: 0 <= i < |labels| && Includes(labels[i].name, "bug")
  {
    if HasBugLabel(labels) then "fix" else "feature"
  }

  const CheckoutPrefix := "git checkout -b "

  /** The command the card copies: prefix, branch type, "/", issue number, "-", slug. */
  function GitCommand(issue: Issue): (r: string)
    ensures |r| > |CheckoutPrefix| && r[..|CheckoutPrefix|] == CheckoutPrefix
  {
    CheckoutPrefix + BranchName(BranchType(issue.labels), issue.number, Slug(issue.title))
  }

  /** The branch name "<kind>/<number>-<slug>". */
  function BranchName(kind: string, number: nat, slug: string): string
  {
    kind + "/" + NatToString(number) + "-" + slug
  }

  datatype Branch = Branch(kind: string, number: nat, slug: string)

  /** The length of the leading run of decimal digits. */
  function DigitRun(s: string): (n: nat)
    ensures n <= |s| && AllDigits(s[..n])
    ensures n < |s| ==> !IsDigit(s[n])
  {
    if s == [] || !IsDigit(s[0]) then 0
    else
      var n := 1 + DigitRun(s[1..]);
      assert s[..n] == [s[0]] + s[1..][..n - 1];
      n
  }

  /** Reads "<kind>/<number>-<slug>" back into its parts; None when it does not have that shape. */
  function ParseBranch(name: string): Option<Branch>
  {
    var parts := Split(name, '/');
    if |parts| != 2 then None
    else
      var tail := parts[1];
      var n := DigitRun(tail);
      if n == 0 || n == |tail| || tail[n] != '-' then None
      else Some(Branch(parts[0], DigitsValue(tail[..n]), tail[n + 1..]))
  }

  /** Reads a checkout command back into its parts; None when it does not have the command's shape. */
  function ParseCommand(command: string): Option<Branch>
  {
    if !StartsWith(command, CheckoutPrefix) then None
    else ParseBranch(command[|CheckoutPrefix|..])
  }

  lemma DigitRunStops(digits: string, rest: string)
    requires AllDigits(digits) && rest != [] && !IsDigit(rest[0])
    ensures DigitRun(digits + rest) == |digits|
    decreases |digits|
  {
    if digits != [] {
      assert (digits + rest)[1..] == digits[1..] + rest;
      DigitRunStops(digits[1..], rest);
    }
  }

  lemma SplitAtSlash(kind: string, tail: string)
    requires '/' !in kind && '/' !in tail
    ensures Split(kind + "/" + tail, '/') == [kind, tail]
  {
    assert Join([kind, tail], '/') == kind + "/" + tail;
    SplitJoin([kind, tail], '/');
  }

  lemma ParseTail(n: nat, slug: string)
    requires AllSlugChars(slug)
    ensures '/' !in NatToString(n) + "-" + slug
    ensures DigitRun(NatToString(n) + "-" + slug) == |NatToString(n)|
    ensures (NatToString(n) + "-" + slug)[..|NatToString(n)|] == NatToString(n)
    ensures (NatToString(n) + "-" + slug)[|NatToString(n)|] == '-'
    ensures (NatToString(n) + "-" + slug)[|NatToString(n)| + 1..] == slug
    ensures DigitsValue(NatToString(n)) == n
  {
    var digits := NatToString(n);
    var tail := digits + "-" + slug;
    assert forall i :: 0 <= i < |digits| ==> tail[i] == digits[i];
    assert forall i :: |digits| < i < |tail| ==> tail[i] == slug[i - |digits| - 1];
    assert tail == digits + ("-" + slug);
    DigitRunStops(digits, "-" + slug);
    DecimalRoundTrip(n);
  }

  lemma BranchRoundTrip(kind: string, n: nat, slug: string)
    requires '/' !in kind && AllSlugChars(slug)
    ensures ParseBranch(BranchName(kind, n, slug)) == Some(Branch(kind, n, slug))
  {
    var tail := NatToString(n) + "-" + slug;
    ParseTail(n, slug);
    SplitAtSlash(kind, tail);
    assert kind + "/" + NatToString(n) + "-" + slug == kind + "/" + tail;
  }

  lemma StripPrefix(p: string, name: string)
    ensures StartsWith(p + name, p) && (p + name)[|p|..] == name
  {
    assert (p + name)[..|p|] == p;
  }

  /** A checkout command reads back into the branch type, number and slug it was built from. */
  lemma CommandRoundTrip(kind: string, n: nat, slug: string)
    requires '/' !in kind && AllSlugChars(slug)
    ensures ParseCommand(CheckoutPrefix + BranchName(kind, n, slug)) == Some(Branch(kind, n, slug))
  {
    StripPrefix(CheckoutPrefix, BranchName(kind, n, slug));
    BranchRoundTrip(kind, n, slug);
  }

  /** The copied command names the branch type, the issue number and the slug it was built from. */
  lemma GitCommandRoundTrip(issue: Issue)
    ensures ParseCommand(GitCommand(issue)) == Some(Branch(BranchType(issue.labels), issue.number, Slug(issue.title)))
  {
    var kind := BranchType(issue.labels);
    assert '/' !in kind;
    CommandRoundTrip(kind, issue.number, Slug(issue.title));
  }

  /** The state of one card: the stored analysis, the in-flight flag and the copied flag. */
  class Card {
    const issue: Issue
    var analysis: Option<GeminiService.Analysis>
    var isAnalyzing: bool
    var copied: bool

    constructor (issue: Issue)
      ensures this.issue == issue && analysis == None && !isAnalyzing && !copied
    {
      this.issue := issue;
      analysis := None;
      isAnalyzing := false;
      copied := false;
    }

    /**
     * handleAnalyze: a stored analysis is kept and nothing is asked of the AI service;
     * otherwise the analysis of this issue's title and body is stored. `requested` tells
     * whether analyzeIssue was called.
     */
    method HandleAnalyze(apiKey: string, sdk: GeminiService.AiRequest -> GeminiService.Reply,
                         parse: string -> Option<GeminiService.Analysis>) returns (requested: bool)
      modifies this
      ensures requested <==> old(analysis).None?
      ensures old(analysis).Some? ==> analysis == old(analysis) && isAnalyzing == old(isAnalyzing)
      ensures old(analysis).None? ==>
                analysis == Some(GeminiService.AnalyzeIssue(apiKey, issue.title, issue.body, sdk, parse))
                && !isAnalyzing
      ensures analysis.Some? && copied == old(copied)
    {
      if analysis.Some? {
        return false;
      }
      isAnalyzing := true;
      var result := GeminiService.AnalyzeIssue(apiKey, issue.title, issue.body, sdk, parse);
      analysis := Some(result);
      isAnalyzing := false;
      return true;
    }

    /** handleCopyGitCommand: the command put on the clipboard, and the copied flag raised. */
    method CopyGitCommand() returns (command: string)
      modifies this
      ensures command == GitCommand(issue)
      ensures copied && analysis == old(analysis) && isAnalyzing == old(isAnalyzing)
    {
      command := GitCommand(issue);
      copied := true;
    }
  }
}
