/**
 * The aggregates of the dashboard screen: the open/closed/notes counters, the
 * issue-distribution-by-label chart, the recent-activity slice and the bar colours.
 *
 * The chart is built as the source builds it, by filling an insertion-ordered map in two
 * nested loops; the insertion order is kept as the sequence `keys` next to the counts. It is
 * proved against an independent definition: one entry per distinct label name, in order of
 * first appearance, holding the number of occurrences of that name.
 */
module Dashboard {
  import opened Types

  datatype Stats = Stats(open: nat, closed: nat, totalNotes: nat)

  /** The three counters of the stat cards. */
  function ComputeStats(issues: seq<Issue>, notes: seq<ResearchNote>): (s: Stats)
    ensures s.open + s.closed == |issues|
    ensures s.open == |IssuesInState(issues, Open)| && s.closed == |IssuesInState(issues, Closed)|
    ensures s.totalNotes == |notes|
  {
    OpenClosedPartition(issues);
    Stats(|IssuesInState(issues, Open)|, |IssuesInState(issues, Closed)|, |notes|)
  }

  /** The names of a list of labels, in order. */
  function Names(labels: seq<Label>): (r: seq<string>)
  {
    seq(|labels|, i requires 0 <= i < |labels| => labels[i].name)
  }

  /** Every label name of every issue, issue by issue and label by label. */
  function LabelNames(issues: seq<Issue>): seq<string>
  {
    if issues == [] then [] else LabelNames(issues[..|issues| - 1]) + Names(issues[|issues| - 1].labels)
  }

  /** The total number of labels across the issues. */
  function LabelTotal(issues: seq<Issue>): nat
  {
    if issues == [] then 0 else LabelTotal(issues[..|issues| - 1]) + |issues[|issues| - 1].labels|
  }

  /** How often x occurs in s. */
  function Count(s: seq<string>, x: string): (n: nat)
    ensures n <= |s|
    ensures n == 0 <==> x !in s
  {
    if s == [] then 0 else Count(s[..|s| - 1], x) + (if s[|s| - 1] == x then 1 else 0)
  }

  /** The distinct elements of s, each where it first appears. */
  function Dedup(s: seq<string>): (d: seq<string>)
    ensures Distinct(d)
    ensures forall x :: x in d <==> x in s
    ensures |d| <= |s|
  {
    if s == [] then []
    else
      var d := Dedup(s[..|s| - 1]);
      assert forall x :: x in s <==> x in s[..|s| - 1] || x == s[|s| - 1] by {
        assert s == s[..|s| - 1] + [s[|s| - 1]];
      }
      if s[|s| - 1] in d then d else d + [s[|s| - 1]]
  }

  datatype ChartEntry = ChartEntry(name: string, value: nat)

  /** One entry per name of `names`, holding its number of occurrences in s. */
  function Entries(names: seq<string>, s: seq<string>): (r: seq<ChartEntry>)
    ensures |r| == |names|
    ensures forall i :: 0 <= i < |r| ==> r[i] == ChartEntry(names[i], Count(s, names[i]))
  {
    if names == [] then [] else [ChartEntry(names[0], Count(s, names[0]))] + Entries(names[1..], s)
  }

  /** The chart the dashboard should show for a list of label names. */
  function Histogram(s: seq<string>): seq<ChartEntry>
  {
    Entries(Dedup(s), s)
  }

  /** The sum of the bar lengths. */
  function TotalValue(chart: seq<ChartEntry>): nat
  {
    if chart == [] then 0 else chart[0].value + TotalValue(chart[1..])
  }

  /** An insertion-ordered map from label name to count, as the chart computation fills it. */
  ghost predicate Tally(keys: seq<string>, counts: map<string, nat>, seen: seq<string>)
  {
    keys == Dedup(seen)
    && (forall k :: k in counts <==> k in seen)
    && (forall k :: k in counts ==> counts[k] == Count(seen, k))
  }

  /** Counting one more occurrence of `name` keeps the map in step with the names seen. */
  lemma TallyStep(keys: seq<string>, counts: map<string, nat>, seen: seq<string>, name: string)
    requires Tally(keys, counts, seen)
    ensures Tally(if name in counts then keys else keys + [name],
                  counts[name := (if name in counts then counts[name] else 0) + 1],
                  seen + [name])
  {
    DedupStep(seen, name);
    DomainStep(counts, seen, name);
    CountStep(counts, seen, name);
  }

  lemma DedupStep(seen: seq<string>, name: string)
    ensures Dedup(seen + [name]) == if name in seen then Dedup(seen) else Dedup(seen) + [name]
  {
    var s := seen + [name];
    assert s[..|s| - 1] == seen;
  }

  lemma DomainStep(counts: map<string, nat>, seen: seq<string>, name: string)
    requires forall k :: k in counts <==> k in seen
    ensures forall k :: k in counts[name := 0] <==> k in seen + [name]
  {
  }

  lemma CountStep(counts: map<string, nat>, seen: seq<string>, name: string)
    requires forall k :: k in counts <==> k in seen
    requires forall k :: k in counts ==> counts[k] == Count(seen, k)
    ensures var counts' := counts[name := (if name in counts then counts[name] else 0) + 1];
            forall k :: k in counts' ==> counts'[k] == Count(seen + [name], k)
  {
    var s := seen + [name];
    assert s[..|s| - 1] == seen;
  }

  /** The inner loop of chartData: count the labels of one issue into the map. */
  method TallyLabels(keys0: seq<string>, counts0: map<string, nat>, labels: seq<Label>, ghost before: seq<string>)
    returns (keys: seq<string>, counts: map<string, nat>)
    requires Tally(keys0, counts0, before)
    ensures Tally(keys, counts, before + Names(labels))
  {
    keys, counts := keys0, counts0;
    ghost var seen := before;
    var j := 0;
    while j < |labels|
      invariant 0 <= j <= |labels|
      invariant seen == before + Names(labels[..j])
      invariant Tally(keys, counts, seen)
    {
      var name := labels[j].name;
      TallyStep(keys, counts, seen, name);
      NamesStep(before, labels, j);
      if name !in counts {
        keys := keys + [name];
      }
      var previous := if name in counts then counts[name] else 0;
      counts := counts[name := previous + 1];
      seen := seen + [name];
      j := j + 1;
    }
    assert labels[..j] == labels;
  }

  /** chartData: count every label occurrence, then list the map's entries in insertion order. */
  method ChartData(issues: seq<Issue>) returns (chart: seq<ChartEntry>)
    ensures chart == Histogram(LabelNames(issues))
  {
    var keys: seq<string> := [];
    var counts: map<string, nat> := map[];
    var i := 0;
    while i < |issues|
      invariant 0 <= i <= |issues|
      invariant Tally(keys, counts, LabelNames(issues[..i]))
    {
      assert issues[..i + 1][..i] == issues[..i];
      keys, counts := TallyLabels(keys, counts, issues[i].labels, LabelNames(issues[..i]));
      i := i + 1;
    }
    assert issues[..i] == issues;
    TallyKeys(keys, counts, LabelNames(issues));
    chart := seq(|keys|, k requires 0 <= k < |keys| => ChartEntry(keys[k], counts[keys[k]]));
    TallyChart(keys, counts, LabelNames(issues), chart);
  }

  lemma TallyKeys(keys: seq<string>, counts: map<string, nat>, seen: seq<string>)
    requires Tally(keys, counts, seen)
    ensures forall k :: 0 <= k < |keys| ==> keys[k] in counts
  {
  }

  lemma NamesStep(before: seq<string>, labels: seq<Label>, j: nat)
    requires j < |labels|
    ensures before + Names(labels[..j + 1]) == before + Names(labels[..j]) + [labels[j].name]
  {
    assert labels[..j + 1][..j] == labels[..j];
  }

  /** The entries of a complete tally, in insertion order, are the histogram of the names seen. */
  lemma TallyChart(keys: seq<string>, counts: map<string, nat>, seen: seq<string>, chart: seq<ChartEntry>)
    requires Tally(keys, counts, seen)
    requires |chart| == |keys|
    requires forall k :: 0 <= k < |keys| ==> keys[k] in counts && chart[k] == ChartEntry(keys[k], counts[keys[k]])
    ensures chart == Histogram(seen)
  {
  }

  lemma {:induction false} LabelNamesLength(issues: seq<Issue>)
    ensures |LabelNames(issues)| == LabelTotal(issues)
  {
    if issues != [] {
      LabelNamesLength(issues[..|issues| - 1]);
    }
  }

  lemma {:induction false} EntriesTotalStep(names: seq<string>, s: seq<string>, x: string)
    ensures TotalValue(Entries(names, s + [x])) == TotalValue(Entries(names, s)) + Count(names, x)
    decreases |names|
  {
    var t := s + [x];
    assert t[..|t| - 1] == s;
    if names != [] {
      EntriesTotalStep(names[1..], s, x);
      CountFront(names, x);
    }
  }

  lemma CountFront(s: seq<string>, x: string)
    requires s != []
    ensures Count(s, x) == (if s[0] == x then 1 else 0) + Count(s[1..], x)
    decreases |s|
  {
    if |s| > 1 {
      CountFront(s[..|s| - 1], x);
      assert s[..|s| - 1][1..] == s[1..][..|s[1..]| - 1];
    }
  }

  lemma {:induction false} DistinctCountOne(d: seq<string>, x: string)
    requires Distinct(d) && x in d
    ensures Count(d, x) == 1
    decreases |d|
  {
    var init := d[..|d| - 1];
    assert d == init + [d[|d| - 1]];
    if d[|d| - 1] == x {
      assert x !in init;
    } else {
      DistinctCountOne(init, x);
    }
  }

  /** Counting every name of a distinct list that covers s accounts for every element of s once. */
  lemma {:induction false} CountsCover(d: seq<string>, s: seq<string>)
    requires Distinct(d)
    requires forall x :: x in s ==> x in d
    ensures TotalValue(Entries(d, s)) == |s|
    decreases |s|
  {
    if s == [] {
      ZeroCounts(d);
    } else {
      var init := s[..|s| - 1];
      var x := s[|s| - 1];
      assert s == init + [x];
      assert forall y :: y in init ==> y in s;
      CountsCover(d, init);
      EntriesTotalStep(d, init, x);
      assert x in d;
      DistinctCountOne(d, x);
    }
  }

  lemma {:induction false} ZeroCounts(d: seq<string>)
    ensures TotalValue(Entries(d, [])) == 0
    decreases |d|
  {
    if d != [] {
      ZeroCounts(d[1..]);
    }
  }

  /** The chart's values add up to the number of labels across all issues. */
  lemma ChartTotal(issues: seq<Issue>)
    ensures TotalValue(Histogram(LabelNames(issues))) == LabelTotal(issues)
  {
    var s := LabelNames(issues);
    CountsCover(Dedup(s), s);
    LabelNamesLength(issues);
  }

  /** The chart's names are distinct, each is a label name, and each label name has an entry. */
  lemma ChartNames(issues: seq<Issue>)
    ensures Distinct(seq(|Histogram(LabelNames(issues))|, i requires 0 <= i < |Histogram(LabelNames(issues))| =>
                         Histogram(LabelNames(issues))[i].name))
    ensures forall x :: x in LabelNames(issues) <==> exists i :: 0 <= i < |Histogram(LabelNames(issues))|
                                                        && Histogram(LabelNames(issues))[i].name == x
  {
    var s := LabelNames(issues);
    var d := Dedup(s);
    forall x | x in s
      ensures exists i :: 0 <= i < |Histogram(s)| && Histogram(s)[i].name == x
    {
      var i :| 0 <= i < |d| && d[i] == x;
      assert Histogram(s)[i].name == x;
    }
  }

  /** The index of the first occurrence of x in s. */
  function FirstIndex(s: seq<string>, x: string): (i: nat)
    requires x in s
    ensures i < |s| && s[i] == x && x !in s[..i]
  {
    if s[0] == x then 0
    else
      var i := 1 + FirstIndex(s[1..], x);
      assert s[..i] == [s[0]] + s[1..][..i - 1];
      i
  }

  lemma {:induction false} FirstIndexExtends(s: seq<string>, t: seq<string>, x: string)
    requires x in s
    ensures FirstIndex(s + t, x) == FirstIndex(s, x)
    decreases |s|
  {
    if s[0] != x {
      assert (s + t)[1..] == s[1..] + t;
      FirstIndexExtends(s[1..], t, x);
    }
  }

  /** Dedup lists the names in order of their first appearance. */
  lemma {:induction false} DedupFirstSeen(s: seq<string>)
    ensures forall i, j :: 0 <= i < j < |Dedup(s)| ==> FirstIndex(s, Dedup(s)[i]) < FirstIndex(s, Dedup(s)[j])
  {
    if s != [] {
      var init := s[..|s| - 1];
      var x := s[|s| - 1];
      var d := Dedup(init);
      assert s == init + [x];
      DedupFirstSeen(init);
      forall y | y in init
        ensures FirstIndex(s, y) == FirstIndex(init, y)
      {
        FirstIndexExtends(init, [x], y);
      }
      if x !in d {
        assert x !in init;
        assert FirstIndex(s, x) == |init|;
      }
    }
  }

  /** Chart entries appear in the order in which their names first occur among the labels. */
  lemma ChartFirstSeen(issues: seq<Issue>, i: nat, j: nat)
    requires i < j < |Histogram(LabelNames(issues))|
    ensures Histogram(LabelNames(issues))[i].name in LabelNames(issues)
    ensures Histogram(LabelNames(issues))[j].name in LabelNames(issues)
    ensures FirstIndex(LabelNames(issues), Histogram(LabelNames(issues))[i].name)
            < FirstIndex(LabelNames(issues), Histogram(LabelNames(issues))[j].name)
  {
    DedupFirstSeen(LabelNames(issues));
  }

  /** The recent-activity list: the first three issues, or all of them when there are fewer. */
  function Recent(issues: seq<Issue>): (r: seq<Issue>)
    ensures |r| == (if |issues| < 3 then |issues| else 3)
    ensures forall i :: 0 <= i < |r| ==> r[i] == issues[i]
    ensures r == [] <==> issues == []
  {
    if |issues| < 3 then issues else issues[..3]
  }

  datatype Dot = WarningDot | SuccessDot

  /** The activity dot: the warning colour for an open issue, the success colour otherwise. */
  function ActivityDot(issue: Issue): (d: Dot)
    ensures d == WarningDot <==> issue.state == Open
  {
    if issue.state == Open then WarningDot else SuccessDot
  }

  const Colors: seq<string> := ["#00bcff", "#00dc82", "#eab308", "#ef4444", "#a855f7"]

  /** The fill of the bar at index i: the palette, cycled. */
  function BarColor(i: nat): (c: string)
    ensures c in Colors
    ensures i < |Colors| ==> c == Colors[i]
  {
    Colors[i % |Colors|]
  }

  /** The palette repeats every five bars, and neighbouring bars never share a colour. */
  lemma BarColorsCycle(i: nat)
    ensures BarColor(i + 5) == BarColor(i)
    ensures BarColor(i) != BarColor(i + 1)
  {
    assert (i + 5) % 5 == i % 5;
    assert (i + 1) % 5 == (i % 5 + 1) % 5;
  }
}
