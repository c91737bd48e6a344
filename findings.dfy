/** The findings list of the Results tab: the severity filter, the rank used to
    sort it and the stable descending sort (app.py lines 89 and 113-117). */
module Findings {
  import opened Wrappers
  import StableRankSort

  /** What `f.get("severity")` yields: no key, a string, or some other JSON
      scalar (`null`, a number, a boolean). */
  datatype Severity = Missing | Text(name: string) | NonText

  /** One finding as the backend sends it; `evidence` is not modelled. */
  datatype Finding = Finding(id: Option<string>, severity: Severity, title: Option<string>, details: Option<string>)

  /** `SEVERITY_ORDER`. */
  const SeverityOrder: map<string, nat> := map["high" := 3, "med" := 2, "low" := 1]

  /** The filter value that keeps every finding. */
  const All: string := "all"

  /** `SEVERITY_ORDER.get(f.get("severity", "low"), 0)`: a missing severity is
      read as "low", anything that is not a key of the table ranks 0. */
  function SeverityRank(severity: Severity): (rank: nat)
    ensures rank <= 3
  {
    var key := match severity
      case Missing => Some("low")
      case Text(s) => Some(s)
      case NonText => None;
    if key.Some? && key.value in SeverityOrder then SeverityOrder[key.value] else 0
  }

  /** The rank table in full: "high" 3, "med" 2, "low" or no severity 1, and 0
      for every other string and for non-string values. */
  lemma SeverityRanks(severity: Severity)
    ensures SeverityRank(severity) == 3 <==> severity == Text("high")
    ensures SeverityRank(severity) == 2 <==> severity == Text("med")
    ensures SeverityRank(severity) == 1 <==> severity == Missing || severity == Text("low")
    ensures SeverityRank(severity) == 0 <==> severity == NonText || (severity.Text? && severity.name !in SeverityOrder)
  {
  }

  /** The sort key of a finding. */
  function Rank(f: Finding): (rank: nat)
    ensures rank <= 3
  {
    SeverityRank(f.severity)
  }

  // ---------------------------------------------------------------- filter

  /** `[f for f in items if f.get("severity") == chosen]`. */
  function SelectSeverity(chosen: string, items: seq<Finding>): (kept: seq<Finding>)
    ensures |kept| <= |items|
  {
    if items == [] then []
    else (if items[0].severity == Text(chosen) then [items[0]] else []) + SelectSeverity(chosen, items[1..])
  }

  /** The list shown for the chosen filter, before sorting: "all" keeps the
      list, any other choice keeps only findings of exactly that severity. */
  function Filter(chosen: string, items: seq<Finding>): (kept: seq<Finding>)
    ensures |kept| <= |items|
    ensures chosen == All ==> kept == items
    ensures chosen != All ==> forall i :: 0 <= i < |kept| ==> kept[i].severity == Text(chosen)
  {
    if chosen == All then items
    else
      SelectSeverities(chosen, items);
      SelectSeverity(chosen, items)
  }

  /** Filtering with a severity keeps exactly the findings of that severity, and
      keeps every copy of each of them. */
  lemma {:induction false} FilterKeepsExactly(chosen: string, items: seq<Finding>, f: Finding)
    requires chosen != All
    ensures f in Filter(chosen, items) <==> f in items && f.severity == Text(chosen)
    ensures multiset(Filter(chosen, items))[f] == if f.severity == Text(chosen) then multiset(items)[f] else 0
  {
    if items != [] {
      FilterKeepsExactly(chosen, items[1..], f);
      assert items == [items[0]] + items[1..];
    }
  }

  /** Filtering distributes over concatenation, so it keeps the relative order
      of what it keeps. */
  lemma {:induction false} FilterConcat(chosen: string, a: seq<Finding>, b: seq<Finding>)
    ensures Filter(chosen, a + b) == Filter(chosen, a) + Filter(chosen, b)
  {
    if chosen != All {
      SelectConcat(chosen, a, b);
    }
  }

  // ---------------------------------------------------------------- sort

  /** `items.sort(key=Rank, reverse=True)`: Python's sort is stable. The
      result holds the same findings, highest rank first. */
  function SortByRank(items: seq<Finding>): (sorted: seq<Finding>)
    ensures multiset(sorted) == multiset(items)
    ensures StableRankSort.RankDescending(Rank, sorted)
  {
    RanksBounded(items);
    StableRankSort.ByRankPermutation(Rank, items);
    StableRankSort.ByRankDescending(Rank, items);
    StableRankSort.ByRank(Rank, items)
  }

  /** Every list of findings meets the sort's bound on ranks. */
  lemma RanksBounded(items: seq<Finding>)
    ensures StableRankSort.Bounded(Rank, items)
  {
  }

  // ---------------------------------------------------------------- view

  /** The list the Results tab renders for a filter choice: the filtered
      findings, all of them, highest rank first, and in their stored order when
      a single severity is chosen. */
  function View(chosen: string, items: seq<Finding>): (shown: seq<Finding>)
    ensures multiset(shown) == multiset(Filter(chosen, items))
    ensures StableRankSort.RankDescending(Rank, shown)
    ensures chosen != All ==> shown == Filter(chosen, items)
  {
    if chosen != All then SortAfterSeverityFilterIsIdentity(chosen, items); SortByRank(Filter(chosen, items))
    else SortByRank(Filter(chosen, items))
  }

  lemma {:induction false} SelectSeverities(chosen: string, items: seq<Finding>)
    ensures forall i :: 0 <= i < |SelectSeverity(chosen, items)| ==> SelectSeverity(chosen, items)[i].severity == Text(chosen)
  {
    if items != [] {
      SelectSeverities(chosen, items[1..]);
    }
  }

  /** After a severity filter every finding has the same rank, so the sort
      leaves the filtered list as it is. */
  lemma SortAfterSeverityFilterIsIdentity(chosen: string, items: seq<Finding>)
    requires chosen != All
    ensures SortByRank(Filter(chosen, items)) == Filter(chosen, items)
  {
    var kept := Filter(chosen, items);
    RanksBounded(kept);
    StableRankSort.SortedIsByRank(Rank, kept);
  }

  lemma {:induction false} SelectThroughRank(chosen: string, items: seq<Finding>)
    ensures SelectSeverity(chosen, items) == SelectSeverity(chosen, StableRankSort.WithRank(Rank, SeverityRank(Text(chosen)), items))
  {
    if items != [] {
      SelectThroughRank(chosen, items[1..]);
      var k := SeverityRank(Text(chosen));
      var head := if Rank(items[0]) == k then [items[0]] else [];
      SelectConcat(chosen, head, StableRankSort.WithRank(Rank, k, items[1..]));
    }
  }

  lemma {:induction false} SelectConcat(chosen: string, a: seq<Finding>, b: seq<Finding>)
    ensures SelectSeverity(chosen, a + b) == SelectSeverity(chosen, a) + SelectSeverity(chosen, b)
  {
    if a != [] {
      SelectConcat(chosen, a[1..], b);
      var head := if a[0].severity == Text(chosen) then [a[0]] else [];
      calc {
        SelectSeverity(chosen, a + b);
        { assert (a + b)[0] == a[0]; assert (a + b)[1..] == a[1..] + b; }
        head + SelectSeverity(chosen, a[1..] + b);
        head + (SelectSeverity(chosen, a[1..]) + SelectSeverity(chosen, b));
        (head + SelectSeverity(chosen, a[1..])) + SelectSeverity(chosen, b);
      }
    } else {
      assert a + b == b;
    }
  }

  /** With the "all" filter the page sorts the stored findings list in place.
      That reordering changes no view: every filter shows the same list before
      and after it. */
  lemma ViewUnaffectedByStoredSort(chosen: string, items: seq<Finding>)
    ensures View(chosen, SortByRank(items)) == View(chosen, items)
  {
    if chosen == All {
      StableRankSort.ByRankIdempotent(Rank, items);
    } else {
      var k := SeverityRank(Text(chosen));
      SelectThroughRank(chosen, items);
      SelectThroughRank(chosen, SortByRank(items));
      RanksBounded(items);
      StableRankSort.ByRankStable(Rank, items, k);
    }
  }
}
