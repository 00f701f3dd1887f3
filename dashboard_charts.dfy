/**
 * The data series behind `DashboardCharts`: the per-category histogram built by
 * a `reduce` that updates an accumulator object in place, its bar labels, and
 * the audience and match-score line series.
 */
module DashboardCharts {
  import opened Wrappers
  import opened Rows
  import Text
  import Seqs

  /** The number of events whose category is `c`, counted from the left as the reduce does. */
  function CategoryCount(events: seq<EventRow>, c: string): nat
  {
    if events == [] then 0
    else CategoryCount(events[..|events| - 1], c) + (if events[|events| - 1].category == c then 1 else 0)
  }

  /**
   * The categories present, each once, in order of first appearance: the order in
   * which `Object.entries` lists the accumulator's keys.
   */
  function Categories(events: seq<EventRow>): seq<string>
  {
    if events == [] then []
    else
      var before := Categories(events[..|events| - 1]);
      var c := events[|events| - 1].category;
      if c in before then before else before + [c]
  }

  /** The sum of the counts of the given categories. */
  function SumCounts(keys: seq<string>, events: seq<EventRow>): nat
  {
    if keys == [] then 0 else CategoryCount(events, keys[0]) + SumCounts(keys[1..], events)
  }

  /** The categories listed are distinct and are exactly those with a count of at least one. */
  lemma {:induction false} CategoriesSpec(events: seq<EventRow>)
    ensures Seqs.Distinct(Categories(events))
    ensures forall c :: c in Categories(events) <==> CategoryCount(events, c) >= 1
    ensures forall i :: 0 <= i < |events| ==> events[i].category in Categories(events)
  {
    if events != [] {
      var before := events[..|events| - 1];
      CategoriesSpec(before);
      forall i | 0 <= i < |events| ensures events[i].category in Categories(events) {
        if i < |events| - 1 {
          assert events[i] == before[i];
        }
      }
    }
  }

  lemma {:induction false} SumCountsAppendEvent(keys: seq<string>, events: seq<EventRow>, e: EventRow)
    requires Seqs.Distinct(keys)
    ensures SumCounts(keys, events + [e]) == SumCounts(keys, events) + (if e.category in keys then 1 else 0)
  {
    if keys != [] {
      assert (events + [e])[..|events|] == events;
      SumCountsAppendEvent(keys[1..], events, e);
      assert e.category in keys[1..] ==> e.category != keys[0];
    }
  }

  lemma {:induction false} SumCountsAppendKey(keys: seq<string>, k: string, events: seq<EventRow>)
    ensures SumCounts(keys + [k], events) == SumCounts(keys, events) + CategoryCount(events, k)
  {
    if keys != [] {
      assert (keys + [k])[1..] == keys[1..] + [k];
      SumCountsAppendKey(keys[1..], k, events);
    }
  }

  /** The counts of the histogram add up to the number of events. */
  lemma {:induction false} HistogramTotal(events: seq<EventRow>)
    ensures SumCounts(Categories(events), events) == |events|
  {
    if events != [] {
      var before := events[..|events| - 1];
      var e := events[|events| - 1];
      assert events == before + [e];
      HistogramTotal(before);
      CategoriesSpec(before);
      var keys := Categories(before);
      SumCountsAppendEvent(keys, before, e);
      if e.category !in keys {
        SumCountsAppendKey(keys, e.category, events);
        assert CategoryCount(before, e.category) == 0;
      }
    }
  }

  /**
   * `categoryData`: the reduce that adds one to `acc[event.category]` per event.
   * `order` is the accumulator's key order; `counts` its contents.
   */
  method CategoryTally(events: seq<EventRow>) returns (order: seq<string>, counts: map<string, nat>)
    ensures order == Categories(events)
    ensures forall c :: c in counts <==> c in order
    ensures forall c :: c in counts ==> counts[c] == CategoryCount(events, c)
  {
    order, counts := [], map[];
    var i := 0;
    while i < |events|
      invariant 0 <= i <= |events|
      invariant order == Categories(events[..i])
      invariant forall c :: c in counts <==> c in order
      invariant forall c :: c in counts ==> counts[c] == CategoryCount(events[..i], c)
    {
      var c := events[i].category;
      assert events[..i + 1][..i] == events[..i];
      CategoriesSpec(events[..i]);
      if c !in counts {
        order := order + [c];
      }
      counts := counts[c := (if c in counts then counts[c] else 0) + 1];
      i := i + 1;
    }
    assert events[..i] == events;
  }

  /** `category.charAt(0).toUpperCase() + category.slice(1)`. */
  function Capitalize(s: string): (r: string)
    ensures |r| == |s|
    ensures s != [] ==> r[0] == Text.UpperChar(s[0]) && r[1..] == s[1..]
  {
    if s == [] then "" else [Text.UpperChar(s[0])] + s[1..]
  }

  datatype CategoryBar = CategoryBar(category: string, count: nat)

  /** `categoryChartData`: one bar per accumulator key, in key order, labelled with the capitalised category. */
  function CategoryChartData(order: seq<string>, counts: map<string, nat>): (bars: seq<CategoryBar>)
    requires forall c :: c in order ==> c in counts
    ensures |bars| == |order|
    ensures forall i :: 0 <= i < |order| ==>
      bars[i].category == Capitalize(order[i]) && bars[i].count == counts[order[i]]
  {
    if order == [] then []
    else [CategoryBar(Capitalize(order[0]), counts[order[0]])] + CategoryChartData(order[1..], counts)
  }

  /** The x-axis name of the `index`-th point of a series: `${prefix}${index + 1}`. */
  function SeriesName(prefix: string, index: nat): string
  {
    prefix + Text.NatToString(index + 1)
  }

  /** No two points of a series share a name. */
  lemma SeriesNamesDistinct(prefix: string)
    ensures forall i: nat, j: nat :: i != j ==> SeriesName(prefix, i) != SeriesName(prefix, j)
  {
    forall i: nat, j: nat | SeriesName(prefix, i) == SeriesName(prefix, j) ensures i == j {
      var a, b := SeriesName(prefix, i), SeriesName(prefix, j);
      assert a[|prefix|..] == Text.NatToString(i + 1);
      assert b[|prefix|..] == Text.NatToString(j + 1);
      Text.NatToStringInjective(i + 1, j + 1);
    }
  }

  /** `event.expected_audience || 0`: a missing audience counts as 0. */
  function AudienceOf(e: EventRow): int
  {
    e.expected_audience.GetOr(0)
  }

  datatype AudiencePoint = AudiencePoint(name: string, audience: int)

  /** `audienceData`: one point per event, in order, named "Event 1", "Event 2", ... */
  function AudienceData(events: seq<EventRow>): (points: seq<AudiencePoint>)
    ensures |points| == |events|
    ensures forall i :: 0 <= i < |events| ==>
      points[i].name == SeriesName("Event ", i) && points[i].audience == AudienceOf(events[i])
    ensures forall i, j :: 0 <= i < j < |points| ==> points[i].name != points[j].name
  {
    SeriesNamesDistinct("Event ");
    seq(|events|, i requires 0 <= i < |events| => AudiencePoint(SeriesName("Event ", i), AudienceOf(events[i])))
  }

  datatype ScorePoint = ScorePoint(name: string, score: int)

  /** `matchScoreData`: one point per match, in order, with the score copied unchanged. */
  function MatchScoreData(matches: seq<MatchRow>): (points: seq<ScorePoint>)
    ensures |points| == |matches|
    ensures forall i :: 0 <= i < |matches| ==>
      points[i].name == SeriesName("Match ", i) && points[i].score == matches[i].match_score
    ensures forall i, j :: 0 <= i < j < |points| ==> points[i].name != points[j].name
  {
    SeriesNamesDistinct("Match ");
    seq(|matches|, i requires 0 <= i < |matches| => ScorePoint(SeriesName("Match ", i), matches[i].match_score))
  }

  /** The "Match Quality" card is rendered exactly when there is at least one match. */
  function MatchQualityShown(matches: seq<MatchRow>): (shown: bool)
    ensures shown <==> |MatchScoreData(matches)| > 0
  {
    |matches| > 0
  }
}
