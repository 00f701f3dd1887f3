/**
 * The organizer dashboard: the stat cards, the rows it loads for the
 * organizer's own events, and the Accept/Decline response to an application.
 */
module OrganizerDashboard {
  import opened Wrappers
  import opened Rows
  import Seqs
  import MatchScore
  import Applications
  import DashboardCharts

  // ---------------------------------------------------------------- stats

  predicate IsPublished(e: EventRow)
  {
    e.status == "published"
  }

  predicate IsHighQuality(m: MatchRow)
  {
    m.match_score >= 70
  }

  /** "N published": `events.filter((e) => e.status === "published").length`. */
  function PublishedCount(events: seq<EventRow>): (n: nat)
    ensures n == |Seqs.Filter(events, IsPublished)|
    ensures n <= |events|
    ensures n == |events| <==> forall i :: 0 <= i < |events| ==> events[i].status == "published"
  {
    Seqs.FilterLengthIsCountIf(events, IsPublished);
    Seqs.CountIf(events, IsPublished)
  }

  /** "N high quality": `matches.filter((m) => m.match_score >= 70).length`. */
  function HighQualityCount(matches: seq<MatchRow>): (n: nat)
    ensures n == |Seqs.Filter(matches, IsHighQuality)|
    ensures n <= |matches|
    ensures n == 0 <==> forall i :: 0 <= i < |matches| ==> matches[i].match_score < 70
  {
    Seqs.FilterLengthIsCountIf(matches, IsHighQuality);
    Seqs.CountIf(matches, IsHighQuality)
  }

  /**
   * The high-quality stat lies between the number of matches labelled
   * "Excellent Match" and the number not labelled "Fair Match".
   */
  lemma HighQualityBetweenBands(matches: seq<MatchRow>)
    ensures Seqs.CountIf(matches, (m: MatchRow) => MatchScore.BandOf(m.match_score) == MatchScore.Excellent)
      <= HighQualityCount(matches)
      <= Seqs.CountIf(matches, (m: MatchRow) => MatchScore.BandOf(m.match_score) != MatchScore.Fair)
  {
    Seqs.CountIfMonotone(matches, (m: MatchRow) => MatchScore.BandOf(m.match_score) == MatchScore.Excellent,
      IsHighQuality);
    Seqs.CountIfMonotone(matches, IsHighQuality,
      (m: MatchRow) => MatchScore.BandOf(m.match_score) != MatchScore.Fair);
  }

  /** "Total Audience": `events.reduce((sum, event) => sum + (event.expected_audience || 0), 0)`. */
  function TotalAudience(events: seq<EventRow>): (total: int)
    ensures (forall i :: 0 <= i < |events| ==> events[i].expected_audience.None?) ==> total == 0
    ensures (forall i :: 0 <= i < |events| ==> DashboardCharts.AudienceOf(events[i]) >= 0) ==> total >= 0
  {
    if events == [] then 0
    else TotalAudience(events[..|events| - 1]) + DashboardCharts.AudienceOf(events[|events| - 1])
  }

  /** The sum of the audience series' values. */
  function SeriesTotal(points: seq<DashboardCharts.AudiencePoint>): int
  {
    if points == [] then 0 else SeriesTotal(points[..|points| - 1]) + points[|points| - 1].audience
  }

  /** The "Total Audience" card equals the sum of the points plotted in the "Audience Reach" chart. */
  lemma {:induction false} TotalAudienceIsChartTotal(events: seq<EventRow>)
    ensures TotalAudience(events) == SeriesTotal(DashboardCharts.AudienceData(events))
  {
    if events != [] {
      var before := events[..|events| - 1];
      var points := DashboardCharts.AudienceData(events);
      assert points[..|points| - 1] == DashboardCharts.AudienceData(before);
      TotalAudienceIsChartTotal(before);
    }
  }

  // ---------------------------------------------------------------- own rows

  /** `eventsData.map((e) => e.id)`. */
  function EventIds(events: seq<EventRow>): (ids: seq<string>)
    ensures |ids| == |events|
    ensures forall i :: 0 <= i < |events| ==> ids[i] == events[i].id
  {
    if events == [] then [] else [events[0].id] + EventIds(events[1..])
  }

  /** The matches loaded with `.in("event_id", ids)`: exactly those for the organizer's own events. */
  function OwnMatches(table: seq<MatchRow>, events: seq<EventRow>): (loaded: seq<MatchRow>)
    ensures forall i :: 0 <= i < |loaded| ==> loaded[i] in table && loaded[i].event_id in EventIds(events)
    ensures forall i :: 0 <= i < |table| && table[i].event_id in EventIds(events) ==> table[i] in loaded
  {
    var ids := EventIds(events);
    Seqs.Filter(table, (m: MatchRow) => m.event_id in ids)
  }

  /** The applications loaded with `.in("event_id", ids)`: exactly those for the organizer's own events. */
  function OwnApplications(table: seq<ApplicationRow>, events: seq<EventRow>): (loaded: seq<ApplicationRow>)
    ensures forall i :: 0 <= i < |loaded| ==> loaded[i] in table && loaded[i].event_id in EventIds(events)
    ensures forall i :: 0 <= i < |table| && table[i].event_id in EventIds(events) ==> table[i] in loaded
  {
    var ids := EventIds(events);
    Seqs.Filter(table, (a: ApplicationRow) => a.event_id in ids)
  }

  // ---------------------------------------------------------------- responses

  /** The Accept and Decline buttons are rendered only on a pending application. */
  function OfferedDecisions(app: ApplicationRow): (offered: set<Applications.Decision>)
    ensures offered != {} <==> app.status == "pending"
  {
    if app.status == "pending" then {Applications.Accept, Applications.Decline} else {}
  }

  const AcceptMessage: string := "Thank you for your interest! We'd love to discuss this sponsorship opportunity further."
  const DeclineMessage: string := "Thank you for your interest. Unfortunately, this doesn't align with our current needs."

  /** The message each button sends with its response. */
  function ButtonMessage(d: Applications.Decision): (m: string)
    ensures |m| > 0
  {
    match d
    case Accept => AcceptMessage
    case Decline => DeclineMessage
  }

  /**
   * Every response the dashboard offers is a lifecycle step, and every lifecycle
   * step out of an application's status is offered by one of its buttons.
   */
  lemma OfferedResponsesAreLifecycleSteps(rows: map<string, ApplicationRow>, id: string)
    requires id in rows
    ensures forall d :: d in OfferedDecisions(rows[id]) ==>
      var after := Applications.Responded(rows, id, Applications.DecisionStatus(d), Some(ButtonMessage(d)));
      Applications.LifecycleStep(rows[id].status, after[id].status) && after[id].response_message == Some(ButtonMessage(d))
    ensures forall to :: Applications.LifecycleStep(rows[id].status, to) ==>
      exists d :: d in OfferedDecisions(rows[id]) && Applications.DecisionStatus(d) == to
  {
    forall to | Applications.LifecycleStep(rows[id].status, to)
      ensures exists d :: d in OfferedDecisions(rows[id]) && Applications.DecisionStatus(d) == to
    {
      if to == "accepted" {
        assert Applications.Accept in OfferedDecisions(rows[id]);
      } else {
        assert Applications.Decline in OfferedDecisions(rows[id]);
      }
    }
  }

  /** The `applications` table, as far as the organizer's responses change it. */
  class ApplicationsTable {
    var rows: map<string, ApplicationRow>

    constructor (initial: map<string, ApplicationRow>)
      ensures rows == initial
    {
      rows := initial;
    }

    /**
     * `handleApplicationResponse(applicationId, status, responseMessage)`;
     * `failure` is the backend's error reply, if any.
     */
    method HandleApplicationResponse(applicationId: string, d: Applications.Decision, responseMessage: Option<string>,
                                     failure: Option<string>)
      returns (succeeded: bool)
      modifies this
      ensures succeeded <==> failure.None?
      ensures rows == if failure.Some? then old(rows)
                      else Applications.Responded(old(rows), applicationId, Applications.DecisionStatus(d), responseMessage)
    {
      if failure.Some? {
        return false;
      }
      rows := Applications.Responded(rows, applicationId, Applications.DecisionStatus(d), responseMessage);
      return true;
    }
  }
}
