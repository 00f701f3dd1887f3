/**
 * The sponsor dashboard: event discovery (search and category filter),
 * bookmarks, the "applied" mark, and the stat cards.
 */
module SponsorDashboard {
  import opened Wrappers
  import opened Rows
  import Text
  import Seqs
  import MatchScore
  import Applications
  import DashboardCharts

  // ---------------------------------------------------------------- discovery

  /** `field?.toLowerCase().includes(term.toLowerCase())`, false when the field is missing. */
  predicate FieldMatches(field: Option<string>, term: string)
  {
    field.Some? && Text.Contains(Text.Lower(field.value), Text.Lower(term))
  }

  /** The search matches the title, the description or the organizer's university, ignoring ASCII case. */
  predicate MatchesSearch(e: EventRow, term: string)
  {
    FieldMatches(Some(e.title), term) || FieldMatches(e.description, term) || FieldMatches(e.university, term)
  }

  predicate MatchesCategory(e: EventRow, categoryFilter: string)
  {
    categoryFilter == "all" || e.category == categoryFilter
  }

  /** `filteredEvents`: the events passing both the search and the category filter, in their original order. */
  function FilteredEvents(events: seq<EventRow>, term: string, categoryFilter: string): (shown: seq<EventRow>)
    ensures forall i :: 0 <= i < |shown| ==>
      shown[i] in events && MatchesSearch(shown[i], term) && MatchesCategory(shown[i], categoryFilter)
    ensures forall i :: 0 <= i < |events| && MatchesSearch(events[i], term) && MatchesCategory(events[i], categoryFilter) ==>
      events[i] in shown
    ensures Seqs.IsSubseq(shown, events)
  {
    Seqs.FilterIsSubseq(events, (e: EventRow) => MatchesSearch(e, term) && MatchesCategory(e, categoryFilter));
    Seqs.Filter(events, (e: EventRow) => MatchesSearch(e, term) && MatchesCategory(e, categoryFilter))
  }

  /** With an empty search and the "all" category, every event is shown. */
  lemma NoFilterShowsAll(events: seq<EventRow>)
    ensures FilteredEvents(events, "", "all") == events
  {
    var p := (e: EventRow) => MatchesSearch(e, "") && MatchesCategory(e, "all");
    forall i | 0 <= i < |events| ensures p(events[i]) {
      assert Text.Lower("") == "";
      assert Text.Contains(Text.Lower(events[i].title), "");
    }
    Seqs.FilterAll(events, p);
  }

  // ---------------------------------------------------------------- bookmarks

  predicate DistinctIds(bookmarks: seq<BookmarkRow>)
  {
    forall i, j :: 0 <= i < j < |bookmarks| ==> bookmarks[i].id != bookmarks[j].id
  }

  /** `isBookmarked`: some bookmark refers to the event. */
  predicate IsBookmarked(bookmarks: seq<BookmarkRow>, eventId: string)
  {
    exists i :: 0 <= i < |bookmarks| && bookmarks[i].event_id == eventId
  }

  /** `bookmarks.find((b) => b.event_id === eventId)`, as the index of the first such bookmark. */
  function FindBookmark(bookmarks: seq<BookmarkRow>, eventId: string): (k: Option<nat>)
    ensures k.None? <==> !IsBookmarked(bookmarks, eventId)
    ensures k.Some? ==>
      && k.value < |bookmarks| && bookmarks[k.value].event_id == eventId
      && forall j :: 0 <= j < k.value ==> bookmarks[j].event_id != eventId
  {
    if bookmarks == [] then None
    else if bookmarks[0].event_id == eventId then Some(0)
    else
      match FindBookmark(bookmarks[1..], eventId)
      case None => None
      case Some(k) => Some(k + 1)
  }

  /** `bookmarks.filter((b) => b.id !== id)`. */
  function WithoutId(bookmarks: seq<BookmarkRow>, id: string): seq<BookmarkRow>
  {
    if bookmarks == [] then []
    else (if bookmarks[0].id != id then [bookmarks[0]] else []) + WithoutId(bookmarks[1..], id)
  }

  /** Filtering out an id no bookmark has keeps every bookmark. */
  lemma {:induction false} WithoutAbsentId(bookmarks: seq<BookmarkRow>, id: string)
    requires forall i :: 0 <= i < |bookmarks| ==> bookmarks[i].id != id
    ensures WithoutId(bookmarks, id) == bookmarks
  {
    if bookmarks != [] {
      WithoutAbsentId(bookmarks[1..], id);
    }
  }

  /** With distinct ids, filtering out the id of bookmark `k` removes that bookmark alone and keeps the rest in order. */
  lemma {:induction false} WithoutIdRemovesOne(bookmarks: seq<BookmarkRow>, k: nat)
    requires DistinctIds(bookmarks) && k < |bookmarks|
    ensures WithoutId(bookmarks, bookmarks[k].id) == bookmarks[..k] + bookmarks[k + 1..]
  {
    var id := bookmarks[k].id;
    var rest := bookmarks[1..];
    if k == 0 {
      assert forall i :: 0 <= i < |rest| ==> rest[i] == bookmarks[i + 1];
      WithoutAbsentId(rest, id);
    } else {
      assert rest[k - 1] == bookmarks[k];
      WithoutIdRemovesOne(rest, k - 1);
      assert bookmarks[..k] == [bookmarks[0]] + rest[..k - 1];
      assert bookmarks[k + 1..] == rest[k..];
    }
  }

  /** The sponsor's bookmark list, kept in the dashboard's `bookmarks` state. */
  class SponsorBookmarks {
    var bookmarks: seq<BookmarkRow>

    ghost predicate Valid()
      reads this
    {
      DistinctIds(bookmarks)
    }

    constructor (initial: seq<BookmarkRow>)
      requires DistinctIds(initial)
      ensures Valid() && bookmarks == initial
    {
      bookmarks := initial;
    }

    /**
     * `handleBookmark(eventId)`. `user` is the signed-in user's id, `deleteError`
     * the backend's reply to deleting an existing bookmark, `insertedId` its reply
     * to inserting `{sponsor_id: user.id, event_id: eventId}`: the id it gives the
     * new row, or an error.
     */
    method HandleBookmark(user: Option<string>, eventId: string, deleteError: Option<string>, insertedId: Result<string>)
      requires Valid()
      requires insertedId.Ok? ==> forall i :: 0 <= i < |bookmarks| ==> bookmarks[i].id != insertedId.value
      modifies this
      ensures Valid()
      ensures user.None? ==> bookmarks == old(bookmarks)
      ensures user.Some? && IsBookmarked(old(bookmarks), eventId) ==>
        var k := FindBookmark(old(bookmarks), eventId).value;
        bookmarks == if deleteError.Some? then old(bookmarks) else old(bookmarks)[..k] + old(bookmarks)[k + 1..]
      ensures user.Some? && !IsBookmarked(old(bookmarks), eventId) ==>
        bookmarks == if insertedId.Err? then old(bookmarks)
                     else old(bookmarks) + [BookmarkRow(insertedId.value, user.value, eventId)]
      ensures user.Some? && !IsBookmarked(old(bookmarks), eventId) && insertedId.Ok? ==>
        IsBookmarked(bookmarks, eventId) && bookmarks[|bookmarks| - 1].sponsor_id == user.value
    {
      if user.None? {
        return;
      }
      var existing := FindBookmark(bookmarks, eventId);
      if existing.Some? {
        if deleteError.Some? {
          return;
        }
        WithoutIdRemovesOne(bookmarks, existing.value);
        bookmarks := WithoutId(bookmarks, bookmarks[existing.value].id);
      } else {
        if insertedId.Err? {
          return;
        }
        bookmarks := bookmarks + [BookmarkRow(insertedId.value, user.value, eventId)];
        assert bookmarks[|bookmarks| - 1].event_id == eventId;
      }
    }
  }

  // ---------------------------------------------------------------- applied

  /** `events.find((e) => e.id === eventId)?.title`. */
  function FoundTitle(events: seq<EventRow>, eventId: string): (t: Option<string>)
    ensures t.Some? <==> exists i :: 0 <= i < |events| && events[i].id == eventId
  {
    if events == [] then None
    else if events[0].id == eventId then Some(events[0].title)
    else FoundTitle(events[1..], eventId)
  }

  /**
   * `hasApplied(eventId)` as written: some application has a joined event, and
   * some application's joined title (`undefined` when the join is null) equals
   * the title of the first listed event with that id (`undefined` when none).
   */
  predicate HasApplied(apps: seq<ApplicationRow>, events: seq<EventRow>, eventId: string)
  {
    && (exists i :: 0 <= i < |apps| && apps[i].event_title.Some?)
    && (exists i :: 0 <= i < |apps| && apps[i].event_title == FoundTitle(events, eventId))
  }

  /**
   * The titles being compared makes an application to one event mark every
   * other event with the same title as applied.
   */
  lemma HasAppliedSameTitleCounterexample()
    ensures var e1 := EventRow("e1", "o", "Hackathon", None, "tech", None, None, false, None, None, "published", None);
      var e2 := e1.(id := "e2");
      var app := ApplicationRow("a1", "e1", "s", "pending", "We would like to help", None, Some("Hackathon"));
      && HasApplied([app], [e1, e2], "e2")
      && forall i :: 0 <= i < |[app]| ==> [app][i].event_id != "e2"
  {
    var e1 := EventRow("e1", "o", "Hackathon", None, "tech", None, None, false, None, None, "published", None);
    var e2 := e1.(id := "e2");
    var app := ApplicationRow("a1", "e1", "s", "pending", "We would like to help", None, Some("Hackathon"));
    assert FoundTitle([e1, e2], "e2") == Some("Hackathon");
    assert [app][0].event_title.Some?;
  }

  /** The evidently intended check: the sponsor has an application whose `event_id` is the event's id. */
  predicate HasAppliedToEvent(apps: seq<ApplicationRow>, eventId: string)
  {
    exists i :: 0 <= i < |apps| && apps[i].event_id == eventId
  }

  /**
   * Submitting an application marks its own event as applied and leaves every
   * other event's mark as it was.
   */
  lemma AppliedMarkIsPerEvent(apps: seq<ApplicationRow>, app: ApplicationRow, eventId: string)
    ensures HasAppliedToEvent(apps + [app], app.event_id)
    ensures eventId != app.event_id ==> (HasAppliedToEvent(apps + [app], eventId) <==> HasAppliedToEvent(apps, eventId))
  {
    assert (apps + [app])[|apps|] == app;
    if eventId != app.event_id && HasAppliedToEvent(apps + [app], eventId) {
      var i :| 0 <= i < |apps| + 1 && (apps + [app])[i].event_id == eventId;
      assert apps[i] == (apps + [app])[i];
    }
    if HasAppliedToEvent(apps, eventId) {
      var i :| 0 <= i < |apps| && apps[i].event_id == eventId;
      assert (apps + [app])[i] == apps[i];
    }
  }

  // ---------------------------------------------------------------- stats

  /** "N tech events": the events whose category is `tech`. */
  function TechCount(events: seq<EventRow>): (n: nat)
    ensures n == DashboardCharts.CategoryCount(events, "tech")
  {
    TechCountIsCategoryCount(events);
    Seqs.CountIf(events, (e: EventRow) => e.category == "tech")
  }

  lemma {:induction false} TechCountIsCategoryCount(events: seq<EventRow>)
    ensures Seqs.CountIf(events, (e: EventRow) => e.category == "tech") == DashboardCharts.CategoryCount(events, "tech")
  {
    if events != [] {
      TechCountIsCategoryCount(events[..|events| - 1]);
    }
  }

  /** "N excellent matches": the matches scoring 80 or more, which are exactly those whose badge reads "Excellent Match". */
  function ExcellentCount(matches: seq<MatchRow>): (n: nat)
    ensures n <= |matches|
    ensures n == Seqs.CountIf(matches, (m: MatchRow) => MatchScore.ScoreLabel(m.match_score) == "Excellent Match")
  {
    Seqs.CountIfCongruent(matches, (m: MatchRow) => m.match_score >= 80,
      (m: MatchRow) => MatchScore.ScoreLabel(m.match_score) == "Excellent Match");
    Seqs.CountIf(matches, (m: MatchRow) => m.match_score >= 80)
  }
}
