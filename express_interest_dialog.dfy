/** The "Express Interest" dialog: a sponsor's proposal becomes a pending application. */
module ExpressInterestDialog {
  import opened Wrappers
  import opened Rows
  import Text
  import Applications
  import OrganizerDashboard
  import SponsorDashboard

  /** The columns of the `applications` insert. */
  datatype NewApplication = NewApplication(event_id: string, sponsor_id: string, status: string, proposal_message: string)

  /**
   * What the submit handler sends, or the error it throws before sending: no
   * signed-in user, or a proposal that is blank once trimmed.
   */
  function ApplicationRecord(user: Option<string>, eventId: string, proposal: string): (r: Result<NewApplication>)
    ensures user.None? ==> r == Err("No authenticated user")
    ensures user.Some? ==> (r.Err? <==> forall i :: 0 <= i < |proposal| ==> Text.IsSpace(proposal[i]))
    ensures user.Some? && r.Err? ==> r.message == "Please provide a message explaining your interest"
    ensures r.Ok? ==>
      && r.value.event_id == eventId && r.value.sponsor_id == user.value
      && r.value.status == "pending"
      && r.value.proposal_message == Text.Trim(proposal)
      && r.value.proposal_message != ""
      && !Text.IsSpace(r.value.proposal_message[0])
      && !Text.IsSpace(r.value.proposal_message[|r.value.proposal_message| - 1])
  {
    Text.TrimEmptyIffBlank(proposal);
    Text.TrimSpec(proposal);
    if user.None? then Err("No authenticated user")
    else if Text.Trim(proposal) == "" then Err("Please provide a message explaining your interest")
    else Ok(NewApplication(eventId, user.value, "pending", Text.Trim(proposal)))
  }

  /**
   * `handleSubmit(formData)`. `insertError` is the message of the backend's error
   * reply ("" when it has none). The result is the inserted application, after
   * which `onInterestSubmitted` runs, or the error toast's text.
   */
  function HandleSubmit(user: Option<string>, eventId: string, proposal: string, insertError: Option<string>)
    : (outcome: Result<NewApplication>)
    ensures outcome.Ok? <==> user.Some? && Text.Trim(proposal) != "" && insertError.None?
    ensures outcome.Ok? ==> outcome == ApplicationRecord(user, eventId, proposal)
    ensures outcome.Err? && ApplicationRecord(user, eventId, proposal).Err? ==>
      outcome == ApplicationRecord(user, eventId, proposal)
    ensures ApplicationRecord(user, eventId, proposal).Ok? && insertError.Some? ==>
      outcome == Err(Text.OrDefault(insertError, "Failed to express interest"))
    ensures outcome.Err? ==> outcome.message != ""
  {
    Text.TrimEmptyIffBlank(proposal);
    var r := ApplicationRecord(user, eventId, proposal);
    if r.Err? then r
    else if insertError.Some? then Err(Text.OrDefault(insertError, "Failed to express interest"))
    else r
  }

  /** The `applications` row the backend holds after the insert, with the id it assigned. */
  function StoredRow(id: string, app: NewApplication): ApplicationRow
  {
    ApplicationRow(id, app.event_id, app.sponsor_id, app.status, app.proposal_message, None, None)
  }

  /**
   * A submitted application reaches the organizer as pending, with both
   * responses offered and a secondary badge, and marks its event as applied:
   * under the id-based check, and under the title-based `hasApplied` once the
   * dashboard reloads the row with its event's title joined. The dialog is
   * opened from a listed event's card, so `eventId` is among `events`.
   */
  lemma SubmittedApplicationAwaitsResponse(user: string, eventId: string, proposal: string, id: string,
                                           others: seq<ApplicationRow>, events: seq<EventRow>)
    requires Text.Trim(proposal) != ""
    requires exists i :: 0 <= i < |events| && events[i].id == eventId
    ensures var outcome := HandleSubmit(Some(user), eventId, proposal, None);
      outcome.Ok? &&
      var row := StoredRow(id, outcome.value);
      var reloaded := row.(event_title := SponsorDashboard.FoundTitle(events, eventId));
      && OrganizerDashboard.OfferedDecisions(row) == {Applications.Accept, Applications.Decline}
      && Applications.StatusBadge(row.status) == Secondary
      && Applications.PendingCount(others + [row]) == Applications.PendingCount(others) + 1
      && SponsorDashboard.HasAppliedToEvent(others + [row], eventId)
      && SponsorDashboard.HasApplied(others + [reloaded], events, eventId)
  {
    var row := StoredRow(id, HandleSubmit(Some(user), eventId, proposal, None).value);
    var reloaded := row.(event_title := SponsorDashboard.FoundTitle(events, eventId));
    assert (others + [row])[|others|] == row;
    assert (others + [reloaded])[|others|] == reloaded;
    Applications.PendingCountAppend(others, row);
    SponsorDashboard.AppliedMarkIsPerEvent(others, row, eventId);
  }
}
