/**
 * The "Create Event" dialog: the date and sponsorship-need selection it keeps,
 * and the event row its submit handler inserts.
 */
module CreateEventDialog {
  import opened Wrappers
  import opened Rows
  import Text
  import NeedsChecklist
  import SponsorDashboard
  import DashboardCharts

  /** The form's inputs: text inputs read as strings ("" when blank), the checkbox as `=== "on"`. */
  datatype EventForm = EventForm(
    title: string,
    description: string,
    category: string,
    location: string,
    expectedAudience: string,
    isOnline: bool)

  /** The columns of the `events` insert. `event_date` is the picked day as `YYYY-MM-DD`. */
  datatype NewEvent = NewEvent(
    organizer_id: string,
    title: string,
    description: string,
    category: string,
    event_date: string,
    location: string,
    is_online: bool,
    expected_audience: int,
    sponsorship_needs: seq<string>,
    status: string)

  /** `isOnline ? "Online" : location`. */
  function StoredLocation(isOnline: bool, location: string): string
  {
    if isOnline then "Online" else location
  }

  /**
   * What the submit handler sends, or the error it throws before sending:
   * no signed-in user, or a missing title, category or date.
   */
  function NewEventRecord(user: Option<string>, form: EventForm, date: Option<string>, needs: seq<string>)
    : (r: Result<NewEvent>)
    ensures user.None? ==> r == Err("No authenticated user")
    ensures user.Some? ==> (r.Ok? <==> form.title != "" && form.category != "" && date.Some?)
    ensures user.Some? && r.Err? ==> r.message == "Please fill in all required fields"
    ensures r.Ok? ==>
      && r.value.organizer_id == user.value
      && r.value.status == "published"
      && r.value.title == form.title && r.value.category == form.category
      && r.value.description == form.description
      && r.value.event_date == date.value
      && r.value.is_online == form.isOnline
      && (form.isOnline ==> r.value.location == "Online")
      && (!form.isOnline ==> r.value.location == form.location)
      && r.value.expected_audience == Text.ParseIntOrZero(form.expectedAudience)
      && r.value.sponsorship_needs == needs
  {
    if user.None? then Err("No authenticated user")
    else if form.title == "" || form.category == "" || date.None? then Err("Please fill in all required fields")
    else Ok(NewEvent(user.value, form.title, form.description, form.category, date.value,
                     StoredLocation(form.isOnline, form.location), form.isOnline,
                     Text.ParseIntOrZero(form.expectedAudience), needs, "published"))
  }

  /** The `events` row the backend holds after the insert, with the id it assigned. */
  function StoredRow(id: string, ev: NewEvent): EventRow
  {
    EventRow(id, ev.organizer_id, ev.title, Some(ev.description), ev.category, Some(ev.event_date),
             Some(ev.location), ev.is_online, Some(ev.expected_audience), Some(ev.sponsorship_needs),
             ev.status, None)
  }

  /**
   * A created event is published straight away; sponsors find it under its own
   * category and by searching for its title; its audience is the number typed.
   */
  lemma CreatedEventIsDiscoverable(user: string, form: EventForm, day: string, needs: seq<string>, id: string, n: nat)
    requires form.title != "" && form.category != ""
    requires form.expectedAudience == Text.NatToString(n)
    ensures var r := NewEventRecord(Some(user), form, Some(day), needs);
      r.Ok? &&
      var row := StoredRow(id, r.value);
      && row.status == "published"
      && SponsorDashboard.MatchesCategory(row, form.category)
      && SponsorDashboard.MatchesSearch(row, form.title)
      && DashboardCharts.AudienceOf(row) == n
  {
    Text.ParseIntOrZeroNatToString(n);
    var title := Text.Lower(form.title);
    assert Text.Contains(title, title);
  }

  /** The dialog's own state: the picked date and the checked sponsorship needs. */
  class CreateEventForm {
    var date: Option<string>
    var selectedNeeds: seq<string>

    constructor ()
      ensures date.None? && selectedNeeds == []
    {
      date := None;
      selectedNeeds := [];
    }

    /** The calendar's `onSelect={setDate}`; picking nothing clears the date. */
    method PickDate(day: Option<string>)
      modifies this
      ensures date == day && selectedNeeds == old(selectedNeeds)
    {
      date := day;
    }

    /** `handleSponsorshipNeedChange(needId, checked)`. */
    method ChangeNeed(needId: string, checked: bool)
      modifies this
      ensures selectedNeeds == NeedsChecklist.Toggle(old(selectedNeeds), needId, checked)
      ensures date == old(date)
    {
      selectedNeeds := NeedsChecklist.Toggle(selectedNeeds, needId, checked);
    }

    /**
     * `handleSubmit(formData)`. `insertError` is the message of the backend's error
     * reply ("" when it has none). The result is the inserted event, after which
     * `onEventCreated` runs and the form resets, or the error toast's text, after
     * which the state is unchanged.
     */
    method HandleSubmit(user: Option<string>, form: EventForm, insertError: Option<string>)
      returns (outcome: Result<NewEvent>)
      modifies this
      ensures var r := NewEventRecord(user, form, old(date), old(selectedNeeds));
        outcome == if r.Err? then r
                   else if insertError.Some? then Err(Text.OrDefault(insertError, "Failed to create event"))
                   else r
      ensures outcome.Ok? ==> date.None? && selectedNeeds == []
      ensures outcome.Err? ==> date == old(date) && selectedNeeds == old(selectedNeeds)
    {
      var r := NewEventRecord(user, form, date, selectedNeeds);
      if r.Err? {
        return r;
      }
      if insertError.Some? {
        return Err(Text.OrDefault(insertError, "Failed to create event"));
      }
      date := None;
      selectedNeeds := [];
      return r;
    }
  }
}
