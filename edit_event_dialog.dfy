/**
 * The "Edit Event" dialog: the selection it starts from the event's own needs,
 * and the update its submit handler applies to that one event.
 */
module EditEventDialog {
  import opened Wrappers
  import opened Rows
  import Text
  import NeedsChecklist
  import CreateEventDialog

  /** The form's inputs, as in the create dialog, plus the status select. */
  datatype EditForm = EditForm(
    title: string,
    description: string,
    category: string,
    location: string,
    expectedAudience: string,
    isOnline: bool,
    status: string)

  /** The row after `update({...})`: the edited columns replaced, the rest kept. */
  function UpdatedRow(row: EventRow, form: EditForm, day: string, needs: seq<string>): (r: EventRow)
    ensures r.id == row.id && r.organizer_id == row.organizer_id && r.university == row.university
    ensures r.title == form.title && r.category == form.category && r.status == form.status
    ensures r.description == Some(form.description) && r.event_date == Some(day)
    ensures r.is_online == form.isOnline
    ensures r.location == Some(if form.isOnline then "Online" else form.location)
    ensures r.expected_audience == Some(Text.ParseIntOrZero(form.expectedAudience))
    ensures r.sponsorship_needs == Some(needs)
  {
    row.(title := form.title, description := Some(form.description), category := form.category,
         event_date := Some(day), location := Some(CreateEventDialog.StoredLocation(form.isOnline, form.location)),
         is_online := form.isOnline, expected_audience := Some(Text.ParseIntOrZero(form.expectedAudience)),
         sponsorship_needs := Some(needs), status := form.status)
  }

  /** `.update({...}).eq("id", id)` on the `events` table: only the row with that id changes. */
  function ApplyUpdate(table: map<string, EventRow>, id: string, form: EditForm, day: string, needs: seq<string>)
    : (r: map<string, EventRow>)
    ensures r.Keys == table.Keys
    ensures forall k :: k in table && k != id ==> r[k] == table[k]
    ensures id in table ==> r[id] == UpdatedRow(table[id], form, day, needs)
  {
    if id in table then table[id := UpdatedRow(table[id], form, day, needs)] else table
  }

  /** Applying the same edit twice leaves the table as applying it once. */
  lemma ApplyUpdateIdempotent(table: map<string, EventRow>, id: string, form: EditForm, day: string, needs: seq<string>)
    ensures var once := ApplyUpdate(table, id, form, day, needs);
      ApplyUpdate(once, id, form, day, needs) == once
  {
    var once := ApplyUpdate(table, id, form, day, needs);
    var twice := ApplyUpdate(once, id, form, day, needs);
    assert forall k :: k in twice ==> twice[k] == once[k];
  }

  /** The dialog's state for one event: the picked date and the checked needs. */
  class EditEventForm {
    const eventId: string
    var date: Option<string>
    var selectedNeeds: seq<string>

    /** Opened on `event`, whose date is `day`; the needs start as `event.sponsorship_needs || []`. */
    constructor (event: EventRow, day: string)
      ensures eventId == event.id && date == Some(day)
      ensures selectedNeeds == event.sponsorship_needs.GetOr([])
    {
      eventId := event.id;
      date := Some(day);
      selectedNeeds := event.sponsorship_needs.GetOr([]);
    }

    /** The calendar's `onSelect={setDate}`; picking nothing clears the date. */
    method PickDate(day: Option<string>)
      modifies this
      ensures date == day && selectedNeeds == old(selectedNeeds)
    {
      date := day;
    }

    /** `handleSponsorshipNeedChange(needId, checked)`. */
    method ChangeNeed(needId: string, checked: bool)
      modifies this
      ensures selectedNeeds == NeedsChecklist.Toggle(old(selectedNeeds), needId, checked)
      ensures date == old(date)
    {
      selectedNeeds := NeedsChecklist.Toggle(selectedNeeds, needId, checked);
    }

    /**
     * `handleSubmit(formData)` against the `events` table. With no date the
     * handler fails before sending (`date.toISOString()` throws); otherwise
     * `updateError` is the backend's error reply. `updated` says whether the
     * update went through and `onEventUpdated` ran.
     */
    method HandleSubmit(table: map<string, EventRow>, form: EditForm, updateError: Option<string>)
      returns (updated: bool, after: map<string, EventRow>)
      ensures updated <==> date.Some? && updateError.None?
      ensures !updated ==> after == table
      ensures updated ==> after == ApplyUpdate(table, eventId, form, date.value, selectedNeeds)
      ensures after.Keys == table.Keys
      ensures forall k :: k in table && k != eventId ==> after[k] == table[k]
    {
      if date.None? || updateError.Some? {
        return false, table;
      }
      return true, ApplyUpdate(table, eventId, form, date.value, selectedNeeds);
    }
  }
}
