/** The read-only event view: its status badge, location line and sponsorship-need badges. */
module ViewEventDialog {
  import opened Wrappers
  import opened Rows
  import Text
  import NeedsChecklist
  import CreateEventDialog

  /** The status badge: `default` for a published event, `secondary` otherwise. */
  function EventStatusBadge(status: string): (v: BadgeVariant)
    ensures v == Default || v == Secondary
    ensures v == Default <==> status == "published"
  {
    if status == "published" then Default else Secondary
  }

  /** `event.is_online ? "Online Event" : event.location || "TBD"`. */
  function LocationLabel(e: EventRow): (caption: string)
    ensures caption != ""
    ensures e.is_online ==> caption == "Online Event"
    ensures !e.is_online && e.location.Some? && e.location.value != "" ==> caption == e.location.value
    ensures !e.is_online && (e.location.None? || e.location.value == "") ==> caption == "TBD"
  {
    if e.is_online then "Online Event" else Text.OrDefault(e.location, "TBD")
  }

  /** `need.replace("_", " ")`: the first underscore becomes a space, later ones stay. */
  function NeedLabel(need: string): (caption: string)
    ensures |caption| == |need|
    ensures '_' !in need ==> caption == need
    ensures '_' in need ==>
      var k := Text.IndexOf(need, '_').value;
      caption[..k] == need[..k] && caption[k] == ' ' && caption[k + 1..] == need[k + 1..]
  {
    Text.ReplaceFirst(need, '_', ' ')
  }

  /** The needs the dialogs offer carry no underscore, so each is shown as its own id. */
  lemma OfferedNeedsShownVerbatim()
    ensures forall i :: 0 <= i < |NeedsChecklist.NeedTypes| ==>
      NeedLabel(NeedsChecklist.NeedTypes[i]) == NeedsChecklist.NeedTypes[i]
  {
    forall i | 0 <= i < |NeedsChecklist.NeedTypes|
      ensures '_' !in NeedsChecklist.NeedTypes[i]
    {
      var need := NeedsChecklist.NeedTypes[i];
      assert forall j :: 0 <= j < |need| ==> 'a' <= need[j] <= 'z';
    }
  }

  /** The "Sponsorship Needs" section: `event.sponsorship_needs && event.sponsorship_needs.length > 0`. */
  predicate NeedsSectionShown(needs: Option<seq<string>>)
  {
    needs.Some? && |needs.value| > 0
  }

  /**
   * A created event shows "Online Event" when it is online and its section of
   * needs exactly when at least one need was checked.
   */
  lemma CreatedEventView(id: string, ev: CreateEventDialog.NewEvent)
    ensures var row := CreateEventDialog.StoredRow(id, ev);
      && (NeedsSectionShown(row.sponsorship_needs) <==> ev.sponsorship_needs != [])
      && (row.is_online ==> LocationLabel(row) == "Online Event")
      && (!row.is_online && ev.location != "" ==> LocationLabel(row) == ev.location)
  {
  }
}
