/**
 * Sponsorship applications as both dashboards see them: the status badge, the
 * pending count, and the response that moves an application out of `pending`.
 */
module Applications {
  import opened Wrappers
  import opened Rows
  import Seqs

  /** The organizer's two responses to a pending application. */
  datatype Decision = Accept | Decline

  function DecisionStatus(d: Decision): string
  {
    match d
    case Accept => "accepted"
    case Decline => "declined"
  }

  /** The lifecycle of an application: it leaves `pending` for `accepted` or `declined`, and nothing else. */
  predicate LifecycleStep(from: string, to: string)
  {
    from == "pending" && (to == "accepted" || to == "declined")
  }

  /** The badge of an application: `default` when accepted, `destructive` when declined, `secondary` otherwise. */
  function StatusBadge(status: string): (v: BadgeVariant)
    ensures v != Outline
    ensures v == Default <==> status == "accepted"
    ensures v == Destructive <==> status == "declined"
  {
    if status == "accepted" then Default
    else if status == "declined" then Destructive
    else Secondary
  }

  predicate IsPending(a: ApplicationRow)
  {
    a.status == "pending"
  }

  /** `applications.filter((a) => a.status === "pending").length`. */
  function PendingCount(apps: seq<ApplicationRow>): (n: nat)
    ensures n == |Seqs.Filter(apps, IsPending)|
    ensures n <= |apps|
    ensures n == 0 <==> forall i :: 0 <= i < |apps| ==> apps[i].status != "pending"
  {
    Seqs.FilterLengthIsCountIf(apps, IsPending);
    Seqs.CountIf(apps, IsPending)
  }

  /** One more pending application adds one to the count; any other status adds nothing. */
  lemma PendingCountAppend(apps: seq<ApplicationRow>, app: ApplicationRow)
    ensures PendingCount(apps + [app]) == PendingCount(apps) + (if app.status == "pending" then 1 else 0)
  {
    assert (apps + [app])[..|apps|] == apps;
  }

  /** `responseMessage || null`: an absent or empty message is stored as null. */
  function StoredResponse(message: Option<string>): (stored: Option<string>)
    ensures stored.None? <==> message.None? || message.value == ""
    ensures stored.Some? ==> stored == message
  {
    if message.Some? && message.value != "" then message else None
  }

  /**
   * The backend update `update({ status, response_message }).eq("id", id)`:
   * the one row with that id gets the new status and stored message; every other
   * row, and every other column, is unchanged; an unknown id changes nothing.
   */
  function Responded(rows: map<string, ApplicationRow>, id: string, status: string, message: Option<string>)
    : (r: map<string, ApplicationRow>)
    ensures r.Keys == rows.Keys
    ensures forall k :: k in rows && k != id ==> r[k] == rows[k]
    ensures id in rows ==> r[id] == rows[id].(status := status, response_message := StoredResponse(message))
  {
    if id in rows then rows[id := rows[id].(status := status, response_message := StoredResponse(message))]
    else rows
  }
}
