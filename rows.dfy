/**
 * The backend rows the client reads and writes, with the columns it uses.
 * Nullable columns are `Option`s; the joined `organizers(university)` and
 * `events(title)` objects are flattened into optional columns.
 */
module Rows {
  import opened Wrappers

  /** A row of `profiles`. */
  datatype ProfileRow = ProfileRow(id: string, email: string, full_name: Option<string>, role: string)

  /**
   * A row of `events`. `university` is the joined `organizers(university)`, `None`
   * when the query did not join it, the join is null or the university is null.
   * `sponsorship_needs` is optional because the dialogs guard against its absence.
   */
  datatype EventRow = EventRow(
    id: string,
    organizer_id: string,
    title: string,
    description: Option<string>,
    category: string,
    event_date: Option<string>,
    location: Option<string>,
    is_online: bool,
    expected_audience: Option<int>,
    sponsorship_needs: Option<seq<string>>,
    status: string,
    university: Option<string>)

  /** A row of `matches`, written by the scoring process outside this client. */
  datatype MatchRow = MatchRow(id: string, event_id: string, sponsor_id: string, match_score: int, is_featured: bool)

  /**
   * A row of `applications`; `event_title` is the joined `events(title)`, `None`
   * when the join is null.
   */
  datatype ApplicationRow = ApplicationRow(
    id: string,
    event_id: string,
    sponsor_id: string,
    status: string,
    proposal_message: string,
    response_message: Option<string>,
    event_title: Option<string>)

  /** A row of `bookmarks`. */
  datatype BookmarkRow = BookmarkRow(id: string, sponsor_id: string, event_id: string)

  /** The badge variants the dashboards choose between. */
  datatype BadgeVariant = Default | Secondary | Destructive | Outline
}
