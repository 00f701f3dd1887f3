# SponsorSync client logic in Dafny

SponsorSync matches university event organizers with corporate sponsors. This
project models the logic of its web client: the sponsor and organizer
dashboards, the chart series they show, the create, edit, express-interest and
view dialogs, the user menu's avatar initials, and the account setup page. The
backend (Supabase tables and auth) is not modelled as a service; its replies
(the signed-in user, error messages, inserted rows) are parameters, and the
tables a handler writes are a `map` from id to row or the list of rows written.

Modules follow the source files:

- `MatchScore`: the colour and label of a compatibility score.
- `DashboardCharts`: the per-category histogram built by a `reduce` over an
  accumulator (a method with a loop), and the bar, audience and match-score series.
- `SponsorDashboard`: discovery search and category filter, the bookmark toggle
  (a class over the bookmark list), the "applied" mark, and the stat cards.
- `OrganizerDashboard`: the stat cards, the rows loaded for the organizer's own
  events, and the Accept/Decline response (a class over the applications table).
- `Applications`: the application status badge, the pending count and the
  status lifecycle; both dashboards use them.
- `CreateEventDialog`, `EditEventDialog` and `NeedsChecklist`: the dialogs' date
  and need selection (classes) and the rows their submit handlers write. The
  need checklist handler is identical in both dialogs and is defined once.
- `ExpressInterestDialog`, `UserMenu`, `ViewEventDialog` and `SetupPage`.
- Shared modules:
  - `Rows`: the table rows.
  - `Wrappers`: `Option` and `Result`.
  - `Seqs`: `filter`, counting, subsequences.
  - `Text`: the JavaScript string built-ins the client uses, restricted to ASCII.
    These are `toLowerCase`, `toUpperCase`, `includes`, `trim`, `split`/`join`,
    `Number.parseInt`, number-to-string and one-pattern `replace`.

## Model

| member | source | states |
|---|---|---|
| MatchScore.ScoreColor | components/dashboard/match-score.tsx:10-14 | the colour is that of the score's band: green from 80, yellow from 60 to 79, red below 60 |
| MatchScore.ScoreLabel | components/dashboard/match-score.tsx:16-20 | the label is that of the score's band: "Excellent Match", "Good Match", "Fair Match" |
| MatchScore.ColorAndLabelAgree | components/dashboard/match-score.tsx:10-20 | two scores get the same colour exactly when they get the same label |
| MatchScore.LabelTotal | components/dashboard/match-score.tsx:16-20 | every score gets one of the three labels, each exactly on its range |
| MatchScore.BandMonotone | components/dashboard/match-score.tsx:10-20 | a higher score never falls into a lower band |
| DashboardCharts.CategoriesSpec | components/dashboard/dashboard-charts.tsx:14-17 | the accumulator's keys are distinct and are exactly the categories with a count of at least one; every event's category is among them |
| DashboardCharts.HistogramTotal | components/dashboard/dashboard-charts.tsx:14-17 | the histogram's counts add up to the number of events |
| DashboardCharts.CategoryTally | components/dashboard/dashboard-charts.tsx:14-17 | the reduce's accumulator lists exactly the categories `Categories` gives, in first-appearance order, and maps each to its `CategoryCount`; `CategoriesSpec` and `HistogramTotal` then make the keys distinct, every count at least 1 and the counts sum to the number of events |
| DashboardCharts.Capitalize | components/dashboard/dashboard-charts.tsx:20 | same length, first character upper-cased, the rest unchanged |
| DashboardCharts.CategoryChartData | components/dashboard/dashboard-charts.tsx:19-22 | one bar per accumulator key, in key order, with the capitalised category and its count |
| DashboardCharts.SeriesNamesDistinct | components/dashboard/dashboard-charts.tsx:24-32 | the names `Event 1`, `Event 2`, ... (and `Match 1`, ...) never repeat |
| DashboardCharts.AudienceData | components/dashboard/dashboard-charts.tsx:24-27 | one point per event, in order, with the event's audience (0 when missing) and distinct names |
| DashboardCharts.MatchScoreData | components/dashboard/dashboard-charts.tsx:29-32 | one point per match, in order, with the score unchanged and distinct names |
| DashboardCharts.MatchQualityShown | components/dashboard/dashboard-charts.tsx:95 | the "Match Quality" card is rendered exactly when the match series is non-empty |
| Seqs.Filter | components/dashboard/sponsor-dashboard.tsx:147 | `filter` keeps exactly the elements passing the test (as members) and is never longer than its input |
| Seqs.FilterMultiset | components/dashboard/create-event-dialog.tsx:42 | `filter` keeps each passing element as many times as it occurs and no failing element |
| Seqs.FilterIsSubseq | components/dashboard/sponsor-dashboard.tsx:147 | the result of `filter` is an order-preserving subsequence of its input |
| Seqs.FilterAppend | components/dashboard/create-event-dialog.tsx:42 | filtering a concatenation filters each part |
| Seqs.FilterLengthIsCountIf | components/dashboard/sponsor-dashboard.tsx:280 | the left-to-right count of passing elements equals the length of the filtered sequence, so every `filter(...).length` stat is that count |
| SponsorDashboard.FilteredEvents | components/dashboard/sponsor-dashboard.tsx:147-154 | an event is shown iff it matches the search (title, description or university, ignoring case) and the category filter; the shown list is an order-preserving subsequence |
| SponsorDashboard.NoFilterShowsAll | components/dashboard/sponsor-dashboard.tsx:148-153 | an empty search with category "all" shows every event, in order |
| SponsorDashboard.IsBookmarked | components/dashboard/sponsor-dashboard.tsx:221-223 | some bookmark refers to the event (a predicate; its partner is `FindBookmark`) |
| SponsorDashboard.FindBookmark | components/dashboard/sponsor-dashboard.tsx:164 | finds the first bookmark for the event, and none exactly when the event is not bookmarked |
| SponsorDashboard.WithoutIdRemovesOne | components/dashboard/sponsor-dashboard.tsx:172 | with distinct bookmark ids, filtering out one bookmark's id removes that bookmark alone and keeps the rest in order |
| SponsorDashboard.SponsorBookmarks.constructor | components/dashboard/sponsor-dashboard.tsx:164 | the list starts as the loaded bookmarks, with distinct ids |
| SponsorDashboard.SponsorBookmarks.HandleBookmark | components/dashboard/sponsor-dashboard.tsx:156-210 | no user: unchanged; bookmarked: the first bookmark for the event is removed, unless the delete fails; not bookmarked: the row `{sponsor_id: user.id, event_id: eventId}` with the backend's new id is appended, so the event is then bookmarked by this user, unless the insert fails; ids stay distinct |
| SponsorDashboard.HasApplied | components/dashboard/sponsor-dashboard.tsx:225-229 | `hasApplied` as written: some application has a joined event, and some application's joined title equals the title of the first listed event with the id (a predicate; see Findings) |
| SponsorDashboard.HasAppliedSameTitleCounterexample | components/dashboard/sponsor-dashboard.tsx:225-229 | as written, an application to one event marks a different event with the same title as applied |
| SponsorDashboard.AppliedMarkIsPerEvent | components/dashboard/sponsor-dashboard.tsx:225-229 | with the id-based check, a new application marks its own event and leaves every other event's mark unchanged |
| SponsorDashboard.TechCount | components/dashboard/sponsor-dashboard.tsx:256 | the tech stat equals the histogram's count for category "tech" |
| SponsorDashboard.ExcellentCount | components/dashboard/sponsor-dashboard.tsx:268 | the excellent stat (score at least 80) is at most the number of matches and counts exactly the matches labelled "Excellent Match" |
| Applications.PendingCount | components/dashboard/sponsor-dashboard.tsx:280 | the pending stat is the length of the list filtered to pending applications; hence at most the number of applications, and 0 exactly when none is pending; the organizer's "pending review" stat is the same count |
| Applications.PendingCountAppend | components/dashboard/sponsor-dashboard.tsx:280 | appending one application raises the pending stat by one exactly when that application is pending, and leaves it unchanged otherwise |
| Applications.StatusBadge | components/dashboard/sponsor-dashboard.tsx:494-501 | default exactly when accepted, destructive exactly when declined, otherwise secondary; the organizer dashboard uses the same rule |
| Applications.StoredResponse | components/dashboard/organizer-dashboard.tsx:137 | `responseMessage \|\| null`: null exactly when the message is absent or empty |
| Applications.Responded | components/dashboard/organizer-dashboard.tsx:133-139 | the update writes status and stored message on the one row with that id; every other row and column is unchanged |
| OrganizerDashboard.PublishedCount | components/dashboard/organizer-dashboard.tsx:190 | the length of the event list filtered to published events; hence at most the number of events, and equal to it exactly when every event is published |
| OrganizerDashboard.HighQualityCount | components/dashboard/organizer-dashboard.tsx:202 | the high-quality stat is the length of the match list filtered to scores of 70 or more; hence at most the number of matches, and 0 exactly when no match scores 70 or more |
| OrganizerDashboard.HighQualityBetweenBands | components/dashboard/organizer-dashboard.tsx:202 | the high-quality stat (score at least 70) lies between the "Excellent Match" count and the count of matches not labelled "Fair Match" |
| OrganizerDashboard.TotalAudience | components/dashboard/organizer-dashboard.tsx:225 | the total audience is 0 when no event has an audience, and never negative when no audience is |
| OrganizerDashboard.TotalAudienceIsChartTotal | components/dashboard/organizer-dashboard.tsx:225 | the total-audience card equals the sum of the audience chart's points |
| OrganizerDashboard.EventIds | components/dashboard/organizer-dashboard.tsx:93 | the ids of the organizer's events, in order |
| OrganizerDashboard.OwnMatches | components/dashboard/organizer-dashboard.tsx:93 | a match is loaded iff its event is one of the organizer's events |
| OrganizerDashboard.OwnApplications | components/dashboard/organizer-dashboard.tsx:104 | an application is loaded iff its event is one of the organizer's events |
| OrganizerDashboard.OfferedDecisions | components/dashboard/organizer-dashboard.tsx:398 | Accept and Decline are offered exactly for a pending application |
| OrganizerDashboard.ButtonMessage | components/dashboard/organizer-dashboard.tsx:404-421 | each button sends a non-empty message |
| OrganizerDashboard.OfferedResponsesAreLifecycleSteps | components/dashboard/organizer-dashboard.tsx:398-428 | every offered response is a lifecycle step (pending to accepted or declined) and stores its message; every lifecycle step is offered |
| OrganizerDashboard.ApplicationsTable.constructor | components/dashboard/organizer-dashboard.tsx:133-139 | the table starts as given |
| OrganizerDashboard.ApplicationsTable.HandleApplicationResponse | components/dashboard/organizer-dashboard.tsx:127-157 | succeeds exactly when the backend reports no error; then the table is the responded table, otherwise unchanged |
| NeedsChecklist.Toggle | components/dashboard/create-event-dialog.tsx:38-44 | checking appends the need at the end; unchecking removes every occurrence and keeps the other needs in order, each as many times as before |
| NeedsChecklist.UncheckUndoesCheck | components/dashboard/create-event-dialog.tsx:38-44 | unchecking a need just checked restores the selection |
| NeedsChecklist.UncheckIdempotent | components/dashboard/create-event-dialog.tsx:42 | unchecking twice is unchecking once |
| NeedsChecklist.ControlledToggleKeepsDistinct | components/dashboard/edit-event-dialog.tsx:38-44 | with checkboxes bound to the selection, the selection never lists a need twice and holds a need iff it was last checked |
| Text.ParseIntOrZero | components/dashboard/create-event-dialog.tsx:79 | `parseInt(...) \|\| 0` is 0 exactly when the input is unparsable or zero, and the parsed value otherwise |
| Text.ParseIntNatToString | components/dashboard/create-event-dialog.tsx:62 | a typed non-negative number parses back to itself |
| Text.ParseIntOrZeroNatToString | components/dashboard/create-event-dialog.tsx:79 | a typed non-negative number is stored as that number |
| Text.OrDefault | components/dashboard/create-event-dialog.tsx:104 | `value \|\| fallback`: the fallback exactly when the value is absent or empty |
| CreateEventDialog.NewEventRecord | components/dashboard/create-event-dialog.tsx:46-82 | fails with "No authenticated user" without a user, with "Please fill in all required fields" exactly when title, category or date is missing; otherwise a published event of the user with "Online" as location when online, the parsed audience and the selected needs |
| CreateEventDialog.CreatedEventIsDiscoverable | components/dashboard/create-event-dialog.tsx:71-82 | a created event is published, passes its own category filter and a search for its title, and has the typed audience |
| CreateEventDialog.CreateEventForm.constructor | components/dashboard/create-event-dialog.tsx:35-36 | no date and no needs selected |
| CreateEventDialog.CreateEventForm.PickDate | components/dashboard/create-event-dialog.tsx:170 | `onSelect={setDate}`: the date becomes the picked day; the needs are kept |
| CreateEventDialog.CreateEventForm.ChangeNeed | components/dashboard/create-event-dialog.tsx:38-44 | the selection becomes the toggled selection; the date is kept |
| CreateEventDialog.CreateEventForm.HandleSubmit | components/dashboard/create-event-dialog.tsx:46-110 | inserts the record when it builds and the backend accepts it, and then clears date and needs; otherwise reports the error (or "Failed to create event") and keeps the state |
| EditEventDialog.UpdatedRow | components/dashboard/edit-event-dialog.tsx:50-70 | the edited columns take the form's values ("Online" location when online, parsed audience, status from the form); id, organizer and university are kept |
| EditEventDialog.ApplyUpdate | components/dashboard/edit-event-dialog.tsx:71 | only the row with the event's id changes |
| EditEventDialog.ApplyUpdateIdempotent | components/dashboard/edit-event-dialog.tsx:58-71 | submitting the same edit twice leaves the table as submitting it once |
| EditEventDialog.EditEventForm.constructor | components/dashboard/edit-event-dialog.tsx:35-36 | the needs start as the event's needs, or empty when absent |
| EditEventDialog.EditEventForm.PickDate | components/dashboard/edit-event-dialog.tsx:148 | `onSelect={setDate}`: the date becomes the picked day; the needs are kept |
| EditEventDialog.EditEventForm.ChangeNeed | components/dashboard/edit-event-dialog.tsx:38-44 | the selection becomes the toggled selection; the date is kept |
| EditEventDialog.EditEventForm.HandleSubmit | components/dashboard/edit-event-dialog.tsx:46-93 | the update goes through exactly when a date is picked and the backend reports no error, and changes only the event's own row |
| ExpressInterestDialog.ApplicationRecord | components/dashboard/express-interest-dialog.tsx:22-46 | no user: "No authenticated user"; a blank proposal: "Please provide a message explaining your interest"; otherwise a pending application of the user for the event with the trimmed, non-empty proposal |
| ExpressInterestDialog.HandleSubmit | components/dashboard/express-interest-dialog.tsx:22-68 | the application is inserted and the callback runs exactly when there is a user, the proposal is not blank and the insert succeeds; a failed insert reports the backend's message, or "Failed to express interest"; every failure has a non-empty toast text |
| ExpressInterestDialog.SubmittedApplicationAwaitsResponse | components/dashboard/express-interest-dialog.tsx:41-57 | a submitted application is pending, offered Accept and Decline, has a secondary badge, raises the pending stat by exactly one, and marks its listed event as applied: by the id-based check, and by the title-based `hasApplied` once reloaded with its event's title |
| Text.TrimSpec | components/dashboard/express-interest-dialog.tsx:45 | `trim()` keeps a contiguous middle and drops only white space, leaving none at either end |
| Text.TrimEmptyIffBlank | components/dashboard/express-interest-dialog.tsx:36 | the trimmed text is empty exactly when the text is all white space |
| UserMenu.FirstChars | components/dashboard/user-menu.tsx:74-75 | exactly the first character of each non-empty piece, in order; empty pieces contribute nothing |
| UserMenu.Initials | components/dashboard/user-menu.tsx:71-77 | one upper-cased initial per non-empty space-separated piece, in order; never longer than the number of pieces |
| UserMenu.LeadingSpaceIgnored | components/dashboard/user-menu.tsx:73-75 | a leading space does not change the initials |
| UserMenu.DoubledSpaceIgnored | components/dashboard/user-menu.tsx:73-75 | two spaces after a word give the same initials as one |
| UserMenu.InitialsOfWords | components/dashboard/user-menu.tsx:71-77 | words joined by single spaces give one upper-cased initial per word |
| Text.SplitJoin | components/dashboard/user-menu.tsx:73 | joining the pieces of `split` gives the text back |
| Text.SplitCount | components/dashboard/user-menu.tsx:73 | `split` gives one more piece than there are separators |
| Text.JoinSplit | components/dashboard/user-menu.tsx:73 | splitting a join of separator-free pieces gives the pieces back |
| UserMenu.AvatarFallback | components/dashboard/user-menu.tsx:86 | "U" when the full name is absent or empty, the initials otherwise |
| UserMenu.BlankNameFallback | components/dashboard/user-menu.tsx:86 | a full name of one space gets a blank fallback |
| ViewEventDialog.EventStatusBadge | components/dashboard/view-event-dialog.tsx:23 | default exactly for "published", otherwise secondary; the organizer's event list uses the same rule |
| ViewEventDialog.LocationLabel | components/dashboard/view-event-dialog.tsx:57 | never empty: "Online Event" when online, else the location, or "TBD" when it is absent or empty |
| Text.IndexOf | components/dashboard/view-event-dialog.tsx:78 | the first position of the character, and none exactly when it does not occur |
| ViewEventDialog.NeedLabel | components/dashboard/view-event-dialog.tsx:78 | same length; the first underscore becomes a space and everything else is unchanged |
| ViewEventDialog.NeedsSectionShown | components/dashboard/view-event-dialog.tsx:72 | the needs section is rendered exactly when the needs are present and non-empty (a predicate; used by `CreatedEventView`) |
| ViewEventDialog.OfferedNeedsShownVerbatim | components/dashboard/create-event-dialog.tsx:25-31 | the offered need ids contain no underscore and are shown unchanged |
| ViewEventDialog.CreatedEventView | components/dashboard/view-event-dialog.tsx:57-72 | a created event shows its needs section exactly when a need was checked, and "Online Event" when online |
| SetupPage.ProfileInsert | app/setup/page.tsx:86-93 | the profile row carries the user's id and email, the role as given and `fullName.trim()`, which has no white space at either end and is empty exactly when the name is blank |
| SetupPage.OrganizerInsert | app/setup/page.tsx:101-110 | university and position are `(value \|\| "").trim()`, so "" when absent and without white space at either end; completion is 60 |
| SetupPage.SponsorInsert | app/setup/page.tsx:115-126 | company name "Unknown Company" when absent or empty, else trimmed; industry "other" when absent or empty, else as given; description `(value \|\| "").trim()`; completion 60 |
| SetupPage.BlankCompanyNameStoredEmpty | app/setup/page.tsx:116-122 | a company name of white space only escapes the default and is stored as "" |
| SetupPage.HandleSetup | app/setup/page.tsx:66-149 | "Not Ready" without tables or user; "Role and full name are required" before any insert; a failed profile insert writes nothing; otherwise the profile row first, then at most one role row matching the role, stopping at the first error |

## Left out

- Backend I/O and auth: the Supabase client and `lib/auth.ts` are not part of this model. Replies are parameters, and a handler's writes are its result or a class field.
- Of the dashboards' data loading (`fetchDashboardData`), only the organizer's `.in("event_id", ids)` filters are modelled (`EventIds`, `OwnMatches`, `OwnApplications`). The queries' `.eq(...)` filters on the signed-in user, their server-side `.order(...)` sorting (for example by `match_score` and `created_at`) and the joined columns are not: the loaded lists are taken as given, in the order the backend returns.
- The refreshes after a write are left out, and so is `checkDatabaseSetup`, which reaches the setup page as the `tablesExist` parameter.
- Routing (`app/dashboard/page.tsx`), the marketing page (`app/page.tsx`) and the profile editing dialog are left out. They hold no logic beyond forwarding values.
- The compatibility scores are written by a process outside this client. `match_score` is taken as given.
- Rendering, recharts, dialogs, toast titles and the `loading` flags are left out. Toast texts are kept only as error messages.
- Dates and locale formatting are left out. The picked date reaches the model as a `YYYY-MM-DD` day string, and `toLocaleDateString` is not modelled.
- Text.Lower and Text.Upper map ASCII letters only. JavaScript's Unicode case mapping is not modelled.
- Text.Trim treats only ASCII white space as white space: space, tab, line feed, carriage return, vertical tab and form feed.
- Text.ParseInt models an optional sign and decimal digits after leading white space. It does not model hexadecimal prefixes, and it treats values as exact integers, without floating point rounding.
- Audience totals and counts are exact integers. JavaScript numbers are floating point.
- Async ordering is left out: each handler is one atomic step. This omits the stale `bookmarks` closure in `handleBookmark`.
- `Object.entries` lists integer-like keys first, in numeric order. The model uses plain first-appearance order for every category.
- Form inputs are modelled as strings. `formData.get` returns null only for an input that is not rendered, and the model represents that case only for the setup page's role-dependent inputs.
- SponsorDashboard.SponsorBookmarks.HandleBookmark requires the id the backend gives a new bookmark to be fresh. The primary key guarantees this, and the client does not check it. The joined event columns of the returned row are not modelled.
- EditEventDialog.EditEventForm.HandleSubmit does not model the error text when no date is picked. The text comes from the JavaScript engine; the model records only that no update is sent.
- The edit dialog's initial date is `new Date(event.event_date)`, given to the constructor as a day string. Invalid or missing event dates are not modelled.

## Findings

| source | as written | input that shows it | evidently intended | confidence | as-written member | corrected member |
|---|---|---|---|---|---|---|
| components/dashboard/sponsor-dashboard.tsx:225-229 | `hasApplied(id)` compares event titles. It holds when any application has an event and any application's event title equals the title of the first listed event with that id | Two listed events titled "Hackathon" and one application to the first: the second is marked "Applied" and its button is disabled | an event is marked applied iff some application's `event_id` is its id | medium, not executed | SponsorDashboard.HasApplied, SponsorDashboard.HasAppliedSameTitleCounterexample | SponsorDashboard.HasAppliedToEvent, SponsorDashboard.AppliedMarkIsPerEvent |
