# Calendar Entry: a verified model of the event list and its ICS export

`app.py` is a small Streamlit page. The user adds calendar events (a start, an
end, a recurrence and a description) to a list kept in the session. The list
is shown as a paged table, rows can be deleted or all cleared, and the list
can be exported as an iCalendar document (RFC 5545). This project models the
logic behind that page:

- **Text** (`text.dfy`). The Python string operations the core relies on:
  - `str.isspace` and `str.strip`
  - `str.upper`, restricted to the characters that matter here
  - `"\n".join`, and `str.split("\n")` as its inverse
- **DateTimes** (`datetimes.dfy`). `datetime.datetime` as date and time
  fields. It covers:
  - chronological order, which is lexicographic on the fields
  - the `strftime("%Y%m%dT%H%M%S")` form, which is the floating DATE-TIME of
    section 3.3.5 of RFC 5545
  - a parser that reads that form back
- **Pagination** (`pagination.dfy`). The page arithmetic of the events table:
  - `total_pages = (n - 1) // rows + 1`
  - clamping the page cursor
  - the slice `[page * rows, min(page * rows + rows, n))`
  - the cursor adjustment after a deletion
- **EventStore** (`event_store.dfy`). The session state as a class `Store`
  with two fields: `entries` (a `seq<Event>`) and `page`. Its methods are:
  - `Add`: the add callback, with its two validation errors
  - `RemoveAt`: the row delete button, `list.pop` plus the page adjustment
  - `Clear`: the clear-all button
  - `ShowPage`: the table rendering, which clamps the cursor and slices
  - `PreviousPage` and `NextPage`: the paging buttons
- **Ics** (`ics.dfy`). The serialiser:
  - `create_ics_event` becomes `EventLines` and `CreateIcsEvent`.
  - `generate_ics_content` becomes `DocumentLines` and the loop method
    `GenerateIcsContent`.
  - The `datetime.now()` reading for DTSTAMP and the `uuid4()` value for UID
    are parameters: one per entry, in entry order.

The model keeps three traits of the application's output that RFC 5545 does
not allow:

- TEXT values are not escaped (section 3.3.11).
- Long lines are not folded (section 3.1).
- Lines are joined with a bare line feed, where section 3.1 asks for CRLF.

`DocumentTextRoundTrip` states the consequence of the missing escaping: a
description that contains a newline does not survive as one line.

The page count formula `(n - 1) // rows + 1` gives 0 for an empty list, not 1.
The application evaluates it only when the list is non-empty, so this never
shows. `TotalPages` states both cases.

## Model

| member | source | states |
|---|---|---|
| Text.Strip | app.py:127 | The result is empty exactly when the input is all whitespace. Otherwise it starts and ends with a non-whitespace character and is the input with its leading and trailing whitespace removed. |
| Text.StripIdempotent | app.py:142 | Stripping a stripped string changes nothing, so a stored description is already trimmed. |
| Text.UpperCharacters | app.py:45 | Upper-casing keeps the length and leaves no ASCII lower-case letter. Each ASCII lower-case letter becomes its capital, and a character that is neither such a letter nor one of the two special ones (U+0131, U+017F) is unchanged. |
| Text.UpperIdempotent | app.py:45 | Upper-casing an upper-cased text changes nothing. |
| Text.SplitJoin | app.py:52 | Splitting the newline-join of a non-empty list of lines, none of which contains a newline, gives back those lines. |
| Text.JoinSplit | app.py:76 | Joining the pieces of any split text with newlines gives back the text. |
| Text.SplitJoinIff | app.py:76 | Joined lines split back into themselves if and only if no line contains a newline. |
| DateTimes.BeforeIsStrictTotalOrder | app.py:137 | The order used by `to_datetime >= from_datetime` is irreflexive, asymmetric, transitive and total. |
| DateTimes.Compact | app.py:27-32 | The stamp is 15 characters: eight digits, a 'T', then six digits. |
| DateTimes.DigitsRoundTrip | app.py:27 | A number below 10^w, zero-padded to w digits, reads back as the same number. |
| DateTimes.CompactRoundTrip | app.py:31-32 | A valid date-time written in `%Y%m%dT%H%M%S` form parses back to the same date-time. |
| Pagination.TotalPages | app.py:165 | The count is 0 for an empty list. For n > 0 it is the ceiling of n / rows: at least 1, with (t-1)·rows < n ≤ t·rows. |
| Pagination.ClampPage | app.py:168-169 | A cursor below the page count is kept. One at or past it becomes the last page, or 0 when there are no pages. |
| Pagination.PageEnd | app.py:173 | The end index is the smaller of start + rows and n: at most both, and equal to one of them. |
| Pagination.ClampInRange | app.py:168-169 | After clamping, the cursor is a valid page index. A cursor already in range is left alone. |
| Pagination.WindowNonEmpty | app.py:172-173 | On every valid page, start < end ≤ n and at most `rows` entries are shown. Every page except the last is full. |
| Pagination.PageOfEntry | app.py:172-173 | Entry i is shown on page p if and only if p = i / rows, and that page exists, so the pages tile the list. |
| Pagination.Visible | app.py:184 | The slice is empty when page·rows is past the list, and otherwise has exactly min(page·rows + rows, n) − page·rows elements, at most `rows`. Its k-th element is entry page·rows + k. |
| Pagination.PageAfterDelete | app.py:196-199 | After a deletion the cursor is 0 when the list is empty. It is kept when it is still a valid page. Otherwise it moves back exactly one page. |
| Pagination.DeleteKeepsPageInRange | app.py:196-199 | A cursor that was on a valid page before a deletion is still on a valid page after the adjustment. It is 0 when the list became empty, and it never moves forward. |
| EventStore.NewEvent | app.py:127-143 | Three outcomes. EmptyDescription exactly when the description is all whitespace. EndBeforeStart exactly when it is not and the end is before the start. Otherwise success with the given date-times and recurrence and the stripped description. A successful event is well-formed exactly when both date-times are real calendar dates and times of day. |
| EventStore.ZeroLengthEventAccepted | app.py:137 | An event whose end equals its start is accepted. |
| EventStore.RemovedAt | app.py:194 | `pop(i)` gives a list one shorter. Elements before i keep their place and later ones shift down one. As multisets, the result plus the removed element equals the old list. |
| EventStore.Store.constructor | app.py:17-22 | A new session has no entries and is on page 0. |
| EventStore.Store.Add | app.py:122-150 | The pickers supply real dates and times of day. On success, the entries become the old entries plus the new event. On either error they are unchanged and the outcome carries that error. Every stored event stays well-formed. |
| EventStore.Store.RemoveAt | app.py:194-199 | An index in range removes that entry and moves the cursor as `PageAfterDelete` says. An index out of range fails with IndexError and changes nothing. A cursor that was on a valid page stays on one, or is 0 when the list is now empty. |
| EventStore.Store.Clear | app.py:234-236 | The entries become empty and the cursor 0. |
| EventStore.Store.ShowPage | app.py:163-173 | The cursor is clamped to the last page, and one that was in range is unchanged. The slice is non-empty, at most `rows` long, starts at page·rows and ends at min(page·rows + rows, n). The rows shown are exactly that slice of the entries. |
| EventStore.Store.PreviousPage | app.py:206-207 | The cursor moves back one page unless it is on the first page. |
| EventStore.Store.NextPage | app.py:217-218 | The cursor moves forward one page unless it is on the last page. It never leaves the page range. |
| Ics.Frequency | app.py:44-48 | A FREQ value, when there is one, is DAILY, WEEKLY, MONTHLY or YEARLY. |
| Ics.FrequencyCharacterized | app.py:44-49 | For each FREQ value, the exact set of recurrence texts that yield it, after upper-casing and stripping. ANNUALLY and YEARLY yield YEARLY. Every other text yields no RRULE. |
| Ics.CanonicalOfLiteral | app.py:45 | A text of capital ASCII letters is its own upper-cased, stripped form. |
| Ics.RruleLinesShape | app.py:44-49 | There is no RRULE line exactly when the recurrence has no FREQ. Otherwise there is one line, RRULE:FREQ= followed by DAILY, WEEKLY, MONTHLY or YEARLY. |
| Ics.SelectorNone | app.py:44 | The selector's NONE yields no RRULE line. |
| Ics.SelectorPassThrough | app.py:45-49 | DAILY, WEEKLY and MONTHLY yield RRULE:FREQ with the same name. |
| Ics.SelectorAnnually | app.py:46-47 | ANNUALLY yields RRULE:FREQ=YEARLY. |
| Ics.EventBlockShape | app.py:34-51 | A block has 8 lines, or 9 exactly when there is a FREQ. It begins with BEGIN:VEVENT followed by the fixed head order and ends with END:VEVENT. The UID line carries the UID. SUMMARY and DESCRIPTION carry the same, unescaped description. The RRULE line, when present, carries the FREQ. |
| Ics.EventBlockStamps | app.py:27-39 | The DTSTAMP, DTSTART and DTEND lines carry their property names, and their values parse back to the clock reading, the start and the end. |
| Ics.CreateIcsEventReadsBack | app.py:25-52 | The text of one event splits back into its block's lines if and only if its description and its UID contain no newline. |
| Ics.StoredEventStampsReadBack | app.py:31-39 | A stored event's block begins with its head. Its DTSTART and DTEND values parse back to the event's start and end, and the end is not before the start. |
| Ics.BlocksInEntryOrder | app.py:57-73 | The body of the document is the block of each entry, in entry order: entry k's block comes right after the blocks of the entries before it and right before those after it. |
| Ics.EmptyExport | app.py:67-76 | An empty list exports exactly the four header lines and END:VCALENDAR. |
| Ics.DocumentLineCount | app.py:34-74 | The document has 5 + 8·(number of entries) + (number of recurring entries) lines. |
| Ics.DocumentMarkers | app.py:34-74 | BEGIN:VEVENT and END:VEVENT each occur exactly once per entry. |
| Ics.GenerateIcsContent | app.py:55-76 | The loop's text equals the newline-join of the header, every entry's block in order, and the footer. |
| Ics.EventLinesNoNewlines | app.py:34-51 | A block's lines contain no newline if and only if its description and its UID contain none. |
| Ics.DocumentNoNewlines | app.py:55-76 | The document's lines contain no newline if and only if no description and no UID contains one. |
| Ics.DocumentTextRoundTrip | app.py:40-76 | The exported text splits back into the document's lines if and only if no description and no UID contains a newline. |
| Ics.BlockRedacted | app.py:28-37 | Two blocks of the same event differ at most in their DTSTAMP and UID values. |
| Ics.ExportDeterministicUpToStampAndUid | app.py:28-76 | Two exports of the same list differ at most in their DTSTAMP and UID values. With those values cut off, they are equal line for line. |

Functions that only compute carry their properties in the lemmas above:

- `DateTimes.Before` in `BeforeIsStrictTotalOrder`.
- `Text.JoinLines` in `SplitJoin`, `JoinSplit` and `SplitJoinIff`.
- `Text.Upper` in `UpperCharacters` and `UpperIdempotent`.
- `Ics.Canonical` in `CanonicalOfLiteral` and `FrequencyCharacterized`.
- `Ics.RruleLines` in `RruleLinesShape`.
- `Ics.BlockHead` and `Ics.EventLines` in `EventBlockShape`, `EventBlockStamps` and `StoredEventStampsReadBack`.
- `Ics.CreateIcsEvent` in `CreateIcsEventReadsBack`.
- `Ics.DocumentLines` in `BlocksInEntryOrder`, `EmptyExport`, `DocumentLineCount`, `DocumentMarkers` and `DocumentTextRoundTrip`.
- `Pagination.PageStart` in `WindowNonEmpty` and `PageOfEntry`.

## Left out

- The Streamlit page itself is not modelled: page configuration, widgets, columns, buttons, `st.rerun`, the download button and the HTML page label. It is presentation only.
- `datetime.datetime.now()` and `uuid.uuid4()` are not modelled. Each event takes its clock reading and its UID as parameters.
- DateTimes.Compact: it writes `%Y` as four zero-padded digits. For years below 1000, Python's output depends on the platform's C library.
- DateTimes: microseconds and time zones are not modelled. The form uses `step=60` time pickers and naive date-times.
- Text.Upper: it maps ASCII letters, plus the two non-ASCII characters whose upper case is an ASCII letter (U+0131 and U+017F). All other characters are left as they are. That is enough to decide which recurrence texts reach the four FREQ names. It is not Python's full Unicode case mapping: for example, 'ß' becomes "SS" in Python.
- Ics.Frequency: a recurrence of Python `None` is not modelled. Stored entries always carry one of the selector's strings, so it is never None.
- The `sync_dates` callback and the `min_value` of the end-date picker are not modelled. They only nudge the form's inputs, and the store's own `end >= start` check is what the model relies on.
- Resetting the description widget and storing or showing the `add_error` message are not modelled. Add returns the error as an `Outcome` instead.
- EventStore.Store.Add: it requires the four picker values to be a real calendar date (years 1 to 9999) and a real time of day. Streamlit's date and time inputs only produce such values, so the model does not follow an out-of-range value into the store.
- The table's `%Y-%m-%d %H:%M` display formatting is not modelled.
- The rows-per-page selector's set of choices, {5, 10, 20}, is not modelled. The model allows any positive page size.
