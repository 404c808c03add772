# zoom-impact-bot: a verified model of the dialogue core

The zoom-impact-bot is a Telegram bot for a community that meets on Zoom. Its
data lives in a Google Sheet. Admins schedule events with a Save Event wizard
and assign an MC, a presenter or impact speakers to upcoming events. Members
record peer recognitions with a five-step dialogue and list them page by page.
This project models the part of the bot that holds the logic, and proves what
that logic promises:

- `event_management.dfy`: the Save Event wizard and the three assignment flows
  of `commands/event_management.py`. The class `Wizards` holds the two per-user
  session tables `wizard_data` and `assignment_data` as maps, and one method
  per handler updates them in place. The module also holds the multi-select
  toggle list, the keyboards and the nine-cell Events row.
- `recognition.dfy`: the recognition dialogue of `commands/recognition.py`,
  with the category buckets, the category keyboard and the month grid.
- `list_recognitions.dfy`: `display_recognitions` (messages of ten, numbered
  across messages) and the two filter keyboards of
  `commands/list_recognitions.py`.
- `sheets.dfy`: `_parse_dt`, `get_next_event`, `get_template` and
  `add_recognition` of `sheets.py`. The class `Store` stands for the sheet:
  the Events and Recognitions tables are append-only row sequences, and the
  role updates are recorded in order.
- `utils.dfy`: `roles_for` and `role_menu` of `commands/utils.py`.
- Supporting modules:
  - `fsm.dfy`: aiogram's dialogue state and data (`FSMContext`), as the
    class `Conversation`, keyed by user (aiogram keys it by chat and user;
    the two agree in a private chat).
  - `text.dfy`: the Python string operations the handlers use: `strip`,
    `startswith`, `endswith`, `in`, `lower`, `join`, `replace`, `str(n)` and
    `int(s)`.
  - `dates.dfy`: `strptime` with `%Y-%m-%d` and `%H:%M`, following the shape of the
    regular expressions CPython's `_strptime` builds, with `\d` read as an
    ASCII digit only. Non-padded fields such as "2024-1-5" are accepted. A parsed date and time become an instant in
    microseconds.
  - `layout.dfy`: buttons, keyboards and the `n`-per-row chunking every
    keyboard and the listing use.
  - `base.dfy`: shared vocabulary.
- `scenarios.dfy`: two whole dialogues run through the handler models, from the
  first button to the sheet write they end in.

Conventions of the model:

- A handler that calls a sheet helper whose body is not part of this model
  (`get_event_types`, `get_user_roles`, `get_categories`,
  `get_available_months`, `list_upcoming_events`) takes that helper's outcome
  as a `Fetch` parameter: either the value it returned or an exception.
- A write to the sheet takes a `reachable` flag that says whether the remote
  call goes through.
- The current time is a parameter of `GetNextEvent`.
- A handler that aiogram only routes in one dialogue state requires that state.
- An exception that escapes a handler (a `KeyError` outside any `try`, for
  instance) is the reply `Unhandled`, and the handler changes nothing.

Behaviour of the code that the proofs make explicit:

- Toggling a speaker twice restores the selection as a set
  (`ToggleTwiceMultiset`), as the prompt "Click to toggle selection" of the
  impact-speaker step (`commands/event_management.py:188`) leads a user to
  expect. It restores the
  list only when the speaker was unselected or selected last
  (`ToggleTwiceList`). Python's `remove` and `append` move a re-selected
  speaker to the end, so the order of names in the saved row can change
  (`ToggleReorders`).
- Callback data is turned back into a label with `replace(prefix, "")`. That
  gives the label back exactly when the label does not itself contain the
  prefix (`RemovePrefix`). An MC named "mc_x", for example, would be stored
  as "x".
- The category buckets can overlap, so such a category gets two buttons
  (`GroupsOverlap`). The `cat == 'ELC'` test adds nothing, because "ELC"
  contains "LC" (`LcIsContainment`).
- No menu button sends "assignpresenter", so the presenter assignment flow
  cannot be started from the menu (`NoPresenterEntry`).
- `select_event_for_*` stores the event row in whatever assignment session the
  user has, without checking which role it was started for (`SelectEventFor`).

## Model

| member | source | states |
|---|---|---|
| Text.StripShape | zoom_impact_bot/commands/event_management.py:80-81 | `strip()` returns the infix of its input between leading and trailing whitespace, and only whitespace is dropped |
| Text.StripEnds | zoom_impact_bot/commands/event_management.py:106 | the result of `strip()` is empty or has no whitespace at either end |
| Text.StripIdempotent | zoom_impact_bot/sheets.py:56-57 | stripping twice is stripping once, so `get_next_event` stripping before `_parse_dt` changes nothing |
| Text.TrimLeftShape | zoom_impact_bot/commands/event_management.py:106 | `lstrip` drops exactly the leading whitespace |
| Text.TrimRightShape | zoom_impact_bot/commands/event_management.py:106 | `rstrip` drops exactly the trailing whitespace |
| Text.ContainsAt | zoom_impact_bot/commands/recognition.py:52-53 | the substring test `sub in s` holds iff `sub` occurs at some position of `s` |
| Text.LowerChar | zoom_impact_bot/sheets.py:89 | the model's ASCII-only `lower()`: an upper-case ASCII letter becomes the same letter in lower case, every other character is left unchanged |
| Text.JoinSnoc | zoom_impact_bot/commands/event_management.py:249 | `", ".join` of a list with one more element appends the separator and that element |
| Text.RemoveAllLength | zoom_impact_bot/commands/event_management.py:68 | `replace(pat, "")` never lengthens a string, and shortens it iff `pat` occurs in it |
| Text.RemoveAllAbsent | zoom_impact_bot/commands/event_management.py:137 | `replace(pat, "")` leaves a string without `pat` unchanged |
| Text.RemovePrefix | zoom_impact_bot/commands/event_management.py:68 | removing a callback prefix from prefix + label gives back the label iff the label does not contain the prefix |
| Text.Decimal | zoom_impact_bot/commands/event_management.py:307 | `str(n)` is non-empty and made of digits and a minus sign |
| Text.DigitsDecimal | zoom_impact_bot/commands/event_management.py:325 | the digits `str(n)` writes for a natural number are all digits and read back as `n` |
| Text.ParseDecimal | zoom_impact_bot/commands/event_management.py:325 | `int(str(n)) == n` for every integer |
| Text.FirstCharAbsent | zoom_impact_bot/commands/event_management.py:325 | a pattern whose first character is absent from `s` does not occur in `s` |
| Text.DecimalAvoids | zoom_impact_bot/commands/event_management.py:325 | a pattern starting with a letter never occurs in `str(n)` |
| Layout.FlattenChunks | zoom_impact_bot/commands/list_recognitions.py:139 | concatenating the chunks gives back the input |
| Layout.ChunksCount | zoom_impact_bot/commands/list_recognitions.py:139 | no chunks iff the input is empty; otherwise just enough chunks of `n` to cover the input |
| Layout.ChunksCeil | zoom_impact_bot/commands/list_recognitions.py:139 | there are ceil(len / n) chunks |
| Layout.ChunkAt | zoom_impact_bot/commands/list_recognitions.py:139 | chunk `i` is `s[i*n : i*n + n]`, cut at the end of the input |
| Layout.ChunkSize | zoom_impact_bot/commands/list_recognitions.py:139 | every chunk holds one to `n` elements, and all but the last hold exactly `n` |
| Layout.ChunkCovers | zoom_impact_bot/commands/list_recognitions.py:139 | element `i*n + j` of the input is element `j` of chunk `i` |
| Layout.TextsConcat | zoom_impact_bot/commands/list_recognitions.py:47-49 | the labels of two stacked keyboards are the labels of the first followed by those of the second |
| Layout.GridTexts | zoom_impact_bot/commands/list_recognitions.py:37-47 | the labels of an `n`-per-row keyboard, read row by row, are the items in their order |
| Layout.GridRowSizes | zoom_impact_bot/commands/list_recognitions.py:38-47 | each row of an `n`-per-row keyboard holds one to `n` buttons, and only the last may hold fewer than `n` |
| Layout.GridStep | zoom_impact_bot/commands/list_recognitions.py:38-47 | the layout from item `i` on is the row starting at `i` followed by the layout from `i + n` on |
| Layout.GridAppend | zoom_impact_bot/commands/list_recognitions.py:38-47 | one more row keeps the outer loop's invariant |
| Layout.GridRows | zoom_impact_bot/commands/list_recognitions.py:37-47 | the nested `range(0, len, n)` / `range(n)` loops build exactly the chunked layout, each button sending prefix + label |
| Layout.RowFrom | zoom_impact_bot/commands/list_recognitions.py:39-46 | the inner loop builds the buttons for items `i` up to `i + n`, stopping at the end of the list |
| Dates.ParseDate | zoom_impact_bot/commands/event_management.py:80 | `strptime(s, "%Y-%m-%d")` only ever yields a date that exists |
| Dates.ParseTime | zoom_impact_bot/commands/event_management.py:94 | `strptime(s, "%H:%M")` only ever yields a time of day in range |
| Dates.DigitChar | zoom_impact_bot/commands/event_management.py:80 | the digit written for a value 0..9 reads back as that value |
| Dates.Pad2 | zoom_impact_bot/commands/event_management.py:80 | a zero-padded field is two characters long |
| Dates.YearDigits | zoom_impact_bot/commands/event_management.py:80 | the four decimal digits of a year in 0..9999 recompose it |
| Dates.Pad2Month | zoom_impact_bot/commands/event_management.py:80 | `%m` reads a zero-padded month back |
| Dates.Pad2Day | zoom_impact_bot/commands/event_management.py:80 | `%d` reads a zero-padded day back |
| Dates.Pad2Hour | zoom_impact_bot/commands/event_management.py:94 | `%H` reads a zero-padded hour back |
| Dates.Pad2Minute | zoom_impact_bot/commands/event_management.py:94 | `%M` reads a zero-padded minute back |
| Dates.ParseFormatDate | zoom_impact_bot/commands/event_management.py:80 | every representable date written as YYYY-MM-DD parses back to itself |
| Dates.ParseFormatTime | zoom_impact_bot/commands/event_management.py:94 | every time written as HH:MM parses back to itself |
| Dates.ParseDateUnpadded | zoom_impact_bot/commands/event_management.py:80 | a non-padded date such as 2024-1-5 is accepted |
| Dates.ParseDateLeapDay | zoom_impact_bot/commands/event_management.py:80 | February 29 parses in a leap year and is rejected otherwise |
| Dates.ParseTimeExamples | zoom_impact_bot/commands/event_management.py:94 | a non-padded time such as 9:5 is accepted; hour 24 is rejected |
| Dates.YearLength | zoom_impact_bot/sheets.py:58 | a year has 366 days if it is a leap year and 365 otherwise |
| Dates.DaysBeforeYearMono | zoom_impact_bot/sheets.py:58 | the first day of a later year comes after the last day of an earlier one |
| Dates.DayNumberMono | zoom_impact_bot/sheets.py:58 | an earlier calendar date has a smaller day number |
| Dates.InstantOrder | zoom_impact_bot/sheets.py:58 | comparing combined datetimes is comparing (date, time) in calendar order, and equal instants mean equal date and time |
| Fsm.Conversation.StateOf | zoom_impact_bot/commands/recognition.py:22 | a user has a state iff one was set and not cleared |
| Fsm.Conversation.SetState | zoom_impact_bot/commands/recognition.py:22 | `set_state` changes only this user's state and keeps the data |
| Fsm.Conversation.Clear | zoom_impact_bot/commands/recognition.py:18 | `clear()` drops both the state and the data of this user and no one else's |
| Fsm.Conversation.UpdateData | zoom_impact_bot/commands/recognition.py:27 | `update_data` sets one key of this user's data and keeps the other keys |
| Sheets.Store.AppendEvent | zoom_impact_bot/commands/event_management.py:248-263 | a successful `append_row` adds exactly the given row at the end of Events; a failed one writes nothing |
| Sheets.Store.AddRecognition | zoom_impact_bot/sheets.py:93-103 | appends exactly `[upline, downline, category, month, remarks]` when the write succeeds, and raises without writing otherwise |
| Sheets.Store.UpdateEventRoles | zoom_impact_bot/commands/event_management.py:363 | a successful role update is recorded once, at the end; a failed one is not |
| Sheets.ParseDtResult | zoom_impact_bot/sheets.py:53-60 | `_parse_dt` is None iff the stripped date or the stripped time fails to parse, and otherwise the instant they name |
| Sheets.ParseDtFormatted | zoom_impact_bot/sheets.py:53-60 | a date and time in the documented form, with whitespace around them, give the instant they name |
| Sheets.StripPadded | zoom_impact_bot/sheets.py:56-57 | `strip()` removes whitespace added around a word with no whitespace at its ends |
| Sheets.TrimLeftPadded | zoom_impact_bot/sheets.py:56 | `lstrip()` removes leading whitespace added before such a word |
| Sheets.TrimRightPadded | zoom_impact_bot/sheets.py:56 | `rstrip()` removes trailing whitespace added after such a word |
| Sheets.EventInstantStrip | zoom_impact_bot/sheets.py:73 | stripping the cells before `_parse_dt` gives the same result as not stripping them |
| Sheets.EarliestUpcoming | zoom_impact_bot/sheets.py:70-82 | None iff no row has an instant at or after now; otherwise the first row with the smallest such instant |
| Sheets.CollectUpcoming | zoom_impact_bot/sheets.py:72-75 | the collected pairs are exactly the upcoming rows with their instants, in row order |
| Sheets.FirstSmallest | zoom_impact_bot/sheets.py:80-82 | the head of the stable sort by instant is the first position holding the smallest instant |
| Sheets.BestIsEarliest | zoom_impact_bot/sheets.py:80-82 | the first smallest collected instant belongs to the earliest upcoming row, and to no row before it with the same instant |
| Sheets.GetNextEvent | zoom_impact_bot/sheets.py:62-82 | None for an empty sheet or when no row parses to a time at or after now; otherwise the earliest such row, ties going to the first |
| Sheets.NextEventNotPast | zoom_impact_bot/sheets.py:72-75 | the row returned is never unparsable and never before now |
| Sheets.EarliestUnique | zoom_impact_bot/sheets.py:80-82 | only one row can be the next event |
| Sheets.GetTemplate | zoom_impact_bot/sheets.py:84-91 | the url of the first row whose stripped, lower-cased key equals `key.lower()`; None when no row matches |
| Sheets.FirstWhere | zoom_impact_bot/sheets.py:88-91 | the linear search returns the first position satisfying the test, or None iff no row does |
| Sheets.KeyMatchesIgnoresCase | zoom_impact_bot/sheets.py:89 | a template key matches the same rows whatever the letter case of the key asked for |
| EventManagement.IndexOf | zoom_impact_bot/commands/event_management.py:213-214 | the position `list.remove` deletes: the first occurrence |
| EventManagement.ToggleMembers | zoom_impact_bot/commands/event_management.py:211-216 | a toggle flips the speaker's membership, keeps every other speaker, and never creates a repeat |
| EventManagement.ToggleTwiceMultiset | zoom_impact_bot/commands/event_management.py:211-216 | toggling the same speaker twice gives back the same selection as a set |
| EventManagement.ToggleTwiceList | zoom_impact_bot/commands/event_management.py:535-540 | toggling twice gives back the same list iff the speaker was unselected or selected last |
| EventManagement.ToggleReorders | zoom_impact_bot/commands/event_management.py:213-216 | selecting A and B, then deselecting and reselecting A, leaves the order B, A |
| EventManagement.ColumnMenu | zoom_impact_bot/commands/event_management.py:46-50 | one button per item on its own row, sending prefix + item, then the cancel row |
| EventManagement.MarkedLabel | zoom_impact_bot/commands/event_management.py:222-224 | a speaker's label starts with "☑" iff the speaker is selected and "☐" iff not, followed by a space and the name |
| EventManagement.ImpactKeyboard | zoom_impact_bot/commands/event_management.py:220-228 | one marked toggle button per speaker in order, then the save row and the cancel row |
| EventManagement.ImpactMarks | zoom_impact_bot/commands/event_management.py:546-548 | every redrawn speaker shows "☑" exactly when selected, and sends the toggle prefix + its name |
| EventManagement.EventMenu | zoom_impact_bot/commands/event_management.py:304-309 | one button per upcoming event labelled "date time — type" sending prefix + row index, then Cancel; None iff an event lacks one of those cells |
| EventManagement.EventButtonRoundTrip | zoom_impact_bot/commands/event_management.py:307 | the row index put on an event button is the one `int(data.replace(prefix, ""))` reads back |
| EventManagement.EventRow | zoom_impact_bot/commands/event_management.py:251-261 | the Events row has nine cells |
| EventManagement.SavedRowParses | zoom_impact_bot/commands/event_management.py:251-263 | a row the wizard saves has a date and time `_parse_dt` accepts, a link starting with "http", and the status "Scheduled" |
| EventManagement.ShownImpacts | zoom_impact_bot/commands/event_management.py:578 | an empty selection is shown as "None", any other as the names joined by ", " |
| EventManagement.PeopleMenu | zoom_impact_bot/commands/event_management.py:335-344 | single-choice MC or presenter menu, or the unmarked speaker keyboard, and the state waiting for that choice |
| EventManagement.Wizards.constructor | zoom_impact_bot/commands/event_management.py:30-31 | both session tables start empty |
| EventManagement.Wizards.StartSaveEvent | zoom_impact_bot/commands/event_management.py:36-63 | the event-type menu and the state waiting for it; an error when the types cannot be read or there are none; no session is created |
| EventManagement.Wizards.SelectEventType | zoom_impact_bot/commands/event_management.py:66-73 | the user's session becomes exactly `{"type": t}`, discarding any stale data |
| EventManagement.Wizards.ProcessDate | zoom_impact_bot/commands/event_management.py:76-87 | the stripped date is stored and the wizard advances only if it parses; otherwise state and session are unchanged |
| EventManagement.Wizards.ProcessTime | zoom_impact_bot/commands/event_management.py:90-101 | the stripped time is stored and the wizard advances only if it parses; otherwise state and session are unchanged |
| EventManagement.Wizards.ProcessZoomLink | zoom_impact_bot/commands/event_management.py:104-132 | a stripped link not starting with "http" is rejected without being stored; a good one is stored, then the MC menu |
| EventManagement.Wizards.SelectMc | zoom_impact_bot/commands/event_management.py:135-162 | the MC is stored before the presenters are read, then the presenter menu |
| EventManagement.Wizards.SelectPresenter | zoom_impact_bot/commands/event_management.py:165-196 | the presenter is stored; with speakers, the selection starts empty and every speaker is shown unmarked |
| EventManagement.Wizards.ToggleImpact | zoom_impact_bot/commands/event_management.py:199-233 | without a session, "Session expired" and nothing changes; otherwise the speaker is toggled and the keyboard redrawn from the new selection |
| EventManagement.Wizards.SaveEventFinal | zoom_impact_bot/commands/event_management.py:236-280 | a successful save appends exactly the nine-cell row and then deletes the session; a missing field or failed write keeps it |
| EventManagement.Wizards.CancelSaveEvent | zoom_impact_bot/commands/event_management.py:283-291 | the session is deleted if present and the dialogue cleared, so a second cancel changes nothing |
| EventManagement.Wizards.StartAssign | zoom_impact_bot/commands/event_management.py:295-320 | the menu of upcoming events and a fresh session naming the role; nothing changes when there are no events or they cannot be read |
| EventManagement.Wizards.SelectEventFor | zoom_impact_bot/commands/event_management.py:323-349 | the parsed row index is stored in the user's session (the impact flow also starts an empty selection), then the menu of people |
| EventManagement.Wizards.CommitAssignment | zoom_impact_bot/commands/event_management.py:361-374 | the role update is sent; only after it succeeds is the session deleted and the dialogue cleared |
| EventManagement.Wizards.AssignMcFinal | zoom_impact_bot/commands/event_management.py:352-377 | no session means "expired"; otherwise only the MC is passed to `update_event_roles`, and the session and its data are kept on failure and cleared after success |
| EventManagement.Wizards.AssignPresenterFinal | zoom_impact_bot/commands/event_management.py:466-489 | no session means "expired"; otherwise only the presenter is passed; the session and its data are kept on failure and cleared after success |
| EventManagement.Wizards.ToggleAssignImpact | zoom_impact_bot/commands/event_management.py:523-557 | without a session nothing changes; otherwise the speaker is toggled in the assignment selection and the keyboard redrawn |
| EventManagement.Wizards.SaveImpactAssignmentFinal | zoom_impact_bot/commands/event_management.py:560-584 | the whole selection is passed to `update_event_roles`, shown as "None" when empty; the session and its data are kept on failure and cleared after success |
| EventManagement.Wizards.CancelAssignment | zoom_impact_bot/commands/event_management.py:587-595 | the assignment session is deleted if present and the dialogue cleared |
| Recognition.FilterMembers | zoom_impact_bot/commands/recognition.py:50-53 | a list comprehension keeps exactly the elements that pass its test |
| Recognition.FilterConcat | zoom_impact_bot/commands/recognition.py:50-53 | a list comprehension keeps source order |
| Recognition.Buckets | zoom_impact_bot/commands/recognition.py:50-54 | a category is "other" iff it is in none of the four named groups, and every category lands in some group |
| Recognition.LcIsContainment | zoom_impact_bot/commands/recognition.py:52 | the LC test holds iff the category contains "LC"; the `== 'ELC'` clause is redundant |
| Recognition.GroupsOverlap | zoom_impact_bot/commands/recognition.py:50-52 | a category such as "LC 10%" is both a percentage and an LC category |
| Recognition.OnePerRow | zoom_impact_bot/commands/recognition.py:96-101 | the PaceSetter loop puts one category per row, in order |
| Recognition.CategoryKeyboard | zoom_impact_bot/commands/recognition.py:47-117 | the keyboard is the percentage, level and LC groups two per row, PaceSetter one per row, the others two per row, then Cancel |
| Recognition.CategoryLabels | zoom_impact_bot/commands/recognition.py:56-117 | the labels are the five groups in order then Cancel, every category is offered, and the last row is the single Cancel button |
| Recognition.CategoryRowSizes | zoom_impact_bot/commands/recognition.py:57-114 | two-per-row groups have rows of two with only the last possibly one; PaceSetter rows hold exactly one |
| Recognition.MonthKeyboard | zoom_impact_bot/commands/recognition.py:129-145 | the twelve months in order, three per row in four rows, then Cancel |
| Recognition.Recog | zoom_impact_bot/commands/recognition.py:17-23 | the dialogue is cleared and waits for the upline |
| Recognition.ProcessUpline | zoom_impact_bot/commands/recognition.py:26-30 | the upline is stored stripped and the dialogue waits for the downline |
| Recognition.ProcessDownline | zoom_impact_bot/commands/recognition.py:33-121 | the downline is stored stripped; no categories clears the dialogue without a keyboard; otherwise the category keyboard |
| Recognition.ProcessCategory | zoom_impact_bot/commands/recognition.py:124-150 | the picked category is stored and the month grid shown |
| Recognition.ProcessMonth | zoom_impact_bot/commands/recognition.py:153-160 | the picked month is stored and the dialogue waits for the remarks |
| Recognition.ProcessRemarks | zoom_impact_bot/commands/recognition.py:163-187 | the stripped remarks and the four earlier fields are written in the order upline, downline, category, month, remarks; the dialogue is cleared whether or not the write succeeds |
| Recognition.CancelRecognition | zoom_impact_bot/commands/recognition.py:190-193 | the dialogue is cleared |
| ListRecognitions.EntryOf | zoom_impact_bot/commands/list_recognitions.py:145-149 | the remarks line is present iff the remarks are non-empty |
| ListRecognitions.DisplayRecognitions | zoom_impact_bot/commands/list_recognitions.py:131-155 | an empty list gives one "not found" message; otherwise one message per chunk of ten with the entries numbered across messages |
| ListRecognitions.PageShape | zoom_impact_bot/commands/list_recognitions.py:138-153 | ceil(n / 10) messages of one to ten entries, all but the last full, with a "Page k of m" footer iff there are several |
| ListRecognitions.EntryAt | zoom_impact_bot/commands/list_recognitions.py:141-145 | entry `j` of message `i` is recognition `i*10 + j`, numbered `i*10 + j + 1` |
| ListRecognitions.EveryRecognitionListed | zoom_impact_bot/commands/list_recognitions.py:141-145 | every recognition `k` appears, numbered `k + 1`, as entry `k % 10` of message `k / 10` |
| ListRecognitions.EntriesInOrder | zoom_impact_bot/commands/list_recognitions.py:139-150 | the entries of all messages, read in order, are the recognitions in input order numbered 1..n |
| ListRecognitions.SameEntries | zoom_impact_bot/commands/list_recognitions.py:141-150 | reading the entries message by message concatenates them |
| ListRecognitions.FlattenNumbered | zoom_impact_bot/commands/list_recognitions.py:139-145 | numbering chunk by chunk is numbering the whole list |
| ListRecognitions.FilterKeyboard | zoom_impact_bot/commands/list_recognitions.py:37-49 | the items two per row, then the Cancel row |
| ListRecognitions.FilterKeyboardShape | zoom_impact_bot/commands/list_recognitions.py:67-79 | the filter keyboard lists the items in order, two to a row with only the last row possibly one, each sending prefix + item, and ends with Cancel |
| ListRecognitions.FilterByMonth | zoom_impact_bot/commands/list_recognitions.py:26-53 | no months gives "no recognitions"; otherwise the month keyboard; a failed read escapes |
| ListRecognitions.FilterByCategory | zoom_impact_bot/commands/list_recognitions.py:56-83 | no categories gives "no categories"; otherwise the category keyboard in sheet order; a failed read escapes |
| Utils.RolesFor | zoom_impact_bot/commands/utils.py:5-6 | exactly one role: "Admin" iff the id is in `ADMIN_IDS`, "Member" otherwise |
| Utils.RoleMenu | zoom_impact_bot/commands/utils.py:8-25 | the same three base rows, then the four admin rows iff "Admin" is among the roles; every row holds two buttons |
| Utils.MenuFor | zoom_impact_bot/commands/utils.py:5-25 | seven rows for an admin id, three for anyone else |
| Utils.NoPresenterEntry | zoom_impact_bot/commands/utils.py:16-24 | no menu button sends "assignpresenter", while "assignmc" and "assignimpact" are on the admin rows |
| Scenarios.EnterSchedule | zoom_impact_bot/commands/event_management.py:66-101 | choosing a type and typing a date and time leaves the session holding exactly the type and the stripped date and time |
| Scenarios.EnterHosts | zoom_impact_bot/commands/event_management.py:104-196 | a good link, an MC and a presenter are stored and the speaker selection starts empty |
| Scenarios.TickSpeakers | zoom_impact_bot/commands/event_management.py:199-216 | ticking two different speakers selects them in the order ticked |
| Scenarios.SaveEventDialogue | zoom_impact_bot/commands/event_management.py:236-280 | a failed first save writes nothing and keeps the session; the retry writes exactly one row of the stripped answers, the speakers joined by ", ", "Scheduled" and "" |
| Scenarios.EnterNames | zoom_impact_bot/commands/recognition.py:26-121 | the two names are stored stripped and the dialogue waits for the category |
| Scenarios.PickCategoryAndMonth | zoom_impact_bot/commands/recognition.py:124-160 | the picked category and month are stored and the names kept |
| Scenarios.RecognitionDialogue | zoom_impact_bot/commands/recognition.py:17-187 | a recognition entered step by step is written as exactly one row of the stripped names, the category, the month and the stripped remarks, and the dialogue ends |

## Left out

- The Telegram transport is not modelled: sending messages, answering
  callbacks, editing keyboards and the HTML or Markdown text of the messages.
  A reply is modelled by what it carries (a notice, a keyboard, the fields
  shown), not by its text.
- Routing of updates to handlers is not modelled. The model does not say which
  handler aiogram picks for a callback. For example, "assign_mc_event_3" also
  starts with "assign_mc_", and the model does not capture that the handler
  registered first wins.
- The Google Sheets client, credential loading and environment variables in
  `sheets.py` lines 1-51 are not modelled. Whether a write succeeds is a
  parameter.
- The sheet helpers `get_event_types`, `get_user_roles`, `get_categories`,
  `get_available_months`, `list_upcoming_events`, `get_recognitions` and
  `update_event_roles` are called but their bodies are not part of this model.
  Their results are `Fetch` parameters, and a role update is recorded, not
  applied to cells.
- `start_list_recognitions`, `show_all_recognitions`,
  `show_month_recognitions`, `show_category_recognitions`,
  `cancel_list_recognitions` and `rec_add_legacy` only send fixed text or pass
  a helper's result to `display_recognitions`, so only that function is
  modelled.
- `commands/events.py`, `commands/templates.py`, `run.py` and `start.py` are
  not part of this model.
- Concurrency is not modelled: each handler is one atomic step.
- The clock is a parameter (`now`). Every datetime the bot compares carries
  the same `tzinfo` (`ZoneInfo("Asia/Kolkata")`), and Python compares aware
  datetimes sharing one `tzinfo` by their naive wall-clock values, so instants
  are wall-clock microseconds and the zone's rules are not modelled.
- Fsm.Conversation: aiogram keys dialogue state and data by chat and user;
  the model keys them by user only. This is exact in private chats; a user
  talking to the bot in several chats shares one state in the model.
- Cells are strings. `str(cell)` of a number cell that `get_all_records`
  returns is not modelled.
- Text.IsSpace: Python's `isspace` covers the Unicode whitespace characters
  listed there; Unicode normalisation is not modelled.
- Text.LowerChar, Sheets.GetTemplate: `lower()` is modelled on ASCII letters
  only. Python also lowers non-ASCII letters and can change the length
  ("CAFÉ" becomes "café", "İ" becomes two code points), so a key that differs
  from a template row only in non-ASCII case matches in the bot but not in
  the model.
- Dates.ParseDate, Dates.ParseTime: only ASCII digits are accepted. CPython's
  `\d` and `int()` also accept other Unicode decimal digits (such as
  Devanagari ones, "२०२४-01-15"), which the bot accepts and the model
  rejects.
- Text.ParseInt: models `int()` on an optional minus sign and ASCII digits
  only; `int()` also accepts a plus sign, surrounding whitespace, underscores
  and non-ASCII digits, which the model reports as a failure.
- ListRecognitions.DisplayRecognitions: a recognition is a record with the
  five fields; a record missing one of them (a `KeyError` in the source) is
  not modelled.
- Layout.GridRows, Sheets.EarliestUpcoming and Sheets.GetTemplate: their
  loops are split into helper methods (`RowFrom`, `CollectUpcoming` and
  `FirstSmallest`, `FirstWhere`). `get_next_event` sorts and takes the head;
  the model finds the first smallest instant directly, which is the head of
  Python's stable sort.
