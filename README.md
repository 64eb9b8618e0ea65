# Mitr: a verified model of the assessment, resources and booking pages

Mitr is a mental-wellness web application in TypeScript and React. This
project models its behavioural core in Dafny and proves properties of that
model. The core covers five parts:

- **The self-assessment questionnaire.** Five questions, each answered with
  an option worth 0 to 3. The answers sit in a map from question index to
  value. Answering the last question totals the answers and stores the total
  in local storage for the dashboard. The page then either offers
  professional support (total 10 or more) or reports that the user is doing
  well and returns to the dashboard. "Previous" steps back one question.
- **The resource directory.** It filters a fixed list by language, by
  category and by a case-insensitive substring query. The language and
  category choices are `'all'` followed by each distinct value, in
  first-seen order.
- **The booking calendar.** It generates one-hour slots from 9:00 to 17:00 on
  each weekday of the seven days from today. Each slot is marked available or
  not. The calendar lists each date that has slots once, in ascending order,
  with the slots shown under each date. A click on a slot reaches the form
  only when the slot is available.
- **The booking form.** It holds the picked date, the picked time and the
  notes. It hands them to its owner on submit, once both a date and a time
  are picked. Its buttons are disabled while a booking is under way.
- **The dashboard.** It shows default wellness figures. Its Medicare Score is
  `100 - 2 * total` when the questionnaire left a total in storage. It then
  removes the total, so a stored total is read once. A stored total above 25
  opens a support dialog. Every figure carries a verbal band. The booking
  flow runs from dialog to form to request and back.

Modules follow the source files:

- `Questionnaire` (questionnaire page);
- `Resources` (resources page);
- `BookingCalendar` (calendar component);
- `BookingForm` (form component);
- `Dashboard` (dashboard page);
- `Storage` (the one local-storage key the two pages share);
- `Collections` (the JavaScript `Set` order, the ascending sort and the
  subsequence relation);
- `Wrappers` (`Option`).

State the source changes in place is modelled as classes:

- `Questionnaire.Assessment`;
- `BookingForm.Form`;
- `Dashboard.Page`;
- `Storage.LocalStorage`.

Pure computations are functions. The slot generator is a method with its two
nested loops, proved equal to a grid function whose properties are lemmas.

Modelling choices, stated once:

- **Dates.** A calendar date is a day number. Its weekday is the first shown
  day's weekday advanced by the day offset, modulo 7. The date text given to
  the form is the number's decimal digits. These stand in for ISO date
  strings, which also sort in date order and are distinct for distinct days.
- **Slot times.** A slot keeps its start hour. Its time text
  `"<h>:00 - <h+1>:00"` is `TimeSlot.Time`, and different hours get
  different texts (`TimeLabelInjective`).
- **Availability.** The page draws `Math.random() > 0.3` for each slot. The
  model takes the set of (day offset, hour) pairs that came out available as
  a parameter.
- **Question wording.** The texts live in `Questionnaire.QuestionTexts`,
  apart from the option values that the logic uses.
- **The asynchronous booking.** `handleConfirmBooking` awaits a network
  request. It is modelled as two steps, sending the request and handling the
  response, so the state with a booking under way shows.
- **The user and the response.** The signed-in user's address and name, and
  whether the response was `ok`, are parameters. So is whether the request
  failed to send at all, which the page handles like a refused request.
- **Toasts and navigation.** They are returned as tags: `Questionnaire.Effect`
  and `Dashboard.Notice`.

Two results connect the pages:

- `Dashboard.AssessmentScoresReadGood`: any total the questionnaire can
  store (0 to 15) becomes a Medicare Score between 70 and 100. That score
  reads "Good" and is not low. A total of 15 or less also never opens the
  dashboard's support dialog. So on the dashboard, the dialog, the "Needs
  Attention" band and the low-score flag cannot be reached from an
  assessment; only the questionnaire's own threshold of 10 ever offers
  support.
- The search rule: an empty query matches every resource, because the empty
  string occurs in every string (`Resources.EmptyQueryMatchesAll`). The code
  gets this from `includes('')`, not from a separate empty-query test, and
  the model follows the code.

## Model

| member | source | states |
|---|---|---|
| `Questionnaire.OptionValuesInRange` | app/questionnaire/page.tsx:25-76 | The value of any option of any of the questions lies between 0 and 3. There are five questions, so a total is at most 15. |
| `Questionnaire.SumBelow` | app/questionnaire/page.tsx:86 | When every recorded answer is an option value, the running sum over the first n questions lies between 0 and 3n. |
| `Questionnaire.Total` | app/questionnaire/page.tsx:86 | The assessment total: the sum of the answers to the five questions. The page adds up every value of the answer map, and the map only ever holds those five indices. |
| `Questionnaire.SumBelowOverwrite` | app/questionnaire/page.tsx:79 | Re-answering a question swaps that question's old contribution to the total for the new value. An index outside the summed range changes nothing. |
| `Questionnaire.SumBelowAgree` | app/questionnaire/page.tsx:86 | The total depends only on the answers to the questions it covers. |
| `Questionnaire.RecordAnswer` | app/questionnaire/page.tsx:79-80 | Recording an option value for the current question keeps the map to question indices and option values. All questions up to the current one are then answered; after the last question, all of them are. |
| `Questionnaire.Assessment.constructor` | app/questionnaire/page.tsx:19-22 | Initial state: first question, no answers, no dialog, score 0. |
| `Questionnaire.Assessment.HandleAnswer` | app/questionnaire/page.tsx:78-100 | The answer for the current question is recorded, replacing any earlier one. Before the last question: the page advances one question and nothing else changes, storage included. On the last question: the page stays; all five questions are answered; the score is the total (0 to 15) and is stored. A total of 10 or more opens the support dialog; otherwise the page yields the "doing well" toast with the total and returns to the dashboard. The invariant is kept. |
| `Questionnaire.Assessment.Previous` | app/questionnaire/page.tsx:172-175 | One question back, keeping all answers. On the first question the button is disabled and nothing changes. |
| `Storage.LocalStorage.GetItem` | app/dashboard/page.tsx:46 | Reading the one key: the stored total, or nothing. |
| `Storage.LocalStorage.SetItem` | app/questionnaire/page.tsx:90 | The stored total is replaced by the new one. |
| `Storage.LocalStorage.RemoveItem` | app/dashboard/page.tsx:50 | Afterwards no total is stored. |
| `Resources.ToLower` | app/resources/page.tsx:90-92 | Lower-casing keeps the length. |
| `Resources.ToLowerIdempotent` | app/resources/page.tsx:90-92 | Lower-casing twice equals lower-casing once. |
| `Resources.Includes` | app/resources/page.tsx:90-92 | `includes`: the query occurs in the text at some position, tried from the left. |
| `Resources.IncludesIff` | app/resources/page.tsx:90-92 | `includes` holds exactly when some window of the text equals the query. |
| `Resources.MatchesLanguage` | app/resources/page.tsx:88 | The language test: `'all'`, or the resource's language equals the chosen one. |
| `Resources.MatchesCategory` | app/resources/page.tsx:89 | The category test: `'all'`, or the resource's category equals the chosen one. |
| `Resources.MatchesSearch` | app/resources/page.tsx:90-92 | The search test: the lower-cased query occurs in the lower-cased name, description or category. |
| `Resources.Matches` | app/resources/page.tsx:93 | A resource is shown when it passes all three tests. |
| `Resources.Filter` | app/resources/page.tsx:87-94 | A resource is shown exactly when it is in the list and passes the language, category and search tests. The result is no longer than the list. |
| `Resources.FilterIsSubsequence` | app/resources/page.tsx:87-94 | The shown resources keep the list's order: the result is a subsequence of the list. |
| `Resources.FilterCounts` | app/resources/page.tsx:87-94 | A matching resource is shown as many times as it occurs in the list, and a resource that does not match is not shown. Repeated entries are all kept. |
| `Resources.EmptyQueryMatchesAll` | app/resources/page.tsx:90-92 | An empty query matches every resource. |
| `Resources.UnrestrictedKeepsAll` | app/resources/page.tsx:87-94 | With language `'all'`, category `'all'` and an empty query, the whole list is shown, in order. |
| `Resources.FilterIdempotent` | app/resources/page.tsx:87-94 | Filtering the shown list again with the same settings changes nothing. |
| `Resources.LanguageNarrows` | app/resources/page.tsx:88 | Picking a particular language shows a subsequence of what `'all'` shows, with the other settings kept. |
| `Resources.CategoryNarrows` | app/resources/page.tsx:89 | Picking a particular category shows a subsequence of what `'all'` shows, with the other settings kept. |
| `Resources.QueryCaseInsensitive` | app/resources/page.tsx:90-92 | Two queries that differ only in letter case show the same resources. |
| `Resources.LowerCaseQuery` | app/resources/page.tsx:90-92 | Typing the query in lower case changes nothing. |
| `Resources.Choices` | app/resources/page.tsx:81 | A choice list: `'all'` followed by the `Set` of the values. |
| `Resources.Languages` | app/resources/page.tsx:81 | The language choices: the choice list of the resources' languages. |
| `Resources.Categories` | app/resources/page.tsx:84 | The category choices: the choice list of the resources' categories. |
| `Resources.ChoicesShape` | app/resources/page.tsx:81 | A choice list starts with `'all'`, followed by every value of the list exactly once, in order of first appearance. The category list at line 84 is built the same way. |
| `Collections.Distinct` | app/resources/page.tsx:81 | The `Set` of a list holds exactly the list's values, each once, and is no longer than the list. |
| `Collections.DistinctFirstOccurrenceOrder` | app/resources/page.tsx:81 | The `Set` yields values in order of their first occurrence in the list. |
| `Collections.Sort` | components/BookingCalender.tsx:55 | Sorting is a permutation: same multiset, same members. |
| `Collections.SortSorted` | components/BookingCalender.tsx:55 | The sorted list is ascending. |
| `Collections.SortKeepsNoDuplicates` | components/BookingCalender.tsx:55 | Sorting a duplicate-free list keeps it duplicate-free. |
| `BookingCalendar.IsWeekend` | components/BookingCalender.tsx:38 | Sunday (0) and Saturday (6) are the weekend days, which get no slots. |
| `BookingCalendar.NatToString` | components/BookingCalender.tsx:39 | A number in decimal, as a template literal prints it. The text is never empty, and from 10 up it has at least two digits. |
| `BookingCalendar.TimeLabel` | components/BookingCalender.tsx:39 | A slot's time text: `"<h>:00 - <h+1>:00"` for start hour h. |
| `BookingCalendar.DateLabel` | components/BookingCalender.tsx:40 | A slot's date text, one per day and never empty. It stands in for the ISO date. |
| `BookingCalendar.NatToStringInjective` | components/BookingCalender.tsx:39 | Different numbers print differently. |
| `BookingCalendar.TimeLabelInjective` | components/BookingCalender.tsx:39 | Different start hours get different time texts. |
| `BookingCalendar.TimeLabelExamples` | components/BookingCalender.tsx:39 | The first slot of a day reads `9:00 - 10:00` and the last reads `16:00 - 17:00`. |
| `BookingCalendar.HourSlots` | components/BookingCalender.tsx:36-46 | The first `count` slots of one day, one per hour from 9, each with its pair's availability. |
| `BookingCalendar.DaySlots` | components/BookingCalender.tsx:36-47 | A day's slots: the eight hours on a weekday, none on a weekend. |
| `BookingCalendar.Grid` | components/BookingCalender.tsx:32-49 | The slots of the first n days, day after day: the value the generator's loops build. |
| `BookingCalendar.GenerateTimeSlots` | components/BookingCalender.tsx:26-52 | The two nested loops produce exactly the grid: day by day, weekdays only, one slot per hour from 9 to 16. The result has 40 slots, none on a Saturday or a Sunday. |
| `BookingCalendar.WeekFacts` | components/BookingCalender.tsx:32-49 | The seven-day grid has 40 slots, and none falls on a weekend. |
| `BookingCalendar.FiveWeekdaysAWeek` | components/BookingCalender.tsx:32-38 | Any seven consecutive days hold exactly five weekdays. |
| `BookingCalendar.GridLength` | components/BookingCalender.tsx:32-49 | The first n days give eight slots per weekday among them. |
| `BookingCalendar.WeekdaySlots` | components/BookingCalender.tsx:36-46 | A weekday gets exactly eight slots. The k-th is on that date, starts at hour 9 + k, and carries that slot's availability. |
| `BookingCalendar.DaySlotAt` | components/BookingCalender.tsx:36-46 | A day's i-th slot exists only on a weekday. It is the slot starting at hour 9 + i. |
| `BookingCalendar.GridAt` | components/BookingCalender.tsx:32-49 | Every generated slot belongs to a weekday among the first n days, at an hour from 9 to 16. |
| `BookingCalendar.GridOrdered` | components/BookingCalender.tsx:32-49 | Slots are ordered by day, then by hour: of two positions, the earlier holds an earlier day, or the same day at an earlier hour. |
| `BookingCalendar.SlotsOn` | components/BookingCalender.tsx:75-76 | The slots listed under one date: the generated slots on that date, in generation order. |
| `BookingCalendar.SlotsOnMembers` | components/BookingCalender.tsx:76 | The slots listed under a date are exactly the generated slots on that date. |
| `BookingCalendar.GridSlotsOnDay` | components/BookingCalender.tsx:75-76 | Under a shown day, the calendar lists exactly that day's slots, in hour order. |
| `BookingCalendar.UniqueDates` | components/BookingCalender.tsx:55 | The date list is strictly ascending, so each date appears once. It holds exactly the dates that have a slot. |
| `BookingCalendar.GeneratedDates` | components/BookingCalender.tsx:55 | For the generated week, the listed dates are exactly the weekdays among the seven shown days. |
| `BookingCalendar.ClickSlot` | components/BookingCalender.tsx:80 | A click selects something exactly when the slot is available. It then passes that slot's date text and time text. |
| `BookingCalendar.ClickIdentifiesSlot` | components/BookingCalender.tsx:80 | Two clicked slots that pass the same date and time are the same slot. |
| `BookingCalendar.ClickedGeneratedSlotIsComplete` | components/BookingCalender.tsx:80 | A click on a generated slot passes a non-empty date and a non-empty time. |
| `BookingForm.IsHighlighted` | components/BookingCalender.tsx:83 | A slot button is highlighted when its date text and time text are the ones picked. |
| `BookingForm.HighlightAfterClick` | components/BookingCalender.tsx:83 | After a click on an available slot, a button is highlighted exactly when it has that slot's date and start hour. |
| `BookingForm.Form.constructor` | components/BookingForm.tsx:19-21 | A new form has no date, no time and no notes. |
| `BookingForm.Form.Ready` | components/BookingForm.tsx:30 | The submit guard: both a date and a time are picked, where an empty text counts as not picked. |
| `BookingForm.Form.HandleSlotSelect` | components/BookingForm.tsx:23-26 | The date and time are recorded and the notes are kept. |
| `BookingForm.Form.SetNotes` | components/BookingForm.tsx:65 | The notes are replaced; the picked date and time are kept. |
| `BookingForm.Form.ClickCalendarSlot` | components/BookingForm.tsx:53-57 | Clicking an unavailable slot changes nothing. Clicking an available one picks its date and time text, after which the form is ready and exactly that slot is highlighted. The notes are kept. |
| `BookingForm.Form.HandleSubmit` | components/BookingForm.tsx:28-33 | Data goes out exactly when both a date and a time are picked. It is the picked date and time with the current notes, and nothing changes. |
| `BookingForm.Form.SubmitDisabled` | components/BookingForm.tsx:83 | An enabled submit button means the submit will go out and no booking is under way. With both picked and nothing under way, the button is enabled. |
| `BookingForm.CancelDisabled` | components/BookingForm.tsx:76 | The cancel button is disabled exactly while a booking is under way. |
| `BookingForm.ShownEmail` | app/dashboard/page.tsx:433 | The address shown in the form: the user's address, or empty when the user has none. `Dashboard.Page.SubmitForm` states that a user with an address books under the address shown. |
| `Dashboard.MedicareFromAssessment` | app/dashboard/page.tsx:49 | The Medicare Score for a stored assessment total: 100 minus twice the total. |
| `Dashboard.MedicareRoundTrip` | app/dashboard/page.tsx:49 | The assessment total can be read back from the Medicare Score derived from it. |
| `Dashboard.MedicareDecreasing` | app/dashboard/page.tsx:49 | A higher total gives a strictly lower Medicare Score. |
| `Dashboard.OpensModal` | app/dashboard/page.tsx:53 | A stored total above 25 opens the support dialog. |
| `Dashboard.TierAtLeast` | app/dashboard/page.tsx:184-185 | Where higher is better: green from the upper bound, yellow from the lower bound, red below, with each band an exact interval. |
| `Dashboard.TierAtMost` | app/dashboard/page.tsx:216-217 | Where lower is better: green up to the lower bound, yellow up to the upper bound, red above, with each band an exact interval. |
| `Dashboard.TierAtLeastMonotone` | app/dashboard/page.tsx:184-185 | A higher figure never gets a worse band. |
| `Dashboard.TierAtMostAntitone` | app/dashboard/page.tsx:216-217 | A lower figure never gets a worse band. |
| `Dashboard.MedicareLabel` | app/dashboard/page.tsx:187 | "Good" exactly from 70, "Fair" exactly from 50 below 70, "Needs Attention" exactly below 50. |
| `Dashboard.LevelLabel` | app/dashboard/page.tsx:218 | Anxiety, and stress at line 281: "Low" exactly up to 3, "Moderate" exactly from 4 to 6, "High" exactly above 6. |
| `Dashboard.MoodLabel` | app/dashboard/page.tsx:249 | "Positive" exactly from 7, "Neutral" exactly 5 to 6, "Low" exactly below 5. |
| `Dashboard.SleepLabel` | app/dashboard/page.tsx:313 | "Good" exactly from 7, "Fair" exactly 5 to 6, "Poor" exactly below 5. |
| `Dashboard.HasLowScore` | app/dashboard/page.tsx:24 | The low-score flag: there are figures, and their Medicare Score is below 50. |
| `Dashboard.LowScoreNeedsAttention` | app/dashboard/page.tsx:24 | The low-score flag holds exactly when the Medicare band reads "Needs Attention". |
| `Dashboard.DefaultBands` | app/dashboard/page.tsx:32-43 | The default figures read Good, Moderate anxiety, Moderate stress, Poor sleep and Neutral mood, and are not low. |
| `Dashboard.AssessmentScoresReadGood` | app/dashboard/page.tsx:49-55 | A total of 0 to 15 gives a Medicare Score of 70 to 100. That score reads "Good", is not low, and does not open the support dialog. |
| `Dashboard.Page.constructor` | app/dashboard/page.tsx:16-21 | Before loading: no figures, spinner on, no dialog, no form, no booking under way. |
| `Dashboard.Page.FetchData` | app/dashboard/page.tsx:28-66 | Loading ends and figures exist. Storage is empty afterwards. With no stored total: the default figures, the dialog unchanged, no toast. With a stored total: the defaults with the derived Medicare Score and the "score updated" toast. A total above 25 also opens the dialog, which is then on screen. The form and the booking state are untouched. |
| `Dashboard.Page.ShowForm` | app/dashboard/page.tsx:428-435 | The form is shown. A form that was not shown is mounted fresh and empty; one already shown is kept as it is. |
| `Dashboard.Page.HideForm` | app/dashboard/page.tsx:428-435 | The form is hidden and unmounted; nothing else changes. |
| `Dashboard.Page.HandleBookConsultation` | app/dashboard/page.tsx:75-77 | The form is shown, and it is fresh if it was not shown before. Nothing else changes. |
| `Dashboard.Page.HandleBookingModalConfirm` | app/dashboard/page.tsx:114-117 | The dialog closes and the form is shown. |
| `Dashboard.Page.HandleBookingModalCancel` | app/dashboard/page.tsx:119-121 | The dialog closes; nothing else changes. |
| `Dashboard.Page.CancelForm` | app/dashboard/page.tsx:431 | The form closes, unless a booking is under way: then the cancel button is disabled and nothing changes. |
| `Dashboard.Page.StartConfirmBooking` | app/dashboard/page.tsx:79-98 | The booking is marked under way. The request carries the user's address and name, the form's date, time and notes, and the counsellor address `counsellor@example.com`. Nothing else changes. |
| `Dashboard.Page.FinishConfirmBooking` | app/dashboard/page.tsx:99-111 | The booking is no longer under way. On success, the form and the dialog close and the success toast shows. On failure, both stay as they were and the failure toast shows. |
| `Dashboard.Page.SubmitForm` | app/dashboard/page.tsx:428-434 | The form's submit on the page: a request goes out exactly when the submit button was enabled. It carries the picked date, time and notes, the user's address and name, and the counsellor address. A user who has an address books under the address the form shows. The booking is then under way. Otherwise nothing changes. |

## Left out

- Rendering, animation, hover state, badge colours and progress bars are view-only. The colours follow the same comparisons as the band functions.
- Dates: real calendar dates, time zones, `toISOString` and the `formatDate` heading text are replaced by day numbers and their decimal text. The page's `currentDate` is the first shown day and never changes.
- `Math.random`: availability is an input set, so no claim is made about how many slots are available.
- Local storage keeps text; the model keeps the integer the questionnaire wrote. Text that is not a number (`parseInt` giving `NaN`) cannot come from the questionnaire and is not modelled.
- Lower-casing covers ASCII letters only. Unicode case mapping is not modelled; the Devanagari entries have no case.
- Signing in, the server route that sends the booking e-mails, and the network: the user's details and the response outcome are parameters.
- Toasts and router navigation are returned as tags, not performed.
- `fetchData`'s catch branch: nothing in the modelled body can fail, so the "failed to load" toast is not modelled.
- Re-running `fetchData` when the toast helper changes identity is not tracked. `FetchData` can be called any number of times; after the first run, storage is empty.
- Overlapping bookings are not modelled: the disabled submit button rules out a second one in the page (`SubmitForm`).
- Dashboard hover tracking and `handleFeatureClick` only show a "coming soon" message, so they are not modelled.
- Also not modelled: the questionnaire's `loading` flag and its mock booking handler, and the questionnaire's support dialog buttons. These belong to a booking path outside this model.
- `resources` is in the shared MentalHealthData type but not in the dashboard's data; it is not modelled.
- The resource catalogue is kept as data (`Resources.Catalogue`); the filter lemmas are proved for every list, repeated entries included, not for this one.
- `Questionnaire.Total`: the page adds up every value of the answer map, while the model sums the entries for question indices 0 to 4. The two agree because the invariant holds the map to those indices.
