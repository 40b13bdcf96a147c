# Scheduling calendar and appointment form, modelled in Dafny

This project models the logic at the core of a clinic's appointment-scheduling
web front end:

- **The calendar view.** It builds the 42-cell month grid and the 7-cell week
  grid, starting on the Sunday on or before the reference day. It buckets
  appointments into cells by the date they start on, and lists one day's
  appointments sorted by start. It generates the 28 half-hour slot labels
  from 07:00 to 20:30 and matches appointments to them. It sizes each card by
  its duration. It also finds scheduling conflicts for a therapist, and it
  handles a drag-and-drop move: the new times are computed, a conflict raises
  an alert, and otherwise the move is reported to the parent.
- **The client step of the appointment form.** It checks that the name and
  the phone are present, checks the phone's format by a mask or by its digit
  count, and formats the phone as it is typed.
- **The appointment step of the form.** It checks the required fields and
  that the end time is after the start time, and it has the single-field
  change handlers.
- **The header's navigation.** Previous and next move by a day, a week or a
  month, depending on the view mode.

Dates are civil dates (year, month, day). `Ord` numbers them as consecutive
days, and `Weekday` gives JavaScript's `getDay()` (Sunday is 0). The
Date-object operations the code relies on are modelled with JavaScript's
overflow rules:

- `setDate` is `SetDate`.
- `setMonth` is `SetMonth`.
- Adding milliseconds to an instant is `AddMinutes`.

Instants are a date plus a minute of the day. "HH:MM" strings are modelled
with their format, their parse, and JavaScript's string `<`, which agrees
with minute order on such strings. React state and callbacks become classes:

- `Calendar.CalendarView` records the `onAppointmentMove` and `alert` calls.
- `AppointmentFormStep1.ClientStep` records `onFormDataChange` and `onNext`.
- `AppointmentFormStep2.AppointmentStep` records `onAppointmentDataChange`
  and `onSave`.

Each of these classes also holds the component's `errors` state or drag
state.

Files:

- `seqs.dfy`: the generic filter and `some`.
- `text.dfy`: digits, whitespace, trim and string order.
- `civil_dates.dfy`: the calendar arithmetic.
- `clock_times.dfy`: "HH:MM" labels.
- `wrappers.dfy`: `Option`.
- `appointment_types.dfy`: the records.
- `calendar_view.dfy`, `appointment_form_step1.dfy`,
  `appointment_form_step2.dfy` and `header.dfy`: the four components.

In these places the model follows the code, where one might expect
otherwise:

- Only the day view sorts. Month and week cells keep input order.
- The card height is not rounded.
- Conflicts are keyed by the therapist's name, not by an id.
- A drop on a month cell copies the original times and does not add the
  duration.
- A falsy `excludeId` (the empty string) excludes nothing.
- `formatPhone` with 12 or more digits keeps the digits past the eleventh
  after the formatted part, because its regular expression is not anchored.

## Model

| member | source | states |
|---|---|---|
| AppointmentTypes.AddMinutes | src/components/CalendarView.tsx:121 | the instant `k` minutes later is exactly `k` minutes later on the day-and-minute time line, carrying across midnight |
| AppointmentTypes.Stamp | src/components/CalendarView.tsx:82 | `getTime()` at minute resolution; `StampOrder` states it orders instants by date and then by minute of the day, and is equal only on equal instants |
| AppointmentTypes.StampOrder | src/components/CalendarView.tsx:82 | a smaller stamp means an earlier date, or the same date and an earlier minute; equal stamps mean the same instant |
| AppointmentTypes.Duration | src/components/CalendarView.tsx:112 | `end.getTime() - start.getTime()` in minutes; `DropKeepsDuration` and `CardHeightLaw` state what the drop and the card height do with it |
| Calendar.Bucket | src/components/CalendarView.tsx:36-39 | an appointment is in a cell's list iff it is an input appointment whose start date is the cell's date |
| Calendar.OnDate | src/components/CalendarView.tsx:36-39 | the filter callback `toDateString()` equality; `Bucket` states that an appointment passes iff it starts on the cell's date |
| Calendar.BucketOrder | src/components/CalendarView.tsx:36-39 | bucketing keeps input order (bucket of a concatenation is the concatenation of buckets) and each matching appointment keeps its multiplicity |
| Calendar.CellPlacement | src/components/CalendarView.tsx:63-66 | in a grid of consecutive cells an appointment is in a cell iff it starts on that cell's date, and so in at most one cell |
| Calendar.MonthGridCell | src/components/CalendarView.tsx:27-30 | cell `i` of a month grid is in the month iff `w <= i < w + daysInMonth`, where it is day `i - w + 1` (`w` the first's weekday) |
| Calendar.GetDaysInMonth | src/components/CalendarView.tsx:23-51 | 42 consecutive cells, each holding its date's bucket; the first is a Sunday at most six days before the first of the month; day `d` of the month sits at index `w + d - 1`; `isCurrentMonth` holds exactly for the month's days |
| Calendar.MonthGrid | src/components/CalendarView.tsx:33-48 | the cells the loop leaves (cell `k` is `k` days after the grid start, flagged by month number, holding its date's bucket) are consecutive and form the month grid shape |
| Calendar.GetWeekDays | src/components/CalendarView.tsx:53-76 | 7 consecutive cells from the Sunday `date - getDay(date)`, each with its bucket, all flagged in the current month, with `date` itself at index `getDay(date)` |
| Calendar.WeekGrid | src/components/CalendarView.tsx:57-73 | seven cells `k` days after `date - getDay(date)` are consecutive, start on a Sunday and hold `date` at index `getDay(date)` |
| Calendar.InsertByStart | src/components/CalendarView.tsx:82 | inserting into a start-sorted list keeps it sorted and adds exactly that appointment |
| Calendar.SortByStart | src/components/CalendarView.tsx:82 | the sort by start instant yields a sorted permutation of its input |
| Calendar.GetDayAppointments | src/components/CalendarView.tsx:78-83 | the day list is a permutation of the day's bucket, non-decreasing by start, containing exactly the input appointments of that date |
| Calendar.HourLabels | src/components/CalendarView.tsx:152-153 | the labels pushed for an hour are the "HH:MM" of its whole and half hour |
| Calendar.SlotLabel | src/components/CalendarView.tsx:149-156 | each slot label is a well-formed "HH:MM" that parses back to its slot's minute and ends in "00" or "30" |
| Calendar.SlotLabelsIncrease | src/components/CalendarView.tsx:149-156 | a later slot's label is greater as a string |
| Calendar.GenerateTimeSlots | src/components/CalendarView.tsx:149-156 | 28 labels, label `i` the "HH:MM" of 07:00 plus `i` half hours, "07:00", "07:30" … "20:30", zero-padded, ending in ":00"/":30", strictly increasing as strings |
| Calendar.FirstAndLastSlots | src/components/CalendarView.tsx:151-153 | the first two and the last slot labels are "07:00", "07:30" and "20:30" |
| Calendar.SlotList | src/components/CalendarView.tsx:149-156 | once label `i` is the label of slot `i` for all 28, the list starts "07:00", "07:30", ends "20:30", and is well formed and strictly increasing as strings |
| Calendar.GetAppointmentsByTimeSlot | src/components/CalendarView.tsx:158-164 | an appointment is kept iff it is an input appointment whose zero-padded start "HH:MM" equals the label |
| Calendar.StartsAtLabel | src/components/CalendarView.tsx:159-163 | the filter callback comparing the zero-padded start label with the slot; `GetAppointmentsByTimeSlot` and `SlotMatching` state which appointments pass |
| Calendar.SlotMatching | src/components/CalendarView.tsx:158-164 | matching a slot label is starting at that slot's minute; an appointment matches at most one slot, and some slot iff it starts on a half hour from 07:00 to 20:30 |
| Calendar.QuarterPastMatchesNoSlot | src/components/CalendarView.tsx:158-164 | an appointment starting at 09:15 matches no slot |
| Calendar.SlotsSpanned | src/components/CalendarView.tsx:170 | the slots spanned are never fewer than one |
| Calendar.CardHeightRem | src/components/CalendarView.tsx:166-171 | the card height is never below 4 rem |
| Calendar.CardHeightLaw | src/components/CalendarView.tsx:166-171 | from 30 minutes on the height is proportional to the duration, without rounding; at or below 30 minutes it is 4 rem; 90, 10 and 45 minutes span 3, 1 and 1.5 slots |
| Calendar.CheckConflictIff | src/components/CalendarView.tsx:85-101 | a conflict is reported iff some appointment is not the excluded one, has the same therapist name, starts on the target date, and overlaps the proposed start and end |
| Calendar.OverlapLaw | src/components/CalendarView.tsx:100 | against one same-therapist appointment on the date, a conflict iff `newStart < end && start < newEnd` (half-open overlap) |
| Calendar.ExcludedNeverConflicts | src/components/CalendarView.tsx:91 | with a non-empty `excludeId` the result is the same as with that appointment removed, so the moved appointment never conflicts with itself |
| Calendar.ConflictExamples | src/components/CalendarView.tsx:85-101 | against 09:00-10:00, 10:00-11:00 (touching) does not conflict, 09:30-10:30 does, and another therapist's 09:30-10:30 does not |
| Calendar.CheckConflict | src/components/CalendarView.tsx:85-101 | `checkConflict` with both "HH:MM" times read on the target date; `CheckConflictIff`, `OverlapLaw` and `ExcludedNeverConflicts` state what it reports |
| Calendar.ConflictsWith | src/components/CalendarView.tsx:90-100 | the `some` callback: not excluded by a non-empty id, same therapist name, same start date, half-open overlap; `CheckConflictIff` states it per appointment |
| Calendar.DropTimes | src/components/CalendarView.tsx:110-128 | both new labels are well-formed "HH:MM"; with a slot, the start is the slot and the end is the start plus the original duration, modulo a day; without a slot, the original start and end times |
| Calendar.ComputeMoveTimes | src/components/CalendarView.tsx:110-128 | the start and end labels the drop computes are exactly the drop times: the slot and the slot plus the duration, or the original pair |
| Calendar.DropKeepsDuration | src/components/CalendarView.tsx:117-124 | a drop onto a slot keeps the duration in minutes when the result does not pass midnight |
| Calendar.MonthDropCopiesTimes | src/components/CalendarView.tsx:125-128 | a drop without a slot copies the original "HH:MM" pair, whatever the target cell |
| Calendar.DropConflict | src/components/CalendarView.tsx:117-131 | the intended drop test with the end taken as start plus duration; `DropConflictIff` states it reports exactly the same-therapist bookings that start on the target date and overlap `[slot, slot + duration)` as instants; bookings on the next day that the interval runs into are not tested |
| Calendar.DropConflictIff | src/components/CalendarView.tsx:117-131 | the intended test reports a conflict exactly when another same-therapist booking on the date overlaps `[slot, slot + duration)` as instants |
| Calendar.DropConflictSkipsOtherDates | src/components/CalendarView.tsx:95 | a booking that starts on another date never changes the intended test, since it keeps `checkConflict`'s date filter, even when the moved interval runs into that date |
| Calendar.DropConflictAgrees | src/components/CalendarView.tsx:117-131 | while the moved appointment ends before midnight, the code's test on the computed labels and the intended test agree |
| Calendar.DropPastMidnightMissesConflict | src/components/CalendarView.tsx:117-131 | a four-hour appointment dropped on 20:30 gets the end label "00:30" and the code reports no conflict with a same-therapist 20:00-21:00 booking that day, while the intended test does |
| Calendar.CalendarView.HandleDragStart | src/components/CalendarView.tsx:145-147 | the dragged appointment is recorded, and nothing is reported |
| Calendar.CalendarView.HandleDrop | src/components/CalendarView.tsx:104-139 | an empty payload or missing handler changes nothing; otherwise the drag state is cleared, and a conflict at the computed times appends the conflict alert and no move, while no conflict appends exactly one move request with the appointment's id, the target date and the computed times |
| AppointmentFormStep1.MaskedPhoneHasTenOrElevenDigits | src/components/AppointmentFormStep1.tsx:41 | every string the "(DD) DDDD(D)-DDDD" mask accepts has 10 or 11 digits, so the mask branch is subsumed |
| AppointmentFormStep1.MatchesMaskedPhone | src/components/AppointmentFormStep1.tsx:41 | the mask test `/^\(\d{2}\)\s\d{4,5}-\d{4}$/`; `MaskedPhoneHasTenOrElevenDigits` states that every match has 10 or 11 digits |
| AppointmentFormStep1.HasTenOrElevenDigits | src/components/AppointmentFormStep1.tsx:41 | the digit-count test `/^\d{10,11}$/` on the digits; `ClientErrors` states the phone error in its terms |
| AppointmentFormStep1.ClientErrors | src/components/AppointmentFormStep1.tsx:33-43 | a name error iff the name is all whitespace; a phone error iff the phone is all whitespace ("required") or, being non-blank, has neither 10 nor 11 digits ("format"); no other keys |
| AppointmentFormStep1.ClientStep.HandleSubmit | src/components/AppointmentFormStep1.tsx:30-50 | the errors state becomes the freshly built error map and `onNext` is called exactly once iff that map is empty |
| AppointmentFormStep1.ClientStep.HandlePhoneChange | src/components/AppointmentFormStep1.tsx:61-64 | exactly one change is reported: the form data with the phone replaced by its formatted value and name and notes unchanged |
| AppointmentFormStep1.PunctuateDigits | src/components/AppointmentFormStep1.tsx:55-57 | the regex replacement on a digit string keeps its digits in order |
| AppointmentFormStep1.PunctuateAddsOnlyPunctuation | src/components/AppointmentFormStep1.tsx:55-57 | the replacement adds only "(", ")", " " and "-" |
| AppointmentFormStep1.FormatPhoneDigits | src/components/AppointmentFormStep1.tsx:52-58 | `formatPhone` keeps the input's digits in order and inserts only "(", ")", " " and "-" |
| AppointmentFormStep1.FormatPhoneShapes | src/components/AppointmentFormStep1.tsx:52-58 | fewer than 10 digits come back bare, 10 give "(DD) DDDD-DDDD", 11 give "(DD) DDDDD-DDDD" |
| AppointmentFormStep1.FormatPhoneIdempotent | src/components/AppointmentFormStep1.tsx:52-58 | formatting a formatted phone changes nothing |
| AppointmentFormStep1.FormatPhone | src/components/AppointmentFormStep1.tsx:52-58 | `formatPhone`; `FormatPhoneDigits`, `FormatPhoneShapes`, `FormatPhoneIdempotent` and `FormattedPhoneIsValid` state what it returns |
| AppointmentFormStep1.Punctuate | src/components/AppointmentFormStep1.tsx:55-57 | the non-global, unanchored `replace` of the first 10 or 11 digits with its punctuated form; `PunctuateDigits` and `PunctuateAddsOnlyPunctuation` state what it keeps and adds |
| AppointmentFormStep1.FormattedPhoneIsValid | src/components/AppointmentFormStep1.tsx:41 | the formatted value of a 10- or 11-digit input matches the mask and draws no phone error |
| AppointmentFormStep2.AppointmentErrors | src/components/AppointmentFormStep2.tsx:56-80 | procedure, therapist, date and start each have their required error iff empty; end has an error iff empty ("required") or both times are present and start >= end as strings ("ordering"); the status is never checked |
| AppointmentFormStep2.ValidateAppointment | src/components/AppointmentFormStep2.tsx:56-80 | the map built check by check, with the ordering error overwriting the end time's entry, is exactly the validation error map |
| AppointmentFormStep2.AcceptedIff | src/components/AppointmentFormStep2.tsx:56-86 | the error map is empty iff all five fields are non-empty and start < end as strings |
| AppointmentFormStep2.OrderingIsByMinutes | src/components/AppointmentFormStep2.tsx:78 | for "HH:MM" times the ordering error holds iff the end minute is not after the start minute, so equal times are rejected |
| AppointmentFormStep2.TimesOutOfOrder | src/components/AppointmentFormStep2.tsx:78 | both times present and `start_time >= end_time` as strings; `OrderingIsByMinutes` states it means the end minute is not after the start minute |
| AppointmentFormStep2.ApplyChange | src/components/AppointmentFormStep2.tsx:125-253 | each change handler's copy differs from the data only in the field it names; a cleared date becomes "" |
| AppointmentFormStep2.ChangeIsLocal | src/components/AppointmentFormStep2.tsx:56-80 | a change leaves the error entry of every field it does not affect as it was (a start-time change also affects the ordering entry; a status change affects none) |
| AppointmentFormStep2.ErrorDependsOnFields | src/components/AppointmentFormStep2.tsx:58-80 | the error under a key is decided by the fields its checks read: equal fields give equal membership and equal message |
| AppointmentFormStep2.AppointmentStep.HandleSubmit | src/components/AppointmentFormStep2.tsx:53-87 | the errors state is replaced wholesale by the freshly built map, so no stale error survives, and `onSave` is called exactly once iff it is empty |
| AppointmentFormStep2.AppointmentStep.HandleChange | src/components/AppointmentFormStep2.tsx:125-253 | exactly one change is reported, the copy with the one field replaced |
| Header.DayNavigation | src/components/Header.tsx:38-39 | day mode: next is the following calendar day and prev the preceding one (one day number apart) |
| Header.NavigateDate | src/components/Header.tsx:34-50 | `navigateDate`; `DayNavigation`, `WeekNavigation`, `NextMonthNavigation` and `PrevMonthNavigation` state the date it delivers in each mode |
| Header.WeekNavigation | src/components/Header.tsx:41-42 | week mode moves exactly seven days and keeps the weekday |
| Header.NavigateBack | src/components/Header.tsx:38-42 | in day and week mode, prev after next and next after prev return the original date |
| Header.ShiftBack | src/components/Header.tsx:38-42 | `setDate(getDate() + k)` followed by `setDate(getDate() - k)` returns the original date, across month and year ends |
| Header.NextMonthNavigation | src/components/Header.tsx:44-45 | month mode next: the following month (December rolls into January of the next year) on the same day when it exists there, else the surplus carried into the month after |
| Header.PrevMonthNavigation | src/components/Header.tsx:44-45 | month mode prev: the preceding month (January rolls into December of the year before) on the same day when it exists there, else the surplus carried into the current month |
| Header.MonthNavigateBack | src/components/Header.tsx:44-45 | a day every month has (1 to 28) survives a month round trip in either order |
| Header.MonthOverflowExample | src/components/Header.tsx:44-45 | next month from 31 January 2025 is 3 March, and prev month from there is 3 February |
| CivilDates.SetDateShift | src/components/CalendarView.tsx:47 | `setDate(getDate() + k)` is the date `k` days later |
| CivilDates.SetDate | src/components/CalendarView.tsx:47 | `setDate(v)` with JavaScript's overflow; `SetDateShift` states that `setDate(getDate() + k)` is `k` days later |
| CivilDates.SetMonth | src/components/Header.tsx:45 | `setMonth(v)` with year roll-over and day overflow; `NextMonthNavigation` and `PrevMonthNavigation` state its result for a step of one month |
| CivilDates.Weekday | src/components/CalendarView.tsx:30 | `getDay()`, Sunday 0; `SundayOnOrBefore`, `WeekdayShift` and `KnownWeekdays` state it |
| CivilDates.KnownWeekdays | src/components/CalendarView.tsx:30 | 1 January 1970 is a Thursday and 1 October 2025 a Wednesday |
| CivilDates.SundayOnOrBefore | src/components/CalendarView.tsx:55 | `date - getDay(date)` is a Sunday, `getDay(date)` days earlier |
| CivilDates.WeekdayShift | src/components/Header.tsx:41-42 | moving `k` days moves the weekday by `k` modulo 7 |
| ClockTimes.FormatThenParse | src/components/CalendarView.tsx:123-124 | a formatted "HH:MM" label is well formed and parses back to its minute |
| ClockTimes.ParseThenFormat | src/components/CalendarView.tsx:118 | a well-formed "HH:MM" string is the label of the minute it parses to |
| ClockTimes.StrLessIsTimeOrder | src/components/AppointmentFormStep2.tsx:78 | on well-formed "HH:MM" strings string `<` agrees with minute order |
| ClockTimes.HHMM | src/components/CalendarView.tsx:123-124 | `toTimeString().slice(0, 5)`; `FormatThenParse` and `HHMMInjective` state it |
| ClockTimes.ParseHHMM | src/components/CalendarView.tsx:118 | `split(':').map(Number)` on an "HH:MM"; `ParseThenFormat` states it |
| ClockTimes.HHMMInjective | src/components/CalendarView.tsx:123-124 | different minutes get different labels |
| Text.TrimEmpty | src/components/AppointmentFormStep1.tsx:35 | `trim()` is empty iff every character is whitespace |
| Text.Trim | src/components/AppointmentFormStep1.tsx:35 | `trim()`; `TrimEmpty` states when it is empty |
| Text.Digits | src/components/AppointmentFormStep1.tsx:53 | `replace(/\D/g, '')`; `DigitsConcat`, `DigitsOfDigits` and `FormatPhoneDigits` state it |
| Text.StrLess | src/components/AppointmentFormStep2.tsx:78 | string `<`; `StrLessIsTimeOrder` and `StrLessIrreflexive` state it |
| Seqs.AnyIff | src/components/CalendarView.tsx:90 | `some` holds iff some element satisfies the predicate |

## Left out

- Time zones and locales. The code mixes UTC (`toISOString().slice(0, 10)`) with local `toDateString`, `setHours` and `toTimeString`. The model uses one local calendar, so the target day's ISO string and its local date are taken to be the same day.
- Locale formatting (`toLocaleDateString`, `toLocaleTimeString`) and the JSX rendering are not part of this model.
- Precision finer than a minute. Appointment instants are whole minutes, so the seconds and milliseconds of `getTime()` are not modelled.
- Calendar.SlotsSpanned: computes on exact rationals, while the source divides in binary floating point. The `${…}rem` string of `calculateCardHeight` is left as its number.
- Calendar.CalendarView.HandleDrop: `JSON.parse` of the drag payload is not modelled. A payload is a parsed appointment or absent. A malformed payload, which throws in the source, is outside the model.
- Calendar.CalendarView.HandleDrop: `alert`, `dataTransfer` and `preventDefault` are browser calls. Alerts and move requests are recorded as sequences, and the drag data is the `payload` parameter.
- A drag from the month view never carries data: its entries call only `handleDragStart` and do not `setData('appointment', …)` (CalendarView.tsx:220-221), so such a drop reaches `handleDrop` with an empty payload and returns at once, leaving the drag state set. The model follows this (`HandleDrop` with no payload); the no-slot branch, and so `MonthDropCopiesTimes`, is reached only by a drag that carries data, as from `AppointmentCard`.
- Calendar.DropTimes: a slot is taken to be well-formed "HH:MM". Every drop target passes a label from `generateTimeSlots` or none.
- Calendar.SortByStart: modelled as a stable insertion sort. The model states the result is sorted and a permutation, but not which order equal starts keep.
- The unused `lastDay` of `getDaysInMonth` (CalendarView.tsx:28) computes nothing the result depends on.
- AppointmentFormStep2.Change: the date picker's `toISOString().split('T')[0]` is not computed. The picked day's ISO text is the change's value.
- Strings are sequences of Unicode scalar values, not UTF-16 code units. The whitespace set is that of ECMAScript `trim()` and `\s`.
- Backend and data hooks, authentication, the appointment modal, the reminder view and other presentation components are not part of this model.

## Findings

| source | as written | input that shows it | evidently intended | confidence | as-written member | corrected member |
|---|---|---|---|---|---|---|
| src/components/CalendarView.tsx:117-131 | the new end is turned into an "HH:MM" label and `checkConflict` reads it on the target day, so an end past midnight falls before the new start | a 240-minute appointment dropped on 20:30 gets "20:30"-"00:30" and no conflict is reported against a same-therapist 20:00-21:00 booking that day | the new end is the start plus the duration as an instant, and that interval is tested for overlap against the same-therapist bookings that start on the target date (bookings on the next day that it runs into are still not tested) | not executed | Calendar.DropPastMidnightMissesConflict | Calendar.DropConflict |

The calendar view itself (`CalendarView.HandleDrop`) keeps the code's test, since it models the component as written; `DropConflictAgrees` shows the two tests agree whenever the moved appointment ends before midnight.
