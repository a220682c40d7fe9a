# Study booking screen: slot compatibility and session state

A Dafny model of the single React component of the study-booking app
(`src/App.jsx`). A visitor enters a name and an email address, asks for a
one-time code, verifies it, and then picks two slots, "Visit 1" and
"Visit 2", where Visit 2 must fall on the calendar day after Visit 1. The
visitor then submits the pair, views the booking, or cancels it.

The model has four modules:

- `Calendar` (`calendar.dfy`): dates as year, month and day. `Next` and
  `Prev` give the next and previous calendar day, with month and year
  rollover and Gregorian leap years. `Ordinal` is an independent day count.
  The lemmas prove that `Next` is exactly one day later, that `Prev` is
  exactly one day earlier, and that the two are inverses.
- `DateKeys` (`date_keys.dfy`): the `YYYY-MM-DD` date keys.
  - `Parse` plays `new Date(key)`.
  - `Format` plays `toISOString().split('T')[0]`.
  - `NextKey` and `PrevKey` play the `setDate(getDate() ± 1)` shift.
  - In the model's strict reading, a key that is not a `YYYY-MM-DD` key
    of a real date is JavaScript's invalid date, on which `toISOString`
    throws.
  - Parsing and formatting are proved to be mutual inverses on valid keys.
- `Slots` (`slots.dfy`): the slot record, the two-list catalog, the
  composite option value `dateKey|timeKey`, its date part
  (`split('|')[0]`), the filter `filteredSlots`, and the select boxes'
  option lists. It also defines the selection invariant: two chosen dates
  are one day apart.
- `Session` (`session.dfy`): the `useState` fields as one class,
  `BookingSession`, with one method per event handler.
  - Each method's `ensures` gives the whole new state as the old state
    with the named fields replaced (`Snapshot() == old(Snapshot()).(…)`).
    So "nothing else changes" is part of every contract.
  - `Valid()` is the invariant that every handler keeps:
    - the countdown stays in 0..180 and runs only after a code was sent;
    - the two choices are one day apart;
    - a held booking has a Visit-1 date.
  - Backend requests are returned as `Call` values.
  - The backend's answer is a `Reply` parameter: a response body, or
    `TransportError` for the `catch` branch.
  - When `verifyOtp`, `handleBooking`, `cancelBooking` or Reset start
    `fetchSlots` or `fetchBooking`, the method returns the request. Its
    completion is a later call of `FetchSlots` or `FetchBooking`.

The code behaves as follows, which is easy to assume otherwise:

- Changing the email clears the code and the countdown only. It does not
  clear verification or a held booking. The email box is shown only
  before verification.
- `fetchBooking` with an empty answer, or with a failed request, leaves
  the held booking as it was. It does not clear it.
- `handleBooking` checks only that both choices are non-empty. It does
  not check verification, the name, or the one-day offset, and it does
  not clear the choices on success. The model shows that the offset
  still always holds: the select boxes only offer compatible values, and
  `Valid()` carries the invariant through every handler.
- `cancelBooking` runs without checking that a booking exists. Its three
  outcomes each have their own message: success, a refusal from the
  backend, and a failed request. So a transport failure is never mistaken
  for "no booking found".
- A catalog refresh does not clear choices that name slots no longer in
  the catalog.

## Model

| member | source | states |
|---|---|---|
| Calendar.Next | src/App.jsx:128-130 | the day after a valid date is a valid date |
| Calendar.Prev | src/App.jsx:121-123 | the day before a valid date is a valid date |
| Calendar.NextIsOneDayLater | src/App.jsx:128-130 | `Next` is exactly one day later in the absolute day count, across month ends, year ends and leap days |
| Calendar.PrevIsOneDayEarlier | src/App.jsx:121-123 | `Prev` is exactly one day earlier in the absolute day count |
| Calendar.OrdinalInjective | src/App.jsx:121-130 | two valid dates with the same day count are equal, so the day count identifies a date |
| Calendar.NextCharacterised | src/App.jsx:128-130 | a valid date is `Next(d)` if and only if its day count is one more than that of `d` |
| Calendar.PrevNext | src/App.jsx:121-130 | the previous-day and next-day shifts are inverse to each other on valid dates, in both orders |
| Calendar.NextExamples | src/App.jsx:128-130 | concrete shifts: mid-month, end of April, 2024 and 2000 leap days, 1900 and 2023 not leap, year end, and back over a leap day and a year start |
| DateKeys.Parse | src/App.jsx:121 | a key that reads as a date gives a valid date with a four-digit year; it reads exactly when it has the shape `DDDD-DD-DD` and names a real calendar day |
| DateKeys.Format | src/App.jsx:123 | the written key of a date never contains the bar separator |
| DateKeys.ParseFormat | src/App.jsx:121-123 | a date in years 0 to 9999, written as a key and read back, is the same date |
| DateKeys.FormatParse | src/App.jsx:121-123 | a key that parses is canonical: writing its date again gives the key exactly |
| DateKeys.FormatOutOfRangeDoesNotParse | src/App.jsx:123 | a date outside years 0 to 9999 is written in the 13-character extended form, which the model's strict key reading refuses (JavaScript itself reads the expanded-year form) |
| DateKeys.NextKey | src/App.jsx:128-130 | the next-day key exists exactly when the key is a valid date, and it contains no bar separator |
| DateKeys.PrevKey | src/App.jsx:121-123 | the previous-day key exists exactly when the key is a valid date, and it contains no bar separator |
| DateKeys.NextKeyPrevKey | src/App.jsx:121-130 | on valid keys: k2 is the next-day key of k1, if and only if k1 is the previous-day key of k2, if and only if the dates are one calendar day apart |
| DateKeys.PrevKeyOfNextKey | src/App.jsx:121-130 | shifting a valid key forward and then back gives the key again, for every date but 9999-12-31 (whose successor has no four-digit year) |
| DateKeys.NextKeyOfPrevKey | src/App.jsx:121-130 | shifting a valid key back and then forward gives the key again, for every date but 0000-01-01 (whose predecessor has no four-digit year) |
| DateKeys.NextKeyOfFormat | src/App.jsx:128-130 | shifting a written key forward gives the written key of the next day |
| DateKeys.PrevKeyOfFormat | src/App.jsx:121-123 | shifting a written key back gives the written key of the previous day |
| DateKeys.NextKeyOfImpossibleDate | src/App.jsx:128-130 | in the model's strict reading `2025-02-30` is an invalid date, so shifting it fails instead of giving a key |
| Slots.DatePart | src/App.jsx:114-115 | `split` on the bar separator, first piece: the result is a prefix of the value, holds no bar, and stops at the first bar when there is one |
| Slots.DatePartOfSelectionValue | src/App.jsx:180 | the date part of an option value (date key, bar, time key) is the slot's date key, when the key has no bar |
| Slots.KeepDate | src/App.jsx:124 | `.filter(slot => slot[3] === key)`: the result is an order-preserving subsequence of the input; it holds only slots with that key, and every copy of each input slot with that key |
| Slots.KeepDateAllMatch | src/App.jsx:131 | filtering a list whose slots all carry the key returns the list unchanged |
| Slots.SubsequenceMembers | src/App.jsx:124 | every element of a subsequence is an element of the whole sequence |
| Slots.FilteredSlots | src/App.jsx:113-135 | with neither choice set both catalog lists come back unchanged. With no Visit-2 date the Visit-1 list is unchanged, and with no Visit-1 date the Visit-2 list is unchanged. Results are order-preserving subsequences of the catalog lists. With a Visit-1 date, Visit 2 holds exactly the catalog slots keyed on the next day, each as many times as the catalog holds it; with a Visit-2 date, Visit 1 holds exactly those keyed on the previous day, likewise counted. An invalid chosen date fails, with the Visit-2 date reported first. |
| Slots.NoMatchLeavesNothing | src/App.jsx:120-132 | when no catalog slot falls on the required day, the filtered list is empty, not the unfiltered catalog |
| Slots.SelectOptions | src/App.jsx:178-187 | a select box lists the empty placeholder and then, in order, the composite value (date key, bar, time key) of each filtered slot |
| Slots.SelectOptionChoice | src/App.jsx:177-187 | any value a select box offers is the placeholder or the value of a slot in its list |
| Slots.ConsistentMeansNextDay | src/App.jsx:120-132 | for valid dates the selection invariant holds if and only if the Visit-2 date is the calendar day after the Visit-1 date |
| Slots.ChooseVisit1Consistent | src/App.jsx:177-181 | any Visit-1 value the filtered box offers is consistent with the current Visit-2 choice |
| Slots.ChooseVisit2Consistent | src/App.jsx:183-187 | any Visit-2 value the filtered box offers is consistent with the current Visit-1 choice |
| Session.BookingSession.constructor | src/App.jsx:8-19 | the initial state: all strings empty, no code sent, timer 0, not verified, empty catalog, no booking; the invariant holds |
| Session.BookingSession.SetName | src/App.jsx:154 | only `name` changes |
| Session.BookingSession.SetOtp | src/App.jsx:159 | only `otp` changes |
| Session.BookingSession.ChangeEmail | src/App.jsx:29-32 | a new email resets `otpSent` to false and `timer` to 0 and changes nothing else; the same email changes nothing |
| Session.BookingSession.SendOtp | src/App.jsx:34-39 | with an empty name or email only `message` changes (to "Name and Email required."); otherwise `otpSent` becomes true, `timer` 180 and `message` the confirmation naming the email, and nothing else changes |
| Session.BookingSession.PressSendOtp | src/App.jsx:156 | while the countdown runs (or after verification) a press has no effect at all; otherwise it acts as `sendOtp` |
| Session.BookingSession.Tick | src/App.jsx:22-27 | while `timer > 0` a tick takes exactly one off `timer` and changes nothing else; at 0 nothing happens, so `timer` never goes negative |
| Session.BookingSession.VerifyOtp | src/App.jsx:41-49 | code `123456` sets `isVerified` and requests the slots and the booking, in that order; any other code changes only `message` and requests nothing |
| Session.BookingSession.FetchSlots | src/App.jsx:51-60 | a response replaces the whole catalog; a failed request keeps the previous catalog and changes only `message` |
| Session.BookingSession.FetchBooking | src/App.jsx:62-71 | `booking` is set only from a response with a Visit-1 date; any other response changes nothing; a failed request changes only `message` |
| Session.BookingSession.HandleBooking | src/App.jsx:73-92 | with either choice empty, nothing is sent and only `message` changes. Otherwise the two composite values are submitted. Success then requests the booking and the slots. A refusal shows the backend's message, or "Booking failed." when there is none. A failed request shows its own message. Choices and booking never change. Every submitted pair is non-empty and `Consistent`: one day apart whenever both carry a date part, although the handler does not check the offset. |
| Session.BookingSession.CancelBooking | src/App.jsx:94-111 | success clears `booking` and both choices and requests the slots; a refusal or a failed request changes only `message`, each with its own text |
| Session.BookingSession.Reset | src/App.jsx:191 | both choices are cleared and the slots are requested; nothing else changes |
| Session.BookingSession.SelectVisit1 | src/App.jsx:177-181 | choosing an offered Visit-1 value changes only `selectedVisit1` and keeps the two choices one day apart |
| Session.BookingSession.SelectVisit2 | src/App.jsx:183-187 | choosing an offered Visit-2 value changes only `selectedVisit2` and keeps the two choices one day apart |
| LocalTime.ShiftedUtcDay | src/App.jsx:121-123 | the shift as written, through the local wall clock: where the zone's offset does not change, it moves the UTC day by exactly `delta` days |
| LocalTime.SpringForwardOn | src/App.jsx:128-130 | the environment for the finding, not code of the source: a UTC-5 zone that changes to UTC-4 at 02:00 local time on the given date |
| LocalTime.FallBackOn | src/App.jsx:121-123 | the environment for the finding, not code of the source: a UTC-4 zone that changes to UTC-5 at 02:00 local time on the given date |
| LocalTime.SpringForwardRepeatsTheDay | src/App.jsx:128-130 | as written, the "next day" of a spring-forward date in that zone is the same date, not `Next(d)` |
| LocalTime.FallBackSkipsADay | src/App.jsx:121-123 | as written, the "previous day" of the day after a fall-back date in that zone is two days back, not the fall-back date |

## Left out

- The HTTP calls through `axios` and the Apps Script endpoint (src/App.jsx:3, 5, 54, 65, 80, 97) are network I/O. They are modelled only as the `Call` values a handler issues and the `Reply` values passed back.
- The `loading` flag (src/App.jsx:18, 52, 59 and the other handlers), the wall-clock timing of `setInterval`, and the interleaving of outstanding requests are timing and concurrency. Each handler and each completion runs to the end before the next one. A late response from a superseded request is applied like any other, as in the source.
- Rendering and JSX (src/App.jsx:148-201) are presentation. Only three pieces of their logic are kept: the send button is disabled while `timer > 0` (`PressSendOtp`), the select boxes offer only the filtered values (the `requires` of `SelectVisit1`/`SelectVisit2`), and a filter that throws offers no values. In React an error thrown during rendering and not caught unmounts the whole component, so no later handler runs. The model does not capture that: its session goes on.
- `formatLabel` and `formatBooking` (src/App.jsx:137-146) are locale-dependent display formatting.
- Time zones: the filter uses exact calendar-day arithmetic on the key (`NextKey`, `PrevKey`). The shift as written, with a local time zone, is modelled only in `LocalTime`, for zones with one offset change. That module exhibits the discrepancy listed under Findings. Real zone rules, leap seconds and millisecond precision are not modelled.
- `Parse` accepts only the date-only ISO form `YYYY-MM-DD` naming a real day. In the model any other string is an invalid date. JavaScript engines also read other forms, such as the expanded-year form `+YYYYYY-MM-DD` that `toISOString` writes outside years 0 to 9999, and some roll days such as `02-30` over into the next month.
- The payload shapes are fixed. Slot fields are strings. A response body of `null` or `{}` to `getBooking` is `None` or a booking with an empty Visit-1 date. A missing or empty submit message is `None` or `Some("")`.
- Button visibility: only the send button's enabling is modelled. The code box and the Verify, Submit, Reset and Cancel buttons are shown only in some states, and that visibility is not modelled. Their handlers are modelled as they are written, without a guard.

## Findings

| source | as written | input that shows it | evidently intended | confidence | as-written member | corrected member |
|---|---|---|---|---|---|---|
| src/App.jsx:128-130 | parses the Visit-1 key as UTC midnight, adds one day on the local wall clock, and formats the UTC date | Visit-1 date 2025-03-09 in US Eastern time (UTC-5 until 02:00 local that day, then UTC-4). The shift lands at 23:00 UTC on 2025-03-09, so Visit 2 is filtered to 2025-03-09 | the key of the next calendar day, 2025-03-10 | not executed | LocalTime.SpringForwardRepeatsTheDay | Calendar.NextIsOneDayLater |
| src/App.jsx:121-123 | parses the Visit-2 key as UTC midnight, subtracts one day on the local wall clock, and formats the UTC date | Visit-2 date 2025-11-03 in US Eastern time (UTC-4 until 02:00 local on 2025-11-02, then UTC-5). The shift lands at 23:00 UTC on 2025-11-01, so Visit 1 is filtered to 2025-11-01 | the key of the previous calendar day, 2025-11-02 | not executed | LocalTime.FallBackSkipsADay | Calendar.PrevIsOneDayEarlier |

The model's filter (`Slots.FilteredSlots`) uses the corrected shift, `DateKeys.NextKey` and `DateKeys.PrevKey`, which are built on `Calendar.Next` and `Calendar.Prev`.
