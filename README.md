# MedConnect session and calendar model

A Dafny model of the logic inside `src/App.jsx`, the single React component
of the MedConnect demo (a medical-appointment and e-prescription mock-up
with one hard-coded patient and one hard-coded doctor).

The model has two parts.

- **Calendar and agenda** (modules `Calendar` and `Agenda`):
  - `getDaysInMonth` and `getFirstDayOfMonth` over the proleptic Gregorian
    calendar, including the `Date` constructor's reading of years 0–99 as
    1900–1999;
  - the month grid `renderCalendar` lays out (leading blanks, then the days);
  - the zero-padded `YYYY-MM-DD` key of a day and `getAppointmentsForDay`;
  - the previous/next month buttons.
- **Session state** (module `Session`, class `App`): every `useState` field
  the handlers touch is a field of `App`, and every handler is a method.
  - Each method's `modifies` clause names exactly the fields whose setters
    the handler calls. Its `ensures` give the new value of each.
  - Every method keeps the invariant `Valid()`:
    - a user is logged in exactly when `currentUser` is set;
    - `userType` is that user's kind;
    - the view is the login screen, or one of the logged-in user's menu
      entries;
    - the prescription form has at least one medication row;
    - the patient's prescription list equals the doctor's generated list;
    - every generated prescription carries the QR address of its own code.

Supporting modules:

- `Seqs`: `filter` and `find` on arrays.
- `Text`: `String(n)`, `padStart`, ASCII `toLowerCase`, `includes`.
- `Uri`: `encodeURIComponent` on ASCII text, and a percent-decoder used to
  state its round trip.
- `Records`: the records, the hard-coded accounts, doctors and agenda,
  `generateCode`, `generateQR`, the login lookup, the doctor search filter
  and the prescription lookup.

Inputs the component reads from its environment are parameters:

- `Date.now()`, as `now`;
- the random base-36 suffix of a code, as `suffix`;
- `new Date().toISOString().split('T')[0]`, as `today`;
- the month and year of the clock at start-up;
- the values of the login and booking inputs.

The verification input is the field `qrVerificationCode`, which `SetVerificationCode` sets and `Verify` reads.

## Model

| member | source | states |
|---|---|---|
| Calendar.DaysInMonth | src/App.jsx:78 | 31 days for January, March, May, July, August, October and December; 30 for April, June, September and November; February has 29 exactly when the year `Date` uses is a Gregorian leap year, else 28 |
| Calendar.DaysInMonthIsLastDay | src/App.jsx:78 | day 0 of the following month, the date the source constructs, is the month's last day: the closed-form day count and the month-length table agree, also across December |
| Calendar.YearTiling | src/App.jsx:78-81 | the day number of January 1 advances by 366 over a leap year and 365 otherwise |
| Calendar.FirstDayOfMonth | src/App.jsx:81 | the weekday of the 1st is in 0..6, with 0 = Sunday |
| Calendar.FirstDayOfJanuary2026 | src/App.jsx:81 | January 1, 2026 is a Thursday (4) |
| Calendar.FollowingMonthWeekday | src/App.jsx:78-81 | the next month starts `DaysInMonth` weekdays after this month's first day, modulo 7 |
| Calendar.GridCells | src/App.jsx:326-327 | `firstDay + daysInMonth` cells; cell i is blank exactly when i < firstDay, and otherwise holds day i − firstDay + 1 |
| Calendar.MonthGridLayout | src/App.jsx:324-365 | every blank precedes every day, days increase along the grid, every day 1..N has exactly one cell, and no other day appears |
| Calendar.MonthGridFitsSixWeeks | src/App.jsx:324-327 | a month's grid has between 28 and 37 cells (at most six blanks and 31 days), so at most six rows of seven |
| Calendar.MonthGrid | src/App.jsx:324-327 | the grid of a month has one cell per weekday before the 1st plus one per day; cell i is blank exactly when it precedes the 1st's weekday, and otherwise holds day i − firstDay + 1 |
| Calendar.January2026Grid | src/App.jsx:324-327 | January 2026 is four blanks followed by days 1..31, 35 cells |
| Calendar.Previous | src/App.jsx:343 | from January the button goes to December of the year before; otherwise only the month moves back; the month stays in 0..11 and the month index drops by one |
| Calendar.Following | src/App.jsx:350 | from December the button goes to January of the next year; otherwise only the month moves on; the month stays in 0..11 and the month index rises by one |
| Calendar.NavigationInverse | src/App.jsx:343-350 | "next" undoes "previous" and "previous" undoes "next" |
| Text.IntToDecimal | src/App.jsx:334 | `String(year)` is non-empty, starts with `-` exactly for a negative year, and is otherwise all digits |
| Text.PadStart | src/App.jsx:334 | the padded string is as long as the width, or as the input when that is longer |
| Text.TwoDigits | src/App.jsx:334 | a one-digit number gets a leading `0`; any other number is written unchanged |
| Text.ToLowerCase | src/App.jsx:237 | the result has the input's length, and each character is the input's character with A–Z lowered |
| Text.DecimalRoundTrip | src/App.jsx:334 | `String(n)` of a natural number is all digits and reads back as n |
| Text.IntToDecimalRoundTrip | src/App.jsx:334 | `String(year)` of any integer, negative ones with `-`, reads back as the year |
| Text.TwoDigitsRoundTrip | src/App.jsx:334 | below 100, `String(n).padStart(2, '0')` is exactly two digits reading back as n |
| Text.PadStartShape | src/App.jsx:334 | the padded string is as long as the width or the input, ends with the input, and is filled before it |
| Text.Includes | src/App.jsx:237 | `s.includes(t)` holds exactly when t occurs at some position of s |
| Text.ToLowerCaseIdempotent | src/App.jsx:237 | lower-casing twice is lower-casing once |
| Agenda.DayKey | src/App.jsx:334 | the key is six characters longer than the year's decimal form |
| Agenda.DayKeyFields | src/App.jsx:334 | cutting the key at its separators gives back the year, the one-based month and the day |
| Agenda.DayKeyInjective | src/App.jsx:334 | two different days of any years and months never share a key |
| Agenda.DayKeyIsIsoDate | src/App.jsx:334 | for four-digit years the key is an ISO 8601 extended calendar date `YYYY-MM-DD` whose fields read back as the date |
| Agenda.KeyOfJanuary15 | src/App.jsx:334 | the key of 15 January 2026 is `2026-01-15` |
| Agenda.AppointmentsForDay | src/App.jsx:333-336 | an appointment is listed exactly when its date equals the day's key; each is listed as often as it occurs in the agenda, and the agenda order is kept |
| Agenda.CellAppointments | src/App.jsx:366 | a blank cell lists no appointment; a day cell lists exactly the appointments dated with that day's key, each as often as in the agenda, in agenda order |
| Agenda.AppointmentInAtMostOneCell | src/App.jsx:365-366 | no appointment is listed in two cells of the same month's grid |
| Agenda.SampleAppointmentOnDay15 | src/App.jsx:122-126 | on the January 2026 grid the first sample appointment is listed on day 15 and no other day |
| Uri.EncodeURIComponent | src/App.jsx:75 | the encoding contains only unreserved characters and `%`, and text with only unreserved characters passes through unchanged |
| Uri.EncodeDecodeRoundTrip | src/App.jsx:75 | percent-decoding the encoding gives the text back |
| Records.GenerateCode | src/App.jsx:72 | a code starts with `RX-`; with a base-36 upper-case suffix of at most six characters it is ASCII and URL-safe |
| Records.GenerateCodeInjective | src/App.jsx:72 | two codes are equal only when both the millisecond and the random suffix are equal |
| Records.GenerateQR | src/App.jsx:75 | the URL starts with the QR service's address, and decoding the rest gives the code back |
| Records.GeneratedCodeQR | src/App.jsx:72-75 | a generated code is put into the QR URL unchanged |
| Records.Authenticate | src/App.jsx:173-175 | None exactly when no account has both the typed email and the typed password; otherwise the first account, in directory order, that has both |
| Records.DemoLogins | src/App.jsx:26-59 | both demo accounts log in with password `123456` and a wrong password is refused |
| Seqs.Filter | src/App.jsx:235 | `filter` keeps exactly the elements the predicate accepts, each as often as it occurs, in order, and never lengthens the array |
| Seqs.Find | src/App.jsx:173 | `find` gives nothing exactly when no element is accepted, and otherwise the element at the first accepted position |
| Records.MatchesSearch | src/App.jsx:236-237 | an empty search term matches every doctor |
| Records.FilterDoctors | src/App.jsx:235-239 | a doctor is kept exactly when the lower-cased term occurs in the lower-cased name, specialty or one of the symptoms; each kept listing appears as often as in the catalogue, and the catalogue order is kept |
| Records.EmptySearchListsAll | src/App.jsx:235-239 | an empty search lists the whole catalogue |
| Records.SearchIgnoresCase | src/App.jsx:237 | searching for a term and for its lower-case form lists the same doctors |
| Records.FindPrescription | src/App.jsx:1090 | None exactly when no prescription has the code; otherwise the first one with exactly that code |
| Records.FindAppendedPrescription | src/App.jsx:1090 | after a prescription is appended, looking up its code finds an earlier prescription with that code if there is one, and otherwise the new one |
| Records.ToggleAllergy | src/App.jsx:218-225 | removing drops every occurrence of the allergy and keeps the others, counts and order included; adding appends it; no other profile field changes |
| Records.AddThenRemoveAllergy | src/App.jsx:218-225 | adding an allergy the profile does not list, then removing it, restores the profile |
| Records.SetField | src/App.jsx:272-276 | the written medication field reads back as the value; the other three fields are kept |
| Records.EditProfileField | src/App.jsx:760-789 | the edited profile field reads back as the value; all other fields are kept |
| Records.NewAppointment | src/App.jsx:249-256 | the booked appointment has the clock reading as id, the patient's name, the doctor's name, the chosen date and time, and the type "Consulta" |
| Records.IssuePrescription | src/App.jsx:292-299 | the prescription carries the form's fields, the code, the QR URL of that code, the doctor's name and the date |
| Session.Menu | src/App.jsx:493-512 | neither menu offers the login screen, so a logged-in user can never navigate back to it without logging out |
| Session.Landing | src/App.jsx:182 | the view a login opens is one of that kind of user's menu entries |
| Session.GeneratedIsIssued | src/App.jsx:292-299 | a prescription built from a generated code carries an ASCII `RX-` code and that code's QR URL |
| Session.App.constructor | src/App.jsx:91-158 | the initial state: nobody logged in, login view, empty lists, the sample agenda, an empty form with one blank medication, no verification yet, and the given month and year |
| Session.App.Login | src/App.jsx:168-188 | the error is cleared first; on a match the first matching account logs in and `userType` is its kind; a patient lands on the search and its profile is copied for editing; a doctor lands on the agenda; without a match only the error message is set |
| Session.App.Enter | src/App.jsx:177-187 | the state changes of a login once the account is looked up, keeping the invariant |
| Session.App.Logout | src/App.jsx:193-198 | nobody is logged in and the login view shows; only the four fields the handler sets change |
| Session.App.Navigate | src/App.jsx:401 | the view becomes the chosen menu entry; nothing else changes |
| Session.App.StartEditingProfile | src/App.jsx:743 | editing starts |
| Session.App.EditProfile | src/App.jsx:760-789 | one field of the edited profile changes |
| Session.App.SaveProfile | src/App.jsx:207-211 | the logged-in account carries the edited profile, and its id, email, password and kind are kept; editing ends |
| Session.App.CancelEditingProfile | src/App.jsx:843-846 | editing ends and the form goes back to the saved profile |
| Session.App.ToggleAllergy | src/App.jsx:218-225 | the edited profile's allergies change as `Records.ToggleAllergy` says; nothing else changes |
| Session.App.SetSearchTerm | src/App.jsx:547 | the search term is set |
| Session.App.FilteredDoctors | src/App.jsx:235-239 | the listed doctors are the catalogue's matches for the current term, each as often as in the catalogue, in catalogue order, and all of them for an empty term |
| Session.App.SelectDoctor | src/App.jsx:571 | the booking dialog opens for a listed doctor |
| Session.App.CloseBooking | src/App.jsx:597 | the booking dialog closes |
| Session.App.BookAppointment | src/App.jsx:248-260 | one "Consulta" for the logged-in patient, with the doctor, date, time and clock reading, is appended after the earlier appointments; the dialog closes |
| Session.App.ConfirmBooking | src/App.jsx:611-616 | with an empty date nothing changes; otherwise it books with the selected doctor |
| Session.App.SetPrescriptionPatient | src/App.jsx:981 | the form's patient name is set; the rest of the form is kept |
| Session.App.SetPrescriptionDiagnosis | src/App.jsx:989 | the form's diagnosis is set; the rest of the form is kept |
| Session.App.UpdateMed | src/App.jsx:272-276 | only field `field` of row i changes; the other rows and the rest of the form are kept |
| Session.App.AddMed | src/App.jsx:281-286 | a blank medication row is appended; the rest of the form is kept |
| Session.App.GeneratePrescription | src/App.jsx:291-314 | the same prescription is appended to the generated list and to the patient's list, after the earlier entries. It carries the code from the clock and suffix and that code's QR URL. The form resets to empty with one blank medication |
| Session.App.Record | src/App.jsx:302-310 | the two appends and the form reset keep the invariant |
| Session.App.SetVerificationCode | src/App.jsx:1085 | the code to check is set |
| Session.App.Verify | src/App.jsx:1089-1092 | not-found exactly when no generated prescription has the typed code; otherwise the first one with exactly that code; the prescription lists are not modified |
| Session.App.PreviousMonth | src/App.jsx:343 | the shown month becomes `Calendar.Previous` of the old one |
| Session.App.NextMonth | src/App.jsx:350 | the shown month becomes `Calendar.Following` of the old one |
| Session.App.BackAndForth | src/App.jsx:343-350 | pressing "previous" and then "next" shows the same month again |
| Session.App.CalendarCells | src/App.jsx:324-327 | the shown month's grid has one blank per weekday before the 1st, and cell i after them holds day i − firstDay + 1 |
| Session.App.DayAppointments | src/App.jsx:333-336 | the doctor's appointments dated with the day's key, each as often as in the agenda, in agenda order |

The comment above `generateCode` (src/App.jsx:71, "Genera un código único") calls the code unique. The code does not guarantee this: `generateCode` combines the millisecond with at most six random characters, and nothing checks for collisions. The model follows the code. `Records.GenerateCodeInjective` proves only that different (millisecond, suffix) pairs give different codes. `Session.App.Verify` returns the first match when codes repeat.

## Left out

- `alert` and `window.print`: host dialogs with no effect on the state.
- The sidebar toggle, notifications, the video-call modal, the prescription-detail modal (`selectedPrescription`) and the allergy selector (`showAllergySelector`): display state that no modelled handler reads.
- Doctor photos, ratings, reviews and experience: display data only. A `Listing` keeps the id, name, specialty and symptoms.
- Markup, CSS classes and icons.
- `loginEmail`, `loginPassword` and the booking inputs are read as method parameters. Their text-field setters are not modelled separately. The verification input is the field `qrVerificationCode`, with its setter `SetVerificationCode`.
- React's batching of state updates: each handler is one atomic transition.
- `Date.now()`, `Math.random()` and `toISOString()` are parameters. The clock-derived initial month and year are constructor parameters.
- Calendar: time zones and daylight saving are not modelled. Day arithmetic is exact Gregorian.
- Calendar: `Date` covers only ±8.64e15 ms around 1970, about years −271821 to 275760. Outside that range `getDate()` and `getDay()` give NaN and `renderCalendar` draws no cells. The model's calendar is unbounded and does not capture that cut-off.
- Uri.EncodeURIComponent: modelled only for ASCII text. The component only ever encodes generated codes, which are ASCII. UTF-8 percent-encoding of other text is not modelled.
- Text.ToLowerCase: folds only the ASCII letters A–Z. Unicode case mapping of accented text is not modelled.
- Records.EmptyProfile: stands for the `{}` that `editedProfile` starts as, with empty strings and empty lists. Removing an allergy from a profile without an `allergies` array throws in the component; in the model it removes nothing.
- Session.App.SaveProfile: requires someone to be logged in. The component only offers the button in a patient's profile view. With nobody logged in it would store an object holding only a profile.
- Session.App.CancelEditingProfile: requires someone to be logged in. With nobody logged in the component would throw reading `currentUser.profile`.
- Session.App.UpdateMed: requires a row index within the form. Out of range the component throws. The in-place write to the row object is modelled as a value update. This is safe because the old array is discarded and a generated prescription never shares a row with the new form.
- Session.App.SelectDoctor: requires the doctor to be listed, because the button exists only on a listed doctor's card.
- Session.App.Navigate: requires a menu entry of the logged-in user, because menu items exist only for those.
- Session.App.ConfirmBooking: requires an open dialog (a selected doctor) and a logged-in user. With nobody logged in the component would throw reading `currentUser.profile.fullName` (src/App.jsx:251).
- Session.App.GeneratePrescription: requires a logged-in user, because the name comes from `currentUser.profile`. It also requires a suffix of at most six base-36 upper-case characters, which is what `Math.random().toString(36).substring(2, 8).toUpperCase()` yields.
- `handleGeneratePrescription` is split into `Session.App.GeneratePrescription` and `Session.App.Record`, the state updates once the record is built. `handleLogin` is split into `Session.App.Login` and `Session.App.Enter`. Together they perform the handler's steps in order.
