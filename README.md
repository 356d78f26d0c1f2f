# Time clock, monthly report and class lists — a Dafny model

This project models the logic of a school-administration front end written in TypeScript and React.

- **Daily punch log** (`Pontos`). An ordered list of punches, each an *entrada* (check-in) or a *saída* (check-out), with an "is clocked in" flag. Every change writes the whole list to a per-day store.
  - Live punches are taken from the wall clock after the server accepts them. Manual punches are typed into a dialog.
  - The worked total pairs each entrada with an immediately following saída, by position, and prints the sum as `"Xh Ym"`.
- **Monthly report** (`Relatorios`). Month navigation and the month's name and length. The fetched point records are grouped by the day of their check-in. The grid has one entry per day of the month. Each row's cells and status come from the day's first record.
- **Classes and students** (`Turmas`, `ClassDetail`, `StudentForm`). Create, replace-by-id and delete-by-id on the list of classes, which is persisted once loading has finished. Add, edit and delete on a class's students. The student form validates before submitting.

Supporting modules:
- `Wrappers`: an `Option` type.
- `JsText`: the JavaScript primitives the source relies on. These are `String(n)` on integers, `padStart(2, "0")`, `Number` on digit strings, truncating `%`, `Math.floor` of a quotient and the `"Xh Ym"` text.
- `Clock`: the `"HH:MM"` text and its parse into seconds of the day.
- `Seqs`: `Array.prototype.filter` and `map` on sequences.
- `Types`: the shared records of `src/types/index.ts`.

React state becomes fields of a class. Each handler is a method whose `modifies` clause names the state it sets. A component's render-time computation is a function, or a method when the source runs a loop. The server, the browser store, the clock and `Date.now()` ids are parameters of the handlers.

## Model

| member | source | states |
|---|---|---|
| JsText.NatToString | src/pages/Dashboard/pontos.tsx:92-94 | `String(n)` of a natural is a non-empty digit string without a leading zero (unless it is "0") |
| JsText.DigitsValue | src/pages/Dashboard/pontos.tsx:174 | `Number` of a digit string of length n is below 10^n |
| JsText.IntToString | src/pages/Dashboard/pontos.tsx:186 | `String(n)` of an integer is a digit string exactly when n >= 0, and then it is the natural's text; otherwise it is "-" followed by the digits of -n |
| JsText.PadStart2 | src/pages/Dashboard/pontos.tsx:92-94 | `padStart(2, "0")` keeps a text of length >= 2 unchanged and left-pads a shorter one with zeros to length 2, keeping it as a suffix |
| JsText.FloorDiv | src/pages/Dashboard/pontos.tsx:184 | `Math.floor(a / b)` for b > 0 is the q with q*b <= a < q*b + b |
| JsText.JsRem | src/pages/Dashboard/pontos.tsx:185 | JavaScript `%` truncates: the remainder takes the dividend's sign and is smaller than the divisor in magnitude; it is a minus the truncated quotient times b |
| JsText.HoursMinutes | src/pages/Dashboard/pontos.tsx:184-185 | the minutes lie in -60..59 for any total; hours and minutes are both non-negative for a non-negative total, and hours negative and minutes at most 0 for a negative one |
| JsText.HoursMinutesOfNonNegative | src/pages/Dashboard/pontos.tsx:184-186 | for a non-negative total, hours = total div (60·unit) and minutes = (total mod (60·unit)) div unit, with minutes in 0..59 and 60·hours + minutes = total div unit |
| JsText.ElapsedTextOfNonNegative | src/pages/Dashboard/pontos.tsx:184-186 | the `${hours}h ${minutes}m` text of a non-negative total is the decimal text of total div (60·unit), "h ", the decimal text of (total mod (60·unit)) div unit, and "m" |
| JsText.NatToStringRoundTrip | src/pages/Dashboard/pontos.tsx:174 | `Number(String(n)) == n`: parsing the printed digits gives the number back |
| JsText.PadKeepsValue | src/pages/Dashboard/pontos.tsx:140-142 | padding a digit string with zeros does not change its numeric value |
| JsText.TwoDigitRoundTrip | src/pages/Dashboard/relatorios.tsx:116-117 | for n < 100 the padded two-digit text has length 2 and parses back to n |
| Seqs.Filter | src/pages/Dashboard/pontos.tsx:156 | `filter` keeps exactly the elements satisfying the predicate and never grows the list |
| Seqs.MapSeq | src/pages/Dashboard/turmas.tsx:38 | `map` keeps the length and applies the function at every position |
| Seqs.FilterConcat | src/pages/Dashboard/pontos.tsx:156 | filtering a concatenation is the concatenation of the filtered parts, so the kept elements keep their order |
| Seqs.FilterKeepsAll | src/pages/Dashboard/turmas.tsx:44 | a filter that every element passes returns the list unchanged |
| Seqs.FilterDropsAll | src/pages/Dashboard/relatorios.tsx:139 | a filter that no element passes returns the empty list |
| Seqs.FilterIdempotent | src/pages/Dashboard/turmas.tsx:44 | filtering twice by the same predicate is filtering once |
| Seqs.FilterSplit | src/pages/Dashboard/pontos.tsx:156 | the kept and the dropped elements together are a permutation of the input (sizes add up, multisets add up) |
| Clock.ColonIndex | src/pages/Dashboard/pontos.tsx:174 | `split(":")` cuts at the first colon, or at the end when there is none |
| Clock.ClockSeconds | src/pages/Dashboard/pontos.tsx:174-178 | the seconds of the day read from a clock text are non-negative and a whole number of minutes |
| Clock.ClockTextShape | src/pages/Dashboard/pontos.tsx:140-142 | with hour and minute texts of at most two characters the clock text has five characters: padded hour, ':' at index 2, padded minute |
| Clock.ClockTextRoundTrip | src/pages/Dashboard/pontos.tsx:140-144 | the "HH:MM" text built from two digit strings is well formed and parses back to hour·3600 + minute·60 of those digits |
| Clock.ClockOfNumbers | src/pages/Dashboard/pontos.tsx:92-94 | for hour < 24 and minute < 60 the "HH:MM" text has length 5 and parses back to hour·3600 + minute·60 |
| Pontos.RemoveRecord | src/pages/Dashboard/pontos.tsx:156 | `records.filter(r => r.id !== id)` keeps exactly the punches with another id |
| Pontos.FailureMessage | src/pages/Dashboard/pontos.tsx:104 | the alert after a refused punch is the server's `detail` when present and non-empty, the fixed fallback otherwise |
| Pontos.LiveRecord | src/pages/Dashboard/pontos.tsx:89-96 | a live punch has the given id and type, the wall clock's epoch milliseconds as timestamp, and a well-formed time that reads back as the wall clock's hour·3600 + minute·60 |
| Pontos.ManualRecord | src/pages/Dashboard/pontos.tsx:137-145 | a manual punch has the given id and type and a well-formed clock text as its time |
| Pontos.PairedSeconds | src/pages/Dashboard/pontos.tsx:169-183 | a log without any saída, or without any entrada, totals zero seconds |
| Pontos.StoreKey | src/pages/Dashboard/pontos.tsx:26 | the storage key is "timeclock-" followed by the day text |
| Pontos.StoreKeyInjective | src/pages/Dashboard/pontos.tsx:41-44 | different days have different storage keys |
| Pontos.ManualTimestampMatchesTime | src/pages/Dashboard/pontos.tsx:137-145 | a manual punch's time is well formed and its timestamp equals the seconds its time text reads |
| Pontos.LiveTimeMatchesClock | src/pages/Dashboard/pontos.tsx:88-95 | on a wall clock with hour 0..23 and minute 0..59 a live punch's time has five characters |
| Pontos.PairedAppend | src/pages/Dashboard/pontos.tsx:167-183 | appending one punch adds (saída − entrada) seconds exactly when it is a saída after a trailing entrada, and 0 otherwise; earlier pairings are never undone |
| Pontos.AppendWellFormed | src/pages/Dashboard/pontos.tsx:98 | appending a punch with a well-formed time keeps every time in the log well formed |
| Pontos.AppendKeepsInvariant | src/pages/Dashboard/pontos.tsx:98-101 | appending a punch with clock text keeps every time well formed and leaves the log clocked in exactly when the punch is an entrada |
| Pontos.EntradaAddsNothing | src/pages/Dashboard/pontos.tsx:173 | appending an entrada never changes the worked total |
| Pontos.RemoveRecordConcat | src/pages/Dashboard/pontos.tsx:156 | deleting by id distributes over concatenation, so the survivors keep their order |
| Pontos.RemoveAbsentId | src/pages/Dashboard/pontos.tsx:156 | deleting an id no punch has leaves the log unchanged |
| Pontos.TwoSessions | src/pages/Dashboard/pontos.tsx:167-183 | entrada, saída, entrada, saída totals the two differences |
| Pontos.TypedOnTheHour | src/pages/Dashboard/pontos.tsx:137-145 | a manual punch typed as two digits "hh" and "00" has a well-formed time that reads back as hh·3600 seconds |
| Pontos.WorkdayExample | src/pages/Dashboard/pontos.tsx:167-186 | punches in 08:00, out 12:00, in 13:00, out 17:00 total 28800 seconds, shown as "8h 0m" |
| Pontos.EightHoursText | src/pages/Dashboard/pontos.tsx:184-186 | 28800 seconds is shown as "8h 0m" |
| Pontos.ZeroHoursText | src/pages/Dashboard/pontos.tsx:184-186 | a zero total is shown as "0h 0m" |
| Pontos.LoneEntradaExample | src/pages/Dashboard/pontos.tsx:167-186 | a single entrada totals "0h 0m" and leaves the user clocked in |
| Pontos.TimeClock.Mount | src/pages/Dashboard/pontos.tsx:24-33 | mounting loads the day's stored log (empty when absent) and sets the flag to "last punch is an entrada" |
| Pontos.TimeClock.SaveRecords | src/pages/Dashboard/pontos.tsx:41-44 | saving writes the list under "timeclock-" + day and touches no other day |
| Pontos.TimeClock.AppendPunch | src/pages/Dashboard/pontos.tsx:98-101 | the success path of a punch: the log gains the punch at the end, the store holds the new log, the flag follows the punch's type, and the flag invariant is kept |
| Pontos.TimeClock.CheckIn | src/pages/Dashboard/pontos.tsx:82-106 | on success one live entrada is appended, the store holds the new log, the user is clocked in and the alert shows the time; on failure nothing changes and the alert is the server detail or "Erro ao registrar entrada"; the flag invariant is kept |
| Pontos.TimeClock.CheckOut | src/pages/Dashboard/pontos.tsx:109-133 | the same for a saída: appended, stored, clocked out, "✅ Saída registrada às HH:MM"; on failure nothing changes |
| Pontos.TimeClock.OpenManualEntry | src/pages/Dashboard/pontos.tsx:233-235 | the "Editar" button selects entrada and opens the dialog |
| Pontos.TimeClock.ChooseRecordType | src/pages/Dashboard/pontos.tsx:320-330 | the dialog's type buttons set the manual punch type |
| Pontos.TimeClock.TypeHour | src/pages/Dashboard/pontos.tsx:352-353 | typing in the hour field sets it |
| Pontos.TimeClock.TypeMinute | src/pages/Dashboard/pontos.tsx:362-363 | typing in the minute field sets it |
| Pontos.TimeClock.CloseModal | src/pages/Dashboard/pontos.tsx:373 | "Cancelar" closes the dialog |
| Pontos.TimeClock.AddCustomRecord | src/pages/Dashboard/pontos.tsx:135-153 | with either field empty nothing changes; otherwise one punch of the chosen type at the typed time (timestamp hour·3600 + minute·60) is appended and stored, the dialog is cleared and closed, and the flag follows the type |
| Pontos.TimeClock.ClearDialog | src/pages/Dashboard/pontos.tsx:149-151 | after a manual punch the dialog is closed and both fields are empty |
| Pontos.TimeClock.DeleteRecord | src/pages/Dashboard/pontos.tsx:155-165 | every punch with the id is removed, the rest are kept in order, the store holds the new log, and the flag is "last punch is an entrada" (false when empty) |
| Pontos.TimeClock.CalculateHours | src/pages/Dashboard/pontos.tsx:167-187 | the loop's total equals the positional entrada→saída pairing of the log, printed as whole hours and remaining minutes |
| Turmas.NewClass | src/pages/Dashboard/turmas.tsx:27-32 | a created class has the given id, no students and the form's other fields |
| Turmas.ReplaceClass | src/pages/Dashboard/turmas.tsx:36-39 | replacing by id keeps the length, puts the updated class at every position with its id and leaves the others unchanged |
| Turmas.RemoveClass | src/pages/Dashboard/turmas.tsx:44 | deleting by id keeps exactly the classes with another id |
| Turmas.ReplaceClassIdempotent | src/pages/Dashboard/turmas.tsx:36-39 | applying the same update twice is applying it once |
| Turmas.RemoveClassConcat | src/pages/Dashboard/turmas.tsx:44 | deleting distributes over concatenation, so the remaining classes keep their order |
| Turmas.CreateThenDelete | src/pages/Dashboard/turmas.tsx:27-46 | deleting a just-created class with a fresh id gives back the previous list |
| Turmas.DeleteAfterReplace | src/pages/Dashboard/turmas.tsx:36-46 | deleting after an update removes the same classes as deleting without it |
| Turmas.ClassesPage.Mount | src/pages/Dashboard/turmas.tsx:13-19 | mounting loads the stored list (empty when absent), selects nothing and ends loading with the store in step |
| Turmas.ClassesPage.PersistClasses | src/pages/Dashboard/turmas.tsx:21-25 | the store is rewritten with the list only once loading is over |
| Turmas.ClassesPage.HandleCreateClass | src/pages/Dashboard/turmas.tsx:27-34 | the list gains the new class at the end and the store holds the new list |
| Turmas.ClassesPage.HandleUpdateClass | src/pages/Dashboard/turmas.tsx:36-41 | the list is replaced by id, the updated class is selected and the store holds the new list |
| Turmas.ClassesPage.HandleDeleteClass | src/pages/Dashboard/turmas.tsx:43-46 | classes with the id are removed, nothing is selected and the store holds the new list |
| Turmas.ClassesPage.SelectClass | src/pages/Dashboard/turmas.tsx:62 | choosing a class selects it |
| Turmas.ClassesPage.Back | src/pages/Dashboard/turmas.tsx:57 | going back clears the selection |
| ClassDetail.NewStudent | src/components/classDetail.tsx:26-29 | the new student has the given id, and dropping the id gives back exactly the form's data |
| ClassDetail.MergeStudent | src/components/classDetail.tsx:42 | `{ ...s, ...studentData }` keeps the student's id and takes every other field from the form |
| ClassDetail.UpdateStudents | src/components/classDetail.tsx:41-43 | editing keeps length and ids; students with the edited id become the form's record, the others are unchanged |
| ClassDetail.RemoveStudent | src/components/classDetail.tsx:52 | deleting keeps exactly the students with another id |
| ClassDetail.RemoveStudentConcat | src/components/classDetail.tsx:52 | deleting distributes over concatenation, so the remaining students keep their order |
| ClassDetail.AddThenDelete | src/components/classDetail.tsx:25-54 | deleting a just-added student with a fresh id gives back the previous list |
| ClassDetail.UpdateKeepsIds | src/components/classDetail.tsx:37-54 | after an edit, some student has a given id exactly when some student had it before, and every student has that id exactly when every student had it before |
| ClassDetail.OtherIdsKept | src/components/classDetail.tsx:37-54 | after an edit, deleting a given id leaves no student exactly when it left none before |
| ClassDetail.ClassDetailView.constructor | src/components/classDetail.tsx:22-23 | the view starts with the form hidden and no student being edited |
| ClassDetail.ClassDetailView.OpenStudentForm | src/components/classDetail.tsx:102 | "Adicionar Aluno" shows the form |
| ClassDetail.ClassDetailView.StartEditing | src/components/classDetail.tsx:110 | choosing a student to edit records it |
| ClassDetail.ClassDetailView.CancelForm | src/components/classDetail.tsx:93-96 | cancelling hides the form and ends editing |
| ClassDetail.ClassDetailView.HandleAddStudent | src/components/classDetail.tsx:25-35 | the class handed on has the same fields and the old students plus the new one at the end; the form is hidden |
| ClassDetail.ClassDetailView.HandleUpdateStudent | src/components/classDetail.tsx:37-47 | with no student being edited nothing happens; otherwise the class handed on has its students updated by the edited id and editing ends |
| ClassDetail.ClassDetailView.HandleDeleteStudent | src/components/classDetail.tsx:49-54 | the class handed on has the same fields and only the students with another id |
| ClassDetail.ClassDetailView.HandleDeleteClass | src/components/classDetail.tsx:56-61 | only a confirmed deletion asks to delete this class's id and to go back; otherwise neither happens |
| StudentForm.InitialGrades | src/components/studentForm.tsx:31 | the grades handed on are those of the edited student, or none |
| StudentForm.InitialAttendance | src/components/studentForm.tsx:32 | the attendance handed on is that of the edited student, or none |
| StudentForm.StudentFormView.constructor | src/components/studentForm.tsx:18-22 | the fields start from the edited student, or empty |
| StudentForm.StudentFormView.SetName | src/components/studentForm.tsx:63-65 | typing in the name field sets it |
| StudentForm.StudentFormView.SetRegistrationNumber | src/components/studentForm.tsx:79-81 | typing in the registration field sets it |
| StudentForm.StudentFormView.SetEmail | src/components/studentForm.tsx:95-97 | typing in the email field sets it |
| StudentForm.StudentFormView.HandleSubmit | src/components/studentForm.tsx:24-35 | a record is submitted exactly when name and registration number are non-empty; it carries the typed fields and the edited student's grades and attendance (or none) |
| Relatorios.PreviousMonth | src/pages/Dashboard/relatorios.tsx:65-72 | from a month in 1..12, the result is again in 1..12 and is exactly one month earlier |
| Relatorios.NextMonth | src/pages/Dashboard/relatorios.tsx:74-81 | from a month in 1..12, the result is again in 1..12 and is exactly one month later |
| Relatorios.MonthIndexInjective | src/pages/Dashboard/relatorios.tsx:65-81 | two (month, year) pairs with months in 1..12 and the same month count are the same pair, so each navigation step has one result |
| Relatorios.NavigationRoundTrip | src/pages/Dashboard/relatorios.tsx:65-81 | previous then next, and next then previous, return to the same month and year |
| Relatorios.GetMonthName | src/pages/Dashboard/relatorios.tsx:83-89 | months 1..12 get the matching Portuguese name; any other month gets none |
| Relatorios.MonthNamesDistinct | src/pages/Dashboard/relatorios.tsx:84-87 | different months have different names |
| Relatorios.DaysInMonth | src/pages/Dashboard/relatorios.tsx:133 | a month has 28..31 days, and February has 29 exactly in a Gregorian leap year |
| Relatorios.DaysInMonthMatchesThresholds | src/pages/Dashboard/relatorios.tsx:133 | each month's length is the gap between consecutive month thresholds of section 21.4.1 of ECMA-262 |
| Relatorios.MonthsFillTheYear | src/pages/Dashboard/relatorios.tsx:133 | the month lengths meet the month thresholds of section 21.4.1 of ECMA-262 and add up to 365, or 366 in a leap year |
| Relatorios.DayLabelInjective | src/pages/Dashboard/relatorios.tsx:137-138 | different days of a month have different "DD/MM/YYYY" texts |
| Relatorios.DayLabelShape | src/pages/Dashboard/relatorios.tsx:137-138 | for a day and a month below 100 the date text is two digits reading as the day, '/', two digits reading as the month, '/' |
| Relatorios.JsFullYear | src/pages/Dashboard/relatorios.tsx:133-138 | the `Date` constructor's year is the given year or that year plus 1900, and never in 0..99 |
| Relatorios.MonthRange | src/pages/Dashboard/relatorios.tsx:43-45 | the requested range runs from day 1 to the last day of the requested month |
| Relatorios.Bucket | src/pages/Dashboard/relatorios.tsx:91-103 | a day's bucket holds exactly the records whose check-in falls on that day |
| Relatorios.RecordInOwnBucket | src/pages/Dashboard/relatorios.tsx:94-101 | each record is in its own day's bucket and in no other |
| Relatorios.BucketAppend | src/pages/Dashboard/relatorios.tsx:98-101 | adding a record appends it to its own day's bucket and leaves every other bucket unchanged |
| Relatorios.GroupAppend | src/pages/Dashboard/relatorios.tsx:98-102 | one step of the reduce: adding a record under its own day to the grouping of a list gives the grouping of the extended list |
| Relatorios.GroupStep | src/pages/Dashboard/relatorios.tsx:92-103 | one pass of the reduce turns the grouping of the first i records into the grouping of the first i + 1 |
| Relatorios.BucketSizesSum | src/pages/Dashboard/relatorios.tsx:91-106 | the bucket sizes over all days add up to the number of records |
| Relatorios.FormatTime | src/pages/Dashboard/relatorios.tsx:108-120 | a missing instant shows "-"; a valid hour and minute show a 5-character "HH:MM" that reads back as that time |
| Relatorios.CalculateTotalHours | src/pages/Dashboard/relatorios.tsx:122-130 | an open session shows "-"; a closed one shows the elapsed milliseconds as hours and minutes |
| Relatorios.TotalHoursOfClosedSession | src/pages/Dashboard/relatorios.tsx:126-129 | for a check-out not before the check-in, hours = diff div 3600000 and minutes = (diff mod 3600000) div 60000, in 0..59 |
| Relatorios.DayStatus | src/pages/Dashboard/relatorios.tsx:273-309 | a day without records is "Sem registro"; otherwise the status is "Em Aberto" or "Completo" as the first record has no check-out or has one |
| Relatorios.RowOf | src/pages/Dashboard/relatorios.tsx:247-309 | a row shows the day's date text and status; every time cell is "-" when the day has no record, and otherwise entrada, saída and total are those of the day's first record |
| Relatorios.RowUsesFirstRecordOnly | src/pages/Dashboard/relatorios.tsx:247 | further records on a day change nothing in its row |
| Relatorios.FetchFailureText | src/pages/Dashboard/relatorios.tsx:59 | a failed request shows the server's message when present and non-empty, else "Falha ao buscar registros." |
| Relatorios.ReportPage.constructor | src/pages/Dashboard/relatorios.tsx:20-26 | the page opens loading, with no records, on the current month |
| Relatorios.ReportPage.HandlePreviousMonth | src/pages/Dashboard/relatorios.tsx:65-72 | the selection moves to the previous month and stays in 1..12 |
| Relatorios.ReportPage.HandleNextMonth | src/pages/Dashboard/relatorios.tsx:74-81 | the selection moves to the next month and stays in 1..12 |
| Relatorios.ReportPage.FetchRecords | src/pages/Dashboard/relatorios.tsx:34-63 | without a user only loading ends; otherwise the month's range is requested, the records are replaced on success and kept on failure with the alert, and loading ends |
| Relatorios.ReportPage.GroupRecordsByDate | src/pages/Dashboard/relatorios.tsx:91-106 | the groups are keyed by exactly the days some check-in falls on, and each holds that day's bucket in input order |
| Relatorios.ReportPage.GetDaysInMonth | src/pages/Dashboard/relatorios.tsx:132-149 | one entry per day 1..N of the selected month, in order, each with its date text and that text's group (empty when none) |
| Relatorios.ReportPage.MonthGrid | src/pages/Dashboard/relatorios.tsx:159-160 | the rendered grid has one entry per day of the month, holding exactly the records whose check-in falls on that day |

## Left out

- HTTP calls. The check-in and check-out requests and the monthly records request are parameters: `RemoteResult` and `FetchResult`. The URL and query string built in `fetchRecords` are not modelled.
- The browser store and JSON. The time clock's store is a map from key to list. The classes page's store is an `Option` of the list. Serialisation is not modelled.
- Pontos.TimeClock.Mount: requires every stored log to have well-formed "HH:MM" times, because a hand-edited store with other text is not modelled.
- Time zones and locale formatting. The report's day key of a check-in (`toLocaleDateString` in São Paulo time) is the parameter `keyOf`. The hour and minute shown for an instant (`getTimezoneOffset` and `getHours`) is the parameter `clockOf`.
- Relatorios.MonthRange: returns the civil dates of the first and last day. The UTC shift of `toISOString`, which can move either date by a day, is not modelled.
- Relatorios.DayLabel: prints the year with `String(year)`. It agrees with pt-BR formatting for years 1000..9999 only.
- The one-second clock refresh, overlapping requests from repeated clicks, and `Date.now()` ids. The clock is not modelled. The requests are treated one at a time. Ids are parameters and are not assumed unique.
- Pontos.TimeClock.TypeHour, Pontos.TimeClock.TypeMinute: accept digit strings only. Number-input text with a sign, decimals or an exponent, which would make `parseInt`/`Number` give another value or NaN, is not modelled.
- Relatorios.FormatTime, Relatorios.CalculateTotalHours: a check-out is `Option<int>`. An empty-string check-out, which the source also treats as absent, has no separate case.
- Relatorios.TotalHoursOfClosedSession and JsText.HoursMinutesOfNonNegative: the exact hours/minutes values are stated for non-negative totals only. A saída typed before its entrada gives a negative total. That total is modelled with JavaScript's truncating `%` and flooring division; for it only the signs and the minute bound of JsText.HoursMinutes are proved.
- ClassDetail.MergeStudent: a form object without `grades` or `attendance` would leave the student's own values under a JavaScript spread. The model's `None` replaces them instead. The student form always supplies both fields, so the case does not arise.
- The weekend shading of report rows, all JSX rendering, routing, the auth context and configuration. These are presentation with no statable logic.
- `StartEditing` and `HandleDeleteStudent` model handlers whose triggering table component is commented out in `src/components/classDetail.tsx`. They are kept because the handlers exist.
