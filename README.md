# Attendance summaries of the company and employee dashboards

A Dafny model of the attendance-summary logic inside two pages of the
attendance console's web front end:

- `frontend/src/pages/CompanyDashboard.jsx` — the administrator's staff list
  (soft-deleted entries are hidden), the suspend/activate toggle with its
  status badge, and the history calendar whose day tiles are coloured by
  the day-status rule;
- `frontend/src/pages/EmployeeDashboard.jsx` — the same calendar rule over the
  employee's own logs, the counters `totalPresent` and `totalLate`, the
  `attendanceRate` percentage, and the first ten rows of the recent-activity
  table with their status labels.

Everything modelled is a pure function of the lists and records the server
returned (attendance logs, the staff list, an employee record), so the model
is datatypes, functions and lemmas (no classes, no loops).

Files:

- `wrappers.dfy` (`Wrappers`): `Option`, and JavaScript truthiness of an
  optional string (`undefined`, `null` and `""` are falsy) with `v || dflt`.
- `seqs.dfy` (`Seqs`): the array methods used — `filter`, `some`, `slice(0, n)`.
- `calendar.dfy` (`Calendar`): attendance logs and the day-status rule
  shared by both calendars (`DayStatus`), with its locality properties.
- `company_dashboard.dfy` (`CompanyDashboard`): the staff list, the toggle,
  the badge and the company calendar's class names.
- `employee_dashboard.dfy` (`EmployeeDashboard`): the employee calendar, the
  counters, the rate, the activity slice and the status label.

A log's timestamp is modelled by what the tile rule reads from it: its local
calendar day (year, month, day), or nothing when the timestamp does not parse
(an invalid JavaScript date matches no tile). The second of the day is kept
only so that `Calendar.TimeOfDayIrrelevant` can state that it plays no part. The
rule is written once in `Calendar.DayStatus`; each dashboard maps its three
outcomes to its own colour strings, and `EmployeeDashboard.SameClassification`
shows that both pages classify every tile alike.

`Math.round((p / 30) * 100)` is modelled in integers as `(20p + 3) / 6`,
which is `floor(10p/3 + 1/2)`. Since `10p/3` has fractional part 0, 1/3 or 2/3,
the rounding never meets a tie.

Neither page computes lateness or checks a location. Each log's `status`
arrives from the server, check-in and check-out forward the raw coordinates
(`frontend/src/pages/EmployeeDashboard.jsx:43`, `:62`), and the rate divides
by a fixed 30.

## Model

| member | source | states |
|---|---|---|
| `Calendar.DayStatus` | frontend/src/pages/CompanyDashboard.jsx:144-159 | no mark outside the month view or when no log falls on the day; Late iff the month view shows a day with some log marked `'Late'`; Present iff the day has logs and none is Late (a day of check-outs or status-less logs included) |
| `Calendar.DayLogsConcat` | frontend/src/pages/CompanyDashboard.jsx:146-151 | the day's logs of a concatenated history are the day's logs of each part, in order |
| `Calendar.SameDayLogsSameStatus` | frontend/src/pages/CompanyDashboard.jsx:153-158 | the tile depends on the history only through the logs of that day |
| `Calendar.OtherDaysIrrelevant` | frontend/src/pages/CompanyDashboard.jsx:146-151 | inserting or removing logs dated on other days, anywhere in the history, never changes a tile |
| `Calendar.TimeOfDayIrrelevant` | frontend/src/pages/CompanyDashboard.jsx:146-151 | moving a log to another time of the same local day changes no tile: only year, month and day are compared |
| `CompanyDashboard.TileClassName` | frontend/src/pages/CompanyDashboard.jsx:144-159 | null iff not the month view or no log on the day; the orange class iff some log of the day is Late; the green class iff the day has logs and none is Late |
| `CompanyDashboard.LoadedEmployees` | frontend/src/pages/CompanyDashboard.jsx:72 | the kept entries are exactly the input entries whose `deleted_at` is falsy |
| `CompanyDashboard.LoadedEmployeesInOrder` | frontend/src/pages/CompanyDashboard.jsx:72 | the filter distributes over concatenation and keeps one entry iff it is not deleted, so the input order is preserved |
| `CompanyDashboard.LoadedEmployeesUnchanged` | frontend/src/pages/CompanyDashboard.jsx:72 | a list without deleted entries is loaded unchanged |
| `CompanyDashboard.ToggledStatus` | frontend/src/pages/CompanyDashboard.jsx:103 | `'active'` iff the status is `'suspended'`; `'suspended'` iff it is anything else, missing included |
| `CompanyDashboard.ToggleTwice` | frontend/src/pages/CompanyDashboard.jsx:103 | toggling twice restores an `'active'` or `'suspended'` status |
| `CompanyDashboard.StatusBadge` | frontend/src/pages/CompanyDashboard.jsx:313 | never empty; a truthy status is shown as it is, a falsy one as `'active'`; shows `'active'` iff the status is falsy or is `'active'` |
| `CompanyDashboard.ToggleChangesBadge` | frontend/src/pages/CompanyDashboard.jsx:103 | the status sent always differs from the badge shown, and once the stored status is the one sent, the badge shows it |
| `EmployeeDashboard.TileClassName` | frontend/src/pages/EmployeeDashboard.jsx:73-88 | same three-way rule as the company calendar over the employee's own logs, with its own classes |
| `EmployeeDashboard.SameClassification` | frontend/src/pages/EmployeeDashboard.jsx:73-88 | for the same logs, day and view both dashboards give no class, the Late class or the Present class together |
| `EmployeeDashboard.TotalPresent` | frontend/src/pages/EmployeeDashboard.jsx:90 | at most the list length; 0 iff every entry is a check-out; the length iff every entry is a check-in |
| `EmployeeDashboard.TotalLate` | frontend/src/pages/EmployeeDashboard.jsx:91 | at most the list length; 0 iff no entry, of either type, is marked `'Late'` |
| `EmployeeDashboard.CountsAdditive` | frontend/src/pages/EmployeeDashboard.jsx:90-91 | both counters add over concatenation; one entry counts as present iff it is a check-in and as late iff its status is `'Late'`, whatever its type |
| `EmployeeDashboard.PresentAndCheckOutsPartition` | frontend/src/pages/EmployeeDashboard.jsx:90 | `totalPresent` plus the number of check-outs is the list length: check-outs never count |
| `EmployeeDashboard.PercentOf30` | frontend/src/pages/EmployeeDashboard.jsx:92 | the result, as a real number, is `floor(100p/30 + 1/2)`, the JavaScript rounding, and lies within a third of `100p/30` |
| `EmployeeDashboard.RealRounding` | frontend/src/pages/EmployeeDashboard.jsx:92 | an integer within the integer bounds of `(20p + 3) / 6` is exactly `Math.round(p / 30 * 100)` computed over the reals |
| `EmployeeDashboard.AttendanceRate` | frontend/src/pages/EmployeeDashboard.jsx:92 | 0 for an empty list; otherwise `Math.round(totalPresent / 30 * 100)` over the reals, i.e. `PercentOf30(totalPresent)` |
| `EmployeeDashboard.PercentOf30Nearest` | frontend/src/pages/EmployeeDashboard.jsx:92 | the rounded percentage is the only integer within a third of the exact one, so no tie arises |
| `EmployeeDashboard.PercentOf30Monotone` | frontend/src/pages/EmployeeDashboard.jsx:92 | the rate never decreases as check-ins grow |
| `EmployeeDashboard.RateZeroIffNoCheckIn` | frontend/src/pages/EmployeeDashboard.jsx:92 | the rate is 0 iff there is no check-in, in particular for an all-check-out list |
| `EmployeeDashboard.RateNotCapped` | frontend/src/pages/EmployeeDashboard.jsx:92 | 30 check-ins give 100; more than 30 give more than 100 |
| `EmployeeDashboard.LateTileCounted` | frontend/src/pages/EmployeeDashboard.jsx:83-91 | a Late calendar tile implies `totalLate > 0`; with `totalLate == 0` no tile is Late |
| `EmployeeDashboard.RecentActivity` | frontend/src/pages/EmployeeDashboard.jsx:310 | the table holds `min(10, length)` entries, the first ones in input order |
| `EmployeeDashboard.StatusLabel` | frontend/src/pages/EmployeeDashboard.jsx:333 | never empty; the log's own status when truthy, otherwise `'On Time'` |
| `EmployeeDashboard.LateBadgeIffLateLabel` | frontend/src/pages/EmployeeDashboard.jsx:328-333 | the badge takes the Late colour iff the label reads `'Late'` |

## Left out

- Rendering (JSX, styles, tabs, modals, sidebar), toasts, navigation and `localStorage`: presentation and session plumbing.
- Every remote call of the company, employee, super-admin and auth services: the server decides whether a check-in is accepted and whether a log is Late; the model takes the returned lists as inputs.
- Browser geolocation (`navigator.geolocation.getCurrentPosition`): an asynchronous browser API whose coordinates are only forwarded to the server.
- Parsing timestamps and converting them to local time with JavaScript `Date`: each log carries its local day and second as an abstract input, or none when the timestamp does not parse.
- Formatting coordinates with `toFixed(4)` and dates with `toLocaleDateString`/`toLocaleTimeString`: floating-point and locale display only.
- EmployeeDashboard.AttendanceRate: computed in exact integer arithmetic; JavaScript divides and multiplies in doubles, which agrees for any realistic count of logs but is not modelled.
- `frontend/src/pages/SuperDashboard.jsx` and `frontend/src/pages/Login.jsx`: forms, authentication and routing around remote calls; they are not part of this model.
