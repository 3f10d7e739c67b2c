# TechnoMart rules, modelled in Dafny

TechnoMart is a restaurant-operations system. It has a Django back end, a React web console and a React-Native mobile app. This project models the deterministic rules inside it and proves what they promise:

- **Back end** (`backend/api`):
  - the two time parsers and the time formatter;
  - date parsing;
  - pagination of the employee listing;
  - employee and schedule creation and update;
  - the attendance upsert policy for staff and managers;
  - leave creation and update;
  - the precedence search that links an account to an employee row.
- **Web console** (`src`):
  - the menu-item normalisers, URL absolutisation and recursive image-URL picking;
  - the menu list kept by the menu hook: upsert, archive, restore, availability and image updates, and the parameter key;
  - the employee client service: normalisation with defaults, query strings, and the loop that gathers every page;
  - the "Add Employees" panel: roster order, active count, status badge, and the add and remove handlers.
- **Mobile app** (`mobile/src`):
  - the catering-event form: selection toggling, the menu grouped by category, the quantity field, the time picker, and the submission with its total and 50% down payment;
  - the registration screen: validation, the password meter, the confirmation hint, and the submit handler;
  - the feedback screen: length rules, hint and send gate;
  - the "Recommended" carousel: its cards and its auto-slide index.

## How the model is built

Each source file is one module.

- Pure code becomes functions with named results, plus lemmas about them.
- State that a screen or hook updates in place becomes a class. Its methods carry `modifies`, and their `ensures` state the whole new state. Examples: `Registration.Screen`, `Feedback.Screen`, `AddEmployeePanel.Panel`, `Recommended.Carousel`, `CateringModal.QuantityField` and `MenuStore.MenuList`.
- A loop in the source is a method with a loop, proved against a specification function. Examples: `CateringModal.GroupByCategory`, `MenuService.PickUrl`, `MenuStore.ParamKey`, `Query.AppendKept`, `EmployeeService.WalkPages` and `Registration.PasswordStrength`.

Shared modules:

| module | what it provides |
|---|---|
| `Wrappers` | `Option` and `Result`. |
| `Text` | ASCII trimming, lower-casing, splitting, joining, zero-filling, integer reading and lexicographic order. |
| `Py` | Python request payload values (`None`, booleans, integers, strings): truthiness, `or`, `str()` and `float()`. |
| `Js` | JavaScript values as a datatype: truthiness, `\|\|`, `??`, `typeof`, `String()`, `Number()`, strict equality, property lookup and object spread. |
| `Sorting` | A stable insertion sort, filtering, counting and first-match search. |
| `Clock` | Times of day, calendar dates, `strptime("%Y-%m-%d")` and the `_time_to_str` formatter. |
| `Query` | The `URLSearchParams` filter that drops `undefined`, `null` and `''`. |

Things outside the code become parameters:

- permission checks and identifier variants;
- the database lookup by id;
- the backend origin, the clock and the cache-busting stamp;
- the replies of remote calls.

Database tables are sequences of rows.

## Model

| member | source | states |
|---|---|---|
| `EmployeeViews.ParseTimeStrict` | backend/api/views_employees.py:30-39 | A parsed time is a valid time of day with second 0. |
| `EmployeeViews.ParseHourMinute` | backend/api/views_employees.py:32-36 | A result exists only when both sides are Python integers, and its hour and minute are those integers. |
| `EmployeeViews.ParseTimeStrictOfFormat` | backend/api/views_employees.py:30-39 | The `HH:MM` text of any valid time parses back to that hour and minute. |
| `EmployeeViews.ParseTimeStrictRejectsSeconds` | backend/api/views_employees.py:32-34 | `H:M:S` is refused, because everything after the first colon must be one integer. |
| `EmployeeViews.ParseTimeStrictRejectsHour` | backend/api/views_employees.py:35-36 | An hour of 24 or more is refused. |
| `EmployeeViews.Max1` | backend/api/views_employees.py:177-178 | The result is at least 1 and at least its argument. A value of 1 or more is kept. |
| `EmployeeViews.TotalPages` | backend/api/views_employees.py:186 | The result is at least 1. The pages hold every row, and when there are rows the last page is not empty. |
| `EmployeeViews.PageSlice` | backend/api/views_employees.py:179-181 | At most `limit` rows come back. A page past the end is empty. |
| `EmployeeViews.Paginate` | backend/api/views_employees.py:128-129 | page, limit and totalPages are all at least 1. At most `limit` items come back, and total ≤ totalPages·limit. Unreadable arguments give the fallback listing; otherwise the page is the slice of the clamped arguments. (Listing code: views_employees.py:176-191.) |
| `EmployeeViews.PagesUpToPrefix` | backend/api/views_employees.py:179-181 | Pages 1 to k laid end to end are the first k·limit rows. |
| `EmployeeViews.AllPagesCoverRows` | backend/api/views_employees.py:176-187 | Reading pages 1 to totalPages gives back every row once, in order. |
| `EmployeeViews.CreateEmployee` | backend/api/views_employees.py:193-216 | Without permission the request is refused with 403. It succeeds exactly when the trimmed name is non-blank and every field can be read (texts where `.strip()`/`.lower()` apply, a number for `float()`). The name, position and contact are trimmed, and the status is lower case. |
| `EmployeeViews.StoredEmployee` | backend/api/views_employees.py:206-213 | The create step fails with 500 when any field read failed; otherwise it stores the trimmed position and contact, the rate and the lower-cased status. |
| `EmployeeViews.CreateEmployeeStoresSent` | backend/api/views_employees.py:201-213 | For every accepted payload, the stored name is the sent name trimmed. Position and contact are the sent texts trimmed, or '' when not sent truthy. The status is the sent status lower-cased, or "active". The rate is `float()` of the sent rate, or 0. |
| `EmployeeViews.CreateEmployeeNeedsName` | backend/api/views_employees.py:201-203 | A missing, falsy or blank name is refused with 400 "Name is required". |
| `EmployeeViews.CreateEmployeeNameNotText` | backend/api/views_employees.py:201 | A truthy name that is not text fails with 500, because `.strip()` raises. |
| `EmployeeViews.CreateEmployeeFailed` | backend/api/views_employees.py:204-216 | With a usable name, the only other refusal is the 500 "Failed to create employee". |
| `EmployeeViews.CreateEmployeeDefaults` | backend/api/views_employees.py:207-213 | With only a name sent, position and contact are empty, the rate is 0 and the status is "active". |
| `EmployeeViews.PatchEmployee` | backend/api/views_employees.py:245-258 | A field changes only when its key is sent with a non-null value. Text fields are trimmed and the status is lower-cased. The rate is kept when `float()` fails. |
| `EmployeeViews.PatchEmployeeIdempotent` | backend/api/views_employees.py:245-258 | Applying the same update twice equals applying it once. |
| `EmployeeViews.PatchEmployeeEmpty` | backend/api/views_employees.py:245-258 | An empty payload leaves the record unchanged. |
| `EmployeeViews.UpdateEmployee` | backend/api/views_employees.py:220-263 | A missing row gives 404 and a refused actor 403; otherwise the result is the patched record. The record is saved exactly when some field was sent with a non-null value. |
| `EmployeeViews.CreateSchedule` | backend/api/views_employees.py:324-345 | It succeeds exactly when an employee id is sent, the day is one of the seven DAYS, both times parse with start before end, and the employee exists. Every created entry is valid. The error order follows the code. (DAYS: views_employees.py:19-27.) |
| `EmployeeViews.CreateScheduleNeedsOrder` | backend/api/views_employees.py:329-338 | For every payload with an employee id and a valid day whose two times parse, an end not after the start is refused with 400 "Invalid start/end time", whatever the employee lookup would say. |
| `EmployeeViews.CreateScheduleSameTimes` | backend/api/views_employees.py:329-338 | Sending the same `HH:MM` time as start and end is refused with 400. |
| `EmployeeViews.UpdateSchedule` | backend/api/views_employees.py:350-397 | Without permission the request gets 403; a missing entry gets 404. The update is accepted exactly when every per-key check passes and the merged entry starts before it ends, and the result is then the merged entry. Each failing check gets its own code, in the coded order: 404 for an unknown employee, then 400 for the day, the start time, the end time, and the order of the two. A valid entry stays valid. |
| `EmployeeViews.MergedEntry` | backend/api/views_employees.py:372-390 | Each of employee, day, start and end is the sent, checked value when sent truthy, else the stored one. |
| `EmployeeViews.MergedKeepsValid` | backend/api/views_employees.py:372-392 | Merging checked keys into a valid entry gives a valid entry once the start is before the end. |
| `EmployeeViews.MergedNothingSent` | backend/api/views_employees.py:372-390 | An update that sends nothing leaves the entry as it was. |
| `AttendanceViews.MakeTime` | backend/api/views_attendance.py:46 | A result is a valid time whose hour and minute are the integers read. |
| `AttendanceViews.ParseTimeLenient` | backend/api/views_attendance.py:30-48 | A result is a valid time. Text without a colon is refused. |
| `AttendanceViews.LenientOfSegments` | backend/api/views_attendance.py:38-46 | Numerals joined by colons read as the first three segments, with second 0 when there are only two. |
| `AttendanceViews.MakeTimeOfNumerals` | backend/api/views_attendance.py:46 | On numerals, the time exists exactly when the values are in range, and it is made of those values. |
| `AttendanceViews.LenientOfFormat` | backend/api/views_attendance.py:30-48 | The `HH:MM` text of a time reads back as that time at second 0. |
| `AttendanceViews.TimeToStrOfParsed` | backend/api/views_attendance.py:51-62 | For `h:m` of at most two digits each that parses, `_time_to_str` of the text equals the formatting of the parsed time. |
| `AttendanceViews.LenientOfTwoSegments` | backend/api/views_attendance.py:41-43 | Two numeral segments read with second "0". |
| `AttendanceViews.MakeTimeReadsNumerals` | backend/api/views_attendance.py:46 | The hour and minute made from numerals are their decimal values. |
| `AttendanceViews.ParsedNumerals` | backend/api/views_attendance.py:30-48 | A parsed `h:m` has the numerals' decimal values as hour and minute. |
| `AttendanceViews.TimeTextOfNumerals` | backend/api/views_attendance.py:58-60 | `_time_to_str` of `h:m` zero-fills both parts to width 2. |
| `AttendanceViews.StaffMerge` | backend/api/views_attendance.py:255-269 | Staff fill only empty check-in and check-out slots, and never overwrite a filled one. Notes change only when non-empty. The status becomes the forced one exactly when an empty check-in is filled, and stays otherwise. |
| `AttendanceViews.StaffMergeKeepsFilled` | backend/api/views_attendance.py:257-263 | Once filled, a staff check-in survives any later staff post. |
| `AttendanceViews.ManagerMerge` | backend/api/views_attendance.py:271-286 | Managers overwrite exactly the fields whose keys are sent, and the status only when it is non-empty. |
| `AttendanceViews.PostTarget` | backend/api/views_attendance.py:201-233 | Staff post only for their directly linked profile: with no link the post gets 403 "No employee profile found". A staff post is accepted exactly when that link exists and the employee id, if sent, is one of its variants; a foreign id gets 403 "Forbidden". Managers must send an employee id (400 without) naming an existing employee (404 otherwise), and are accepted exactly then. |
| `AttendanceViews.MergeExisting` | backend/api/views_attendance.py:255-286 | The merge applied to an existing record is the manager rule for managers and the staff rule for staff. |
| `AttendanceViews.AttendancePost` | backend/api/views_attendance.py:201-287 | A post is accepted exactly when the date is readable, the target is accepted and the status can be lower-cased. Each refusal has its code in the coded order: 403 for staff without a profile, 400 without a date, the target's own refusal, and 500 for an unreadable status. A refused post leaves the table unchanged. An accepted post appends a new record for that employee and day with the sent values, or merges into the existing one by the staff or the manager rule. |
| `AttendanceViews.StaffPostKeepsCheckIn` | backend/api/views_attendance.py:233-237 | A staff post (status forced to "present") never changes a filled check-in. |
| `AttendanceViews.AttendanceEdit` | backend/api/views_attendance.py:293-356 | A missing record gives 404. An edit of an existing record is accepted exactly when the manager's employee and date checks pass, or, for staff, when the record is their own and they send checkIn, checkOut or notes. Staff editing another's record get 403 "Forbidden"; a manager's unknown employee gets 404 and an unreadable date 400. A record is the staff member's own when its employee is among the id variants of their own employee id, found with fall-back on the variants of the actor's id. The check times follow the keys sent. Notes and status follow the staff rule or the manager rule. |
| `AttendanceViews.ManagerEdit` | backend/api/views_attendance.py:321-341 | A manager's edit fails exactly when a sent employee id is unknown (404, checked first) or a sent date does not parse (400 "Invalid date"). Otherwise the record takes the looked-up employee and the parsed date, and the remaining fields follow `ManagerFields`. |
| `AttendanceViews.ManagerFields` | backend/api/views_attendance.py:332-339 | Check-in and check-out follow the keys sent. The status is the lower-cased text when sent truthy, the notes the text when sent non-null. Employee and date are kept. |
| `AttendanceViews.LeaveTarget` | backend/api/views_attendance.py:398-421 | Staff get the profile found by link, then e-mail, then name. Managers get the employee they name, when it exists. |
| `AttendanceViews.LeaveLabels` | backend/api/views_attendance.py:427-429 | The type is the sent type lower-cased, or "other" when not sent truthy. A manager's status is the sent status lower-cased, or "pending"; a staff leave is always "pending". Both are lower case. It fails with 500 exactly when a truthy type, or a manager's truthy status, is not text. |
| `AttendanceViews.LowerLabel` | backend/api/views_attendance.py:427-429 | `(value or default).lower()` fails exactly for a truthy non-text value; otherwise it is the sent text lower-cased, or the (lower-case) default. |
| `Clock.FirstTwoParts` | backend/api/views_employees.py:62-64 | Splitting `h:m…` at ':' gives h and then m as the first two parts. |
| `AttendanceViews.CreateLeave` | backend/api/views_attendance.py:385-433 | A leave is created exactly when an employee id is sent, both dates are readable with end ≥ start, the target is found and the labels can be lower-cased. Missing fields get 400, an end before the start gets 400, an unfound target its own refusal, unreadable labels 500. A created leave starts undecided, with the target, the labels and the sent reason (`reason or ''`). |
| `AttendanceViews.StaffLeaveIsPending` | backend/api/views_attendance.py:428-429 | A staff request is stored as pending, whatever status it carries. |
| `AttendanceViews.PatchLeaveRefs` | backend/api/views_attendance.py:457-471 | It fails exactly when `RefsError` names a failed check, and then with that error. Otherwise the leave is `PatchedRefs`: employee, start and end change only when sent truthy, to the looked-up or parsed value. |
| `AttendanceViews.RefsError` | backend/api/views_attendance.py:457-471 | No error exactly when every sent employee id resolves and every sent start and end date parses. An unknown employee is reported first with 404. Otherwise the error is 400 "Invalid startDate" or "Invalid endDate". |
| `AttendanceViews.PatchedRefs` | backend/api/views_attendance.py:457-471 | Each sent truthy employee id, start and end date takes its looked-up or parsed value; everything else is kept. |
| `AttendanceViews.PatchLeaveLabels` | backend/api/views_attendance.py:474-481 | The type changes when sent. Setting a status also stamps decided_by (the e-mail, else the name) and the time. The reason changes when sent non-null. |
| `AttendanceViews.PatchLeaveLabelsIdempotent` | backend/api/views_attendance.py:474-481 | Sending the same labels twice equals sending them once. |
| `AttendanceViews.UpdateLeave` | backend/api/views_attendance.py:439-483 | Without permission the request gets 403; a missing leave gets 404. An update of an existing leave by a manager is accepted exactly when its references pass and the patched leave does not end before it starts. A failing reference gives its own error, and a reversed range gives 400. The result is the patched references with the labels patched on top. |
| `EmployeeRef.Resolve` | backend/api/utils_employees.py:12-65 | A missing actor gives nothing. A direct hit is a row linked to the actor. A fallback hit happens only when fallback is allowed, and names an existing row id. |
| `EmployeeRef.ActorVariants` | backend/api/utils_employees.py:47 | The id variants are those of the actor's id, and there are none without an id. |
| `EmployeeRef.ResolveFallback` | backend/api/utils_employees.py:47-65 | The fallback answers with a row id or nothing, never a row object. |
| `EmployeeRef.FallbackIsFirstTier` | backend/api/utils_employees.py:47-63 | The fallback answer comes from the first non-empty tier (id variants, then e-mail, then name), at that tier's first row. |
| `EmployeeRef.ResolveIsFirstTier` | backend/api/utils_employees.py:23-63 | The overall answer is the first row of the first non-empty tier, the direct link first. |
| `EmployeeRef.DirectLinkWins` | backend/api/utils_employees.py:23-31 | When a row is linked to the actor, the direct relation answers before any fallback. |
| `EmployeeRef.NoFallbackNoLink` | backend/api/utils_employees.py:33-34 | With fallback off and no linked row, the answer is nothing. |
| `EmployeeRef.EmailBeforeName` | backend/api/utils_employees.py:53-63 | With no link and no variant match, a contact equal to the e-mail wins over any name match. |
| `EmployeeRef.LeaveEmployee` | backend/api/views_attendance.py:399-417 | The profile the leave handler finds is one of the rows. |
| `EmployeeRef.LeaveEmployeeAgrees` | backend/api/views_attendance.py:399-417 | The leave handler's own search finds the same employee id as the shared resolver with no id variants. |
| `EmployeeRef.FallbackAgrees` | backend/api/utils_employees.py:53-63 | Without a direct link, the fallback of the shared resolver agrees with the leave handler's e-mail and name search. |
| `Clock.BeforeIsSecondOrder` | backend/api/views_employees.py:337 | Comparing times is comparing seconds since midnight. |
| `Clock.Two` | backend/api/views_employees.py:57 | The two-digit rendering of a number below 100 reads back as that number. |
| `Clock.TwoUnique` | backend/api/views_employees.py:57 | Every two-digit numeral is the rendering of its value. |
| `Clock.FormatHHMM` | backend/api/views_employees.py:56-57 | `strftime("%H:%M")` gives five characters whose two digit pairs read as the hour and the minute. |
| `Clock.ZFillTwo` | backend/api/views_employees.py:64 | Zero-filling a one- or two-digit numeral gives the two-digit rendering of its value. |
| `Clock.TimeToStr` | backend/api/views_employees.py:55-66 | A time is formatted `HH:MM`. Blank text gives nothing. Text without a colon comes back trimmed. Anything else gives nothing. |
| `Clock.TimeToStrOfParts` | backend/api/views_employees.py:55-66 | For any text whose trimmed form is `h:m` followed by nothing or by more colon parts, the result is `h` and `m` each zero-filled to width two and joined by ':' ("8:5:30" gives "08:05"). |
| `Clock.TimeToStrOfFormatted` | backend/api/views_attendance.py:51-62 | Formatting the `HH:MM` text of a time equals formatting the time itself. |
| `Clock.ParseDate` | backend/api/views_attendance.py:21-27 | A result is a valid calendar date whose year is the four digits before the first dash. |
| `Clock.Four` | backend/api/views_attendance.py:25 | The four-digit rendering of a year reads back as that year. |
| `Clock.FormatDate` | backend/api/views_attendance.py:25 | `YYYY-MM-DD` has ten characters. |
| `Clock.ParseIsoText` | backend/api/views_attendance.py:25 | Four digits, a dash, two digits, a dash and two digits parse exactly when they name a valid date. |
| `Clock.ParseFormatDate` | backend/api/views_attendance.py:21-27 | Every valid date parses back from its ISO text. |
| `Py.Get` | backend/api/views_employees.py:201 | `payload.get(k)` is the sent value, or `None` when the key is absent. |
| `Py.Or` | backend/api/views_employees.py:201 | `a or b` is truthy exactly when one side is, and it is `a` when `a` is truthy. |
| `Py.StrOr` | backend/api/views_attendance.py:238 | A non-empty string is kept, and a falsy value gives the default. |
| `Py.TextOr` | backend/api/views_employees.py:201 | The same, with failure where a truthy non-string has no `.strip()`. |
| `Py.ParseFloat` | backend/api/views_employees.py:210 | `float()` accepts only text that is non-blank once trimmed. |
| `Py.ParseFloatDigits` | backend/api/views_employees.py:252 | A numeral is read as its decimal value. |
| `Py.ToFloatAgreesWithInt` | backend/api/views_employees.py:252 | A numeral sent as text and the same number sent as an integer give the same rate. |
| `Py.ParseFloatRejects` | backend/api/views_employees.py:252-254 | Text with a character that is not a digit, sign, point or space is refused. |
| `Py.DecimalBodyChars` | backend/api/views_employees.py:252 | A decimal body holds only digits and points. |
| `Query.KeptPairs` | src/api/services/menuService.js:86-88 | At most one pair per parameter. |
| `Query.AppendKept` | src/api/services/employeeService.js:20-24 | The append loop builds exactly the kept pairs, in order. |
| `Query.KeptPairsMembers` | src/api/services/employeeService.js:20-24 | A parameter with a usable value is sent as `String(value)`. A key all of whose values are undefined, null or '' is not sent. |
| `Query.QueryText` | src/api/services/employeeService.js:25 | The query text is empty exactly when there are no pairs. |
| `CateringModal.Toggle` | mobile/src/components/ScheduleCateringModal.jsx:36-46 | The toggled id is selected afterwards exactly when it was not before, and no other id changes. A new id is appended at the end. A selected id is removed by an order-preserving filter, every copy of it going. |
| `CateringModal.FilterAbsent` | mobile/src/components/ScheduleCateringModal.jsx:42 | Filtering out an id that is not there changes nothing. |
| `CateringModal.ToggleTwice` | mobile/src/components/ScheduleCateringModal.jsx:36-46 | Toggling twice restores membership, and restores the exact list when the id was not selected. |
| `CateringModal.GroupByCategory` | mobile/src/components/ScheduleCateringModal.jsx:58-63 | The push loop builds one bucket per category present ('Others' for none), holding that category's items in menu order, and creates the buckets in the order of `CategoryOrder`. |
| `CateringModal.CategoryOrderMembers` | mobile/src/components/ScheduleCateringModal.jsx:58-63 | The bucket order lists every category of the menu, each once. |
| `CateringModal.CategoryOrderIsFirstAppearance` | mobile/src/components/ScheduleCateringModal.jsx:58-63 | A category listed earlier has its first menu item earlier in the menu. |
| `CateringModal.SortGroups` | mobile/src/components/ScheduleCateringModal.jsx:64-66 | Every bucket is sorted by price, and no bucket is added or lost. |
| `CateringModal.CategorizedMenu` | mobile/src/components/ScheduleCateringModal.jsx:57-68 | The result is the grouped, price-sorted menu, with its keys in the order of first appearance that `Object.keys` gives the screen. |
| `CateringModal.PriceLeTotal` | mobile/src/components/ScheduleCateringModal.jsx:65 | The price comparison is a total preorder. |
| `CateringModal.ItemInOwnGroup` | mobile/src/components/ScheduleCateringModal.jsx:57-68 | Every menu item appears in its own category's group. |
| `CateringModal.GroupIsItsCategory` | mobile/src/components/ScheduleCateringModal.jsx:57-68 | A group holds exactly the items of its category, as a reordering of them, sorted by ascending price. |
| `CateringModal.BlurQuantity` | mobile/src/components/ScheduleCateringModal.jsx:337-338 | The quantity is at least 1. It is the typed number when that is positive, and 1 when the text is missing, empty or zero. |
| `CateringModal.BlurQuantityStable` | mobile/src/components/ScheduleCateringModal.jsx:336-341 | Blurring the text a blur wrote gives the same quantity back. |
| `CateringModal.QuantityField.constructor` | mobile/src/components/ScheduleCateringModal.jsx:330 | A row starts with no typed text and its given quantity. |
| `CateringModal.QuantityField.Shown` | mobile/src/components/ScheduleCateringModal.jsx:330 | The input shows the typed text, or '1' when there is none. |
| `CateringModal.QuantityField.OnChangeText` | mobile/src/components/ScheduleCateringModal.jsx:331-335 | The text keeps exactly the digits typed. The quantity is untouched. |
| `CateringModal.QuantityField.OnBlur` | mobile/src/components/ScheduleCateringModal.jsx:336-342 | The quantity becomes the blurred value, at least 1, and the text becomes its numeral. |
| `CateringModal.DisplayHour` | mobile/src/components/ScheduleCateringModal.jsx:248 | The display hour is in 1..12 and agrees with the hour modulo 12. |
| `CateringModal.Meridiem` | mobile/src/components/ScheduleCateringModal.jsx:247 | The suffix is AM exactly when the hour is below 12. |
| `CateringModal.TwelveHourRoundTrip` | mobile/src/components/ScheduleCateringModal.jsx:245-251 | The 12-hour reading with its suffix gives back the 24-hour hour. |
| `CateringModal.PadStartTwo` | mobile/src/components/ScheduleCateringModal.jsx:249-254 | `padStart(2, '0')` of a number below 100 is its two-digit rendering. |
| `CateringModal.PickTime` | mobile/src/components/ScheduleCateringModal.jsx:245-254 | The backend text is the zero-padded `HH:MM`. The display text is `h:MM AM/PM`. |
| `CateringModal.OnTimePicked` | mobile/src/components/ScheduleCateringModal.jsx:241-258 | A dismissed picker changes nothing. A picked time writes the display text and the `HH:MM` twin, and touches no other field. |
| `CateringModal.MissingOf` | mobile/src/components/ScheduleCateringModal.jsx:83-85 | The missing list holds exactly the required fields that are absent or blank after trim, and it is empty exactly when none is. |
| `CateringModal.PickedTimeIsFilled` | mobile/src/components/ScheduleCateringModal.jsx:252-257 | A picked time fills its required `24` field. |
| `CateringModal.LineItems` | mobile/src/components/ScheduleCateringModal.jsx:97-106 | There is one line item per selected id, in selection order, snapshotting the first menu row with that id. There are none when an id has no row. |
| `CateringModal.Total` | mobile/src/components/ScheduleCateringModal.jsx:108-111 | The total is a number exactly when every line carries a quantity. |
| `CateringModal.TotalAppend` | mobile/src/components/ScheduleCateringModal.jsx:108-111 | The total of two runs of lines is the sum of their totals. |
| `CateringModal.TotalNonNegative` | mobile/src/components/ScheduleCateringModal.jsx:108-111 | Non-negative prices and quantities give a non-negative total. |
| `CateringModal.DownPayment` | mobile/src/components/ScheduleCateringModal.jsx:113 | The down payment is exactly half the total (no rounding), and lies between 0 and the total. |
| `CateringModal.Submit` | mobile/src/components/ScheduleCateringModal.jsx:70-139 | Missing fields are refused first, then an empty selection, and these are the only refusals. An unknown id throws. The prompt comes exactly in the remaining case. Its payload carries the event name, client, date, location, contact name and phone, and notes as entered; the line items, their total, and half the total as paid amount; the attendee count as a number; and the 24-hour times. |
| `CateringModal.SubmitTotalDefined` | mobile/src/components/ScheduleCateringModal.jsx:108-113 | When every menu row carries a quantity, the total and the down payment are numbers. |
| `CateringModal.ResetForm` | mobile/src/components/ScheduleCateringModal.jsx:149-161 | After a booking the client is kept and the selection emptied. The form has exactly the literal's keys, and every one but client is ''. The 24-hour twins are gone, so every other required field is blank. |
| `CateringModal.ResetFormIsRefused` | mobile/src/components/ScheduleCateringModal.jsx:149-161 | A reset form is refused for missing fields. |
| `MenuStore.FirstImage` | src/hooks/useMenuManagement.js:14-20 | The image is empty exactly when none of the keys holds a non-empty string. |
| `MenuStore.FirstImageIsFirst` | src/hooks/useMenuManagement.js:14-20 | A found image is the first non-empty string in key order. |
| `MenuStore.Overrides` | src/hooks/useMenuManagement.js:33-38 | The spread overrides exactly category, image and imageUrl. |
| `MenuStore.NormalizeForState` | src/hooks/useMenuManagement.js:12-39 | A falsy item gives null. Otherwise image and imageUrl are both the first image found. When none is found they are `item.image \|\| item.imageUrl \|\| ''` and `item.imageUrl \|\| item.image \|\| ''`. The category is the string, or the object's first truthy name, label, title, slug or id. Every other property is kept. |
| `MenuStore.Placed` | src/hooks/useMenuManagement.js:46-55 | An item whose id matches an element is merged into that element, in place: the length is kept and every other element is unchanged. Otherwise the item is prepended. |
| `MenuStore.Upserted` | src/hooks/useMenuManagement.js:41-59 | A falsy incoming item changes nothing. Otherwise its normalised form is placed. |
| `MenuStore.NormalizedDistinct` | src/hooks/useMenuManagement.js:33-38 | The normalised object has no duplicate keys. |
| `MenuStore.PlacedHolds` | src/hooks/useMenuManagement.js:50-55 | The element where the item lands carries its id and every property the item was sent with. |
| `MenuStore.UpsertedHolds` | src/hooks/useMenuManagement.js:41-59 | The same holds after an upsert, because normalising keeps the keys distinct. |
| `MenuStore.Removed` | src/hooks/useMenuManagement.js:185 | Every item with the id is removed, and the rest are kept. The length drops by the number removed. |
| `MenuStore.FilterCountsComplement` | src/hooks/useMenuManagement.js:185 | Kept items plus removed items make up the whole list. |
| `MenuStore.WithAvailability` | src/hooks/useMenuManagement.js:255-259 | Only matching items change, and only their `available` property. |
| `MenuStore.WithImage` | src/hooks/useMenuManagement.js:283-293 | Only matching items change, and only their image and imageUrl. |
| `MenuStore.MenuList.constructor` | src/hooks/useMenuManagement.js:6 | The list starts empty, and the archived-view flag is read from the parameters. |
| `MenuStore.MenuList.Load` | src/hooks/useMenuManagement.js:92-98 | After a fetch, the list is the fetched items, each normalised. |
| `MenuStore.MenuList.Upsert` | src/hooks/useMenuManagement.js:41-59 | Copy the list, then merge at the found index or prepend; the result is the upsert specification. |
| `MenuStore.MenuList.Created` | src/hooks/useMenuManagement.js:122-123 | A created item is upserted. |
| `MenuStore.MenuList.Updated` | src/hooks/useMenuManagement.js:153-154 | An updated item is upserted under its id. |
| `MenuStore.MenuList.Archived` | src/hooks/useMenuManagement.js:184-185 | An archived item is removed. |
| `MenuStore.MenuList.Restored` | src/hooks/useMenuManagement.js:215-222 | In the archived view, the restored item is removed; otherwise it is upserted. |
| `MenuStore.MenuList.AvailabilityChanged` | src/hooks/useMenuManagement.js:254-259 | The availability update is applied. |
| `MenuStore.MenuList.ImageUploaded` | src/hooks/useMenuManagement.js:282-293 | The uploaded URL is written on matching items. |
| `MenuStore.Keys` | src/hooks/useMenuManagement.js:65 | The keys of the parameters, in order. |
| `MenuStore.ParamKey` | src/hooks/useMenuManagement.js:62-76 | The loop builds the object of sorted keys with empty values dropped. |
| `MenuStore.CollectLookup` | src/hooks/useMenuManagement.js:67-70 | A key maps to its value exactly when it is listed and its value is usable. |
| `MenuStore.ParamObjectLookup` | src/hooks/useMenuManagement.js:62-76 | The key object holds exactly the usable parameters. |
| `MenuStore.ParamObjectOrderFree` | src/hooks/useMenuManagement.js:62-76 | Parameter lists with the same entries in any order give the same key, so refetching does not depend on order. |
| `MenuStore.CollectSameValues` | src/hooks/useMenuManagement.js:67-70 | Lists that agree on every lookup collect to the same object. |
| `MenuStore.IsArchivedView` | src/hooks/useMenuManagement.js:78-83 | An absent or empty flag gives false. A boolean flag gives itself. A string flag gives whether it equals "true" ignoring case. |
| `MenuStore.ArchivedIgnoresCase` | src/hooks/useMenuManagement.js:82 | Flags equal up to case give the same view. |
| `MenuService.AbsoluteUrl` | src/api/services/menuService.js:24-34 | A non-string or empty value gives ''. A `blob:`, `data:`, `http://` or `https://` URL (any case) is kept. Any other path gains a leading '/' when it lacks one, and is prefixed by the origin when the origin is non-empty. |
| `MenuService.StartsWithFoldedExtends` | src/api/services/menuService.js:26 | The prefix test looks only at the prefix. |
| `MenuService.AbsoluteUrlIdempotent` | src/api/services/menuService.js:24-34 | Absolutising twice equals absolutising once. |
| `MenuService.PickUrl` | src/api/services/menuService.js:36-63 | The loop with its early return and recursion returns the specified first URL. |
| `MenuService.UrlFromFirstString` | src/api/services/menuService.js:53-56 | A non-empty string under an earlier key wins over anything under later keys. |
| `MenuService.UrlFromNone` | src/api/services/menuService.js:53-62 | With no truthy value under the keys, the result is ''. |
| `MenuService.CategoryName` | src/api/services/menuService.js:68-74 | A string category is kept. An object with a truthy name gives the name. Anything else that is not a string gives text. |
| `MenuService.CategoryNameFallbacks` | src/api/services/menuService.js:68-74 | For an object, or null, the result is the first truthy of name, label, title, slug and id, else ''. For any other non-string the result is `String(cat \|\| '')`: '' when falsy, else its text. |
| `Js.FirstTruthy` | src/api/services/menuService.js:73 | The value of a chain of `\|\|` ending in '' is '' when every value is falsy, and otherwise one of the truthy values. |
| `Js.FirstTruthyAt` | src/api/services/menuService.js:73 | The value chosen is the first truthy one. |
| `MenuService.NormalizeMenuItem` | src/api/services/menuService.js:65-81 | A non-object is returned unchanged. An object gets image and imageUrl set to the same absolutised URL when one is found, and otherwise to `item.image \|\| item.imageUrl \|\| ''` and `item.imageUrl \|\| item.image \|\| ''`. Its category is named. |
| `MenuService.OverrideThree` | src/api/services/menuService.js:75-80 | The spread overrides category, image and imageUrl and keeps every other key. |
| `MenuService.GetMenuItems` | src/api/services/menuService.js:84-107 | The query drops unusable parameters. A non-array list gives empty data. Array items are normalised. The default pagination is page 1, limit = total = the list length, totalPages 1. |
| `MenuService.CacheBust` | src/api/services/menuService.js:234-236 | An empty URL stays ''. Otherwise `v=<stamp>` is appended with '&' when the URL already has a '?', else with '?'. |
| `MenuService.CacheBustStartsQuery` | src/api/services/menuService.js:234-236 | For a URL without a query, the query starts right after the URL. |
| `MenuService.UploadedImageUrl` | src/api/services/menuService.js:173-237 | A missing id or file is refused with its message. Otherwise the result is the cache-busted absolute URL picked from the reply. |
| `EmployeeService.NumberOfFirst` | src/api/services/employeeService.js:9-11 | `Number(a ?? b ?? c ?? d)` reads the first non-nullish value, else the default. |
| `EmployeeService.StatusText` | src/api/services/employeeService.js:13 | The status is the lower-cased text, "active" when falsy, and fails for a truthy non-string. |
| `EmployeeService.NormalizeEmployee` | src/api/services/employeeService.js:4-16 | Normalisation fails exactly on null or a truthy non-string status. |
| `EmployeeService.NormalizeDefaults` | src/api/services/employeeService.js:4-16 | The id is kept. Truthy name, position, contact and avatar are kept; missing ones become '', '', '' and '/placeholder.svg'. The status is the sent status lower-cased, else 'active'. The rate is the first non-nullish of hourlyRate, hourly_rate and rate, else 0. |
| `EmployeeService.NormalizedIsNormal` | src/api/services/employeeService.js:4-16 | A normalised record is in normal form. |
| `EmployeeService.NormalFixed` | src/api/services/employeeService.js:4-16 | Normalising a record in normal form gives it back. |
| `EmployeeService.NormalizeIdempotent` | src/api/services/employeeService.js:4-16 | Normalising twice equals normalising once. |
| `EmployeeService.BuildQueryString` | src/api/services/employeeService.js:18-27 | The query is '' exactly when no parameter survives the filter; otherwise it is '?' followed by the query. |
| `EmployeeService.DefaultLimit` | src/api/services/employeeService.js:69-72 | The limit becomes 500 only when it is undefined or null. Every other key is kept. |
| `EmployeeService.BlankLimitNotSent` | src/api/services/employeeService.js:69-72 | A limit of '' is kept as it is, so no limit is sent. |
| `EmployeeService.MissingLimitSent` | src/api/services/employeeService.js:69-72 | A missing limit is sent as `limit=500`. |
| `EmployeeService.FirstArray` | src/api/services/employeeService.js:34-42 | The container is the first array among the candidates, else []. |
| `EmployeeService.NormalizeAll` | src/api/services/employeeService.js:43 | Every item is normalised, in order. |
| `EmployeeService.PaginationOf` | src/api/services/employeeService.js:44-64 | Pagination exists exactly when the raw block is truthy. Each number falls back in the coded order. |
| `EmployeeService.FetchPage` | src/api/services/employeeService.js:29-66 | The page holds the normalised container and the pagination read from the reply. |
| `EmployeeService.GetEmployees` | src/api/services/employeeService.js:68-75 | The request carries the defaulted limit. The result is the normalised employees. |
| `EmployeeService.Limit` | src/api/services/employeeService.js:78-81 | The limit is the given positive number, else 200. |
| `EmployeeService.Fetched` | src/api/services/employeeService.js:86-90 | There is one fetched page per reply. |
| `EmployeeService.GetAllEmployees` | src/api/services/employeeService.js:77-100 | The result and the pages requested are those of the page walk, starting at `params.page` or 1, with the limit above. |
| `EmployeeService.WalkPages` | src/api/services/employeeService.js:86-97 | The `while` loop gathers exactly the aggregate of the pages and requests them as specified. |
| `EmployeeService.FetchedAt` | src/api/services/employeeService.js:86-90 | The i-th reply is read as page start+i. |
| `EmployeeService.AggregateStep` | src/api/services/employeeService.js:91-96 | A failed page ends the walk. The walk stops when totalPages is missing or 0, the page is the last one, or a page is short; otherwise it continues at the next page with this page's employees in front. |
| `EmployeeService.PrependTwice` | src/api/services/employeeService.js:91 | Pushing two pages in turn equals pushing their concatenation. |
| `EmployeeService.RequestedConsecutive` | src/api/services/employeeService.js:83-96 | The pages requested are consecutive from the start page. |
| `EmployeeService.FullPagesBeforeLast` | src/api/services/employeeService.js:93-95 | Every page before the last was full, so the result holds at least limit × (pages − 1) employees. |
| `EmployeeService.CreatePayload` | src/api/services/employeeService.js:103-109 | Name, position and contact are the sent values when truthy, else ''. The rate is `Number(hourlyRate ?? 0)`. The status is the sent status lower-cased, or 'active'. It fails exactly for a truthy non-string status. |
| `EmployeeService.PayloadStatusStable` | src/api/services/employeeService.js:108 | The status sent is already normal. |
| `EmployeeService.CreateEmployee` | src/api/services/employeeService.js:102-115 | Creation sends the payload and returns the normalised reply (its `data`, else the reply itself). |
| `Registration.With` | mobile/src/app/account-registration.jsx:88 | The named field takes the value, and every other field is kept. |
| `Registration.EmailLikeNotBlank` | mobile/src/app/account-registration.jsx:97 | Text that matches the e-mail pattern is not blank. |
| `Registration.NoFailureIffValid` | mobile/src/app/account-registration.jsx:92-103 | No field fails exactly when the form is valid. |
| `Registration.ValidateForm` | mobile/src/app/account-registration.jsx:92-103 | A key is present exactly for each failing field, holding that field's message. |
| `Registration.NoErrorsIffValid` | mobile/src/app/account-registration.jsx:105-108 | Validation reports nothing exactly when the form is valid. |
| `Registration.Screen.constructor` | mobile/src/app/account-registration.jsx:87-90 | The screen starts with an empty form, no errors and not loading. |
| `Registration.Screen.HandleChange` | mobile/src/app/account-registration.jsx:87-90 | One field is set and only that field's error is cleared. |
| `Registration.Screen.HandleRegister` | mobile/src/app/account-registration.jsx:105-143 | The register call is made exactly when the form is valid, with the form's fields. An invalid form keeps its text and shows the failing fields. On success every field resets to ''. Server field errors replace the messages. Other failures clear them. Loading is off afterwards. |
| `Registration.Score` | mobile/src/app/account-registration.jsx:147-151 | At most four criteria are met. |
| `Registration.LabelOf` | mobile/src/app/account-registration.jsx:153-155 | A score of at most 1 is Weak, 2 is Medium, and 3 or more is Strong. |
| `Registration.PasswordStrength` | mobile/src/app/account-registration.jsx:146-156 | The counting method gives the label of the criteria met. |
| `Registration.StrengthGrowsWithTyping` | mobile/src/app/account-registration.jsx:146-156 | Typing more never lowers the score or the label. |
| `Registration.ConfirmMatch` | mobile/src/app/account-registration.jsx:159-164 | There is no hint while the confirmation is empty. Otherwise the hint says match exactly when the confirmation check passes. |
| `Recommended.MissingAvailabilityShown` | mobile/src/components/Recommended.jsx:34 | An entry without `available` is shown unless archived. |
| `Recommended.FiniteOrNull` | mobile/src/components/Recommended.jsx:36-43 | A number is kept exactly when present and numeric, else null. |
| `Recommended.ToCard` | mobile/src/components/Recommended.jsx:45-53 | The id is the item's id, else `recommended-<index>`. The title is name, then title, then 'Menu Item'. The price is price ?? amount ?? 0. Rating and reviews are the number read when present and numeric, else null. The image is image, then thumbnail, then null. The description is the item's, else ''. |
| `Recommended.Visible` | mobile/src/components/Recommended.jsx:33-34 | The shown entries are kept, in order, and the rest dropped. |
| `Recommended.Data` | mobile/src/components/Recommended.jsx:32-55 | There is one card per shown entry, numbered by its shown position. |
| `Recommended.MapIndexed` | mobile/src/components/Recommended.jsx:35 | `map` with the index: one image per element, in order, each made from the element and its position. |
| `Recommended.MapIndexedSnoc` | mobile/src/components/Recommended.jsx:35 | Mapping one more element adds its image, numbered by its position, at the end. |
| `Recommended.DataAppend` | mobile/src/components/Recommended.jsx:32-55 | A hidden entry adds nothing. A shown one adds one card numbered after the others. |
| `Recommended.CardsFromShownEntries` | mobile/src/components/Recommended.jsx:33-35 | Every card comes from a shown entry. |
| `Recommended.FallbackIdsDistinct` | mobile/src/components/Recommended.jsx:46 | Cards without ids still get distinct ids. |
| `Recommended.NextIndex` | mobile/src/components/Recommended.jsx:62 | The next index stays below the length and wraps to 0 after the last card. |
| `Recommended.Ticks` | mobile/src/components/Recommended.jsx:60-68 | The index after any number of ticks is in range. |
| `Recommended.TicksShift` | mobile/src/components/Recommended.jsx:60-68 | k ticks move the index k places, modulo the length. |
| `Recommended.TicksCycle` | mobile/src/components/Recommended.jsx:60-68 | After one tick per card the slideshow is back where it started. |
| `Recommended.Carousel.constructor` | mobile/src/components/Recommended.jsx:28 | The carousel starts at card 0 with nothing focused. |
| `Recommended.Carousel.Tick` | mobile/src/components/Recommended.jsx:57-68 | The index advances only with no card focused and more than one card, and stays in range. |
| `Recommended.Carousel.LongPress` | mobile/src/components/Recommended.jsx:85-87 | Focusing a card stops the slideshow. |
| `Recommended.Carousel.ClosePopup` | mobile/src/components/Recommended.jsx:107 | The focus is cleared. |
| `AddEmployeePanel.FindOption` | src/components/employee-schedule/AddEmployeePanel.jsx:34 | An option is found exactly for the strings active, inactive and pending. |
| `AddEmployeePanel.ToneClass` | src/components/employee-schedule/AddEmployeePanel.jsx:33-36 | The matching option's tone, else the default class. |
| `AddEmployeePanel.BadgeLabel` | src/components/employee-schedule/AddEmployeePanel.jsx:242-244 | The matching option's label, else 'Unknown'. |
| `AddEmployeePanel.UnknownIffDefaultTone` | src/components/employee-schedule/AddEmployeePanel.jsx:33-36 | The badge reads Unknown exactly when it wears the default tone. |
| `AddEmployeePanel.NameKey` | src/components/employee-schedule/AddEmployeePanel.jsx:51 | The sort key is lower case, and '' for a missing name. |
| `AddEmployeePanel.SortedEmployees` | src/components/employee-schedule/AddEmployeePanel.jsx:49-55 | The sorted roster is a reordering of the roster, of the same length. Entries that are not `undefined` go through the comparator; the `undefined` ones follow them, as `Array.prototype.sort` places them. |
| `AddEmployeePanel.SortedEmployeesOrdered` | src/components/employee-schedule/AddEmployeePanel.jsx:49-55 | The first part holds exactly the entries that are not `undefined`, and their names never go down, ignoring case. Every later entry is `undefined`. |
| `AddEmployeePanel.SortedEmployeesParts` | src/components/employee-schedule/AddEmployeePanel.jsx:49-55 | The sorted roster is the compared entries, sorted, followed by the `undefined` ones. The sorted part has one entry per compared entry, contains no `undefined`, and is ordered by name. |
| `AddEmployeePanel.SortedEmployeesStable` | src/components/employee-schedule/AddEmployeePanel.jsx:49-55 | The sort is stable: the entries whose names are equal ignoring case ("Bob" and "bob") keep their roster order. |
| `AddEmployeePanel.TotalActive` | src/components/employee-schedule/AddEmployeePanel.jsx:57-60 | The count is the number of employees whose status is exactly 'active'. |
| `AddEmployeePanel.TotalActiveSortInvariant` | src/components/employee-schedule/AddEmployeePanel.jsx:49-60 | Sorting does not change the count. |
| `AddEmployeePanel.TotalActiveAppend` | src/components/employee-schedule/AddEmployeePanel.jsx:57-60 | One more employee raises the count exactly when it is active. |
| `AddEmployeePanel.RateOf` | src/components/employee-schedule/AddEmployeePanel.jsx:84 | An empty rate is 0. Anything else is read by `Number()`. |
| `AddEmployeePanel.SubmissionTrimmed` | src/components/employee-schedule/AddEmployeePanel.jsx:81-87 | The submitted name, position and contact are already trimmed. |
| `AddEmployeePanel.Panel.constructor` | src/components/employee-schedule/AddEmployeePanel.jsx:45-47 | The panel starts on DEFAULT_FORM, not saving, with nothing being deleted. |
| `AddEmployeePanel.Panel.HandleFieldChange` | src/components/employee-schedule/AddEmployeePanel.jsx:62-67 | Only the named input changes. |
| `AddEmployeePanel.Panel.HandleSubmit` | src/components/employee-schedule/AddEmployeePanel.jsx:71-94 | The submission is sent exactly with a callback and a non-blank name, so an enabled button always sends. The form resets only when the add succeeds, and saving is off afterwards. |
| `AddEmployeePanel.Panel.HandleDelete` | src/components/employee-schedule/AddEmployeePanel.jsx:96-112 | The delete is sent exactly with a truthy id, a callback and confirmation. deletingId is cleared afterwards. |
| `Feedback.Remaining` | mobile/src/app/screens/Feedback.jsx:56 | The counter plus the length is 500, and the counter is non-negative exactly within the limit. |
| `Feedback.ValidBounds` | mobile/src/app/screens/Feedback.jsx:57 | A valid text has between 10 and 500 characters. |
| `Feedback.HintOf` | mobile/src/app/screens/Feedback.jsx:175-177 | The hint says 'Looks good' exactly at 10 trimmed characters or more. Otherwise it asks for 10 minus the trimmed length. |
| `Feedback.HintAgreesWithValidity` | mobile/src/app/screens/Feedback.jsx:57 | Within the limit, the hint says 'Looks good' exactly when the text may be sent. |
| `Feedback.SentMessageValid` | mobile/src/app/screens/Feedback.jsx:64 | The trimmed message itself passes the screen's rules. |
| `Feedback.Screen.constructor` | mobile/src/app/screens/Feedback.jsx:52-54 | The screen starts with empty text, category 'Other' and not loading. |
| `Feedback.Screen.ChangeText` | mobile/src/app/screens/Feedback.jsx:151-157 | The input keeps at most the first 500 characters. |
| `Feedback.Screen.ChooseCategory` | mobile/src/app/screens/Feedback.jsx:142 | Only the category changes. |
| `Feedback.Screen.OnSend` | mobile/src/app/screens/Feedback.jsx:59-76 | A message is sent exactly when the text is valid. It is the trimmed text with its category, between 10 and 500 characters. Loading is off afterwards. |

## Left out

- `Recommended.Carousel`: the FlatList's `onScroll` handler is not modelled. It sets the active index to the scroll offset divided by the snap interval (70% of the window width plus 16), rounded. Here the index moves only by ticks. Scroll offsets and window widths are layout values outside the model.
- Network calls, database access, transactions, JSON encoding of responses, toasts, alerts, window events, router navigation, animations and timers are left out. Their outcomes are parameters of the handlers (a reply, an `added` or `confirmed` flag, a tick).
- Permission checks (`_has_permission`, the role test) are a `canManage` flag. `_identifier_variants` is a function parameter. `_actor_from_request` is not part of this model.
- The ORM lookups are modelled in two ways. `Employee.objects.filter(id=…)` is a lookup function. Table scans are first-match searches over a sequence of rows.
- The back ends' list (GET) branches are left out, apart from the pagination arithmetic. That includes their search and status filters and the `_safe_*` serialisers.
- The DELETE branches of the detail views are left out, and so is `deleteEmployee`/`updateEmployee` of the employee client service, which only forward the call.
- Request bodies that fail to decode are treated as the empty payload, as the code does. Payload values are `None`, booleans, integers and strings; lists and nested objects are not modelled.
- `EmployeeViews.CreateEmployee`: the HTTP 500 on a database failure is not modelled.
- `Py.ParseFloat`: exponents, `inf`, `nan` and underscores are not modelled. Fractions are read exactly as rationals.
- Text handling (trimming, case and digits) is ASCII only. Python's Unicode whitespace, Unicode digits in `int()`/`strptime` and full Unicode case folding are not modelled.
- `Feedback.Remaining`, `Feedback.IsValid`, `Feedback.HintOf` and `Feedback.Screen.ChangeText`: lengths count characters, not UTF-16 code units. A character outside the Basic Multilingual Plane (an emoji, say) counts once here and twice in JavaScript. So the 10-character minimum, the 500-character cut and the counter differ on such text: five emoji are too short here, but have length 10 in JavaScript and can be sent. A cut through the middle of a surrogate pair is not modelled.
- `Registration.Fails` and `Registration.Score`: the password's 6-character rule counts characters, not UTF-16 code units, with the same gap for characters outside the Basic Multilingual Plane.
- JavaScript numbers are modelled as integers, with NaN as `None`. Fractions and infinities are not modelled, except that catering prices and totals use `real`. The back end reads rates with `float()` as `real`. The client members this affects are listed below.
- `Js.StrToNumber`: only optionally signed decimal digits (and blank text, as 0) are read. Exponents ("1e3"), hexadecimal, octal and binary prefixes ("0x10"), and decimal points, even with a whole value ("12.0", "12."), give `None` (NaN) here, where `Number` reads them. Every client member that reads numbers from text shares this gap.
- `Recommended.ToCard`: a fractional price text such as "9.99" gives a `None` (NaN) price here, where `Number` gives 9.99.
- `Recommended.FiniteOrNull`: a fractional rating such as "4.5" gives null here, where JavaScript keeps 4.5. Reviews are read the same way.
- `AddEmployeePanel.RateOf`: a fractional rate text such as "12.5" gives `None` (NaN) here, where `Number` gives 12.5.
- `EmployeeService.CreatePayload`: the `hourlyRate` of a fractional rate is `None` (NaN) here, where JavaScript sends the fraction.
- `EmployeeService.NormalizeEmployee`: a fractional `hourlyRate` in a reply reads as `None` (NaN) here, where JavaScript keeps the fraction.
- `Js.StrictEq`: two objects or arrays are never strictly equal here, not even one value compared with itself, which JavaScript finds equal. The model keeps no object identities. Every comparison it makes with `===` is between ids or option values, which are primitives.
- `AddEmployeePanel.NameKey`: `localeCompare` with base sensitivity is modelled as ASCII lower-casing and code-point order. Locale collation is not modelled. A truthy name that is not a string has no `localeCompare`, so the comparator throws a TypeError there; the model sorts such a name by its `String()` text instead.
- `AddEmployeePanel.Panel.HandleDelete`: the confirmation is a parameter. Running without `window`, where the code confirms by itself, is the same as `confirmed = true`.
- Object key order for integer-like keys, which JavaScript lists first, is not modelled. Keys keep insertion order.
- `MenuService.AbsoluteUrl`: `new URL(path, origin)` is modelled as concatenation, with the origin as a parameter. `getBackendOrigin` (environment and `window`) is not part of this model, and neither is percent-encoding.
- `MenuService.UploadedImageUrl`: the FormData/base64 transport choice and its 4xx fallback are left out; the server reply is a parameter. `Date.now()` is the stamp parameter.
- Request details beyond the query text are left out: the retry options, `encodeURIComponent` of ids, `URLSearchParams` percent-encoding and `JSON.stringify` of the parameter key. The parameter key is modelled as the ordered object it stringifies.
- `MenuStore.Upserted`: `Js.Get` reads a property of null or undefined as undefined, as `?.` does. The hook's callbacks use plain `.` access (`it.id` in `findIndex`, `filter` and `map`). On a null entry, which `MenuList.Load` stores for a falsy element, that access throws a TypeError. The model reads such an entry as having no id. The same holds for `MenuStore.Removed`, `MenuStore.WithAvailability` and `MenuStore.WithImage`.
- `EmployeeViews.CreateSchedule`: with an employee id the database cannot compare (a non-numeric text), `Employee.objects.filter(id=…)` raises and the handler answers 500. The `employeeExists` parameter can only answer yes or no, so the model gives 404 there. `EmployeeViews.UpdateSchedule` and the attendance views' `lookup` parameters have the same gap.
- `MenuStore.MenuList.Load`: data that is not an array, or an empty array, is stored as returned, and this case is not modelled. `getMenuItemById`, `getCategories` and `createCategory` only forward a call and are not modelled.
- `EmployeeService.GetAllEmployees`: a `null` parameter object is not modelled (the parameters are a list of properties). The replies are a finite list, so a server that never ends the walk shows up as running out of replies.
- `MenuStore.IsArchivedView`: a numeric `archived` flag is read through `String()` like any other value. A NaN page in the query string is not modelled.
- `Registration.Screen.HandleRegister`: server field errors are limited to the six form fields. The order in which `validateForm` adds keys to its object is not modelled, since the result is one map.
- `Feedback.Screen.ChangeText`: the `maxLength` truncation is how the platform's text input behaves, and it is modelled as keeping the first 500 characters.
- `Recommended.FiniteOrNull`: infinite ratings are not modelled, since numbers are integers here.
- `CateringModal.Submit`: the alert texts, the payment callbacks around the down payment prompt and `toLocaleString` are left out. `handleQuantityChange` and `handleInputChange` are plain field updates and are not modelled separately.
- The date picker's `toISOString` conversion and `new Date()` defaults are left out.
- `CateringModal.LineItems`: `item.price || 0` is the price itself, because prices are `real` and never NaN here.
