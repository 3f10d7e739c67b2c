/**
 * The employee directory and weekly schedule endpoints: the strict H:M
 * time parser, list pagination, employee creation and update, and schedule
 * creation and update.
 */
module EmployeeViews {
  import opened Wrappers
  import opened Text
  import opened Py
  import opened Clock

  /** The seven day names a schedule entry may carry. */
  const Days: seq<string> := ["Sunday", "Monday", "Tuesday", "Wednesday", "Thursday", "Friday", "Saturday"]

  // ---------------------------------------------------------------------------
  // _parse_time: "H:M" only

  /**
   * Parses "H:M": exactly one cut at the first colon, both sides Python
   * integers, hour in 0..23 and minute in 0..59; the seconds are zero.
   */
  function ParseTimeStrict(v: Val): (r: Option<Time>)
    ensures r.Some? ==> ValidTime(r.value) && r.value.second == 0
  {
    var parts := SplitOnce(StrOr(v, ""), ':');
    if |parts| != 2 then None else ParseHourMinute(parts[0], parts[1])
  }

  /** Both sides read by int(), then range-checked as `time(hour=h, minute=m)` does. */
  function ParseHourMinute(hs: string, ms: string): (r: Option<Time>)
    ensures r.Some? ==> ValidTime(r.value) && r.value.second == 0
    ensures r.Some? ==> ParsePyInt(hs) == Some(r.value.hour) && ParsePyInt(ms) == Some(r.value.minute)
  {
    match ParsePyInt(hs)
    case None => None
    case Some(h) =>
      match ParsePyInt(ms)
      case None => None
      case Some(m) => if 0 <= h < 24 && 0 <= m < 60 then Some(Time(h, m, 0)) else None
  }

  /** The HH:MM rendering of a time parses back to its hour and minute. */
  lemma ParseTimeStrictOfFormat(t: Time)
    requires ValidTime(t)
    ensures ParseTimeStrict(Str(FormatHHMM(t))) == Some(Time(t.hour, t.minute, 0))
  {
    var s := FormatHHMM(t);
    var h, m := s[..2], s[3..];
    assert s == h + [':'] + m;
    assert StrOr(Str(s), "") == s;
    assert ':' !in h by { assert IsDigit(h[0]) && IsDigit(h[1]); }
    SplitOnceAt(h, ':', m);
    ParsePyIntDigits(h);
    ParsePyIntDigits(m);
  }

  /** "HH:MM:SS" is refused: everything after the first colon must be one integer. */
  lemma ParseTimeStrictRejectsSeconds(h: string, m: string, sec: string)
    requires ':' !in h
    ensures ParseTimeStrict(Str(h + ":" + m + ":" + sec)) == None
  {
    var rest := m + ":" + sec;
    var s := h + [':'] + rest;
    assert h + ":" + m + ":" + sec == s;
    if s != "" {
      assert StrOr(Str(s), "") == s;
    }
    IndexOfAfterFree(h, ':', rest);
    assert s[|h| + 1..] == rest;
    assert ':' in rest by { assert rest[|m|] == ':'; }
    ParsePyIntRejects(rest, ':');
  }

  /** An hour of 24 or more is refused even when both sides are integers. */
  lemma ParseTimeStrictRejectsHour(h: nat, m: nat)
    requires h >= 24
    ensures ParseTimeStrict(Str(NatToString(h) + ":" + NatToString(m))) == None
  {
    var hs := NatToString(h);
    var ms := NatToString(m);
    var s := hs + [':'] + ms;
    assert hs + ":" + ms == s;
    assert StrOr(Str(s), "") == s;
    assert forall i :: 0 <= i < |hs| ==> hs[i] != ':';
    IndexOfAfterFree(hs, ':', ms);
    assert s[..|hs|] == hs;
    ParsePyIntDigits(hs);
  }

  // ---------------------------------------------------------------------------
  // Pagination of the employee list

  /** One page of a listing and its pagination block. */
  datatype Listing<T> = Listing(items: seq<T>, page: int, limit: int, total: int, totalPages: int)

  /** `int(arg or default)` for a query-string argument; None where int() raises. */
  function QueryInt(arg: Option<string>, default: nat): Option<int> {
    match arg
    case None => Some(default)
    case Some(s) => if s == "" then Some(default) else ParsePyInt(s)
  }

  function Max1(n: int): (r: int)
    ensures r >= 1 && r >= n
    ensures n >= 1 ==> r == n
  {
    if n < 1 then 1 else n
  }

  /** `max(1, ceil(total / limit))` written as the view writes it. */
  function TotalPages(total: nat, limit: int): (r: int)
    requires limit >= 1
    ensures r >= 1 && total <= r * limit
    ensures total > 0 ==> (r - 1) * limit < total
  {
    Max1((total + limit - 1) / limit)
  }

  /** `qs[start:end]` with start = (page - 1) * limit and end = start + limit. */
  function PageSlice<T>(rows: seq<T>, page: int, limit: int): (r: seq<T>)
    requires page >= 1 && limit >= 1
    ensures |r| <= limit
    ensures (page - 1) * limit >= |rows| ==> r == []
  {
    var start := (page - 1) * limit;
    var lo := if start < |rows| then start else |rows|;
    var hi := if start + limit < |rows| then start + limit else |rows|;
    rows[lo..hi]
  }

  /** The empty listing the view answers with when the arguments cannot be read. */
  function FallbackListing<T>(): Listing<T> {
    Listing([], 1, 50, 0, 1)
  }

  /**
   * The paginated employee list over the already filtered and ordered rows:
   * page and limit are clamped to at least 1 (defaults 1 and 50).
   */
  function Paginate<T>(rows: seq<T>, pageArg: Option<string>, limitArg: Option<string>): (r: Listing<T>)
    ensures r.page >= 1 && r.limit >= 1 && r.totalPages >= 1
    ensures |r.items| <= r.limit
    ensures r.total <= r.totalPages * r.limit
    ensures QueryInt(pageArg, 1).None? || QueryInt(limitArg, 50).None? ==> r == FallbackListing()
    ensures QueryInt(pageArg, 1).Some? && QueryInt(limitArg, 50).Some? ==>
      && r.total == |rows|
      && r.items == PageSlice(rows, r.page, r.limit)
      && (r.total > 0 ==> (r.totalPages - 1) * r.limit < r.total)
  {
    match (QueryInt(pageArg, 1), QueryInt(limitArg, 50))
    case (Some(p), Some(l)) =>
      var page := Max1(p);
      var limit := Max1(l);
      Listing(PageSlice(rows, page, limit), page, limit, |rows|, TotalPages(|rows|, limit))
    case _ => FallbackListing()
  }

  /** Pages 1..k laid end to end. */
  function PagesUpTo<T>(rows: seq<T>, limit: int, k: nat): seq<T>
    requires limit >= 1
  {
    if k == 0 then [] else PagesUpTo(rows, limit, k - 1) + PageSlice(rows, k, limit)
  }

  lemma {:induction false} PagesUpToPrefix<T>(rows: seq<T>, limit: int, k: nat)
    requires limit >= 1
    ensures PagesUpTo(rows, limit, k) == rows[..if k * limit < |rows| then k * limit else |rows|]
  {
    if k > 0 {
      PagesUpToPrefix(rows, limit, k - 1);
    }
  }

  /** Reading pages 1 to totalPages returns every row exactly once, in order. */
  lemma AllPagesCoverRows<T>(rows: seq<T>, pageArg: Option<string>, limitArg: Option<string>)
    requires QueryInt(pageArg, 1).Some? && QueryInt(limitArg, 50).Some?
    ensures var r := Paginate(rows, pageArg, limitArg);
      PagesUpTo(rows, r.limit, r.totalPages) == rows
  {
    var r := Paginate(rows, pageArg, limitArg);
    PagesUpToPrefix(rows, r.limit, r.totalPages);
  }

  // ---------------------------------------------------------------------------
  // Employees

  datatype Employee = Employee(name: string, position: string, hourlyRate: real, contact: string, status: string)

  const Forbidden := ApiError(403, "Forbidden")

  /**
   * POST /employees: manager or admin only; the trimmed name is required;
   * position and contact are trimmed, the rate is float(rate or 0) and the
   * status is lower-cased with "active" as default. A value of the wrong
   * type where a string method or float() is applied fails with a server error.
   */
  function CreateEmployee(canManage: bool, p: Payload): (r: Result<Employee, ApiError>)
    ensures !canManage ==> r == Err(Forbidden)
    ensures r.Ok? ==> r.value.name != [] && r.value.name == Trim(r.value.name)
    ensures r.Ok? ==> r.value.position == Trim(r.value.position) && r.value.contact == Trim(r.value.contact)
    ensures r.Ok? ==> LowerCase(r.value.status)
    ensures r.Ok? <==> (canManage && TextOr(Get(p, "name"), "").Some? && Trim(TextOr(Get(p, "name"), "").value) != []
      && TextOr(Get(p, "position"), "").Some? && ToFloat(Or(Get(p, "hourlyRate"), Int(0))).Some?
      && TextOr(Get(p, "contact"), "").Some? && TextOr(Get(p, "status"), "active").Some?)
  {
    if !canManage then Err(Forbidden)
    else match TextOr(Get(p, "name"), "")
      case None => Err(ApiError(500, "Server error"))
      case Some(rawName) =>
        if Trim(rawName) == [] then Err(ApiError(400, "Name is required"))
        else
          TrimIdempotent(rawName);
          StoredEmployee(Trim(rawName), TextOr(Get(p, "position"), ""), ToFloat(Or(Get(p, "hourlyRate"), Int(0))),
                         TextOr(Get(p, "contact"), ""), TextOr(Get(p, "status"), "active"))
  }

  /** The `Employee.objects.create(...)` step: fails when any field read failed. */
  function StoredEmployee(name: string, position: Option<string>, rate: Option<real>, contact: Option<string>,
                          status: Option<string>): (r: Result<Employee, ApiError>)
    ensures r.Ok? <==> position.Some? && rate.Some? && contact.Some? && status.Some?
    ensures r.Ok? ==> r.value.name == name && r.value.hourlyRate == rate.value
    ensures r.Ok? ==> r.value.position == Trim(position.value) && r.value.position == Trim(r.value.position)
    ensures r.Ok? ==> r.value.contact == Trim(contact.value) && r.value.contact == Trim(r.value.contact)
    ensures r.Ok? ==> r.value.status == Lower(status.value) && LowerCase(r.value.status)
    ensures r.Err? ==> r == Err(ApiError(500, "Failed to create employee"))
  {
    if position.Some? && rate.Some? && contact.Some? && status.Some? then
      TrimIdempotent(position.value);
      TrimIdempotent(contact.value);
      LowerIsLowerCase(status.value);
      Ok(Employee(name, Trim(position.value), rate.value, Trim(contact.value), Lower(status.value)))
    else Err(ApiError(500, "Failed to create employee"))
  }

  /**
   * The stored employee is what was sent: the name, position and contact
   * trimmed, the status lower-cased, the rate read by float(); a field sent
   * falsy or not at all takes its default ("", "active", 0.0).
   */
  lemma CreateEmployeeStoresSent(canManage: bool, p: Payload)
    requires CreateEmployee(canManage, p).Ok?
    ensures var e := CreateEmployee(canManage, p).value;
      && Get(p, "name").Str? && e.name == Trim(Get(p, "name").s)
      && e.position == (if Truthy(Get(p, "position")) then Trim(Get(p, "position").s) else "")
      && e.contact == (if Truthy(Get(p, "contact")) then Trim(Get(p, "contact").s) else "")
      && e.status == (if Truthy(Get(p, "status")) then Lower(Get(p, "status").s) else "active")
      && e.hourlyRate == (if Truthy(Get(p, "hourlyRate")) then ToFloat(Get(p, "hourlyRate")).value else 0.0)
  {
    CreateEmployeeName(canManage, p);
    CreateEmployeePosition(canManage, p);
    CreateEmployeeContact(canManage, p);
    CreateEmployeeStatus(canManage, p);
    CreateEmployeeRate(canManage, p);
  }

  lemma CreateEmployeeName(canManage: bool, p: Payload)
    requires CreateEmployee(canManage, p).Ok?
    ensures Get(p, "name").Str? && CreateEmployee(canManage, p).value.name == Trim(Get(p, "name").s)
  {
    TextOrValue(Get(p, "name"), "");
  }

  lemma CreateEmployeePosition(canManage: bool, p: Payload)
    requires CreateEmployee(canManage, p).Ok?
    ensures CreateEmployee(canManage, p).value.position
         == if Truthy(Get(p, "position")) then Trim(Get(p, "position").s) else ""
  {
    TextOrValue(Get(p, "position"), "");
    DefaultTexts();
  }

  lemma CreateEmployeeContact(canManage: bool, p: Payload)
    requires CreateEmployee(canManage, p).Ok?
    ensures CreateEmployee(canManage, p).value.contact
         == if Truthy(Get(p, "contact")) then Trim(Get(p, "contact").s) else ""
  {
    TextOrValue(Get(p, "contact"), "");
    DefaultTexts();
  }

  lemma CreateEmployeeStatus(canManage: bool, p: Payload)
    requires CreateEmployee(canManage, p).Ok?
    ensures CreateEmployee(canManage, p).value.status
         == if Truthy(Get(p, "status")) then Lower(Get(p, "status").s) else "active"
  {
    TextOrValue(Get(p, "status"), "active");
    DefaultTexts();
  }

  lemma CreateEmployeeRate(canManage: bool, p: Payload)
    requires CreateEmployee(canManage, p).Ok?
    ensures CreateEmployee(canManage, p).value.hourlyRate
         == if Truthy(Get(p, "hourlyRate")) then ToFloat(Get(p, "hourlyRate")).value else 0.0
  {
    FloatOrZero(Get(p, "hourlyRate"));
  }

  /** A missing, falsy or blank name is refused with 400. */
  lemma CreateEmployeeNeedsName(p: Payload)
    requires !Truthy(Get(p, "name")) || (Get(p, "name").Str? && Trim(Get(p, "name").s) == [])
    ensures CreateEmployee(true, p) == Err(ApiError(400, "Name is required"))
  {
    TextOrValue(Get(p, "name"), "");
    DefaultTexts();
  }

  /** A truthy name that is not text fails with a server error, as `.strip()` raises. */
  lemma CreateEmployeeNameNotText(p: Payload)
    requires Truthy(Get(p, "name")) && !Get(p, "name").Str?
    ensures CreateEmployee(true, p) == Err(ApiError(500, "Server error"))
  {
  }

  /** With a usable name, the only other refusal is the failed create. */
  lemma CreateEmployeeFailed(p: Payload)
    requires Get(p, "name").Str? && Trim(Get(p, "name").s) != []
    requires CreateEmployee(true, p).Err?
    ensures CreateEmployee(true, p) == Err(ApiError(500, "Failed to create employee"))
  {
  }

  /** With only a name sent, the other fields take their defaults. */
  lemma CreateEmployeeDefaults(name: string)
    requires Trim(name) != []
    ensures CreateEmployee(true, map["name" := Str(name)])
         == Ok(Employee(Trim(name), "", 0.0, "", "active"))
  {
    var p := map["name" := Str(name)];
    assert name != "";
    DefaultsRead(name);
    DefaultTexts();
    assert CreateEmployee(true, p) == Ok(Employee(Trim(name), Trim(""), 0.0, Trim(""), Lower("active")));
  }

  /** What the handler reads from a payload holding only a name. */
  lemma DefaultsRead(name: string)
    requires name != ""
    ensures var p := map["name" := Str(name)];
      && TextOr(Get(p, "name"), "") == Some(name)
      && TextOr(Get(p, "position"), "") == Some("") && TextOr(Get(p, "contact"), "") == Some("")
      && TextOr(Get(p, "status"), "active") == Some("active")
      && ToFloat(Or(Get(p, "hourlyRate"), Int(0))) == Some(0.0)
  {
    var p := map["name" := Str(name)];
    assert Get(p, "position") == Null && Get(p, "contact") == Null && Get(p, "status") == Null;
    assert Get(p, "hourlyRate") == Null;
  }

  lemma DefaultTexts()
    ensures Trim("") == "" && Lower("active") == "active"
  {
  }

  /** `k in payload and payload[k] is not None`. */
  predicate SentNonNull(p: Payload, k: string) {
    k in p && p[k] != Null
  }

  /** The employee record the PUT handler leaves behind: each sent, non-null field replaced. */
  function PatchEmployee(e: Employee, p: Payload): (r: Employee)
    ensures !SentNonNull(p, "name") ==> r.name == e.name
    ensures !SentNonNull(p, "position") ==> r.position == e.position
    ensures !SentNonNull(p, "contact") ==> r.contact == e.contact
    ensures !SentNonNull(p, "status") ==> r.status == e.status
    ensures SentNonNull(p, "name") ==> r.name == Trim(ToStr(p["name"]))
    ensures SentNonNull(p, "position") ==> r.position == Trim(ToStr(p["position"]))
    ensures SentNonNull(p, "contact") ==> r.contact == Trim(ToStr(p["contact"]))
    ensures SentNonNull(p, "status") ==> r.status == Lower(ToStr(p["status"])) && LowerCase(r.status)
    ensures r.hourlyRate == if SentNonNull(p, "hourlyRate") && ToFloat(p["hourlyRate"]).Some?
                            then ToFloat(p["hourlyRate"]).value else e.hourlyRate
  {
    var status := if SentNonNull(p, "status") then Lower(ToStr(p["status"])) else e.status;
    assert SentNonNull(p, "status") ==> LowerCase(status) by {
      if SentNonNull(p, "status") { LowerIsLowerCase(ToStr(p["status"])); }
    }
    Employee(
      if SentNonNull(p, "name") then Trim(ToStr(p["name"])) else e.name,
      if SentNonNull(p, "position") then Trim(ToStr(p["position"])) else e.position,
      if SentNonNull(p, "hourlyRate") && ToFloat(p["hourlyRate"]).Some? then ToFloat(p["hourlyRate"]).value else e.hourlyRate,
      if SentNonNull(p, "contact") then Trim(ToStr(p["contact"])) else e.contact,
      status)
  }

  /** Sending the same update twice leaves the record as sending it once. */
  lemma PatchEmployeeIdempotent(e: Employee, p: Payload)
    ensures PatchEmployee(PatchEmployee(e, p), p) == PatchEmployee(e, p)
  {
  }

  /** An update with no usable field leaves the record as it was. */
  lemma PatchEmployeeEmpty(e: Employee)
    ensures PatchEmployee(e, map[]) == e
  {
  }

  /**
   * PUT /employees/<id>: a missing record is reported before the permission
   * check; then each field present with a non-null value overwrites the stored
   * one step by step, and `changed` records whether the row is saved. A rate
   * float() cannot read is skipped silently.
   */
  method UpdateEmployee(found: Option<Employee>, canManage: bool, p: Payload)
    returns (r: Result<Employee, ApiError>, changed: bool)
    ensures found.None? ==> r == Err(ApiError(404, "Not found")) && !changed
    ensures found.Some? && !canManage ==> r == Err(Forbidden) && !changed
    ensures found.Some? && canManage ==> r == Ok(PatchEmployee(found.value, p))
    ensures changed <==> (found.Some? && canManage &&
      (SentNonNull(p, "name") || SentNonNull(p, "position") || SentNonNull(p, "contact") || SentNonNull(p, "status")
       || (SentNonNull(p, "hourlyRate") && ToFloat(p["hourlyRate"]).Some?)))
  {
    changed := false;
    if found.None? {
      return Err(ApiError(404, "Not found")), false;
    }
    if !canManage {
      return Err(Forbidden), false;
    }
    var emp := found.value;
    if "name" in p && p["name"] != Null {
      emp := emp.(name := Trim(ToStr(p["name"])));
      changed := true;
    }
    if "position" in p && p["position"] != Null {
      emp := emp.(position := Trim(ToStr(p["position"])));
      changed := true;
    }
    if "hourlyRate" in p && p["hourlyRate"] != Null {
      var rate := ToFloat(p["hourlyRate"]);
      if rate.Some? {
        emp := emp.(hourlyRate := rate.value);
        changed := true;
      }
    }
    if "contact" in p && p["contact"] != Null {
      emp := emp.(contact := Trim(ToStr(p["contact"])));
      changed := true;
    }
    if "status" in p && p["status"] != Null {
      emp := emp.(status := Lower(ToStr(p["status"])));
      changed := true;
    }
    r := Ok(emp);
  }

  // ---------------------------------------------------------------------------
  // Schedule entries

  datatype ScheduleEntry = ScheduleEntry(employee: Val, day: string, start: Time, end: Time)

  /** What every stored entry satisfies: a known day and a start strictly before the end. */
  predicate ValidEntry(s: ScheduleEntry) {
    s.day in Days && ValidTime(s.start) && ValidTime(s.end) && Before(s.start, s.end)
  }

  /** `day in DAYS` for a payload value. */
  predicate IsDay(v: Val) {
    v.Str? && v.s in Days
  }

  /**
   * POST /schedule: manager or admin only; needs an employee id (employeeId,
   * else employee), a day from Days, two H:M times with start before end,
   * and an employee with that id (`employeeExists`).
   */
  function CreateSchedule(canManage: bool, p: Payload, employeeExists: Val -> bool): (r: Result<ScheduleEntry, ApiError>)
    ensures r.Ok? ==> ValidEntry(r.value)
    ensures r.Ok? <==>
      && canManage
      && Truthy(Or(Get(p, "employeeId"), Get(p, "employee")))
      && IsDay(Get(p, "day"))
      && ParseTimeStrict(Get(p, "startTime")).Some?
      && ParseTimeStrict(Get(p, "endTime")).Some?
      && Before(ParseTimeStrict(Get(p, "startTime")).value, ParseTimeStrict(Get(p, "endTime")).value)
      && employeeExists(Or(Get(p, "employeeId"), Get(p, "employee")))
    ensures canManage && !Truthy(Or(Get(p, "employeeId"), Get(p, "employee"))) ==>
      r == Err(ApiError(400, "employeeId is required"))
  {
    if !canManage then Err(Forbidden)
    else
      var empId := Or(Get(p, "employeeId"), Get(p, "employee"));
      var day := Get(p, "day");
      var st := ParseTimeStrict(Get(p, "startTime"));
      var et := ParseTimeStrict(Get(p, "endTime"));
      if !Truthy(empId) then Err(ApiError(400, "employeeId is required"))
      else if !IsDay(day) then Err(ApiError(400, "Invalid day"))
      else if st.None? || et.None? || !Before(st.value, et.value) then Err(ApiError(400, "Invalid start/end time"))
      else if !employeeExists(empId) then Err(ApiError(404, "Employee not found"))
      else Ok(ScheduleEntry(empId, day.s, st.value, et.value))
  }

  /**
   * An otherwise valid request whose end is not after its start is refused
   * with 400, before the employee is looked up.
   */
  lemma CreateScheduleNeedsOrder(p: Payload, employeeExists: Val -> bool)
    requires Truthy(Or(Get(p, "employeeId"), Get(p, "employee"))) && IsDay(Get(p, "day"))
    requires ParseTimeStrict(Get(p, "startTime")).Some? && ParseTimeStrict(Get(p, "endTime")).Some?
    requires !Before(ParseTimeStrict(Get(p, "startTime")).value, ParseTimeStrict(Get(p, "endTime")).value)
    ensures CreateSchedule(true, p, employeeExists) == Err(ApiError(400, "Invalid start/end time"))
  {
  }

  /** In particular, sending the same time as start and end is refused. */
  lemma CreateScheduleSameTimes(p: Payload, employeeExists: Val -> bool, t: Time)
    requires ValidTime(t)
    requires Truthy(Or(Get(p, "employeeId"), Get(p, "employee"))) && IsDay(Get(p, "day"))
    requires Get(p, "startTime") == Get(p, "endTime") == Str(FormatHHMM(t))
    ensures CreateSchedule(true, p, employeeExists) == Err(ApiError(400, "Invalid start/end time"))
  {
    ParseTimeStrictOfFormat(t);
    CreateScheduleNeedsOrder(p, employeeExists);
  }

  /** The per-key checks of PUT /schedule/<id>, each applying only when its key is sent truthy. */
  predicate EmployeeKnown(p: Payload, employeeExists: Val -> bool) {
    SentTruthy(p, "employeeId") ==> employeeExists(p["employeeId"])
  }

  predicate DayKnown(p: Payload) {
    SentTruthy(p, "day") ==> IsDay(p["day"])
  }

  predicate TimeReadable(p: Payload, k: string) {
    SentTruthy(p, k) ==> ParseTimeStrict(p[k]).Some?
  }

  predicate KeysPass(p: Payload, employeeExists: Val -> bool) {
    EmployeeKnown(p, employeeExists) && DayKnown(p) && TimeReadable(p, "startTime") && TimeReadable(p, "endTime")
  }

  /** The entry with every truthy sent key replacing its stored value. */
  function MergedEntry(s: ScheduleEntry, p: Payload): (r: ScheduleEntry)
    requires DayKnown(p) && TimeReadable(p, "startTime") && TimeReadable(p, "endTime")
    ensures r.employee == if SentTruthy(p, "employeeId") then p["employeeId"] else s.employee
    ensures r.day == if SentTruthy(p, "day") then p["day"].s else s.day
    ensures r.start == if SentTruthy(p, "startTime") then ParseTimeStrict(p["startTime"]).value else s.start
    ensures r.end == if SentTruthy(p, "endTime") then ParseTimeStrict(p["endTime"]).value else s.end
  {
    ScheduleEntry(
      if SentTruthy(p, "employeeId") then p["employeeId"] else s.employee,
      if SentTruthy(p, "day") then p["day"].s else s.day,
      if SentTruthy(p, "startTime") then ParseTimeStrict(p["startTime"]).value else s.start,
      if SentTruthy(p, "endTime") then ParseTimeStrict(p["endTime"]).value else s.end)
  }

  /** Merging checked keys into a valid entry gives a valid entry once start is before end. */
  lemma MergedKeepsValid(s: ScheduleEntry, p: Payload)
    requires DayKnown(p) && TimeReadable(p, "startTime") && TimeReadable(p, "endTime")
    ensures ValidEntry(s) && Before(MergedEntry(s, p).start, MergedEntry(s, p).end) ==> ValidEntry(MergedEntry(s, p))
  {
  }

  /** An update that sends nothing leaves the entry as it was. */
  lemma MergedNothingSent(s: ScheduleEntry)
    ensures MergedEntry(s, map[]) == s
  {
  }

  /**
   * PUT /schedule/<id>: manager or admin only, then the entry must exist.
   * Each of employeeId, day, startTime and endTime replaces the stored value
   * when sent truthy, after its own check; the merged entry must still start
   * before it ends. Nothing is saved on any error.
   */
  method UpdateSchedule(canManage: bool, found: Option<ScheduleEntry>, p: Payload, employeeExists: Val -> bool)
    returns (r: Result<ScheduleEntry, ApiError>)
    ensures !canManage ==> r == Err(Forbidden)
    ensures canManage && found.None? ==> r == Err(ApiError(404, "Not found"))
    ensures r.Ok? ==> found.Some? && Before(r.value.start, r.value.end)
    ensures r.Ok? && ValidEntry(found.value) ==> ValidEntry(r.value)
    ensures r.Ok? <==> (canManage && found.Some? && KeysPass(p, employeeExists)
      && Before(MergedEntry(found.value, p).start, MergedEntry(found.value, p).end))
    ensures r.Ok? ==> r.value == MergedEntry(found.value, p)
    ensures canManage && found.Some? && !EmployeeKnown(p, employeeExists)
      ==> r == Err(ApiError(404, "Employee not found"))
    ensures canManage && found.Some? && EmployeeKnown(p, employeeExists) && !DayKnown(p)
      ==> r == Err(ApiError(400, "Invalid day"))
    ensures (canManage && found.Some? && EmployeeKnown(p, employeeExists) && DayKnown(p)
      && !TimeReadable(p, "startTime")) ==> r == Err(ApiError(400, "Invalid startTime"))
    ensures (canManage && found.Some? && EmployeeKnown(p, employeeExists) && DayKnown(p)
      && TimeReadable(p, "startTime") && !TimeReadable(p, "endTime")) ==> r == Err(ApiError(400, "Invalid endTime"))
    ensures canManage && found.Some? && KeysPass(p, employeeExists)
      && !Before(MergedEntry(found.value, p).start, MergedEntry(found.value, p).end)
      ==> r == Err(ApiError(400, "startTime must be before endTime"))
  {
    if !canManage {
      return Err(Forbidden);
    }
    if found.None? {
      return Err(ApiError(404, "Not found"));
    }
    var s := found.value;
    if SentTruthy(p, "employeeId") {
      if !employeeExists(p["employeeId"]) {
        return Err(ApiError(404, "Employee not found"));
      }
      s := s.(employee := p["employeeId"]);
    }
    assert EmployeeKnown(p, employeeExists);
    if SentTruthy(p, "day") {
      if !IsDay(p["day"]) {
        return Err(ApiError(400, "Invalid day"));
      }
      s := s.(day := p["day"].s);
    }
    assert DayKnown(p);
    if SentTruthy(p, "startTime") {
      var st := ParseTimeStrict(p["startTime"]);
      if st.None? {
        return Err(ApiError(400, "Invalid startTime"));
      }
      s := s.(start := st.value);
    }
    assert TimeReadable(p, "startTime");
    if SentTruthy(p, "endTime") {
      var et := ParseTimeStrict(p["endTime"]);
      if et.None? {
        return Err(ApiError(400, "Invalid endTime"));
      }
      s := s.(end := et.value);
    }
    assert KeysPass(p, employeeExists);
    assert s == MergedEntry(found.value, p);
    if !Before(s.start, s.end) {
      return Err(ApiError(400, "startTime must be before endTime"));
    }
    MergedKeepsValid(found.value, p);
    r := Ok(s);
  }
}
