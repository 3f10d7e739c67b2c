/**
 * Attendance and leave endpoints: the lenient H:M[:S] time parser, the
 * attendance upsert policy (staff fill gaps, managers overwrite what they
 * send), the attendance record edit, and leave requests and decisions.
 * The attendance table is a sequence of records; `get_or_create` finds the
 * first record for the employee and date or appends a new one.
 */
module AttendanceViews {
  import opened Wrappers
  import opened Text
  import opened Py
  import opened Clock
  import opened Sorting
  import opened EmployeeRef

  // ---------------------------------------------------------------------------
  // _parse_time: "H:M" or "H:M:S"

  /** `time(hour=int(h), minute=int(m), second=int(s))`, None where int() or time() raises. */
  function MakeTime(h: string, m: string, s: string): (r: Option<Time>)
    ensures r.Some? ==> ValidTime(r.value)
    ensures r.Some? ==> ParsePyInt(h) == Some(r.value.hour) && ParsePyInt(m) == Some(r.value.minute)
                        && ParsePyInt(s) == Some(r.value.second)
  {
    match (ParsePyInt(h), ParsePyInt(m), ParsePyInt(s))
    case (Some(hh), Some(mm), Some(ss)) =>
      var t := Time(hh, mm, ss);
      if ValidTime(t) then Some(t) else None
    case _ => None
  }

  /**
   * Blank or colon-free text gives None; two segments get second 0; from
   * three segments on, only the first three are read.
   */
  function ParseTimeLenient(v: Val): (r: Option<Time>)
    ensures r.Some? ==> ValidTime(r.value)
    ensures ':' !in Trim(StrOr(v, "")) ==> r.None?
  {
    var raw := Trim(StrOr(v, ""));
    if raw == [] then None
    else
      var seg := Split(raw, ':');
      if |seg| >= 3 then MakeTime(seg[0], seg[1], seg[2])
      else if |seg| == 2 then MakeTime(seg[0], seg[1], "0")
      else None
  }

  /** Digits only, nothing else: no effect from trimming and no colon. */
  predicate Numeral(s: string) {
    s != [] && AllDigits(s)
  }

  lemma NumeralFacts(s: string)
    requires Numeral(s)
    ensures ':' !in s && !IsSpace(s[0]) && !IsSpace(s[|s| - 1])
  {
    assert forall i :: 0 <= i < |s| ==> s[i] != ':';
  }

  /**
   * Colon-joined numerals: two segments read as H:M:00, and from three on
   * only the first three are used, whatever follows.
   */
  lemma {:induction false} LenientOfSegments(parts: seq<string>)
    requires |parts| >= 2
    requires forall i :: 0 <= i < |parts| ==> Numeral(parts[i])
    ensures ParseTimeLenient(Str(Join(parts, ':'))) ==
      if |parts| >= 3 then MakeTime(parts[0], parts[1], parts[2]) else MakeTime(parts[0], parts[1], "0")
  {
    var s := Join(parts, ':');
    forall i | 0 <= i < |parts| ensures ':' !in parts[i] {
      NumeralFacts(parts[i]);
    }
    JoinEnds(parts, ':');
    NumeralFacts(parts[0]);
    NumeralFacts(parts[|parts| - 1]);
    TrimUnchanged(s);
    assert StrOr(Str(s), "") == s;
    SplitOfJoin(parts, ':');
  }

  /** MakeTime on digit strings: the time of their values when it exists. */
  lemma MakeTimeOfNumerals(h: string, m: string, sec: string)
    requires Numeral(h) && Numeral(m) && Numeral(sec)
    ensures MakeTime(h, m, sec) ==
      var t := Time(DigitsValue(h), DigitsValue(m), DigitsValue(sec));
      if ValidTime(t) then Some(t) else None
  {
    ParsePyIntDigits(h);
    ParsePyIntDigits(m);
    ParsePyIntDigits(sec);
  }

  lemma JoinTwo(a: string, b: string, sep: char)
    ensures Join([a, b], sep) == a + [sep] + b
  {
    assert [a, b][1..] == [b];
  }

  lemma FormatReadsAsSegments(t: Time)
    requires ValidTime(t)
    ensures ParseTimeLenient(Str(FormatHHMM(t))) == MakeTime(Two(t.hour), Two(t.minute), "0")
  {
    JoinTwo(Two(t.hour), Two(t.minute), ':');
    LenientOfSegments([Two(t.hour), Two(t.minute)]);
  }

  lemma MakeTimeOfTwo(t: Time)
    requires ValidTime(t)
    ensures MakeTime(Two(t.hour), Two(t.minute), "0") == Some(Time(t.hour, t.minute, 0))
  {
    assert DigitsValue("0") == 0;
    MakeTimeOfNumerals(Two(t.hour), Two(t.minute), "0");
  }

  /** The HH:MM text of a time reads back as that time at second 0. */
  lemma LenientOfFormat(t: Time)
    requires ValidTime(t)
    ensures ParseTimeLenient(Str(FormatHHMM(t))) == Some(Time(t.hour, t.minute, 0))
  {
    FormatReadsAsSegments(t);
    MakeTimeOfTwo(t);
  }

  /**
   * Text the parser accepts, written with one- or two-digit hour and minute,
   * renders through `_time_to_str` as the HH:MM of the parsed time.
   */
  lemma TimeToStrOfParsed(h: string, m: string)
    requires Numeral(h) && Numeral(m) && |h| <= 2 && |m| <= 2
    requires ParseTimeLenient(Str(Join([h, m], ':'))).Some?
    ensures TimeToStr(TimeText(Join([h, m], ':'))) == Some(FormatHHMM(ParseTimeLenient(Str(Join([h, m], ':'))).value))
  {
    ParsedNumerals(h, m);
    JoinTwo(h, m, ':');
    TimeTextOfNumerals(h, m);
    ZFillTwo(h);
    ZFillTwo(m);
  }

  lemma ParsedNumerals(h: string, m: string)
    requires Numeral(h) && Numeral(m)
    requires ParseTimeLenient(Str(Join([h, m], ':'))).Some?
    ensures ParseTimeLenient(Str(Join([h, m], ':'))).value.hour == DigitsValue(h)
    ensures ParseTimeLenient(Str(Join([h, m], ':'))).value.minute == DigitsValue(m)
  {
    LenientOfTwoSegments(h, m);
    MakeTimeReadsNumerals(h, m);
  }

  lemma LenientOfTwoSegments(h: string, m: string)
    requires Numeral(h) && Numeral(m)
    ensures ParseTimeLenient(Str(Join([h, m], ':'))) == MakeTime(h, m, "0")
  {
    LenientOfSegments([h, m]);
  }

  lemma MakeTimeReadsNumerals(h: string, m: string)
    requires Numeral(h) && Numeral(m)
    requires MakeTime(h, m, "0").Some?
    ensures MakeTime(h, m, "0").value.hour == DigitsValue(h)
    ensures MakeTime(h, m, "0").value.minute == DigitsValue(m)
  {
    ParsePyIntDigits(h);
    ParsePyIntDigits(m);
  }

  /** `_time_to_str` of "h:m" zero-fills both parts. */
  lemma TimeTextOfNumerals(h: string, m: string)
    requires Numeral(h) && Numeral(m)
    ensures TimeToStr(TimeText(h + ":" + m)) == Some(ZFill(h, 2) + ":" + ZFill(m, 2))
  {
    var s := h + ":" + m;
    NumeralFacts(h);
    NumeralFacts(m);
    TrimUnchanged(s);
    JoinTwo(h, m, ':');
    SplitOfJoin([h, m], ':');
    assert Split(s, ':') == [h, m];
  }

  // ---------------------------------------------------------------------------
  // Attendance records

  datatype Attendance = Attendance(employee: string, date: Date, checkIn: Option<Time>, checkOut: Option<Time>,
                                   status: string, notes: string)

  function SameDay(emp: string, d: Date): Attendance -> bool {
    (rec: Attendance) => rec.employee == emp && rec.date == d
  }

  /** `_parse_time(payload.get(k)) if payload.get(k) else None`. */
  function SentTime(p: Payload, k: string): Option<Time> {
    if Truthy(Get(p, k)) then ParseTimeLenient(Get(p, k)) else None
  }

  /** The date the request names. */
  function SentDate(p: Payload): Option<Date> {
    ParseDate(ToStr(Get(p, "date")))
  }

  /**
   * What a staff member's repeated clock-in does to an existing record:
   * a check-in or check-out is written only into an empty slot (a new check-in
   * also sets the status), and notes change only to a different non-empty text.
   */
  function StaffMerge(rec: Attendance, ci: Option<Time>, co: Option<Time>, status: string, notes: string): (r: Attendance)
    ensures r.employee == rec.employee && r.date == rec.date
    ensures rec.checkIn.Some? ==> r.checkIn == rec.checkIn
    ensures rec.checkOut.Some? ==> r.checkOut == rec.checkOut
    ensures rec.checkIn.None? ==> r.checkIn == ci
    ensures rec.checkOut.None? ==> r.checkOut == co
    ensures r.status == if ci.Some? && rec.checkIn.None? then status else rec.status
    ensures r.notes == (if notes != "" then notes else rec.notes)
  {
    var a := if ci.Some? && rec.checkIn.None? then rec.(checkIn := ci, status := status) else rec;
    var b := if co.Some? && a.checkOut.None? then a.(checkOut := co) else a;
    if notes != "" && notes != b.notes then b.(notes := notes) else b
  }

  /** Staff clock-ins are monotone: once filled, a slot keeps its time through any number of requests. */
  lemma StaffMergeKeepsFilled(rec: Attendance, ci: Option<Time>, co: Option<Time>, status: string, notes: string,
                              ci2: Option<Time>, co2: Option<Time>, notes2: string)
    requires ci.Some?
    ensures StaffMerge(StaffMerge(rec, ci, co, status, notes), ci2, co2, status, notes2).checkIn
         == StaffMerge(rec, ci, co, status, notes).checkIn
  {
  }

  /** What a manager's upsert does to an existing record: every field whose key was sent is overwritten. */
  function ManagerMerge(rec: Attendance, p: Payload, ci: Option<Time>, co: Option<Time>, status: string, notes: string): (r: Attendance)
    ensures r.employee == rec.employee && r.date == rec.date
    ensures r.checkIn == if "checkIn" in p then ci else rec.checkIn
    ensures r.checkOut == if "checkOut" in p then co else rec.checkOut
    ensures r.status == if Truthy(Get(p, "status")) then status else rec.status
    ensures r.notes == if "notes" in p then notes else rec.notes
  {
    Attendance(rec.employee, rec.date,
      if "checkIn" in p then ci else rec.checkIn,
      if "checkOut" in p then co else rec.checkOut,
      if Truthy(Get(p, "status")) then status else rec.status,
      if "notes" in p then notes else rec.notes)
  }

  /** The status a POST carries: lower-cased, "present" by default; None where `.lower()` raises. */
  function SentStatus(p: Payload): Option<string> {
    match TextOr(Get(p, "status"), "present")
    case None => None
    case Some(s) => Some(Lower(s))
  }

  /**
   * Whose record a POST writes: staff need an employee row linked directly
   * to their account and may not name anyone else; managers must name an
   * existing employee. `idVariants` stands for the id-variant helper and
   * `lookup` for the employee lookup by id.
   */
  function PostTarget(canManage: bool, actor: Actor, employees: seq<EmployeeRow>,
                      idVariants: string -> set<string>, lookup: Val -> Option<string>, p: Payload): (r: Result<string, ApiError>)
    ensures !canManage && r.Ok? ==> Resolve(Some(actor), employees, false, {}).Direct?
                                    && r.value == Resolve(Some(actor), employees, false, {}).row.id
    ensures !canManage && Truthy(Get(p, "employeeId")) && r.Ok? ==> ToStr(Get(p, "employeeId")) in idVariants(r.value)
    ensures !canManage ==> (r.Ok? <==> Resolve(Some(actor), employees, false, {}).Direct?
                                       && (!Truthy(Get(p, "employeeId"))
                                           || ToStr(Get(p, "employeeId")) in idVariants(Resolve(Some(actor), employees, false, {}).row.id)))
    ensures !canManage && !Resolve(Some(actor), employees, false, {}).Direct? ==> r == Err(ApiError(403, "No employee profile found"))
    ensures !canManage && Resolve(Some(actor), employees, false, {}).Direct? && r.Err? ==> r == Err(ApiError(403, "Forbidden"))
    ensures canManage && !Truthy(Get(p, "employeeId")) ==> r == Err(ApiError(400, "employeeId is required"))
    ensures canManage && Truthy(Get(p, "employeeId")) && r.Err? ==> r == Err(ApiError(404, "Employee not found"))
    ensures canManage ==> (r.Ok? <==> Truthy(Get(p, "employeeId")) && lookup(Get(p, "employeeId")).Some?)
    ensures canManage && r.Ok? ==> lookup(Get(p, "employeeId")) == Some(r.value)
  {
    var empArg := Get(p, "employeeId");
    if !canManage then
      var me := Resolve(Some(actor), employees, false, {});
      if !me.Direct? then Err(ApiError(403, "No employee profile found"))
      else if Truthy(empArg) && ToStr(empArg) !in idVariants(me.row.id) then Err(ApiError(403, "Forbidden"))
      else Ok(me.row.id)
    else if !Truthy(empArg) then Err(ApiError(400, "employeeId is required"))
    else match lookup(empArg)
      case None => Err(ApiError(404, "Employee not found"))
      case Some(id) => Ok(id)
  }

  /** Merges a POST into the existing record, field by field, by the staff or the manager rule. */
  method MergeExisting(canManage: bool, rec: Attendance, p: Payload, ci: Option<Time>, co: Option<Time>,
                       status: string, notes: string)
    returns (merged: Attendance)
    ensures canManage ==> merged == ManagerMerge(rec, p, ci, co, status, notes)
    ensures !canManage ==> merged == StaffMerge(rec, ci, co, status, notes)
  {
    merged := rec;
    if !canManage {
      if ci.Some? && merged.checkIn.None? {
        merged := merged.(checkIn := ci, status := status);
      }
      if co.Some? && merged.checkOut.None? {
        merged := merged.(checkOut := co);
      }
      if notes != "" && notes != merged.notes {
        merged := merged.(notes := notes);
      }
    } else {
      if "checkIn" in p {
        merged := merged.(checkIn := ci);
      }
      if "checkOut" in p {
        merged := merged.(checkOut := co);
      }
      if Truthy(Get(p, "status")) {
        merged := merged.(status := status);
      }
      if "notes" in p {
        merged := merged.(notes := notes);
      }
    }
  }

  /**
   * POST /attendance: the target employee (see PostTarget) and a parsable
   * date are required. A new record is appended with the sent values; an
   * existing record for the same employee and day is merged by the staff or
   * the manager rule. Staff always get status "present".
   */
  method AttendancePost(canManage: bool, actor: Actor, employees: seq<EmployeeRow>,
                        idVariants: string -> set<string>, lookup: Val -> Option<string>,
                        table: seq<Attendance>, p: Payload)
    returns (table': seq<Attendance>, r: Result<Attendance, ApiError>)
    ensures r.Err? ==> table' == table
    ensures r.Ok? <==> SentDate(p).Some? && PostTarget(canManage, actor, employees, idVariants, lookup, p).Ok?
                       && SentStatus(p).Some?
    ensures !canManage && !Resolve(Some(actor), employees, false, {}).Direct? ==>
      r == Err(ApiError(403, "No employee profile found"))
    ensures SentDate(p).None? && !(!canManage && !Resolve(Some(actor), employees, false, {}).Direct?) ==>
      r == Err(ApiError(400, "date is required"))
    ensures SentDate(p).Some? && PostTarget(canManage, actor, employees, idVariants, lookup, p).Err? ==>
      r == Err(PostTarget(canManage, actor, employees, idVariants, lookup, p).error)
    ensures SentDate(p).Some? && PostTarget(canManage, actor, employees, idVariants, lookup, p).Ok? && SentStatus(p).None? ==>
      r == Err(ApiError(500, "Server error"))
    ensures r.Ok? ==> SentDate(p) == Some(r.value.date) && SentStatus(p).Some?
    ensures r.Ok? ==> PostTarget(canManage, actor, employees, idVariants, lookup, p) == Ok(r.value.employee)
    ensures r.Ok? && FindFirst(table, SameDay(r.value.employee, r.value.date)).None? ==>
      && table' == table + [r.value]
      && r.value.checkIn == SentTime(p, "checkIn") && r.value.checkOut == SentTime(p, "checkOut")
      && r.value.status == (if canManage then SentStatus(p).value else "present")
      && r.value.notes == StrOr(Get(p, "notes"), "")
    ensures r.Ok? && FindFirst(table, SameDay(r.value.employee, r.value.date)).Some? ==>
      var k := FindFirst(table, SameDay(r.value.employee, r.value.date)).value;
      && table' == table[k := r.value]
      && r.value == if canManage
                    then ManagerMerge(table[k], p, SentTime(p, "checkIn"), SentTime(p, "checkOut"),
                                      SentStatus(p).value, StrOr(Get(p, "notes"), ""))
                    else StaffMerge(table[k], SentTime(p, "checkIn"), SentTime(p, "checkOut"),
                                    "present", StrOr(Get(p, "notes"), ""))
  {
    if !canManage && !Resolve(Some(actor), employees, false, {}).Direct? {
      return table, Err(ApiError(403, "No employee profile found"));
    }
    var d := SentDate(p);
    if d.None? {
      return table, Err(ApiError(400, "date is required"));
    }
    var target := PostTarget(canManage, actor, employees, idVariants, lookup, p);
    if target.Err? {
      return table, Err(target.error);
    }
    var emp := target.value;
    var ci := SentTime(p, "checkIn");
    var co := SentTime(p, "checkOut");
    var sentStatus := SentStatus(p);
    if sentStatus.None? {
      return table, Err(ApiError(500, "Server error"));
    }
    var status := sentStatus.value;
    if !canManage {
      status := "present";
    }
    var notes := StrOr(Get(p, "notes"), "");

    var k := FindFirst(table, SameDay(emp, d.value));
    if k.None? {
      var created := Attendance(emp, d.value, ci, co, status, notes);
      return table + [created], Ok(created);
    }
    var rec := MergeExisting(canManage, table[k.value], p, ci, co, status, notes);
    assert rec.employee == emp && rec.date == d.value;
    table' := table[k.value := rec];
    r := Ok(rec);
  }

  /** However often staff post for a day, only the first appended record exists and its filled times stay. */
  lemma StaffPostKeepsCheckIn(rec: Attendance, p: Payload)
    requires rec.checkIn.Some?
    ensures StaffMerge(rec, SentTime(p, "checkIn"), SentTime(p, "checkOut"), "present", StrOr(Get(p, "notes"), "")).checkIn
         == rec.checkIn
  {
  }

  /** The record belongs to the staff member: its employee is among the variants of their own id. */
  predicate StaffOwns(actor: Actor, employees: seq<EmployeeRow>, idVariants: string -> set<string>, rec: Attendance) {
    SelfId(actor, employees, idVariants).Some? && rec.employee in idVariants(SelfId(actor, employees, idVariants).value)
  }

  /** A staff edit names at least one field staff may change. */
  predicate StaffKeySent(p: Payload) {
    "checkIn" in p || "checkOut" in p || "notes" in p
  }

  /** The staff member's own employee id, found with fall-back on their id variants. */
  function SelfId(actor: Actor, employees: seq<EmployeeRow>, idVariants: string -> set<string>): Option<string> {
    RefId(Resolve(Some(actor), employees, true, ActorVariants(actor, idVariants)))
  }

  /**
   * PUT /attendance/<id>. Staff may edit only their own record (their id,
   * found with fall-back, must be among the variants of the record's
   * employee), and only check-in, check-out and notes; a staff request with
   * none of these is refused. Managers may also move the record to another
   * employee or date and set the status.
   */
  method AttendanceEdit(found: Option<Attendance>, canManage: bool, actor: Actor, employees: seq<EmployeeRow>,
                        idVariants: string -> set<string>, lookup: Val -> Option<string>, p: Payload)
    returns (r: Result<Attendance, ApiError>)
    ensures found.None? ==> r == Err(ApiError(404, "Not found"))
    ensures r.Ok? <==> found.Some? && (if canManage then !ManagerEditFails(lookup, p)
                                       else StaffOwns(actor, employees, idVariants, found.value) && StaffKeySent(p))
    ensures found.Some? && !canManage && !StaffOwns(actor, employees, idVariants, found.value) ==>
      r == Err(ApiError(403, "Forbidden"))
    ensures found.Some? && canManage && SentTruthy(p, "employeeId") && lookup(p["employeeId"]).None? ==>
      r == Err(ApiError(404, "Employee not found"))
    ensures found.Some? && canManage && !(SentTruthy(p, "employeeId") && lookup(p["employeeId"]).None?) && r.Err? ==>
      r == Err(ApiError(400, "Invalid date"))
    ensures r.Ok? && !canManage ==>
      && SelfId(actor, employees, idVariants).Some?
      && found.value.employee in idVariants(SelfId(actor, employees, idVariants).value)
      && r.value.employee == found.value.employee && r.value.date == found.value.date
      && r.value.status == found.value.status
      && ("checkIn" in p || "checkOut" in p || "notes" in p)
    ensures found.Some? && !canManage && SelfId(actor, employees, idVariants).Some?
            && found.value.employee in idVariants(SelfId(actor, employees, idVariants).value)
            && !("checkIn" in p || "checkOut" in p || "notes" in p)
            ==> r == Err(ApiError(400, "No valid fields to update"))
    ensures r.Ok? ==> r.value.checkIn == (if "checkIn" in p then SentTime(p, "checkIn") else found.value.checkIn)
    ensures r.Ok? ==> r.value.checkOut == (if "checkOut" in p then SentTime(p, "checkOut") else found.value.checkOut)
    ensures r.Ok? && !canManage ==> r.value.notes == (if "notes" in p then StrOr(p["notes"], "") else found.value.notes)
    ensures r.Ok? && canManage ==> r.value.notes == (if SentNonNullKey(p, "notes") then ToStr(p["notes"]) else found.value.notes)
    ensures r.Ok? && canManage ==> r.value.status == (if SentTruthy(p, "status") then Lower(ToStr(p["status"])) else found.value.status)
    ensures r.Ok? && canManage && SentTruthy(p, "date") ==> ParseDate(ToStr(p["date"])) == Some(r.value.date)
  {
    if found.None? {
      return Err(ApiError(404, "Not found"));
    }
    var rec := found.value;
    if !canManage {
      var selfId := SelfId(actor, employees, idVariants);
      if selfId.None? || rec.employee !in idVariants(selfId.value) {
        return Err(ApiError(403, "Forbidden"));
      }
    }
    if canManage {
      r := ManagerEdit(rec, lookup, p);
      return;
    }
    var updated := false;
    if "checkIn" in p {
      rec := rec.(checkIn := SentTime(p, "checkIn"));
      updated := true;
    }
    if "checkOut" in p {
      rec := rec.(checkOut := SentTime(p, "checkOut"));
      updated := true;
    }
    if "notes" in p {
      rec := rec.(notes := StrOr(p["notes"], ""));
      updated := true;
    }
    if !updated {
      return Err(ApiError(400, "No valid fields to update"));
    }
    r := Ok(rec);
  }

  /** The manager's branch of PUT /attendance/<id>: each sent field is applied in turn. */
  method ManagerEdit(rec: Attendance, lookup: Val -> Option<string>, p: Payload) returns (r: Result<Attendance, ApiError>)
    ensures r.Ok? ==> r.value == ManagerFields(rec.(employee := r.value.employee, date := r.value.date), p)
    ensures r.Ok? && SentTruthy(p, "date") ==> ParseDate(ToStr(p["date"])) == Some(r.value.date)
    ensures r.Ok? && !SentTruthy(p, "date") ==> r.value.date == rec.date
    ensures r.Ok? && SentTruthy(p, "employeeId") ==> lookup(p["employeeId"]) == Some(r.value.employee)
    ensures r.Ok? && !SentTruthy(p, "employeeId") ==> r.value.employee == rec.employee
    ensures r.Err? <==> ManagerEditFails(lookup, p)
    ensures SentTruthy(p, "employeeId") && lookup(p["employeeId"]).None? ==> r == Err(ApiError(404, "Employee not found"))
    ensures !(SentTruthy(p, "employeeId") && lookup(p["employeeId"]).None?) && r.Err? ==> r == Err(ApiError(400, "Invalid date"))
  {
    var edited := rec;
    if "employeeId" in p && Truthy(p["employeeId"]) {
      var e := lookup(p["employeeId"]);
      if e.None? {
        return Err(ApiError(404, "Employee not found"));
      }
      edited := edited.(employee := e.value);
    }
    if "date" in p && Truthy(p["date"]) {
      var d := ParseDate(ToStr(p["date"]));
      if d.None? {
        return Err(ApiError(400, "Invalid date"));
      }
      edited := edited.(date := d.value);
    }
    r := Ok(ManagerFields(edited, p));
  }

  /** A manager's edit is refused: a sent employee id is unknown, or a sent date does not parse. */
  predicate ManagerEditFails(lookup: Val -> Option<string>, p: Payload) {
    (SentTruthy(p, "employeeId") && lookup(p["employeeId"]).None?)
    || (SentTruthy(p, "date") && ParseDate(ToStr(p["date"])).None?)
  }

  /** The fields a manager's edit sets without any check: check times, status and notes, each when sent. */
  function ManagerFields(rec: Attendance, p: Payload): (r: Attendance)
    ensures r.employee == rec.employee && r.date == rec.date
    ensures r.checkIn == (if "checkIn" in p then SentTime(p, "checkIn") else rec.checkIn)
    ensures r.checkOut == (if "checkOut" in p then SentTime(p, "checkOut") else rec.checkOut)
    ensures r.notes == (if SentNonNullKey(p, "notes") then ToStr(p["notes"]) else rec.notes)
    ensures r.status == (if SentTruthy(p, "status") then Lower(ToStr(p["status"])) else rec.status)
  {
    var rec := if "checkIn" in p then rec.(checkIn := SentTime(p, "checkIn")) else rec;
    var rec := if "checkOut" in p then rec.(checkOut := SentTime(p, "checkOut")) else rec;
    var rec := if "status" in p && Truthy(p["status"]) then rec.(status := Lower(ToStr(p["status"]))) else rec;
    if "notes" in p && p["notes"] != Null then rec.(notes := ToStr(p["notes"])) else rec
  }

  predicate SentNonNullKey(p: Payload, k: string) {
    k in p && p[k] != Null
  }

  // ---------------------------------------------------------------------------
  // Leave requests

  datatype Leave = Leave(employee: string, start: Date, end: Date, kind: string, status: string, reason: string,
                         decidedBy: string, decidedAt: Option<int>)

  /** A stored leave never ends before it starts. */
  predicate ValidLeave(l: Leave) {
    !DateLt(l.end, l.start)
  }

  /** Whose leave a POST records: staff get their own profile, managers the employee they name. */
  function LeaveTarget(canManage: bool, actor: Actor, employees: seq<EmployeeRow>, lookup: Val -> Option<string>,
                       p: Payload): (r: Result<string, ApiError>)
    ensures !canManage ==> (r.Ok? <==> LeaveEmployee(actor, employees).Some?)
    ensures !canManage && r.Ok? ==> r.value == LeaveEmployee(actor, employees).value.id
    ensures canManage ==> (r.Ok? <==> lookup(Get(p, "employeeId")).Some?)
  {
    if !canManage then
      match LeaveEmployee(actor, employees)
      case None => Err(ApiError(400, "No employee profile linked to your account"))
      case Some(row) => Ok(row.id)
    else
      match lookup(Get(p, "employeeId"))
      case None => Err(ApiError(404, "Employee not found"))
      case Some(id) => Ok(id)
  }

  /** The type and status a new leave gets: lower-cased; staff always "pending". */
  function LeaveLabels(canManage: bool, p: Payload): (r: Result<(string, string), ApiError>)
    ensures r.Ok? ==> LowerCase(r.value.0) && LowerCase(r.value.1)
    ensures r.Ok? && !canManage ==> r.value.1 == "pending"
    ensures r.Ok? && !Truthy(Get(p, "type")) ==> r.value.0 == "other"
    ensures r.Ok? && canManage && !Truthy(Get(p, "status")) ==> r.value.1 == "pending"
    ensures r.Err? <==> ((Truthy(Get(p, "type")) && !Get(p, "type").Str?)
                      || (canManage && Truthy(Get(p, "status")) && !Get(p, "status").Str?))
    ensures r.Err? ==> r == Err(ApiError(500, "Server error"))
    ensures r.Ok? && Truthy(Get(p, "type")) ==> r.value.0 == Lower(Get(p, "type").s)
    ensures r.Ok? && canManage && Truthy(Get(p, "status")) ==> r.value.1 == Lower(Get(p, "status").s)
  {
    assert LowerCase("other") && LowerCase("pending") by {}
    match LowerLabel(Get(p, "type"), "other")
    case None => Err(ApiError(500, "Server error"))
    case Some(kind) =>
      if !canManage then Ok((kind, "pending"))
      else match LowerLabel(Get(p, "status"), "pending")
        case None => Err(ApiError(500, "Server error"))
        case Some(status) => Ok((kind, status))
  }

  /** `(payload.get(k) or d).lower()`: None where the value has no `.lower()`. */
  function LowerLabel(v: Val, d: string): (r: Option<string>)
    requires LowerCase(d)
    ensures r.None? <==> Truthy(v) && !v.Str?
    ensures r.Some? ==> r.value == if Truthy(v) then Lower(v.s) else d
    ensures r.Some? ==> LowerCase(r.value)
  {
    match TextOr(v, d)
    case None => None
    case Some(t) =>
      LowerIsLowerCase(t);
      LowerOfLowerCase(d);
      Some(Lower(t))
  }

  /**
   * POST /leaves: employeeId, startDate and endDate are all required (even
   * from staff, whose own profile is then used instead), and the end may not
   * be before the start.
   */
  function CreateLeave(canManage: bool, actor: Actor, employees: seq<EmployeeRow>, lookup: Val -> Option<string>,
                       p: Payload): (r: Result<Leave, ApiError>)
    ensures r.Ok? ==> ValidLeave(r.value) && r.value.decidedBy == "" && r.value.decidedAt.None?
    ensures r.Ok? ==> Truthy(Get(p, "employeeId"))
    ensures r.Ok? ==> ParseDate(ToStr(Get(p, "startDate"))) == Some(r.value.start)
    ensures r.Ok? ==> ParseDate(ToStr(Get(p, "endDate"))) == Some(r.value.end)
    ensures r.Ok? ==> LeaveTarget(canManage, actor, employees, lookup, p) == Ok(r.value.employee)
    ensures r.Ok? ==> LeaveLabels(canManage, p) == Ok((r.value.kind, r.value.status))
    ensures !Truthy(Get(p, "employeeId")) || ParseDate(ToStr(Get(p, "startDate"))).None?
            || ParseDate(ToStr(Get(p, "endDate"))).None?
            ==> r == Err(ApiError(400, "employeeId, startDate, endDate required"))
    ensures r.Ok? <==> LeaveDatesOk(p) && LeaveTarget(canManage, actor, employees, lookup, p).Ok?
                       && LeaveLabels(canManage, p).Ok?
    ensures r.Ok? ==> r.value.reason == StrOr(Get(p, "reason"), "")
    ensures LeaveDatesRead(p) && !LeaveDatesOk(p) ==> r == Err(ApiError(400, "endDate must be after startDate"))
    ensures LeaveDatesOk(p) && LeaveTarget(canManage, actor, employees, lookup, p).Err? ==>
      r == Err(LeaveTarget(canManage, actor, employees, lookup, p).error)
    ensures LeaveDatesOk(p) && LeaveTarget(canManage, actor, employees, lookup, p).Ok? && LeaveLabels(canManage, p).Err? ==>
      r == Err(ApiError(500, "Server error"))
  {
    var sd := ParseDate(ToStr(Get(p, "startDate")));
    var ed := ParseDate(ToStr(Get(p, "endDate")));
    if !Truthy(Get(p, "employeeId")) || sd.None? || ed.None? then
      Err(ApiError(400, "employeeId, startDate, endDate required"))
    else if DateLt(ed.value, sd.value) then Err(ApiError(400, "endDate must be after startDate"))
    else match LeaveTarget(canManage, actor, employees, lookup, p)
      case Err(e) => Err(e)
      case Ok(emp) =>
        match LeaveLabels(canManage, p)
        case Err(e) => Err(e)
        case Ok(labels) =>
          Ok(Leave(emp, sd.value, ed.value, labels.0, labels.1, StrOr(Get(p, "reason"), ""), "", None))
  }

  /** An employee id is sent and both dates parse. */
  predicate LeaveDatesRead(p: Payload) {
    Truthy(Get(p, "employeeId")) && ParseDate(ToStr(Get(p, "startDate"))).Some?
    && ParseDate(ToStr(Get(p, "endDate"))).Some?
  }

  /** ... and the end is not before the start. */
  predicate LeaveDatesOk(p: Payload) {
    LeaveDatesRead(p) && !DateLt(ParseDate(ToStr(Get(p, "endDate"))).value, ParseDate(ToStr(Get(p, "startDate"))).value)
  }

  /** A staff request is always stored as pending, whatever status it carries. */
  lemma StaffLeaveIsPending(actor: Actor, employees: seq<EmployeeRow>, lookup: Val -> Option<string>, p: Payload)
    requires CreateLeave(false, actor, employees, lookup, p).Ok?
    ensures CreateLeave(false, actor, employees, lookup, p).value.status == "pending"
  {
  }

  /** Who decided a leave: the account's e-mail, else its name, else blank. */
  function DecidedBy(a: Actor): string {
    if a.email != "" then a.email else a.name
  }

  /**
   * The first half of a leave edit: a sent truthy employeeId, startDate or
   * endDate replaces the stored one once it resolves or parses.
   */
  method PatchLeaveRefs(rec: Leave, lookup: Val -> Option<string>, p: Payload) returns (r: Result<Leave, ApiError>)
    ensures r.Ok? ==> r.value.kind == rec.kind && r.value.status == rec.status && r.value.reason == rec.reason
                      && r.value.decidedBy == rec.decidedBy && r.value.decidedAt == rec.decidedAt
    ensures r.Ok? && SentTruthy(p, "startDate") ==> ParseDate(ToStr(p["startDate"])) == Some(r.value.start)
    ensures r.Ok? && !SentTruthy(p, "startDate") ==> r.value.start == rec.start
    ensures r.Ok? && SentTruthy(p, "endDate") ==> ParseDate(ToStr(p["endDate"])) == Some(r.value.end)
    ensures r.Ok? && !SentTruthy(p, "endDate") ==> r.value.end == rec.end
    ensures r.Ok? && SentTruthy(p, "employeeId") ==> lookup(p["employeeId"]) == Some(r.value.employee)
    ensures r.Ok? && !SentTruthy(p, "employeeId") ==> r.value.employee == rec.employee
    ensures SentTruthy(p, "employeeId") && lookup(p["employeeId"]).None? ==> r == Err(ApiError(404, "Employee not found"))
    ensures r.Err? <==> RefsError(lookup, p).Some?
    ensures r.Err? ==> r.error == RefsError(lookup, p).value
    ensures r.Ok? ==> r.value == PatchedRefs(rec, lookup, p)
  {
    var cur := rec;
    if "employeeId" in p && Truthy(p["employeeId"]) {
      var e := lookup(p["employeeId"]);
      if e.None? {
        return Err(ApiError(404, "Employee not found"));
      }
      cur := cur.(employee := e.value);
    }
    if "startDate" in p && Truthy(p["startDate"]) {
      var sd := ParseDate(ToStr(p["startDate"]));
      if sd.None? {
        return Err(ApiError(400, "Invalid startDate"));
      }
      cur := cur.(start := sd.value);
    }
    if "endDate" in p && Truthy(p["endDate"]) {
      var ed := ParseDate(ToStr(p["endDate"]));
      if ed.None? {
        return Err(ApiError(400, "Invalid endDate"));
      }
      cur := cur.(end := ed.value);
    }
    r := Ok(cur);
  }

  /** The first check of a leave edit that fails, in the coded order, if any. */
  function RefsError(lookup: Val -> Option<string>, p: Payload): (r: Option<ApiError>)
    ensures r.None? <==> !(SentTruthy(p, "employeeId") && lookup(p["employeeId"]).None?)
                         && !(SentTruthy(p, "startDate") && ParseDate(ToStr(p["startDate"])).None?)
                         && !(SentTruthy(p, "endDate") && ParseDate(ToStr(p["endDate"])).None?)
    ensures r.Some? ==> r.value in {ApiError(404, "Employee not found"), ApiError(400, "Invalid startDate"),
                                    ApiError(400, "Invalid endDate")}
    ensures SentTruthy(p, "employeeId") && lookup(p["employeeId"]).None? ==> r == Some(ApiError(404, "Employee not found"))
  {
    if SentTruthy(p, "employeeId") && lookup(p["employeeId"]).None? then Some(ApiError(404, "Employee not found"))
    else if SentTruthy(p, "startDate") && ParseDate(ToStr(p["startDate"])).None? then Some(ApiError(400, "Invalid startDate"))
    else if SentTruthy(p, "endDate") && ParseDate(ToStr(p["endDate"])).None? then Some(ApiError(400, "Invalid endDate"))
    else None
  }

  /** The leave after an edit's references pass: each sent one resolved or parsed, the rest kept. */
  function PatchedRefs(rec: Leave, lookup: Val -> Option<string>, p: Payload): (r: Leave)
    requires RefsError(lookup, p).None?
    ensures r.kind == rec.kind && r.status == rec.status && r.reason == rec.reason
            && r.decidedBy == rec.decidedBy && r.decidedAt == rec.decidedAt
    ensures SentTruthy(p, "employeeId") ==> lookup(p["employeeId"]) == Some(r.employee)
    ensures !SentTruthy(p, "employeeId") ==> r.employee == rec.employee
    ensures SentTruthy(p, "startDate") ==> ParseDate(ToStr(p["startDate"])) == Some(r.start)
    ensures !SentTruthy(p, "startDate") ==> r.start == rec.start
    ensures SentTruthy(p, "endDate") ==> ParseDate(ToStr(p["endDate"])) == Some(r.end)
    ensures !SentTruthy(p, "endDate") ==> r.end == rec.end
  {
    rec.(employee := if SentTruthy(p, "employeeId") then lookup(p["employeeId"]).value else rec.employee,
         start := if SentTruthy(p, "startDate") then ParseDate(ToStr(p["startDate"])).value else rec.start,
         end := if SentTruthy(p, "endDate") then ParseDate(ToStr(p["endDate"])).value else rec.end)
  }

  /**
   * The second half of a leave edit: a sent truthy type or status replaces
   * the stored one lower-cased, a status change records who decided and
   * when, and a non-null reason replaces the stored one.
   */
  function PatchLeaveLabels(rec: Leave, actor: Actor, p: Payload, now: int): (r: Leave)
    ensures r.employee == rec.employee && r.start == rec.start && r.end == rec.end
    ensures r.kind == (if SentTruthy(p, "type") then Lower(ToStr(p["type"])) else rec.kind)
    ensures SentTruthy(p, "status") ==>
      r.status == Lower(ToStr(p["status"])) && r.decidedBy == DecidedBy(actor) && r.decidedAt == Some(now)
    ensures !SentTruthy(p, "status") ==>
      r.status == rec.status && r.decidedBy == rec.decidedBy && r.decidedAt == rec.decidedAt
    ensures r.reason == (if SentNonNullKey(p, "reason") then ToStr(p["reason"]) else rec.reason)
  {
    var a := if SentTruthy(p, "type") then rec.(kind := Lower(ToStr(p["type"]))) else rec;
    var b := if SentTruthy(p, "status")
             then a.(status := Lower(ToStr(p["status"])), decidedBy := DecidedBy(actor), decidedAt := Some(now))
             else a;
    if SentNonNullKey(p, "reason") then b.(reason := ToStr(p["reason"])) else b
  }

  /** Sending the same labels twice leaves the same leave as sending them once. */
  lemma PatchLeaveLabelsIdempotent(rec: Leave, actor: Actor, p: Payload, now: int)
    ensures PatchLeaveLabels(PatchLeaveLabels(rec, actor, p, now), actor, p, now) == PatchLeaveLabels(rec, actor, p, now)
  {
  }

  /**
   * PUT /leaves/<id>: managers only, then the leave must exist. Sent truthy
   * employeeId, startDate and endDate replace the stored ones after their
   * checks; the merged leave may not end before it starts; then the labels
   * are patched.
   */
  method UpdateLeave(canManage: bool, found: Option<Leave>, actor: Actor, lookup: Val -> Option<string>,
                     p: Payload, now: int)
    returns (r: Result<Leave, ApiError>)
    ensures !canManage ==> r == Err(ApiError(403, "Forbidden"))
    ensures canManage && found.None? ==> r == Err(ApiError(404, "Not found"))
    ensures r.Ok? ==> found.Some? && ValidLeave(r.value)
    ensures r.Ok? <==> canManage && found.Some? && RefsError(lookup, p).None?
                       && ValidLeave(PatchedRefs(found.value, lookup, p))
    ensures canManage && found.Some? && RefsError(lookup, p).Some? ==> r == Err(RefsError(lookup, p).value)
    ensures canManage && found.Some? && RefsError(lookup, p).None? && !ValidLeave(PatchedRefs(found.value, lookup, p)) ==>
      r == Err(ApiError(400, "endDate must be after startDate"))
    ensures r.Ok? ==> r.value == PatchLeaveLabels(PatchedRefs(found.value, lookup, p), actor, p, now)
    ensures r.Ok? ==> r.value == PatchLeaveLabels(r.value.(kind := found.value.kind, status := found.value.status,
                                   reason := found.value.reason, decidedBy := found.value.decidedBy,
                                   decidedAt := found.value.decidedAt), actor, p, now)
    ensures r.Ok? && SentTruthy(p, "startDate") ==> ParseDate(ToStr(p["startDate"])) == Some(r.value.start)
    ensures r.Ok? && !SentTruthy(p, "startDate") ==> r.value.start == found.value.start
    ensures r.Ok? && SentTruthy(p, "endDate") ==> ParseDate(ToStr(p["endDate"])) == Some(r.value.end)
    ensures r.Ok? && !SentTruthy(p, "endDate") ==> r.value.end == found.value.end
    ensures r.Ok? && SentTruthy(p, "employeeId") ==> lookup(p["employeeId"]) == Some(r.value.employee)
    ensures r.Ok? && !SentTruthy(p, "employeeId") ==> r.value.employee == found.value.employee
  {
    if !canManage {
      return Err(ApiError(403, "Forbidden"));
    }
    if found.None? {
      return Err(ApiError(404, "Not found"));
    }
    var refs := PatchLeaveRefs(found.value, lookup, p);
    if refs.Err? {
      return Err(refs.error);
    }
    var rec := refs.value;
    if DateLt(rec.end, rec.start) {
      return Err(ApiError(400, "endDate must be after startDate"));
    }
    r := Ok(PatchLeaveLabels(rec, actor, p, now));
  }
}
