/**
 * The scheduling view's "Add Employees" panel: the roster shown by name,
 * the count of active employees, the status badge, and the add and remove
 * handlers with their form, saving and deleting state.
 *
 * The add and delete callbacks, the confirmation dialog and the toast are
 * outside the panel: whether a callback is given, what it reports and
 * what the user answers are parameters of the handlers.
 */
module AddEmployeePanel {
  import opened Wrappers
  import opened Text
  import opened Js
  import opened Sorting

  // ---------------------------------------------------------------------------
  // Status options

  datatype StatusOption = StatusOption(value: string, title: string, tone: string)

  const StatusOptions: seq<StatusOption> := [
    StatusOption("active", "Active", "text-emerald-700 bg-emerald-50 border-emerald-200"),
    StatusOption("inactive", "Inactive", "text-muted-foreground bg-muted/20 border-muted"),
    StatusOption("pending", "Pending", "text-amber-700 bg-amber-50 border-amber-200")
  ]

  const DefaultTone := "text-muted-foreground border-border"

  /** `STATUS_OPTIONS.find((item) => item.value === value)`. */
  function FindOption(value: JsValue): (r: Option<StatusOption>)
    ensures r.Some? <==> value.Str? && value.s in {"active", "inactive", "pending"}
    ensures r.Some? ==> r.value in StatusOptions && r.value.value == value.s
  {
    match FindFirst(StatusOptions, (o: StatusOption) => StrictEq(Str(o.value), value))
    case None => None
    case Some(i) => Some(StatusOptions[i])
  }

  /** `statusToneClass`: the matching option's tone, else the default class. */
  function ToneClass(value: JsValue): (r: string)
    ensures r != ""
    ensures FindOption(value).Some? ==> r == FindOption(value).value.tone
    ensures FindOption(value).None? ==> r == DefaultTone
  {
    match FindOption(value)
    case Some(o) => if o.tone != "" then o.tone else DefaultTone
    case None => DefaultTone
  }

  /** The badge text: the matching option's label, else 'Unknown'. */
  function BadgeLabel(value: JsValue): (r: string)
    ensures FindOption(value).Some? ==> r == FindOption(value).value.title
    ensures FindOption(value).None? ==> r == "Unknown"
  {
    match FindOption(value)
    case Some(o) => if o.title != "" then o.title else "Unknown"
    case None => "Unknown"
  }

  /** The badge reads 'Unknown' exactly when it wears the default tone. */
  lemma UnknownIffDefaultTone(value: JsValue)
    ensures BadgeLabel(value) == "Unknown" <==> ToneClass(value) == DefaultTone
  {
    if FindOption(value).Some? {
      assert FindOption(value).value in StatusOptions;
    }
  }

  // ---------------------------------------------------------------------------
  // The roster

  /** The sort key: `(e?.name || '')`, compared without regard to case. */
  function NameKey(e: JsValue): (r: string)
    ensures LowerCase(r)
    ensures !Truthy(Get(e, "name")) ==> r == ""
  {
    LowerIsLowerCase(ToStr(Or(Get(e, "name"), Str(""))));
    Lower(ToStr(Or(Get(e, "name"), Str(""))))
  }

  predicate NameLe(a: JsValue, b: JsValue) {
    LexLe(NameKey(a), NameKey(b))
  }

  lemma NameLeTotalPreorder()
    ensures TotalPreorder(NameLe)
  {
    forall a, b ensures NameLe(a, b) || NameLe(b, a) {
      LexLeTotal(NameKey(a), NameKey(b));
    }
    forall a, b, c | NameLe(a, b) && NameLe(b, c) ensures NameLe(a, c) {
      LexLeTrans(NameKey(a), NameKey(b), NameKey(c));
    }
  }

  /** Array.prototype.sort hands every entry but `undefined` to the comparator. */
  predicate Compared(e: JsValue) {
    !e.Undefined?
  }

  predicate IsUndefined(e: JsValue) {
    e.Undefined?
  }

  /**
   * `sortedEmployees`: a copy of the roster ordered by name. As
   * `Array.prototype.sort` does, the comparator orders the entries that are
   * not `undefined`, and the `undefined` ones come after them.
   */
  function SortedEmployees(employees: seq<JsValue>): (r: seq<JsValue>)
    ensures multiset(r) == multiset(employees)
    ensures |r| == |employees|
  {
    FilterPartition(employees, Compared, IsUndefined);
    Sort(Filter(employees, Compared), NameLe) + Filter(employees, IsUndefined)
  }

  /**
   * The sorted roster is a reordering of the input: first the entries that
   * are not `undefined`, with names that never go down, then the
   * `undefined` ones.
   */
  lemma SortedEmployeesOrdered(employees: seq<JsValue>)
    ensures multiset(SortedEmployees(employees)) == multiset(employees)
    ensures forall i, j :: 0 <= i < j < Count(employees, Compared) ==>
      LexLe(NameKey(SortedEmployees(employees)[i]), NameKey(SortedEmployees(employees)[j]))
    ensures forall i :: 0 <= i < Count(employees, Compared) ==> !SortedEmployees(employees)[i].Undefined?
    ensures forall i :: Count(employees, Compared) <= i < |employees| ==> SortedEmployees(employees)[i] == Undefined
  {
    var sorted := Sort(Filter(employees, Compared), NameLe);
    var undefs := Filter(employees, IsUndefined);
    SortedEmployeesParts(employees);
    var r := SortedEmployees(employees);
    forall i, j | 0 <= i < j < |sorted| ensures LexLe(NameKey(r[i]), NameKey(r[j])) {
      assert r[i] == sorted[i] && r[j] == sorted[j];
      assert NameLe(sorted[i], sorted[j]);
    }
    forall i | 0 <= i < |sorted| ensures !r[i].Undefined? {
      assert r[i] == sorted[i] && Compared(sorted[i]);
    }
    forall i | |sorted| <= i < |r| ensures r[i] == Undefined {
      assert r[i] == undefs[i - |sorted|];
    }
  }

  /** The two parts the sorted roster is made of, and what holds of each. */
  lemma SortedEmployeesParts(employees: seq<JsValue>)
    ensures SortedEmployees(employees) == Sort(Filter(employees, Compared), NameLe) + Filter(employees, IsUndefined)
    ensures |Sort(Filter(employees, Compared), NameLe)| == Count(employees, Compared)
    ensures SortedBy(Sort(Filter(employees, Compared), NameLe), NameLe)
    ensures forall i :: 0 <= i < |Sort(Filter(employees, Compared), NameLe)| ==> Compared(Sort(Filter(employees, Compared), NameLe)[i])
    ensures forall i :: 0 <= i < |Filter(employees, IsUndefined)| ==> Filter(employees, IsUndefined)[i] == Undefined
  {
    var defined := Filter(employees, Compared);
    NameLeTotalPreorder();
    SortSorted(defined, NameLe);
    SortKeeps(defined, NameLe, Compared);
  }

  /** The entries, other than `undefined`, whose sort key is k. */
  function WithKey(k: string): JsValue -> bool {
    e => Compared(e) && NameKey(e) == k
  }

  /**
   * The sort is stable: entries whose names are equal ignoring case keep
   * their order ("Bob" listed before "bob" stays before it).
   */
  lemma SortedEmployeesStable(employees: seq<JsValue>, k: string)
    ensures Filter(SortedEmployees(employees), WithKey(k)) == Filter(employees, WithKey(k))
  {
    var defined := Filter(employees, Compared);
    var undefs := Filter(employees, IsUndefined);
    NameLeTotalPreorder();
    forall a, b | WithKey(k)(a) && WithKey(k)(b) ensures NameLe(a, b) {
      LexLeTotal(k, k);
    }
    SortStable(defined, NameLe, WithKey(k));
    FilterOfFilter(employees, Compared, WithKey(k));
    FilterAppend(Sort(defined, NameLe), undefs, WithKey(k));
    FilterNone(undefs, WithKey(k));
  }

  /** `employee?.status === 'active'`. */
  predicate IsActive(e: JsValue) {
    StrictEq(Get(e, "status"), Str("active"))
  }

  /** `totalActive`: the employees whose status is exactly 'active'. */
  function TotalActive(employees: seq<JsValue>): (r: nat)
    ensures r <= |employees|
    ensures r == |Filter(employees, IsActive)|
  {
    Count(employees, IsActive)
  }

  /** The count of active employees agrees with the sorted roster it is shown beside. */
  lemma TotalActiveSortInvariant(employees: seq<JsValue>)
    ensures TotalActive(SortedEmployees(employees)) == TotalActive(employees)
  {
    var defined := Filter(employees, Compared);
    var undefs := Filter(employees, IsUndefined);
    CountSort(defined, NameLe, IsActive);
    CountSplit(Sort(defined, NameLe), undefs, IsActive);
    FilterOfFilter(employees, Compared, IsActive);
    FilterNone(undefs, IsActive);
  }

  /** Adding one employee raises the count by one exactly when its status is 'active'. */
  lemma TotalActiveAppend(employees: seq<JsValue>, e: JsValue)
    ensures TotalActive(employees + [e]) == TotalActive(employees) + (if IsActive(e) then 1 else 0)
  {
    CountSplit(employees, [e], IsActive);
    assert Filter([e], IsActive) == (if IsActive(e) then [e] else []);
  }

  // ---------------------------------------------------------------------------
  // The form and its handlers

  datatype PanelField = Name | Position | HourlyRate | Contact | Status

  /** The form's inputs, as the text the user typed. */
  datatype PanelForm = PanelForm(name: string, position: string, hourlyRate: string, contact: string, status: string)

  /** `{ ...prev, [field]: value }`: only the named input changes. */
  function WithInput(form: PanelForm, f: PanelField, v: string): PanelForm
  {
    match f
    case Name => form.(name := v)
    case Position => form.(position := v)
    case HourlyRate => form.(hourlyRate := v)
    case Contact => form.(contact := v)
    case Status => form.(status := v)
  }

  const DefaultForm := PanelForm("", "", "", "", "active")

  /** The record handed to the add callback. */
  datatype Submission = Submission(name: string, position: string, hourlyRate: Option<int>, contact: string, status: string)

  /** `Number(form.hourlyRate || 0)`: an empty input is 0, anything else is read as a number (None is NaN). */
  function RateOf(text: string): (r: Option<int>)
    ensures Trim(text) == "" ==> r == Some(0)
    ensures text != "" ==> r == StrToNumber(text)
    ensures r.Some? && text != "" ==> AllSpace(text) || AllDigits(Trim(text)) || Trim(text)[0] in {'+', '-'}
  {
    if text == "" then Some(0) else StrToNumber(text)
  }

  /** The submission built from a form: trimmed texts, the rate as a number, the status as chosen. */
  function SubmissionOf(form: PanelForm): Submission
  {
    Submission(Trim(form.name), Trim(form.position), RateOf(form.hourlyRate), Trim(form.contact), form.status)
  }

  /** Trimming the submitted texts again changes nothing: what is sent is already trimmed. */
  lemma SubmissionTrimmed(form: PanelForm)
    ensures Trim(SubmissionOf(form).name) == SubmissionOf(form).name
    ensures Trim(SubmissionOf(form).position) == SubmissionOf(form).position
    ensures Trim(SubmissionOf(form).contact) == SubmissionOf(form).contact
  {
    TrimIdempotent(form.name);
    TrimIdempotent(form.position);
    TrimIdempotent(form.contact);
  }

  class Panel {
    var form: PanelForm
    var saving: bool
    var deletingId: JsValue

    constructor ()
      ensures form == DefaultForm && !saving && deletingId == Null
    {
      form := DefaultForm;
      saving := false;
      deletingId := Null;
    }

    /** `disableSubmit`: saving, or no name yet. */
    predicate DisableSubmit()
      reads this
    {
      saving || Trim(form.name) == ""
    }

    /** `handleFieldChange`: set one input; nothing else changes. */
    method HandleFieldChange(f: PanelField, v: string)
      modifies this
      ensures form == WithInput(old(form), f, v)
      ensures saving == old(saving) && deletingId == old(deletingId)
    {
      form := WithInput(form, f, v);
    }

    /**
     * `handleSubmit`: with an add callback and a non-blank name, hand the
     * callback the submission; the form goes back to its defaults only when
     * the callback succeeds, and saving is off afterwards.
     */
    method HandleSubmit(hasCallback: bool, added: bool) returns (sent: Option<Submission>)
      modifies this
      ensures sent.Some? <==> hasCallback && Trim(old(form).name) != ""
      ensures hasCallback && !old(DisableSubmit()) ==> sent.Some?
      ensures sent.Some? ==> sent.value == SubmissionOf(old(form)) && sent.value.name != ""
      ensures sent.None? ==> form == old(form) && saving == old(saving)
      ensures sent.Some? ==> !saving && form == (if added then DefaultForm else old(form))
      ensures deletingId == old(deletingId)
    {
      if !hasCallback || Trim(form.name) == "" {
        return None;
      }
      var submission := SubmissionOf(form);
      saving := true;
      sent := Some(submission);
      if added {
        form := DefaultForm;
      }
      saving := false;
    }

    /**
     * `handleDelete`: with a truthy id, a delete callback and the user's
     * confirmation, hand the callback the id; deletingId is cleared
     * afterwards whatever the callback does.
     */
    method HandleDelete(employeeId: JsValue, hasCallback: bool, confirmed: bool) returns (deleted: Option<JsValue>)
      modifies this
      ensures deleted.Some? <==> Truthy(employeeId) && hasCallback && confirmed
      ensures deleted.Some? ==> deleted.value == employeeId && deletingId == Null
      ensures deleted.None? ==> deletingId == old(deletingId)
      ensures form == old(form) && saving == old(saving)
    {
      if !Truthy(employeeId) || !hasCallback {
        return None;
      }
      if !confirmed {
        return None;
      }
      deletingId := employeeId;
      deleted := Some(employeeId);
      deletingId := Null;
    }
  }
}
