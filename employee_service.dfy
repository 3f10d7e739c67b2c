/**
 * The web client's employee service: how a raw employee record from the
 * API is normalised, how the query string is built, how the list is found
 * in a response, and how `getAllEmployees` walks the pages.
 *
 * Each HTTP reply is a parameter; `responses[i]` is the reply to the i-th
 * page request.
 */
module EmployeeService {
  import opened Wrappers
  import opened Text
  import opened Js
  import opened Query

  /** The record `_normalizeEmployee` returns; a hourly rate of None is NaN. */
  datatype Employee = Employee(
    id: JsValue, name: JsValue, position: JsValue, hourlyRate: Option<int>,
    contact: JsValue, status: string, avatar: JsValue)

  const TypeError := "TypeError"

  /** `Number(a ?? b ?? ... ?? d)`, with `Number(d)` given as `dflt`. */
  function NumberOfFirst(vs: seq<JsValue>, dflt: Option<int>): (r: Option<int>)
    ensures forall i :: 0 <= i < |vs| && !IsNullish(vs[i]) && (forall j :: 0 <= j < i ==> IsNullish(vs[j])) ==>
      r == ToNumber(vs[i])
    ensures (forall i :: 0 <= i < |vs| ==> IsNullish(vs[i])) ==> r == dflt
  {
    if vs == [] then dflt
    else if !IsNullish(vs[0]) then ToNumber(vs[0])
    else
      var r := NumberOfFirst(vs[1..], dflt);
      assert forall i :: 0 < i < |vs| ==> vs[1..][i - 1] == vs[i];
      assert forall i :: 0 < i < |vs| && !IsNullish(vs[i]) && (forall j :: 0 <= j < i ==> IsNullish(vs[j])) ==>
        !IsNullish(vs[1..][i - 1]) && (forall j :: 0 <= j < i - 1 ==> IsNullish(vs[1..][j]));
      r
  }

  /**
   * `(v || 'active').toLowerCase()`: lower-cased text, 'active' for a falsy
   * value; a truthy value that is not a string has no toLowerCase and throws.
   */
  function StatusText(v: JsValue): (r: Result<string, string>)
    ensures r.Err? <==> Truthy(v) && !v.Str?
    ensures r.Ok? ==> LowerCase(r.value) && r.value != ""
    ensures !Truthy(v) ==> r == Ok("active")
    ensures v.Str? && v.s != "" ==> r == Ok(Lower(v.s))
  {
    var s := Or(v, Str("active"));
    if s.Str? then
      LowerIsLowerCase(s.s);
      assert |Lower(s.s)| == |s.s| > 0;
      ActiveIsLower();
      Ok(Lower(s.s))
    else Err(TypeError)
  }

  lemma ActiveIsLower()
    ensures Lower("active") == "active"
  {
  }

  /**
   * `_normalizeEmployee`: name, position and contact default to '', the
   * rate is the first non-nullish of hourlyRate, hourly_rate and rate (else
   * 0) read as a number, the status is lower-cased with 'active' as
   * default, and the avatar defaults to the placeholder. Reading a property
   * of null throws.
   */
  function NormalizeEmployee(e: JsValue): (r: Result<Employee, string>)
    ensures r.Err? <==> e.Null? || (Truthy(Get(e, "status")) && !Get(e, "status").Str?)
  {
    if e.Null? then Err(TypeError)
    else match StatusText(Get(e, "status"))
      case Err(msg) => Err(msg)
      case Ok(status) =>
        Ok(Employee(
          Get(e, "id"),
          Or(Get(e, "name"), Str("")),
          Or(Get(e, "position"), Str("")),
          NumberOfFirst([Get(e, "hourlyRate"), Get(e, "hourly_rate"), Get(e, "rate")], Some(0)),
          Or(Get(e, "contact"), Str("")),
          status,
          Or(Get(e, "avatar"), Str("/placeholder.svg"))))
  }

  /** The defaults a normalised employee gets. */
  lemma NormalizeDefaults(e: JsValue)
    requires NormalizeEmployee(e).Ok?
    ensures var emp := NormalizeEmployee(e).value;
      && emp.id == Get(e, "id")
      && (Truthy(Get(e, "name")) ==> emp.name == Get(e, "name"))
      && (!Truthy(Get(e, "name")) ==> emp.name == Str(""))
      && (!Truthy(Get(e, "position")) ==> emp.position == Str(""))
      && (!Truthy(Get(e, "contact")) ==> emp.contact == Str(""))
      && (!Truthy(Get(e, "avatar")) ==> emp.avatar == Str("/placeholder.svg"))
      && (Truthy(Get(e, "position")) ==> emp.position == Get(e, "position"))
      && (Truthy(Get(e, "contact")) ==> emp.contact == Get(e, "contact"))
      && (Truthy(Get(e, "avatar")) ==> emp.avatar == Get(e, "avatar"))
      && LowerCase(emp.status) && emp.status != ""
      && (!Truthy(Get(e, "status")) ==> emp.status == "active")
      && (Truthy(Get(e, "status")) ==> emp.status == Lower(Get(e, "status").s))
      && emp.hourlyRate == NumberOfFirst([Get(e, "hourlyRate"), Get(e, "hourly_rate"), Get(e, "rate")], Some(0))
  {
  }

  /** The plain object a normalised employee is (its rate must be a number). */
  function ToObject(emp: Employee): JsValue
    requires emp.hourlyRate.Some?
  {
    Obj([Prop("id", emp.id), Prop("name", emp.name), Prop("position", emp.position),
         Prop("hourlyRate", Num(emp.hourlyRate.value)), Prop("contact", emp.contact),
         Prop("status", Str(emp.status)), Prop("avatar", emp.avatar)])
  }

  /** What every normalised employee with a numeric rate looks like. */
  predicate Normal(emp: Employee) {
    && emp.hourlyRate.Some?
    && (Truthy(emp.name) || emp.name == Str(""))
    && (Truthy(emp.position) || emp.position == Str(""))
    && (Truthy(emp.contact) || emp.contact == Str(""))
    && Truthy(emp.avatar)
    && emp.status != "" && Lower(emp.status) == emp.status
  }

  lemma NormalizedIsNormal(e: JsValue)
    requires NormalizeEmployee(e).Ok? && NormalizeEmployee(e).value.hourlyRate.Some?
    ensures Normal(NormalizeEmployee(e).value)
  {
    var emp := NormalizeEmployee(e).value;
    var st := Or(Get(e, "status"), Str("active"));
    assert StatusText(Get(e, "status")) == Ok(emp.status);
    assert st.Str? && emp.status == Lower(st.s);
    LowerIdempotent(st.s);
  }

  /** What reading each property of the written-out object gives. */
  lemma ObjectReads(emp: Employee)
    requires emp.hourlyRate.Some?
    ensures var o := ToObject(emp);
      && !o.Null?
      && Get(o, "id") == emp.id && Get(o, "name") == emp.name
      && Get(o, "position") == emp.position && Get(o, "contact") == emp.contact
      && Get(o, "hourlyRate") == Num(emp.hourlyRate.value)
      && Get(o, "status") == Str(emp.status) && Get(o, "avatar") == emp.avatar
  {
    var o := ToObject(emp);
    assert DistinctKeys(o.props);
    LookupDistinct(o.props, 1);
    LookupDistinct(o.props, 2);
    LookupDistinct(o.props, 3);
    LookupDistinct(o.props, 4);
    LookupDistinct(o.props, 5);
    LookupDistinct(o.props, 6);
  }

  /** The written-out object has no other rate property. */
  lemma ObjectHasNoAltRate(emp: Employee)
    requires emp.hourlyRate.Some?
    ensures Get(ToObject(emp), "hourly_rate") == Undefined && Get(ToObject(emp), "rate") == Undefined
  {
    var props := ToObject(emp).props;
    assert forall i :: 0 <= i < |props| ==> props[i].key in {"id", "name", "position", "hourlyRate", "contact", "status", "avatar"};
  }

  /** A non-empty lower-case status reads back as itself. */
  lemma StatusTextOfLower(s: string)
    requires s != "" && Lower(s) == s
    ensures StatusText(Str(s)) == Ok(s)
  {
  }

  /** A numeric rate is the first non-nullish candidate. */
  lemma RateOfNumber(n: int)
    ensures NumberOfFirst([Num(n), Undefined, Undefined], Some(0)) == Some(n)
  {
  }

  /** A normal employee, written out as an object, normalises to itself. */
  lemma NormalFixed(emp: Employee)
    requires Normal(emp)
    ensures NormalizeEmployee(ToObject(emp)) == Ok(emp)
  {
    var o := ToObject(emp);
    ObjectReads(emp);
    ObjectHasNoAltRate(emp);
    StatusTextOfLower(emp.status);
    RateOfNumber(emp.hourlyRate.value);
    assert Or(Get(o, "name"), Str("")) == emp.name;
    assert Or(Get(o, "position"), Str("")) == emp.position;
    assert Or(Get(o, "contact"), Str("")) == emp.contact;
    assert Or(Get(o, "avatar"), Str("/placeholder.svg")) == emp.avatar;
  }

  /** Normalising an already normalised employee changes nothing. */
  lemma NormalizeIdempotent(e: JsValue)
    requires NormalizeEmployee(e).Ok? && NormalizeEmployee(e).value.hourlyRate.Some?
    ensures NormalizeEmployee(ToObject(NormalizeEmployee(e).value)) == NormalizeEmployee(e)
  {
    NormalizedIsNormal(e);
    NormalFixed(NormalizeEmployee(e).value);
  }

  // ---------------------------------------------------------------------------
  // The query string

  /** `_buildQueryString`: '' when no parameter is kept, else '?' and the pairs. */
  method BuildQueryString(params: JsValue) returns (q: string)
    ensures q == "" <==> KeptPairs(Spread(Or(params, Obj([])))) == []
    ensures q != "" ==> q == "?" + QueryText(KeptPairs(Spread(Or(params, Obj([])))))
  {
    var pairs := AppendKept(Spread(Or(params, Obj([]))));
    var query := QueryText(pairs);
    q := if query != "" then "?" + query else "";
  }

  /** `getEmployees`' parameters: limit 500 when the caller's limit is undefined or null. */
  function DefaultLimit(params: seq<Prop>): (r: seq<Prop>)
    ensures Lookup(r, "limit") == if IsNullish(Lookup(params, "limit")) then Num(500) else Lookup(params, "limit")
    ensures forall k :: k != "limit" ==> Lookup(r, k) == Lookup(params, k)
    ensures DistinctKeys(params) ==> DistinctKeys(r)
  {
    SetPropDistinct(params, "limit", Num(500));
    if IsNullish(Lookup(params, "limit")) then SetProp(params, "limit", Num(500)) else params
  }

  /**
   * A limit of '' is not nullish, so no default applies; the builder then
   * drops it, and the request carries no limit at all.
   */
  lemma BlankLimitNotSent(params: seq<Prop>)
    requires DistinctKeys(params) && Lookup(params, "limit") == Str("")
    ensures forall j :: 0 <= j < |KeptPairs(DefaultLimit(params))| ==> KeptPairs(DefaultLimit(params))[j].key != "limit"
  {
    var r := DefaultLimit(params);
    assert r == params;
    forall i | 0 <= i < |r| && r[i].key == "limit" ensures !Kept(r[i].val) {
      LookupDistinct(r, i);
    }
    KeptPairsMembers(r, "limit", Undefined);
  }

  /** A missing limit is always sent as 500. */
  lemma MissingLimitSent(params: seq<Prop>)
    requires DistinctKeys(params) && IsNullish(Lookup(params, "limit"))
    ensures Pair("limit", "500") in KeptPairs(DefaultLimit(params))
  {
    var r := DefaultLimit(params);
    assert Lookup(r, "limit") == Num(500);
    assert Prop("limit", Num(500)) in r;
    KeptPairsMembers(r, "limit", Num(500));
    LimitText();
  }

  lemma LimitText()
    ensures ToStr(Num(500)) == "500"
  {
    assert NatToString(5) == "5";
    assert NatToString(50) == "50";
  }

  // ---------------------------------------------------------------------------
  // One page

  /** The elements of the first array among the candidates, else none. */
  function FirstArray(cands: seq<JsValue>): (r: seq<JsValue>)
    ensures (forall i :: 0 <= i < |cands| ==> !cands[i].Arr?) ==> r == []
    ensures forall i :: 0 <= i < |cands| && cands[i].Arr? && (forall j :: 0 <= j < i ==> !cands[j].Arr?) ==>
      r == cands[i].elems
  {
    if cands == [] then []
    else if cands[0].Arr? then cands[0].elems
    else
      assert forall i :: 0 < i < |cands| ==> cands[1..][i - 1] == cands[i];
      FirstArray(cands[1..])
  }

  /** The list in a reply: the reply itself, or its data, results or items, whichever is an array first. */
  function Container(res: JsValue): seq<JsValue> {
    FirstArray([res, Get(res, "data"), Get(res, "results"), Get(res, "items")])
  }

  /** `container.map(normalize)`: the first record that throws makes the whole call throw. */
  function NormalizeAll(items: seq<JsValue>): (r: Result<seq<Employee>, string>)
    ensures r.Ok? <==> forall i :: 0 <= i < |items| ==> NormalizeEmployee(items[i]).Ok?
    ensures r.Ok? ==> |r.value| == |items| && forall i :: 0 <= i < |items| ==> r.value[i] == NormalizeEmployee(items[i]).value
  {
    MapAll(NormalizeEmployee, items)
  }

  datatype Pagination = Pagination(page: Option<int>, limit: Option<int>, total: Option<int>, totalPages: Option<int>)

  datatype PageResult = PageResult(employees: seq<Employee>, pagination: Option<Pagination>)

  /** The pagination object in a reply: its own, its meta's, or its data's; else null. */
  function RawPagination(res: JsValue): JsValue {
    Or(Or(Or(Get(res, "pagination"), Get(Get(res, "meta"), "pagination")), Get(Get(res, "data"), "pagination")), Null)
  }

  /**
   * The pagination `_fetchEmployeesPage` reports for a raw pagination value:
   * none when it is falsy, else its fields read as numbers, falling back to
   * the request's page (`params.page ?? 1`, already read as a number) and
   * limit (`params.limit ?? 0`), the length of the list, and one page.
   */
  function PaginationOf(raw: JsValue, pageParam: Option<int>, limitParam: Option<int>, count: nat): (r: Option<Pagination>)
    ensures r.Some? <==> Truthy(raw)
    ensures r.Some? && IsNullish(Get(raw, "page")) && IsNullish(Get(raw, "current")) ==> r.value.page == pageParam
    ensures r.Some? && IsNullish(Get(raw, "limit")) && IsNullish(Get(raw, "pageSize")) ==> r.value.limit == limitParam
    ensures r.Some? && IsNullish(Get(raw, "total")) && IsNullish(Get(raw, "totalItems")) ==> r.value.total == Some(count)
    ensures r.Some? && IsNullish(Get(raw, "totalPages")) && IsNullish(Get(raw, "total_pages")) && IsNullish(Get(raw, "pages")) ==>
      r.value.totalPages == Some(1)
    ensures r.Some? && !IsNullish(Get(raw, "totalPages")) ==> r.value.totalPages == ToNumber(Get(raw, "totalPages"))
  {
    if !Truthy(raw) then None
    else Some(Pagination(
      NumberOfFirst([Get(raw, "page"), Get(raw, "current")], pageParam),
      NumberOfFirst([Get(raw, "limit"), Get(raw, "pageSize")], limitParam),
      NumberOfFirst([Get(raw, "total"), Get(raw, "totalItems")], Some(count)),
      NumberOfFirst([Get(raw, "totalPages"), Get(raw, "total_pages"), Get(raw, "pages")], Some(1))))
  }

  /** `_fetchEmployeesPage` after the reply: the normalised list and the reported pagination. */
  function FetchPage(res: JsValue, pageParam: Option<int>, limitParam: Option<int>): (r: Result<PageResult, string>)
    ensures r.Ok? <==> NormalizeAll(Container(res)).Ok?
    ensures r.Ok? ==> r.value.employees == NormalizeAll(Container(res)).value
    ensures r.Ok? ==> r.value.pagination == PaginationOf(RawPagination(res), pageParam, limitParam, |r.value.employees|)
  {
    match NormalizeAll(Container(res))
    case Err(msg) => Err(msg)
    case Ok(employees) =>
      Ok(PageResult(employees, PaginationOf(RawPagination(res), pageParam, limitParam, |employees|)))
  }

  /** `getEmployees`: the request's query string and the normalised list of the reply. */
  method GetEmployees(params: seq<Prop>, res: JsValue) returns (query: string, r: Result<seq<Employee>, string>)
    ensures query == "" <==> KeptPairs(DefaultLimit(params)) == []
    ensures query != "" ==> query == "?" + QueryText(KeptPairs(DefaultLimit(params)))
    ensures r == NormalizeAll(Container(res))
  {
    var queryParams := DefaultLimit(params);
    query := BuildQueryString(Obj(queryParams));
    var pageParam := NumberOfFirst([Lookup(queryParams, "page")], Some(1));
    var limitParam := NumberOfFirst([Lookup(queryParams, "limit")], Some(0));
    var fetched := FetchPage(res, pageParam, limitParam);
    r := if fetched.Ok? then Ok(fetched.value.employees) else Err(fetched.error);
  }

  // ---------------------------------------------------------------------------
  // getAllEmployees

  /** The page size: the caller's limit when it is a positive number, else 200. */
  function Limit(params: seq<Prop>): (r: int)
    ensures r > 0
    ensures ToNumber(Lookup(params, "limit")).Some? && ToNumber(Lookup(params, "limit")).value > 0 ==>
      r == ToNumber(Lookup(params, "limit")).value
    ensures IsNullish(Lookup(params, "limit")) ==> r == 200
  {
    var v := Lookup(params, "limit");
    var n := ToNumber(if IsNullish(v) then Num(0) else v);
    if n.Some? && n.value > 0 then n.value else 200
  }

  /** The first page: `Number(params.page ?? 1)`; None is NaN. */
  function StartPage(params: seq<Prop>): Option<int> {
    ToNumber(Coalesce(Lookup(params, "page"), Num(1)))
  }

  /** `page += 1`; NaN stays NaN. */
  function Next(page: Option<int>): Option<int> {
    if page.Some? then Some(page.value + 1) else None
  }

  /** The page's totalPages as the loop reads it: 0 when there is no pagination or it is NaN. */
  function TotalPagesOf(p: PageResult): int {
    if p.pagination.Some? && p.pagination.value.totalPages.Some? then p.pagination.value.totalPages.value else 0
  }

  /** The loop's exit test after a page. */
  predicate Stops(p: PageResult, page: Option<int>, limit: int) {
    TotalPagesOf(p) == 0 || (page.Some? && page.value >= TotalPagesOf(p)) || |p.employees| < limit
  }

  /** What the loop ends with: the list, a thrown error, or still wanting a reply after the last given one. */
  datatype Outcome = Done(employees: seq<Employee>) | Failed(error: string) | Unfinished

  function Prepend(acc: seq<Employee>, o: Outcome): Outcome {
    if o.Done? then Done(acc + o.employees) else o
  }

  /** How the loop reads a reply: `_fetchEmployeesPage` with the page requested and the loop's limit. */
  function Reader(limit: int): (JsValue, Option<int>) -> Result<PageResult, string> {
    (res: JsValue, page: Option<int>) => FetchPage(res, page, Some(limit))
  }

  /** Each reply read as the page it answers, the first answering request `page`. */
  function Fetched(read: (JsValue, Option<int>) -> Result<PageResult, string>, page: Option<int>, responses: seq<JsValue>)
    : (r: seq<Result<PageResult, string>>)
    ensures |r| == |responses|
    decreases |responses|
  {
    if responses == [] then []
    else [read(responses[0], page)] + Fetched(read, Next(page), responses[1..])
  }

  /** Page `page` advanced `i` times. */
  function Advance(page: Option<int>, i: nat): Option<int> {
    if page.Some? then Some(page.value + i) else None
  }

  /** The loop as a recursion over the pages it reads, from request `page` on. */
  function Aggregate(page: Option<int>, limit: int, pages: seq<Result<PageResult, string>>): Outcome
    decreases |pages|
  {
    if pages == [] then Unfinished
    else match pages[0]
      case Err(msg) => Failed(msg)
      case Ok(p) =>
        if Stops(p, page, limit) then Done(p.employees)
        else Prepend(p.employees, Aggregate(Next(page), limit, pages[1..]))
  }

  /** The pages the loop requests, in order. */
  function Requested(page: Option<int>, limit: int, pages: seq<Result<PageResult, string>>): seq<Option<int>>
    decreases |pages|
  {
    if pages == [] then []
    else match pages[0]
      case Err(_) => [page]
      case Ok(p) =>
        if Stops(p, page, limit) then [page] else [page] + Requested(Next(page), limit, pages[1..])
  }

  /** `getAllEmployees`: request page after page, collecting every list, until a stop test holds. */
  method GetAllEmployees(params: seq<Prop>, responses: seq<JsValue>) returns (r: Outcome, requested: seq<Option<int>>)
    requires DistinctKeys(params)
    ensures r == Aggregate(StartPage(params), Limit(params), Fetched(Reader(Limit(params)), StartPage(params), responses))
    ensures requested == Requested(StartPage(params), Limit(params), Fetched(Reader(Limit(params)), StartPage(params), responses))
  {
    var limit := Limit(params);
    var merged := Merge(params, [Prop("limit", Num(limit))]);
    MergeLookup(params, [Prop("limit", Num(limit))], "page");
    var page := ToNumber(Coalesce(Lookup(merged, "page"), Num(1)));
    r, requested := WalkPages(Reader(limit), page, limit, responses);
  }

  /** The `while (true)` loop of `getAllEmployees`, from the first page on. */
  method WalkPages(read: (JsValue, Option<int>) -> Result<PageResult, string>, start: Option<int>, limit: int, responses: seq<JsValue>)
    returns (r: Outcome, requested: seq<Option<int>>)
    ensures r == Aggregate(start, limit, Fetched(read, start, responses))
    ensures requested == Requested(start, limit, Fetched(read, start, responses))
  {
    var page := start;
    var aggregated: seq<Employee> := [];
    requested := [];
    var i := 0;
    while i < |responses|
      invariant 0 <= i <= |responses|
      invariant Prepend(aggregated, Aggregate(page, limit, Fetched(read, page, responses[i..]))) == Aggregate(start, limit, Fetched(read, start, responses))
      invariant requested + Requested(page, limit, Fetched(read, page, responses[i..])) == Requested(start, limit, Fetched(read, start, responses))
    {
      ghost var rest := Fetched(read, page, responses[i..]);
      var fetched := read(responses[i], page);
      assert responses[i..][1..] == responses[i + 1..];
      assert rest[0] == fetched && rest[1..] == Fetched(read, Next(page), responses[i + 1..]);
      AggregateStep(page, limit, rest);
      ghost var asked := requested;
      requested := requested + [page];
      if fetched.Err? {
        r := Failed(fetched.error);
        return;
      }
      var before := aggregated;
      aggregated := aggregated + fetched.value.employees;
      if Stops(fetched.value, page, limit) {
        r := Done(aggregated);
        return;
      }
      PrependTwice(before, fetched.value.employees, Aggregate(Next(page), limit, rest[1..]));
      assert requested + Requested(Next(page), limit, rest[1..]) == asked + ([page] + Requested(Next(page), limit, rest[1..]));
      page := Next(page);
      i := i + 1;
    }
    r := Unfinished;
  }

  /** Reply i is read as the answer to the start page advanced i times. */
  lemma {:induction false} FetchedAt(read: (JsValue, Option<int>) -> Result<PageResult, string>, page: Option<int>, responses: seq<JsValue>, i: nat)
    requires i < |responses|
    ensures Fetched(read, page, responses)[i] == read(responses[i], Advance(page, i))
    decreases i
  {
    if i > 0 {
      FetchedAt(read, Next(page), responses[1..], i - 1);
      assert Advance(Next(page), i - 1) == Advance(page, i);
    }
  }

  /** One turn of the loop, in terms of its first page. */
  lemma AggregateStep(page: Option<int>, limit: int, pages: seq<Result<PageResult, string>>)
    requires pages != []
    ensures pages[0].Err? ==> Aggregate(page, limit, pages) == Failed(pages[0].error) && Requested(page, limit, pages) == [page]
    ensures pages[0].Ok? && Stops(pages[0].value, page, limit) ==>
      Aggregate(page, limit, pages) == Done(pages[0].value.employees) && Requested(page, limit, pages) == [page]
    ensures pages[0].Ok? && !Stops(pages[0].value, page, limit) ==>
      && Aggregate(page, limit, pages) == Prepend(pages[0].value.employees, Aggregate(Next(page), limit, pages[1..]))
      && Requested(page, limit, pages) == [page] + Requested(Next(page), limit, pages[1..])
  {
  }

  lemma PrependTwice(a: seq<Employee>, b: seq<Employee>, o: Outcome)
    ensures Prepend(a, Prepend(b, o)) == Prepend(a + b, o)
  {
    if o.Done? {
      assert a + (b + o.employees) == (a + b) + o.employees;
    }
  }

  /** The loop asks for consecutive pages from the first one on. */
  lemma {:induction false} RequestedConsecutive(page: Option<int>, limit: int, pages: seq<Result<PageResult, string>>)
    ensures |Requested(page, limit, pages)| <= |pages|
    ensures forall i :: 0 <= i < |Requested(page, limit, pages)| ==> Requested(page, limit, pages)[i] == Advance(page, i)
    decreases |pages|
  {
    if pages != [] && pages[0].Ok? && !Stops(pages[0].value, page, limit) {
      var rest := Requested(Next(page), limit, pages[1..]);
      RequestedConsecutive(Next(page), limit, pages[1..]);
      assert forall i :: 0 < i < |rest| + 1 ==> Advance(Next(page), i - 1) == Advance(page, i);
    }
  }

  /**
   * The loop only goes on after a full page, so a finished walk over k
   * pages collected at least limit * (k - 1) employees.
   */
  lemma {:induction false} FullPagesBeforeLast(page: Option<int>, limit: int, pages: seq<Result<PageResult, string>>)
    requires Aggregate(page, limit, pages).Done?
    ensures |Aggregate(page, limit, pages).employees| >= limit * (|Requested(page, limit, pages)| - 1)
    decreases |pages|
  {
    var p := pages[0].value;
    if !Stops(p, page, limit) {
      var k := |Requested(Next(page), limit, pages[1..])|;
      FullPagesBeforeLast(Next(page), limit, pages[1..]);
      assert |p.employees| >= limit;
      assert limit * (k + 1 - 1) == limit * (k - 1) + limit;
    }
  }

  // ---------------------------------------------------------------------------
  // createEmployee

  /** The body `createEmployee` posts. */
  datatype NewEmployee = NewEmployee(name: JsValue, position: JsValue, hourlyRate: Option<int>, contact: JsValue, status: string)

  /**
   * The payload: name, position and contact default to '', the rate is
   * `Number(hourlyRate ?? 0)`, and the status is lower-cased with 'active'
   * as default (a truthy non-string status throws before anything is sent).
   */
  function CreatePayload(employee: JsValue): (r: Result<NewEmployee, string>)
    ensures r.Err? <==> Truthy(Get(employee, "status")) && !Get(employee, "status").Str?
    ensures r.Ok? ==>
      && LowerCase(r.value.status) && r.value.status != ""
      && (!Truthy(Get(employee, "status")) ==> r.value.status == "active")
      && r.value.hourlyRate == NumberOfFirst([Get(employee, "hourlyRate")], Some(0))
      && (!Truthy(Get(employee, "name")) ==> r.value.name == Str(""))
    ensures r.Ok? && Truthy(Get(employee, "status")) ==> r.value.status == Lower(Get(employee, "status").s)
    ensures r.Ok? && Truthy(Get(employee, "name")) ==> r.value.name == Get(employee, "name")
    ensures r.Ok? ==> r.value.position == if Truthy(Get(employee, "position")) then Get(employee, "position") else Str("")
    ensures r.Ok? ==> r.value.contact == if Truthy(Get(employee, "contact")) then Get(employee, "contact") else Str("")
  {
    match StatusText(Get(employee, "status"))
    case Err(msg) => Err(msg)
    case Ok(status) =>
      Ok(NewEmployee(
        Or(Get(employee, "name"), Str("")),
        Or(Get(employee, "position"), Str("")),
        NumberOfFirst([Get(employee, "hourlyRate")], Some(0)),
        Or(Get(employee, "contact"), Str("")),
        status))
  }

  /** The status sent is already normal: the server's echo of it normalises to the same text. */
  lemma PayloadStatusStable(employee: JsValue)
    requires CreatePayload(employee).Ok?
    ensures StatusText(Str(CreatePayload(employee).value.status)) == Ok(CreatePayload(employee).value.status)
  {
    LowerIdempotent(Or(Get(employee, "status"), Str("active")).s);
  }

  /** `createEmployee`: the payload posted and the reply's record (`res.data || res`) normalised. */
  function CreateEmployee(employee: JsValue, res: JsValue): (r: Result<(NewEmployee, Employee), string>)
    ensures r.Ok? <==> CreatePayload(employee).Ok? && NormalizeEmployee(Or(Get(res, "data"), res)).Ok?
    ensures r.Ok? ==> r.value.0 == CreatePayload(employee).value && r.value.1 == NormalizeEmployee(Or(Get(res, "data"), res)).value
  {
    match CreatePayload(employee)
    case Err(msg) => Err(msg)
    case Ok(payload) =>
      match NormalizeEmployee(Or(Get(res, "data"), res))
      case Err(msg) => Err(msg)
      case Ok(emp) => Ok((payload, emp))
  }
}
