/**
 * The mobile catering-event form: selecting menu items, grouping the menu
 * by category, the quantity field of a menu row, the time picker, and the
 * submission that checks the form, snapshots the selected items into line
 * items, totals them and asks for a 50% down payment.
 *
 * Prices and money are `real` (JavaScript numbers, without NaN except where
 * a missing quantity makes a product NaN, which is the `None` of a total).
 */
module CateringModal {
  import opened Wrappers
  import opened Text
  import opened Js
  import opened Sorting
  import opened Clock

  /** A menu row as the modal holds it; selectedQuantity is None while undefined. */
  datatype MenuItem = MenuItem(id: int, name: string, price: real, category: string, image: string,
                               selectedQuantity: Option<int>)

  // ---------------------------------------------------------------------------
  // toggleMenuItem

  function NotId(id: int): int -> bool {
    (x: int) => x != id
  }

  /** Selecting a row again unselects it (every copy of its id goes); otherwise its id is appended. */
  function Toggle(selected: seq<int>, id: int): (r: seq<int>)
    ensures id in r <==> id !in selected
    ensures forall x :: x != id ==> (x in r <==> x in selected)
    ensures id !in selected ==> r == selected + [id]
    ensures id in selected ==> r == Filter(selected, NotId(id))
  {
    if id in selected then
      var r := Filter(selected, NotId(id));
      assert forall x :: x != id && x in selected ==> x in r by {
        forall x | x != id && x in selected ensures x in r {
          var i :| 0 <= i < |selected| && selected[i] == x;
        }
      }
      r
    else selected + [id]
  }

  /** Filtering out an id that is not there changes nothing. */
  lemma {:induction false} FilterAbsent(s: seq<int>, id: int)
    requires id !in s
    ensures Filter(s, NotId(id)) == s
  {
    if s != [] {
      assert id !in s[1..];
      FilterAbsent(s[1..], id);
      assert s == [s[0]] + s[1..];
    }
  }

  /** Toggling the same row twice restores the selection exactly when the row was not selected. */
  lemma ToggleTwice(selected: seq<int>, id: int)
    ensures forall x :: x in Toggle(Toggle(selected, id), id) <==> x in selected
    ensures id !in selected ==> Toggle(Toggle(selected, id), id) == selected
  {
    if id !in selected {
      FilterAppend(selected, [id], NotId(id));
      FilterAbsent(selected, id);
      assert Filter([id], NotId(id)) == [];
    }
  }

  // ---------------------------------------------------------------------------
  // categorizedMenu

  /** `item.category || 'Others'`. */
  function CategoryOf(item: MenuItem): string {
    if item.category != "" then item.category else "Others"
  }

  function InCategory(c: string): MenuItem -> bool {
    (x: MenuItem) => CategoryOf(x) == c
  }

  /** The comparator `a.price - b.price`, read as "a may come before b". */
  function PriceLe(a: MenuItem, b: MenuItem): bool {
    a.price <= b.price
  }

  function Categories(items: seq<MenuItem>): set<string> {
    set j | 0 <= j < |items| :: CategoryOf(items[j])
  }

  /** Each category of the menu maps to its items, in menu order, then stably sorted by price. */
  function Grouped(items: seq<MenuItem>): map<string, seq<MenuItem>> {
    map c | c in Categories(items) :: Sort(Filter(items, InCategory(c)), PriceLe)
  }

  lemma CategoriesPush(s: seq<MenuItem>, x: MenuItem)
    ensures Categories(s + [x]) == Categories(s) + {CategoryOf(x)}
  {
    assert forall j :: 0 <= j < |s| ==> (s + [x])[j] == s[j];
    assert (s + [x])[|s|] == x;
  }

  /**
   * The categories in the order they first appear in the menu: the order in
   * which the push loop creates the buckets, which is the order
   * `Object.keys` gives them back when the screen renders the sections.
   */
  function CategoryOrder(items: seq<MenuItem>): seq<string>
  {
    if items == [] then []
    else
      var o := CategoryOrder(items[..|items| - 1]);
      var c := CategoryOf(items[|items| - 1]);
      if c in o then o else o + [c]
  }

  /** Every category is listed, once. */
  lemma {:induction false} CategoryOrderMembers(items: seq<MenuItem>)
    ensures forall i, j :: 0 <= i < j < |CategoryOrder(items)| ==> CategoryOrder(items)[i] != CategoryOrder(items)[j]
    ensures forall c :: c in CategoryOrder(items) <==> c in Categories(items)
  {
    if items != [] {
      var init := items[..|items| - 1];
      var last := items[|items| - 1];
      assert items == init + [last];
      CategoriesPush(init, last);
      CategoryOrderMembers(init);
    }
  }

  /** Pushing an item adds its category at the end exactly when it is new. */
  lemma CategoryOrderPush(s: seq<MenuItem>, x: MenuItem)
    ensures CategoryOrder(s + [x])
         == if CategoryOf(x) in Categories(s) then CategoryOrder(s) else CategoryOrder(s) + [CategoryOf(x)]
  {
    assert (s + [x])[..|s + [x]| - 1] == s;
    CategoryOrderMembers(s);
  }

  /** A category already present keeps its first position when an item is pushed. */
  lemma FirstOfPush(s: seq<MenuItem>, x: MenuItem, c: string)
    requires c in Categories(s)
    ensures FindFirst(s, InCategory(c)).Some?
    ensures FindFirst(s + [x], InCategory(c)) == FindFirst(s, InCategory(c))
  {
    var j :| 0 <= j < |s| && CategoryOf(s[j]) == c;
    assert InCategory(c)(s[j]);
    FindFirstAppend(s, x, InCategory(c));
  }

  /** A category new with the pushed item is first seen at its position. */
  lemma FirstOfNew(s: seq<MenuItem>, x: MenuItem)
    requires CategoryOf(x) !in Categories(s)
    ensures FindFirst(s + [x], InCategory(CategoryOf(x))) == Some(|s|)
  {
    var p := InCategory(CategoryOf(x));
    FindFirstAppend(s, x, p);
  }

  /** Categories are listed in the order of their first item in the menu. */
  lemma {:induction false} CategoryOrderIsFirstAppearance(items: seq<MenuItem>, i: int, k: int)
    requires 0 <= i < k < |CategoryOrder(items)|
    ensures FindFirst(items, InCategory(CategoryOrder(items)[i])).Some?
    ensures FindFirst(items, InCategory(CategoryOrder(items)[k])).Some?
    ensures FindFirst(items, InCategory(CategoryOrder(items)[i])).value
          < FindFirst(items, InCategory(CategoryOrder(items)[k])).value
  {
    var init := items[..|items| - 1];
    var last := items[|items| - 1];
    assert items == init + [last];
    var o := CategoryOrder(init);
    var r := CategoryOrder(items);
    CategoryOrderPush(init, last);
    CategoryOrderMembers(init);
    assert o[i] in Categories(init);
    FirstOfPush(init, last, o[i]);
    if k < |o| {
      assert r[i] == o[i] && r[k] == o[k];
      FirstOfPush(init, last, o[k]);
      CategoryOrderIsFirstAppearance(init, i, k);
    } else {
      assert r == o + [CategoryOf(last)] && r[k] == CategoryOf(last);
      FirstOfNew(init, last);
    }
  }

  /** A category with no item so far has an empty bucket. */
  lemma EmptyBucket(s: seq<MenuItem>, c: string)
    requires c !in Categories(s)
    ensures Filter(s, InCategory(c)) == []
  {
  }

  /** Pushing an item extends its own category's bucket and no other. */
  lemma FilterPush(s: seq<MenuItem>, x: MenuItem, c: string)
    ensures Filter(s + [x], InCategory(c)) == Filter(s, InCategory(c)) + (if CategoryOf(x) == c then [x] else [])
  {
    FilterAppend(s, [x], InCategory(c));
    assert [x][1..] == [];
  }

  /** One bucket per category of the items, holding that category's items in order. */
  ghost predicate Bucketed(groups: map<string, seq<MenuItem>>, items: seq<MenuItem>) {
    groups.Keys == Categories(items) && forall c :: c in groups ==> groups[c] == Filter(items, InCategory(c))
  }

  /** One push keeps every bucket equal to its category's items so far. */
  lemma PushKeepsBuckets(done: seq<MenuItem>, item: MenuItem, before: map<string, seq<MenuItem>>,
                         after: map<string, seq<MenuItem>>)
    requires Bucketed(before, done)
    requires after == before[CategoryOf(item) := (if CategoryOf(item) in before then before[CategoryOf(item)] else [])
                                                 + [item]]
    ensures Bucketed(after, done + [item])
  {
    var cat := CategoryOf(item);
    CategoriesPush(done, item);
    if cat !in before {
      EmptyBucket(done, cat);
    }
    forall c | c in after
      ensures after[c] == Filter(done + [item], InCategory(c))
    {
      FilterPush(done, item, c);
      if c != cat {
        assert after[c] == before[c];
      }
    }
  }

  /** The first pass: push every item onto its category's bucket. */
  method GroupByCategory(items: seq<MenuItem>) returns (groups: map<string, seq<MenuItem>>, order: seq<string>)
    ensures groups.Keys == Categories(items)
    ensures forall c :: c in groups ==> groups[c] == Filter(items, InCategory(c))
    ensures order == CategoryOrder(items)
  {
    groups := map[];
    order := [];
    var i := 0;
    while i < |items|
      invariant 0 <= i <= |items|
      invariant Bucketed(groups, items[..i])
      invariant order == CategoryOrder(items[..i])
    {
      var item := items[i];
      var cat := CategoryOf(item);
      ghost var done := items[..i];
      assert items[..i + 1] == done + [item];
      CategoryOrderPush(done, item);
      assert cat in groups <==> cat in Categories(done);
      ghost var before := groups;
      var bucket := [];
      if cat in groups {
        bucket := groups[cat];
      } else {
        order := order + [cat];
      }
      assert order == CategoryOrder(done + [item]);
      groups := groups[cat := bucket + [item]];
      PushKeepsBuckets(done, item, before, groups);
      assert Bucketed(groups, items[..i + 1]);
      i := i + 1;
    }
    assert items[..|items|] == items;
    assert Bucketed(groups, items);
  }

  /** The second pass: sort each bucket by price. */
  method SortGroups(buckets: map<string, seq<MenuItem>>) returns (groups: map<string, seq<MenuItem>>)
    ensures groups.Keys == buckets.Keys
    ensures forall c :: c in groups ==> groups[c] == Sort(buckets[c], PriceLe)
  {
    groups := buckets;
    var todo := groups.Keys;
    while todo != {}
      invariant todo <= groups.Keys == buckets.Keys
      invariant forall c :: c in todo ==> groups[c] == buckets[c]
      invariant forall c :: c in groups && c !in todo ==> groups[c] == Sort(buckets[c], PriceLe)
      decreases |todo|
    {
      var c :| c in todo;
      groups := groups[c := Sort(groups[c], PriceLe)];
      todo := todo - {c};
    }
  }

  /**
   * `categorizedMenu`: bucket the menu by category, then sort every bucket in
   * place; `order` is the key order of the object the screen renders from.
   */
  method CategorizedMenu(items: seq<MenuItem>) returns (groups: map<string, seq<MenuItem>>, order: seq<string>)
    ensures groups == Grouped(items)
    ensures order == CategoryOrder(items)
  {
    var buckets;
    buckets, order := GroupByCategory(items);
    groups := SortGroups(buckets);
  }

  lemma PriceLeTotal()
    ensures TotalPreorder(PriceLe)
  {
  }

  /** Every menu item lands in its own category's group. */
  lemma ItemInOwnGroup(items: seq<MenuItem>, j: int)
    requires 0 <= j < |items|
    ensures CategoryOf(items[j]) in Grouped(items) && items[j] in Grouped(items)[CategoryOf(items[j])]
  {
    var g := Filter(items, InCategory(CategoryOf(items[j])));
    assert items[j] in g;
    assert items[j] in multiset(Sort(g, PriceLe));
  }

  /**
   * A group holds exactly its category's items, with multiplicity, so no
   * item is in two groups; and it is ordered by price.
   */
  lemma GroupIsItsCategory(items: seq<MenuItem>, c: string)
    requires c in Grouped(items)
    ensures forall x :: x in Grouped(items)[c] <==> x in items && CategoryOf(x) == c
    ensures multiset(Grouped(items)[c]) == multiset(Filter(items, InCategory(c)))
    ensures SortedBy(Grouped(items)[c], PriceLe)
  {
    var g := Filter(items, InCategory(c));
    FilterMembers(items, InCategory(c));
    forall x ensures x in Grouped(items)[c] <==> x in g {
      assert x in Grouped(items)[c] <==> x in multiset(Grouped(items)[c]);
      assert x in g <==> x in multiset(g);
    }
    PriceLeTotal();
    SortSorted(g, PriceLe);
  }

  // ---------------------------------------------------------------------------
  // The quantity field of a selected row

  /** `parseInt(item.inputQuantity) || 1` on the digits-only text the field holds. */
  function BlurQuantity(input: Option<string>): (q: int)
    requires input.Some? ==> AllDigits(input.value)
    ensures q >= 1
    ensures q != 1 ==> input.Some? && input.value != [] && q == DigitsValue(input.value)
    ensures input.Some? && input.value != [] && DigitsValue(input.value) > 0 ==> q == DigitsValue(input.value)
  {
    if input.Some? && input.value != [] && DigitsValue(input.value) > 0 then DigitsValue(input.value) else 1
  }

  /** Blurring the text a blur wrote reads the same quantity back. */
  lemma BlurQuantityStable(q: int)
    requires q >= 1
    ensures BlurQuantity(Some(NatToString(q))) == q
  {
  }

  /**
   * The quantity state of one menu row, which the row's input handlers
   * write into the row object directly.
   */
  class QuantityField {
    var inputQuantity: Option<string>
    var selectedQuantity: Option<int>

    /** The text only ever holds digits. */
    predicate Valid()
      reads this
    {
      inputQuantity.Some? ==> AllDigits(inputQuantity.value)
    }

    constructor (selected: Option<int>)
      ensures Valid() && inputQuantity.None? && selectedQuantity == selected
    {
      inputQuantity := None;
      selectedQuantity := selected;
    }

    /** What the input shows: `item.inputQuantity?.toString() || '1'`. */
    function Shown(): (r: string)
      reads this
      ensures r != []
      ensures inputQuantity.Some? && inputQuantity.value != [] ==> r == inputQuantity.value
    {
      if inputQuantity.Some? && inputQuantity.value != [] then inputQuantity.value else "1"
    }

    /** Typing keeps only the digits; the quantity itself is not touched. */
    method OnChangeText(val: string)
      modifies this
      ensures Valid()
      ensures inputQuantity == Some(KeepDigits(val))
      ensures forall c :: c in inputQuantity.value <==> c in val && IsDigit(c)
      ensures selectedQuantity == old(selectedQuantity)
    {
      inputQuantity := Some(KeepDigits(val));
    }

    /** Leaving the field settles the quantity at the typed number, or 1 when it is blank or zero. */
    method OnBlur()
      requires Valid()
      modifies this
      ensures Valid()
      ensures selectedQuantity == Some(BlurQuantity(old(inputQuantity)))
      ensures selectedQuantity.value >= 1
      ensures inputQuantity == Some(NatToString(selectedQuantity.value))
      ensures Shown() == NatToString(selectedQuantity.value)
    {
      var finalQty := BlurQuantity(inputQuantity);
      selectedQuantity := Some(finalQty);
      inputQuantity := Some(NatToString(finalQty));
    }
  }

  // ---------------------------------------------------------------------------
  // The time picker

  /** `hours % 12 === 0 ? 12 : hours % 12`. */
  function DisplayHour(hours: nat): (r: nat)
    requires hours < 24
    ensures 1 <= r <= 12
    ensures r % 12 == hours % 12
  {
    if hours % 12 == 0 then 12 else hours % 12
  }

  /** `hours >= 12 ? 'PM' : 'AM'`. */
  function Meridiem(hours: nat): (r: string)
    ensures r == "AM" || r == "PM"
    ensures r == "AM" <==> hours < 12
  {
    if hours >= 12 then "PM" else "AM"
  }

  /** The 12-hour reading gives back the 24-hour hour. */
  lemma TwelveHourRoundTrip(hours: nat)
    requires hours < 24
    ensures DisplayHour(hours) % 12 + (if Meridiem(hours) == "PM" then 12 else 0) == hours
  {
  }

  /** `n.toString().padStart(2, '0')` for a number below 100 is its two-digit rendering. */
  lemma PadStartTwo(n: nat)
    requires n < 100
    ensures PadStart(NatToString(n), 2) == Two(n)
  {
    var s := NatToString(n);
    if n >= 10 {
      assert NatToString(n) == NatToString(n / 10) + [DigitChar(n % 10)];
    }
    assert |s| <= 2;
    TwoUnique(PadStart(s, 2));
  }

  datatype PickedTime = PickedTime(display: string, backend: string)

  /** The text the picker writes for a chosen hour and minute: "h:MM AM" for display, "HH:MM" for the backend. */
  function PickTime(hours: nat, minutes: nat): (r: PickedTime)
    requires hours < 24 && minutes < 60
    ensures r.backend == FormatHHMM(Time(hours, minutes, 0))
    ensures r.display == NatToString(DisplayHour(hours)) + ":" + Two(minutes) + " " + Meridiem(hours)
  {
    PadStartTwo(hours);
    PadStartTwo(minutes);
    PickedTime(NatToString(DisplayHour(hours)) + ":" + PadStart(NatToString(minutes), 2) + " " + Meridiem(hours),
               PadStart(NatToString(hours), 2) + ":" + PadStart(NatToString(minutes), 2))
  }

  // ---------------------------------------------------------------------------
  // handleSubmit

  datatype ScheduleForm = ScheduleForm(fields: map<string, JsValue>, selectedItems: seq<int>)

  function Field(form: ScheduleForm, f: string): JsValue {
    if f in form.fields then form.fields[f] else Undefined
  }

  /** A picked time lands in the field (display text) and in the field's "24" twin (backend text); a dismissed picker changes nothing. */
  function OnTimePicked(form: ScheduleForm, field: string, picked: Option<(nat, nat)>): (r: ScheduleForm)
    requires picked.Some? ==> picked.value.0 < 24 && picked.value.1 < 60
    ensures picked.None? ==> r == form
    ensures picked.Some? ==>
      && Field(r, field + "24") == Str(FormatHHMM(Time(picked.value.0, picked.value.1, 0)))
      && Field(r, field) == Str(PickTime(picked.value.0, picked.value.1).display)
      && r.selectedItems == form.selectedItems
      && forall f :: f != field && f != field + "24" ==> Field(r, f) == Field(form, f)
  {
    if picked.None? then form
    else
      var t := PickTime(picked.value.0, picked.value.1);
      var f1 := form.fields[field := Str(t.display)];
      ScheduleForm(f1[field + "24" := Str(t.backend)], form.selectedItems)
  }

  const Required: seq<string> := ["eventName", "client", "date", "startTime24", "endTime24", "location",
                                   "attendees", "contactName", "contactPhone"]

  /** `!v || v.toString().trim() === ''`. */
  predicate Blank(v: JsValue) {
    !Truthy(v) || Trim(ToStr(v)) == ""
  }

  function IsMissing(form: ScheduleForm): string -> bool {
    (f: string) => Blank(Field(form, f))
  }

  /** The fields of `required` that are absent or blank, in order. */
  function MissingOf(required: seq<string>, form: ScheduleForm): (r: seq<string>)
    ensures forall f :: f in r <==> f in required && Blank(Field(form, f))
    ensures r == [] <==> forall f :: f in required ==> !Blank(Field(form, f))
  {
    var r := Filter(required, IsMissing(form));
    FilterMembers(required, IsMissing(form));
    assert r != [] ==> r[0] in r;
    r
  }

  /** The required fields that are absent or blank. */
  function MissingFields(form: ScheduleForm): seq<string> {
    MissingOf(Required, form)
  }

  /** A picked time is never blank: its backend text fills a required time field. */
  lemma PickedTimeIsFilled(form: ScheduleForm, field: string, hours: nat, minutes: nat)
    requires hours < 24 && minutes < 60
    ensures !Blank(Field(OnTimePicked(form, field, Some((hours, minutes))), field + "24"))
  {
    var s := FormatHHMM(Time(hours, minutes, 0));
    assert !IsSpace(s[0]);
    TrimKeeps(s, s[0]);
  }

  datatype LineItem = LineItem(menuItem: int, name: string, quantity: Option<int>, unitPrice: real,
                               image: Option<string>)

  function HasId(id: int): MenuItem -> bool {
    (i: MenuItem) => i.id == id
  }

  /** The snapshot of one menu row: `item.price || 0` is the price, `item.image || null` the image. */
  function LineItemOf(item: MenuItem): LineItem {
    LineItem(item.id, item.name, item.selectedQuantity, item.price,
             if item.image != "" then Some(item.image) else None)
  }

  /**
   * One line item per selected id, in selection order, from the first menu
   * row with that id; None where an id has no row (reading `item.id` of
   * undefined throws).
   */
  function LineItems(selected: seq<int>, menu: seq<MenuItem>): (r: Option<seq<LineItem>>)
    ensures r.Some? <==> forall i :: 0 <= i < |selected| ==> FindFirst(menu, HasId(selected[i])).Some?
    ensures r.Some? ==> |r.value| == |selected|
    ensures r.Some? ==> forall i :: 0 <= i < |selected| ==>
      r.value[i] == LineItemOf(menu[FindFirst(menu, HasId(selected[i])).value]) && r.value[i].menuItem == selected[i]
  {
    if selected == [] then Some([])
    else
      match FindFirst(menu, HasId(selected[0]))
      case None => None
      case Some(k) =>
        match LineItems(selected[1..], menu)
        case None => None
        case Some(rest) => Some([LineItemOf(menu[k])] + rest)
  }

  /** `unit_price * quantity`; None (NaN) while the quantity is undefined. */
  function Subtotal(li: LineItem): Option<real> {
    if li.quantity.Some? then Some(li.unitPrice * li.quantity.value as real) else None
  }

  /** The `reduce` from 0: the sum of the subtotals, NaN as soon as one is. */
  function Total(lines: seq<LineItem>): (r: Option<real>)
    ensures r.Some? <==> forall i :: 0 <= i < |lines| ==> lines[i].quantity.Some?
  {
    if lines == [] then Some(0.0)
    else
      var last := lines[|lines| - 1];
      var front := Total(lines[..|lines| - 1]);
      assert forall i :: 0 <= i < |lines| - 1 ==> lines[..|lines| - 1][i] == lines[i];
      if front.Some? && Subtotal(last).Some? then Some(front.value + Subtotal(last).value) else None
  }

  /** The total of two runs of line items is the sum of their totals. */
  lemma {:induction false} TotalAppend(a: seq<LineItem>, b: seq<LineItem>)
    requires Total(a).Some? && Total(b).Some?
    ensures Total(a + b) == Some(Total(a).value + Total(b).value)
    decreases |b|
  {
    if b == [] {
      assert a + b == a;
    } else {
      var b' := b[..|b| - 1];
      assert (a + b)[..|a + b| - 1] == a + b';
      assert forall i :: 0 <= i < |b'| ==> b'[i] == b[i];
      TotalAppend(a, b');
    }
  }

  /** With prices and quantities that are not negative, the total is not negative. */
  lemma {:induction false} TotalNonNegative(lines: seq<LineItem>)
    requires forall i :: 0 <= i < |lines| ==> lines[i].unitPrice >= 0.0
    requires forall i :: 0 <= i < |lines| ==> lines[i].quantity.Some? && lines[i].quantity.value >= 0
    ensures Total(lines).Some? && Total(lines).value >= 0.0
  {
    if lines != [] {
      var front := lines[..|lines| - 1];
      assert forall i :: 0 <= i < |front| ==> front[i] == lines[i];
      TotalNonNegative(front);
      var last := lines[|lines| - 1];
      assert last.unitPrice * last.quantity.value as real >= 0.0;
    }
  }

  /** `totalPrice * 0.5`: half the total, with no rounding. */
  function DownPayment(total: Option<real>): (r: Option<real>)
    ensures r.Some? <==> total.Some?
    ensures r.Some? ==> r.value + r.value == total.value
    ensures r.Some? && total.value >= 0.0 ==> 0.0 <= r.value <= total.value
  {
    if total.Some? then Some(total.value * 0.5) else None
  }

  datatype CateringPayload = CateringPayload(
    name: JsValue, clientName: JsValue, eventDate: JsValue, startTime: JsValue, endTime: JsValue,
    location: JsValue, guestCount: Option<int>, contactName: JsValue, contactPhone: JsValue, notes: JsValue,
    items: seq<LineItem>, totalPrice: Option<real>, paidAmount: Option<real>)

  /** What pressing submit leads to: an alert, a thrown error, or the down-payment prompt with the payload "Pay Now" sends. */
  datatype Submission = Rejected(message: string) | Thrown | Confirm(payload: CateringPayload)

  function Submit(form: ScheduleForm, menu: seq<MenuItem>): (r: Submission)
    ensures r == Rejected("Please fill all required fields.") <==> MissingOf(Required, form) != []
    ensures r == Rejected("Please select at least one menu item.") <==>
      MissingOf(Required, form) == [] && form.selectedItems == []
    ensures r.Thrown? <==>
      MissingOf(Required, form) == [] && form.selectedItems != [] && LineItems(form.selectedItems, menu).None?
    ensures r.Rejected? <==> MissingOf(Required, form) != [] || form.selectedItems == []
    ensures r.Confirm? <==>
      MissingOf(Required, form) == [] && form.selectedItems != [] && LineItems(form.selectedItems, menu).Some?
    ensures r.Confirm? ==>
      && r.payload.name == Field(form, "eventName") && r.payload.clientName == Field(form, "client")
      && r.payload.eventDate == Field(form, "date") && r.payload.location == Field(form, "location")
      && r.payload.contactName == Field(form, "contactName") && r.payload.contactPhone == Field(form, "contactPhone")
      && r.payload.notes == Field(form, "notes")
    ensures r.Confirm? ==>
      && LineItems(form.selectedItems, menu) == Some(r.payload.items)
      && |r.payload.items| == |form.selectedItems| > 0
      && r.payload.totalPrice == Total(r.payload.items)
      && r.payload.paidAmount == DownPayment(r.payload.totalPrice)
      && r.payload.guestCount == ToNumber(Field(form, "attendees"))
      && r.payload.startTime == Field(form, "startTime24") && r.payload.endTime == Field(form, "endTime24")
  {
    if MissingOf(Required, form) != [] then Rejected("Please fill all required fields.")
    else if |form.selectedItems| == 0 then Rejected("Please select at least one menu item.")
    else match LineItems(form.selectedItems, menu)
      case None => Thrown
      case Some(lines) =>
        var total := Total(lines);
        Confirm(CateringPayload(
          Field(form, "eventName"), Field(form, "client"), Field(form, "date"),
          Field(form, "startTime24"), Field(form, "endTime24"), Field(form, "location"),
          ToNumber(Field(form, "attendees")), Field(form, "contactName"), Field(form, "contactPhone"),
          Field(form, "notes"), lines, total, DownPayment(total)))
  }

  /** When every menu row carries a quantity (the catering screen sets 1 on each), the total and down payment are numbers. */
  lemma SubmitTotalDefined(form: ScheduleForm, menu: seq<MenuItem>)
    requires forall k :: 0 <= k < |menu| ==> menu[k].selectedQuantity.Some?
    requires Submit(form, menu).Confirm?
    ensures Submit(form, menu).payload.totalPrice.Some? && Submit(form, menu).payload.paidAmount.Some?
  {
    var lines := Submit(form, menu).payload.items;
    forall i | 0 <= i < |lines| ensures lines[i].quantity.Some? {
      var k := FindFirst(menu, HasId(form.selectedItems[i])).value;
      assert lines[i] == LineItemOf(menu[k]);
    }
  }

  /**
   * The form after a successful booking: the client is kept, every other
   * field of the literal is emptied, and the 24-hour twins the time picker
   * added are gone.
   */
  function ResetForm(form: ScheduleForm): (r: ScheduleForm)
    ensures r.selectedItems == []
    ensures Field(r, "client") == Field(form, "client")
    ensures forall f :: f in Required && f != "client" ==> Blank(Field(r, f))
    ensures r.fields.Keys == ResetKeys
    ensures forall f :: f in r.fields && f != "client" ==> r.fields[f] == Str("")
    ensures "startTime24" !in r.fields && "endTime24" !in r.fields
  {
    assert "startTime24" !in ResetKeys && "endTime24" !in ResetKeys;
    ScheduleForm(map f | f in ResetKeys :: if f == "client" then Field(form, "client") else Str(""), [])
  }

  /** The keys of the literal the form is reset to. */
  const ResetKeys: set<string> := {"eventName", "client", "date", "startTime", "endTime", "location", "attendees",
                                   "contactName", "contactPhone", "notes"}

  /** A reset form is refused until it is filled in again. */
  lemma ResetFormIsRefused(form: ScheduleForm, menu: seq<MenuItem>)
    ensures Submit(ResetForm(form), menu) == Rejected("Please fill all required fields.")
  {
    assert Required[0] == "eventName";
    assert "eventName" in MissingOf(Required, ResetForm(form));
  }
}
