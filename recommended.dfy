/**
 * The mobile home screen's "Recommended" carousel: which menu entries it
 * shows, the card each shown entry becomes, and the auto-slide that moves
 * the active card forward every five seconds.
 *
 * The five-second interval, the scroll animation and the pop-up animation
 * are left out; a tick of the interval is a method call.
 */
module Recommended {
  import opened Wrappers
  import opened Text
  import opened Js
  import opened Sorting

  /** `entry && !entry.archived && entry.available !== false`. */
  predicate Shown(entry: JsValue) {
    Truthy(entry) && !Truthy(Get(entry, "archived")) && !StrictEq(Get(entry, "available"), Bool(false))
  }

  /** An entry that says nothing about its availability is shown unless it is archived. */
  lemma MissingAvailabilityShown(entry: JsValue)
    requires entry.Obj? && !HasKey(entry.props, "available")
    ensures Shown(entry) <==> !Truthy(Get(entry, "archived"))
  {
  }

  /** One carousel card. Numbers that are missing or not finite are `None` (null). */
  datatype Card = Card(
    id: JsValue, image: JsValue, title: JsValue, price: Option<int>,
    rating: Option<int>, reviews: Option<int>, description: JsValue)

  /** `v != null && Number.isFinite(Number(v)) ? Number(v) : null`. */
  function FiniteOrNull(v: JsValue): (r: Option<int>)
    ensures r.Some? <==> !IsNullish(v) && ToNumber(v).Some?
    ensures r.Some? ==> r == ToNumber(v)
  {
    if !IsNullish(v) && ToNumber(v).Some? then ToNumber(v) else None
  }

  /** The id a card falls back on: `recommended-${index}`. */
  function FallbackId(index: nat): string {
    "recommended-" + NatToString(index)
  }

  /** The card the entry at position `index` of the shown list becomes. */
  function ToCard(item: JsValue, index: nat): (r: Card)
    ensures Truthy(r.id) && Truthy(r.title)
    ensures Truthy(Get(item, "id")) ==> r.id == Get(item, "id")
    ensures !Truthy(Get(item, "id")) ==> r.id == Str(FallbackId(index))
    ensures Truthy(Get(item, "name")) ==> r.title == Get(item, "name")
    ensures !Truthy(Get(item, "name")) && Truthy(Get(item, "title")) ==> r.title == Get(item, "title")
    ensures !Truthy(Get(item, "name")) && !Truthy(Get(item, "title")) ==> r.title == Str("Menu Item")
    ensures !IsNullish(Get(item, "price")) ==> r.price == ToNumber(Get(item, "price"))
    ensures IsNullish(Get(item, "price")) && !IsNullish(Get(item, "amount")) ==> r.price == ToNumber(Get(item, "amount"))
    ensures IsNullish(Get(item, "price")) && IsNullish(Get(item, "amount")) ==> r.price == Some(0)
    ensures r.rating.Some? <==> !IsNullish(Get(item, "rating")) && ToNumber(Get(item, "rating")).Some?
    ensures r.rating.Some? ==> r.rating == ToNumber(Get(item, "rating"))
    ensures r.reviews.Some? <==> !IsNullish(Get(item, "reviews")) && ToNumber(Get(item, "reviews")).Some?
    ensures r.reviews.Some? ==> r.reviews == ToNumber(Get(item, "reviews"))
    ensures !Truthy(r.image) ==> r.image == Null
    ensures Truthy(Get(item, "image")) ==> r.image == Get(item, "image")
    ensures !Truthy(Get(item, "image")) && Truthy(Get(item, "thumbnail")) ==> r.image == Get(item, "thumbnail")
    ensures !Truthy(Get(item, "image")) && !Truthy(Get(item, "thumbnail")) ==> r.image == Null
    ensures Truthy(Get(item, "description")) ==> r.description == Get(item, "description")
    ensures !Truthy(Get(item, "description")) ==> r.description == Str("")
  {
    var id := Or(Get(item, "id"), Str(FallbackId(index)));
    assert Truthy(id) by { assert FallbackId(index) != ""; }
    var title := Or(Or(Get(item, "name"), Get(item, "title")), Str("Menu Item"));
    var price := Coalesce(Coalesce(Get(item, "price"), Get(item, "amount")), Num(0));
    Card(
      id := id,
      image := Or(Or(Get(item, "image"), Get(item, "thumbnail")), Null),
      title := title,
      price := ToNumber(price),
      rating := FiniteOrNull(Get(item, "rating")),
      reviews := FiniteOrNull(Get(item, "reviews")),
      description := Or(Get(item, "description"), Str("")))
  }

  /** The shown entries, in their original order. */
  function Visible(items: seq<JsValue>): (r: seq<JsValue>)
    ensures forall x :: x in r <==> x in items && Shown(x)
    ensures |r| == Count(items, Shown)
  {
    FilterMembers(items, Shown);
    Filter(items, Shown)
  }

  /** The carousel's `data`: the shown entries, each made a card numbered by its shown position. */
  function Data(items: seq<JsValue>): (r: seq<Card>)
    ensures |r| == Count(items, Shown)
    ensures forall i :: 0 <= i < |r| ==> r[i] == ToCard(Visible(items)[i], i)
  {
    MapIndexed(Visible(items), ToCard)
  }

  /** `array.map((x, index) => f(x, index))`. */
  function MapIndexed<A, B>(v: seq<A>, f: (A, nat) -> B): (r: seq<B>)
    ensures |r| == |v|
    ensures forall i :: 0 <= i < |v| ==> r[i] == f(v[i], i)
  {
    seq(|v|, i requires 0 <= i < |v| => f(v[i], i))
  }

  /** Mapping one more element adds its image, numbered by its position, at the end. */
  lemma MapIndexedSnoc<A, B>(v: seq<A>, e: A, f: (A, nat) -> B)
    ensures MapIndexed(v + [e], f) == MapIndexed(v, f) + [f(e, |v|)]
  {
    var w := v + [e];
    assert forall i :: 0 <= i < |v| ==> w[i] == v[i];
  }

  /**
   * Data grows one entry at a time: a hidden entry leaves the cards as
   * they were, a shown one adds one card numbered after the others.
   */
  lemma DataAppend(items: seq<JsValue>, e: JsValue)
    ensures !Shown(e) ==> Data(items + [e]) == Data(items)
    ensures Shown(e) ==> Data(items + [e]) == Data(items) + [ToCard(e, |Data(items)|)]
  {
    FilterAppend(items, [e], Shown);
    assert Filter([e], Shown) == (if Shown(e) then [e] else []);
    if Shown(e) {
      DataOfLonger(items, items + [e], e);
    } else {
      DataOfSame(items, items + [e]);
    }
  }

  /** Inputs with the same shown entries have the same cards. */
  lemma DataOfSame(items: seq<JsValue>, items': seq<JsValue>)
    requires Visible(items') == Visible(items)
    ensures Data(items') == Data(items)
  {
  }

  /** One more shown entry at the end gives one more card at the end. */
  lemma DataOfLonger(items: seq<JsValue>, items': seq<JsValue>, e: JsValue)
    requires Visible(items') == Visible(items) + [e]
    ensures Data(items') == Data(items) + [ToCard(e, |Data(items)|)]
  {
    MapIndexedSnoc(Visible(items), e, ToCard);
  }

  /** Every card comes from a shown entry of the input. */
  lemma CardsFromShownEntries(items: seq<JsValue>, i: nat)
    requires i < |Data(items)|
    ensures exists x :: x in items && Shown(x) && Data(items)[i] == ToCard(x, i)
  {
    var x := Visible(items)[i];
    assert x in Visible(items);
  }

  /**
   * Two cards whose entries both lack an id still get different ids, since
   * the fallback carries the card's position.
   */
  lemma FallbackIdsDistinct(items: seq<JsValue>, i: nat, j: nat)
    requires i < j < |Data(items)|
    requires !Truthy(Get(Visible(items)[i], "id")) && !Truthy(Get(Visible(items)[j], "id"))
    ensures Data(items)[i].id != Data(items)[j].id
  {
    assert FallbackId(i)[12..] == NatToString(i);
    assert FallbackId(j)[12..] == NatToString(j);
  }

  // ---------------------------------------------------------------------------
  // Auto-slide

  /** `!(focusedItem || data.length <= 1)`: the interval runs only with no card focused and more than one card. */
  predicate AutoSlides(focused: Option<Card>, length: nat) {
    focused.None? && length > 1
  }

  /** The interval's update: `(current + 1) % data.length`. */
  function NextIndex(current: nat, length: nat): (r: nat)
    requires length > 0
    ensures r < length
    ensures current + 1 < length ==> r == current + 1
    ensures current + 1 == length ==> r == 0
  {
    (current + 1) % length
  }

  /** The index after k ticks from `start`. */
  function Ticks(start: nat, length: nat, k: nat): (r: nat)
    requires length > 0
    ensures r < length
  {
    if k == 0 then start % length else NextIndex(Ticks(start, length, k - 1), length)
  }

  /** k ticks move the index k places forward, wrapping around. */
  lemma {:induction false} TicksShift(start: nat, length: nat, k: nat)
    requires length > 0
    ensures Ticks(start, length, k) == (start + k) % length
  {
    if k > 0 {
      TicksShift(start, length, k - 1);
      ModSucc(start + k - 1, length);
    }
  }

  /** Division with remainder is unique. */
  lemma ModUnique(a: int, n: int, q: int, m: int)
    requires n > 0 && 0 <= m < n && a == q * n + m
    ensures a % n == m
  {
    var q' := a / n;
    var m' := a % n;
    assert a == q' * n + m';
    var d := q - q';
    assert q * n == (q' + d) * n == q' * n + d * n;
    assert d * n == m' - m;
    if d >= 1 {
      MulAtLeast(d, n);
    } else if d <= -1 {
      MulAtLeast(-d, n);
    }
  }

  lemma MulAtLeast(d: int, n: int)
    requires d >= 1 && n > 0
    ensures d * n >= n
  {
    assert d * n == (d - 1) * n + n;
    assert (d - 1) * n >= 0;
  }

  lemma ModSucc(a: nat, n: nat)
    requires n > 0
    ensures (a % n + 1) % n == (a + 1) % n
  {
    var q := a / n;
    var m := a % n;
    if m + 1 < n {
      ModUnique(m + 1, n, 0, m + 1);
      ModUnique(a + 1, n, q, m + 1);
    } else {
      ModUnique(m + 1, n, 1, 0);
      ModUnique(a + 1, n, q + 1, 0);
    }
  }

  /** The slideshow comes back to the card it started on after one tick per card. */
  lemma TicksCycle(start: nat, length: nat)
    requires start < length
    ensures Ticks(start, length, length) == start
  {
    TicksShift(start, length, length);
    ModUnique(start + length, length, 1, start);
  }

  class Carousel {
    var activeIndex: nat
    var focused: Option<Card>

    constructor ()
      ensures activeIndex == 0 && focused.None?
    {
      activeIndex := 0;
      focused := None;
    }

    /** One tick of the five-second interval, over a carousel of `length` cards. */
    method Tick(length: nat)
      modifies this
      ensures AutoSlides(focused, length) ==> activeIndex == NextIndex(old(activeIndex), length) && activeIndex < length
      ensures !AutoSlides(focused, length) ==> activeIndex == old(activeIndex)
      ensures focused == old(focused)
    {
      if focused.None? && length > 1 {
        activeIndex := (activeIndex + 1) % length;
      }
    }

    /** `handleLongPress`: focus a card, which stops the slideshow. */
    method LongPress(card: Card)
      modifies this
      ensures focused == Some(card) && activeIndex == old(activeIndex)
      ensures !AutoSlides(focused, 2)
    {
      focused := Some(card);
    }

    /** `handleClosePopup`: clear the focus. */
    method ClosePopup()
      modifies this
      ensures focused.None? && activeIndex == old(activeIndex)
    {
      focused := None;
    }
  }
}
