/**
 * The web menu-management hook: the list of menu items it holds as state,
 * the normalisation applied before an item enters that list, and the list
 * updates after each successful service call (create/update upsert,
 * archive, restore, availability, image). Also the stable key the hook
 * derives from its query parameters and whether it shows the archive.
 */
module MenuStore {
  import opened Wrappers
  import opened Text
  import opened Js
  import opened Sorting
  import MenuService

  // ---------------------------------------------------------------------------
  // normalizeForState

  const ImageKeys: seq<string> := ["image", "imageUrl", "image_url", "photo", "picture"]

  /** The first of `keys` whose value in the item is a non-empty string, or ''. */
  function FirstImage(item: JsValue, keys: seq<string>): (r: string)
    ensures r == "" <==> forall i :: 0 <= i < |keys| ==> NonEmptyString(Get(item, keys[i])).None?
  {
    if keys == [] then ""
    else
      match NonEmptyString(Get(item, keys[0]))
      case Some(s) => s
      case None =>
        assert forall i :: 0 < i < |keys| ==> keys[1..][i - 1] == keys[i];
        FirstImage(item, keys[1..])
  }

  /** A non-empty result is the value of the first key holding a non-empty string. */
  lemma {:induction false} FirstImageIsFirst(item: JsValue, keys: seq<string>)
    requires FirstImage(item, keys) != ""
    ensures exists i :: 0 <= i < |keys| && NonEmptyString(Get(item, keys[i])) == Some(FirstImage(item, keys))
                        && forall j :: 0 <= j < i ==> NonEmptyString(Get(item, keys[j])).None?
  {
    assert keys != [];
    if NonEmptyString(Get(item, keys[0])).Some? {
      assert NonEmptyString(Get(item, keys[0])) == Some(FirstImage(item, keys));
    } else {
      var r := FirstImage(item, keys);
      assert r == FirstImage(item, keys[1..]);
      FirstImageIsFirst(item, keys[1..]);
      var i :| 0 <= i < |keys[1..]| && NonEmptyString(Get(item, keys[1..][i])) == Some(r)
               && forall j :: 0 <= j < i ==> NonEmptyString(Get(item, keys[1..][j])).None?;
      assert NonEmptyString(Get(item, keys[i + 1])) == Some(r);
      forall j | 0 <= j < i + 1 ensures NonEmptyString(Get(item, keys[j])).None? {
        if j > 0 { assert keys[j] == keys[1..][j - 1]; }
      }
      assert 0 <= i + 1 < |keys| && NonEmptyString(Get(item, keys[i + 1])) == Some(r)
             && forall j :: 0 <= j < i + 1 ==> NonEmptyString(Get(item, keys[j])).None?;
    }
  }

  /** The three properties normalizeForState writes over the item. */
  function Overrides(item: JsValue): (r: seq<Prop>)
    ensures |r| == 3 && r[0].key == "category" && r[1].key == "image" && r[2].key == "imageUrl"
    ensures DistinctKeys(r)
  {
    var img := FirstImage(item, ImageKeys);
    [Prop("category", MenuService.CategoryField(item)),
     Prop("image", Or(Or(Or(Str(img), Get(item, "image")), Get(item, "imageUrl")), Str(""))),
     Prop("imageUrl", Or(Or(Or(Str(img), Get(item, "imageUrl")), Get(item, "image")), Str("")))]
  }

  /**
   * `normalizeForState`: a falsy item becomes null; otherwise a copy with
   * the category text and with image and imageUrl both set to the first
   * non-empty image string, or else to its own image fields.
   */
  function NormalizeForState(item: JsValue): (r: JsValue)
    ensures r == Null <==> !Truthy(item)
    ensures Truthy(item) ==>
      && r.Obj?
      && Get(r, "category") == MenuService.CategoryField(item)
      && (FirstImage(item, ImageKeys) != "" ==>
            Get(r, "image") == Get(r, "imageUrl") == Str(FirstImage(item, ImageKeys)))
      && (FirstImage(item, ImageKeys) == "" ==>
            && Get(r, "image") == Or(Or(Get(item, "image"), Get(item, "imageUrl")), Str(""))
            && Get(r, "imageUrl") == Or(Or(Get(item, "imageUrl"), Get(item, "image")), Str("")))
      && forall k :: k != "category" && k != "image" && k != "imageUrl" ==> Lookup(r.props, k) == Lookup(Spread(item), k)
  {
    if !Truthy(item) then Null
    else
      MenuService.OverrideThree(Spread(item), Overrides(item));
      Obj(Merge(Spread(item), Overrides(item)))
  }

  // ---------------------------------------------------------------------------
  // The list updates, as functions of the list

  function HasId(id: JsValue): JsValue -> bool {
    (x: JsValue) => StrictEq(Get(x, "id"), id)
  }

  function LacksId(id: JsValue): JsValue -> bool {
    (x: JsValue) => !StrictEq(Get(x, "id"), id)
  }

  /** The position an incoming item merges into: the first with the same id, none for a null or missing id. */
  function UpsertIndex(items: seq<JsValue>, n: JsValue): Option<nat> {
    if IsNullish(Get(n, "id")) then None else FindFirst(items, HasId(Get(n, "id")))
  }

  /** Placing a normalised item: merge it into the first item with its id, else put it first. */
  function Placed(items: seq<JsValue>, n: JsValue): (r: seq<JsValue>)
    ensures UpsertIndex(items, n).None? ==> r == [n] + items
    ensures UpsertIndex(items, n).Some? ==>
      && |r| == |items|
      && (forall j :: 0 <= j < |items| && j != UpsertIndex(items, n).value ==> r[j] == items[j])
      && r[UpsertIndex(items, n).value] == Obj(Merge(Spread(items[UpsertIndex(items, n).value]), Spread(n)))
  {
    match UpsertIndex(items, n)
    case Some(k) => items[k := Obj(Merge(Spread(items[k]), Spread(n)))]
    case None => [n] + items
  }

  /** `upsertItem`: a falsy incoming value changes nothing; anything else is normalised and placed. */
  function Upserted(items: seq<JsValue>, incoming: JsValue): (r: seq<JsValue>)
    ensures !Truthy(incoming) ==> r == items
    ensures Truthy(incoming) ==> r == Placed(items, NormalizeForState(incoming))
  {
    var n := NormalizeForState(incoming);
    if n == Null then items else Placed(items, n)
  }

  /** A normalised object keeps its keys distinct. */
  lemma NormalizedDistinct(item: JsValue)
    requires item.Obj? && DistinctKeys(item.props)
    ensures DistinctKeys(NormalizeForState(item).props)
  {
    MergeDistinct(item.props, Overrides(item));
  }

  /** Where an upsert leaves the incoming item: its merge position, else the front. */
  function Landing(items: seq<JsValue>, n: JsValue): nat {
    match UpsertIndex(items, n)
    case Some(k) => k
    case None => 0
  }

  /**
   * After placing an object with distinct keys and a primitive, non-null id,
   * the item at its landing place has that id and reads every incoming
   * property as sent.
   */
  lemma PlacedHolds(items: seq<JsValue>, n: JsValue)
    requires n.Obj? && DistinctKeys(n.props)
    requires !IsNullish(Get(n, "id")) && !Get(n, "id").Arr? && !Get(n, "id").Obj?
    ensures Landing(items, n) < |Placed(items, n)|
    ensures HasId(Get(n, "id"))(Placed(items, n)[Landing(items, n)])
    ensures forall key :: HasKey(n.props, key) ==> Lookup(Spread(Placed(items, n)[Landing(items, n)]), key) == Lookup(n.props, key)
  {
    var id := Get(n, "id");
    assert StrictEq(id, id);
    match UpsertIndex(items, n)
    case None =>
      assert Placed(items, n)[0] == n;
    case Some(k) =>
      var merged := Obj(Merge(Spread(items[k]), Spread(n)));
      assert Placed(items, n)[k] == merged;
      MergedReadsIncoming(items[k], n);
      assert HasKey(n.props, "id");
      assert Get(merged, "id") == id;
  }

  /** `{...item, ...n}` reads every property of n as n has it. */
  lemma MergedReadsIncoming(item: JsValue, n: JsValue)
    requires n.Obj? && DistinctKeys(n.props)
    ensures forall key :: HasKey(n.props, key) ==> Lookup(Merge(Spread(item), Spread(n)), key) == Lookup(n.props, key)
  {
    forall key | HasKey(n.props, key)
      ensures Lookup(Merge(Spread(item), Spread(n)), key) == Lookup(n.props, key)
    {
      MergeLookup(Spread(item), n.props, key);
    }
  }

  /** The same after an upsert of an object: normalising keeps its keys distinct. */
  lemma UpsertedHolds(items: seq<JsValue>, incoming: JsValue)
    requires incoming.Obj? && DistinctKeys(incoming.props)
    requires !IsNullish(Get(NormalizeForState(incoming), "id"))
    requires !Get(NormalizeForState(incoming), "id").Arr? && !Get(NormalizeForState(incoming), "id").Obj?
    ensures var n := NormalizeForState(incoming);
      && Landing(items, n) < |Upserted(items, incoming)|
      && HasId(Get(n, "id"))(Upserted(items, incoming)[Landing(items, n)])
      && forall key :: HasKey(n.props, key) ==> Lookup(Spread(Upserted(items, incoming)[Landing(items, n)]), key) == Lookup(n.props, key)
  {
    NormalizedDistinct(incoming);
    PlacedHolds(items, NormalizeForState(incoming));
  }

  /** Archiving removes every item with the id and keeps the others, in order. */
  function Removed(items: seq<JsValue>, id: JsValue): (r: seq<JsValue>)
    ensures forall j :: 0 <= j < |r| ==> !StrictEq(Get(r[j], "id"), id) && r[j] in items
    ensures forall x :: x in items && !StrictEq(Get(x, "id"), id) ==> x in r
    ensures |r| == |items| - Count(items, HasId(id))
  {
    FilterMembers(items, LacksId(id));
    FilterCountsComplement(items, id);
    Filter(items, LacksId(id))
  }

  lemma {:induction false} FilterCountsComplement(items: seq<JsValue>, id: JsValue)
    ensures |Filter(items, LacksId(id))| + Count(items, HasId(id)) == |items|
  {
    if items != [] {
      FilterCountsComplement(items[1..], id);
    }
  }

  /** `{...item, available}` on the items with the id; the others are left as they are. */
  function WithAvailability(items: seq<JsValue>, id: JsValue, available: JsValue): (r: seq<JsValue>)
    ensures |r| == |items|
    ensures forall j :: 0 <= j < |items| && !HasId(id)(items[j]) ==> r[j] == items[j]
    ensures forall j :: 0 <= j < |items| && HasId(id)(items[j]) ==>
      && Get(r[j], "available") == available
      && forall k :: k != "available" ==> Get(r[j], k) == Lookup(Spread(items[j]), k)
  {
    seq(|items|, j requires 0 <= j < |items| =>
      if HasId(id)(items[j]) then Obj(SetProp(Spread(items[j]), "available", available)) else items[j])
  }

  /** An uploaded image URL becomes both image and imageUrl of the items with the id. */
  function WithImage(items: seq<JsValue>, id: JsValue, url: JsValue): (r: seq<JsValue>)
    ensures |r| == |items|
    ensures forall j :: 0 <= j < |items| && !HasId(id)(items[j]) ==> r[j] == items[j]
    ensures forall j :: 0 <= j < |items| && HasId(id)(items[j]) ==>
      && Get(r[j], "image") == url && Get(r[j], "imageUrl") == url
      && forall k :: k != "image" && k != "imageUrl" ==> Get(r[j], k) == Lookup(Spread(items[j]), k)
  {
    seq(|items|, j requires 0 <= j < |items| =>
      if HasId(id)(items[j])
      then Obj(SetProp(SetProp(Spread(items[j]), "image", url), "imageUrl", url))
      else items[j])
  }

  /** `(data && data.data) || data || null`: the restored item in a restore response. */
  function RestoredItem(data: JsValue): JsValue {
    Or(Or(if Truthy(data) then Get(data, "data") else data, data), Null)
  }

  // ---------------------------------------------------------------------------
  // The hook's list state

  class MenuList {
    var items: seq<JsValue>
    const archivedView: bool

    constructor (params: JsValue)
      ensures items == [] && archivedView == IsArchivedView(params)
    {
      items := [];
      archivedView := IsArchivedView(params);
    }

    /** A fetched list replaces the items, each normalised. */
    method Load(data: seq<JsValue>)
      modifies this
      ensures |items| == |data|
      ensures forall j :: 0 <= j < |data| ==> items[j] == NormalizeForState(data[j])
    {
      items := seq(|data|, j requires 0 <= j < |data| => NormalizeForState(data[j]));
    }

    method Upsert(incoming: JsValue)
      modifies this
      ensures items == Upserted(old(items), incoming)
    {
      var n := NormalizeForState(incoming);
      if n == Null {
        return;
      }
      var idx := UpsertIndex(items, n);
      if idx.Some? {
        var next := items;
        next := next[idx.value := Obj(Merge(Spread(next[idx.value]), Spread(n)))];
        items := next;
      } else {
        items := [n] + items;
      }
      assert items == Placed(old(items), n);
    }

    /** A created item is upserted as the service returned it. */
    method Created(data: JsValue)
      modifies this
      ensures items == Upserted(old(items), data)
    {
      Upsert(data);
    }

    /** An updated item is upserted as `{ id: itemId, ...data }`. */
    method Updated(itemId: JsValue, data: JsValue)
      modifies this
      ensures items == Upserted(old(items), Obj(Merge([Prop("id", itemId)], Spread(data))))
    {
      Upsert(Obj(Merge([Prop("id", itemId)], Spread(data))));
    }

    method Archived(itemId: JsValue)
      modifies this
      ensures items == Removed(old(items), itemId)
    {
      items := Removed(items, itemId);
    }

    /** In the archive view a restored item leaves the list; elsewhere it is upserted when the response holds it. */
    method Restored(itemId: JsValue, data: JsValue) returns (restored: JsValue)
      modifies this
      ensures restored == RestoredItem(data)
      ensures archivedView ==> items == Removed(old(items), itemId)
      ensures !archivedView ==> items == Upserted(old(items), restored)
    {
      restored := RestoredItem(data);
      if archivedView {
        items := Removed(items, itemId);
      } else if Truthy(restored) {
        Upsert(restored);
      }
    }

    method AvailabilityChanged(itemId: JsValue, available: JsValue)
      modifies this
      ensures items == WithAvailability(old(items), itemId, available)
    {
      items := WithAvailability(items, itemId, available);
    }

    method ImageUploaded(itemId: JsValue, url: JsValue)
      modifies this
      ensures items == WithImage(old(items), itemId, url)
    {
      items := WithImage(items, itemId, url);
    }
  }

  // ---------------------------------------------------------------------------
  // paramKey and isArchivedView

  function Keys(params: seq<Prop>): (r: seq<string>)
    ensures |r| == |params| && forall i :: 0 <= i < |params| ==> r[i] == params[i].key
  {
    seq(|params|, i requires 0 <= i < |params| => params[i].key)
  }

  /** `obj[k] = v` for each of `keys` whose value is kept, in order. */
  function Collect(keys: seq<string>, params: seq<Prop>): seq<Prop> {
    if keys == [] then []
    else
      var obj := Collect(keys[..|keys| - 1], params);
      var k := keys[|keys| - 1];
      if Kept(Lookup(params, k)) then SetProp(obj, k, Lookup(params, k)) else obj
  }

  /** The object paramKey serialises: kept parameters under their keys sorted by code unit. */
  function ParamObject(params: seq<Prop>): seq<Prop> {
    Collect(Sort(Keys(params), LexLe), params)
  }

  /** `paramKey`'s object, built key by key. */
  method ParamKey(params: seq<Prop>) returns (obj: seq<Prop>)
    ensures obj == ParamObject(params)
  {
    var keys := Sort(Keys(params), LexLe);
    obj := [];
    var i := 0;
    while i < |keys|
      invariant 0 <= i <= |keys|
      invariant obj == Collect(keys[..i], params)
    {
      var k := keys[i];
      var v := Lookup(params, k);
      assert keys[..i + 1][..i] == keys[..i];
      if Kept(v) {
        obj := SetProp(obj, k, v);
      }
      i := i + 1;
    }
    assert keys[..|keys|] == keys;
  }

  lemma {:induction false} CollectLookup(keys: seq<string>, params: seq<Prop>, k: string)
    ensures Lookup(Collect(keys, params), k) == if k in keys && Kept(Lookup(params, k)) then Lookup(params, k) else Undefined
    decreases |keys|
  {
    if keys != [] {
      var front := keys[..|keys| - 1];
      CollectLookup(front, params, k);
      assert keys == front + [keys[|keys| - 1]];
      assert k in keys <==> k in front || k == keys[|keys| - 1];
    }
  }

  /** The key object holds exactly the kept parameters. */
  lemma ParamObjectLookup(params: seq<Prop>, k: string)
    ensures Lookup(ParamObject(params), k) == if Kept(Lookup(params, k)) then Lookup(params, k) else Undefined
  {
    var keys := Sort(Keys(params), LexLe);
    CollectLookup(keys, params, k);
    if HasKey(params, k) {
      var i :| 0 <= i < |params| && params[i].key == k;
      assert Keys(params)[i] == k;
      assert k in multiset(keys);
    }
  }

  lemma LexLeOrder()
    ensures TotalPreorder(LexLe) && Antisymmetric(LexLe)
  {
    forall a, b ensures LexLe(a, b) || LexLe(b, a) { LexLeTotal(a, b); }
    forall a, b, c | LexLe(a, b) && LexLe(b, c) ensures LexLe(a, c) { LexLeTrans(a, b, c); }
    forall a, b | LexLe(a, b) && LexLe(b, a) ensures a == b { LexLeAntisym(a, b); }
  }

  /**
   * The key does not depend on the order the parameters were written in:
   * the same keys with the same values give the same object, order included.
   */
  lemma ParamObjectOrderFree(p1: seq<Prop>, p2: seq<Prop>)
    requires multiset(Keys(p1)) == multiset(Keys(p2))
    requires forall k :: Lookup(p1, k) == Lookup(p2, k)
    ensures ParamObject(p1) == ParamObject(p2)
  {
    LexLeOrder();
    SortSorted(Keys(p1), LexLe);
    SortSorted(Keys(p2), LexLe);
    SortedUnique(Sort(Keys(p1), LexLe), Sort(Keys(p2), LexLe), LexLe);
    CollectSameValues(Sort(Keys(p1), LexLe), p1, p2);
  }

  lemma {:induction false} CollectSameValues(keys: seq<string>, p1: seq<Prop>, p2: seq<Prop>)
    requires forall k :: Lookup(p1, k) == Lookup(p2, k)
    ensures Collect(keys, p1) == Collect(keys, p2)
    decreases |keys|
  {
    if keys != [] {
      CollectSameValues(keys[..|keys| - 1], p1, p2);
    }
  }

  /**
   * `isArchivedView`: false for an absent, null or '' flag, the flag itself
   * when it is a boolean, else whether its text is "true" in any case.
   */
  function IsArchivedView(params: JsValue): (r: bool)
    ensures !Kept(Get(params, "archived")) ==> !r
    ensures Get(params, "archived").Bool? ==> r == Get(params, "archived").b
    ensures Get(params, "archived").Str? ==> r == (Lower(Get(params, "archived").s) == "true")
  {
    var flag := Get(params, "archived");
    if !Kept(flag) then false
    else if flag.Bool? then flag.b
    else Lower(ToStr(flag)) == "true"
  }

  /** Two flag texts that differ only in letter case select the same view. */
  lemma ArchivedIgnoresCase(a: string, b: string)
    requires Lower(a) == Lower(b)
    ensures IsArchivedView(Obj([Prop("archived", Str(a))])) == IsArchivedView(Obj([Prop("archived", Str(b))]))
  {
    if a == "" || b == "" {
      assert |a| == |Lower(a)| == |Lower(b)| == |b|;
    }
  }
}
