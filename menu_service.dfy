/**
 * The web client's menu service: making image URLs absolute against the
 * backend origin, finding an image URL in a loosely shaped record, the
 * normalisation every menu item goes through, the list request and its
 * default pagination, and the cache-busting suffix of an uploaded image.
 *
 * The backend origin (read from the environment or the window) is the
 * `origin` parameter, and joining a path to it is concatenation.
 */
module MenuService {
  import opened Wrappers
  import opened Text
  import opened Js
  import opened Query

  // ---------------------------------------------------------------------------
  // absoluteUrl

  /** Does s start with the lower-case prefix p, ignoring case? */
  predicate StartsWithFolded(s: string, p: string) {
    |s| >= |p| && Lower(s[..|p|]) == p
  }

  /** `/^(blob:|data:|https?:\/\/)/i`. */
  predicate AlreadyAbsolute(s: string) {
    StartsWithFolded(s, "blob:") || StartsWithFolded(s, "data:")
    || StartsWithFolded(s, "http://") || StartsWithFolded(s, "https://")
  }

  /**
   * Non-strings and '' give ''; blob:, data: and http(s):// URLs pass
   * through; anything else is a path that gets one leading '/' if it lacks
   * it and is then prefixed by the origin.
   */
  function AbsoluteUrl(url: JsValue, origin: string): (r: string)
    ensures r == "" <==> !(url.Str? && url.s != "")
    ensures url.Str? && AlreadyAbsolute(url.s) ==> r == url.s
    ensures url.Str? && url.s != "" && !AlreadyAbsolute(url.s) ==>
      && |r| > |origin|
      && r[..|origin|] == origin
      && r[|origin|] == '/'
      && r[|origin|..] == (if url.s[0] == '/' then url.s else "/" + url.s)
  {
    if !(url.Str? && url.s != "") then ""
    else if AlreadyAbsolute(url.s) then url.s
    else
      var path := if url.s[0] == '/' then url.s else "/" + url.s;
      if origin != "" then origin + path else path
  }

  /** A case-insensitive prefix test looks only at the prefix. */
  lemma StartsWithFoldedExtends(a: string, b: string, p: string)
    requires StartsWithFolded(a, p)
    ensures StartsWithFolded(a + b, p)
  {
    assert (a + b)[..|p|] == a[..|p|];
  }

  /**
   * Making a URL absolute twice is the same as once, when the origin is an
   * http(s) origin or there is none.
   */
  lemma AbsoluteUrlIdempotent(url: JsValue, origin: string)
    requires origin == "" || StartsWithFolded(origin, "http://") || StartsWithFolded(origin, "https://")
    ensures AbsoluteUrl(Str(AbsoluteUrl(url, origin)), origin) == AbsoluteUrl(url, origin)
  {
    var r := AbsoluteUrl(url, origin);
    if r != "" && !AlreadyAbsolute(url.s) && origin != "" {
      assert r == origin + r[|origin|..];
      if StartsWithFolded(origin, "http://") {
        StartsWithFoldedExtends(origin, r[|origin|..], "http://");
      } else {
        StartsWithFoldedExtends(origin, r[|origin|..], "https://");
      }
    }
  }

  // ---------------------------------------------------------------------------
  // pickUrl

  const UrlKeys: seq<string> := ["imageUrl", "image_url", "image", "photo", "picture", "thumbnail", "thumb",
                                 "image_path", "img", "url", "path", "location", "href"]

  /** A property value is smaller than the object holding it. */
  lemma GetSmaller(o: JsValue, k: string)
    requires o.Obj? && !Get(o, k).Undefined?
    ensures Get(o, k) < o
  {
    assert HasKey(o.props, k);
    assert Prop(k, Get(o, k)) in o.props;
  }

  /**
   * The URL found from key `UrlKeys[i]` on: the first truthy value that is
   * a string, or the first non-empty URL found inside a truthy object value.
   */
  function UrlFrom(o: JsValue, i: nat): (r: string)
    decreases o, |UrlKeys| - i
  {
    if i >= |UrlKeys| then ""
    else
      var v := Get(o, UrlKeys[i]);
      if !Truthy(v) then UrlFrom(o, i + 1)
      else if v.Str? then v.s
      else if TypeofObject(v) then
        GetSmaller(o, UrlKeys[i]);
        var nested := UrlFrom(v, 0);
        if nested != "" then nested else UrlFrom(o, i + 1)
      else UrlFrom(o, i + 1)
  }

  /** What `pickUrl` returns, as a specification. */
  function UrlOf(o: JsValue): string {
    if !Truthy(o) then "" else UrlFrom(o, 0)
  }

  /** `pickUrl`: scan the keys in order, returning early, and recurse into object values. */
  method PickUrl(o: JsValue) returns (r: string)
    ensures r == UrlOf(o)
    decreases o
  {
    if !Truthy(o) {
      return "";
    }
    var i := 0;
    while i < |UrlKeys|
      invariant 0 <= i <= |UrlKeys|
      invariant UrlFrom(o, i) == UrlFrom(o, 0)
    {
      var v := Get(o, UrlKeys[i]);
      if Truthy(v) {
        if v.Str? {
          return v.s;
        }
        if TypeofObject(v) {
          GetSmaller(o, UrlKeys[i]);
          var nested := PickUrl(v);
          if nested != "" {
            return nested;
          }
        }
      }
      i := i + 1;
    }
    return "";
  }

  /** A string under an earlier key wins over anything under later keys. */
  lemma {:induction false} UrlFromFirstString(o: JsValue, i: nat, k: nat)
    requires i <= k < |UrlKeys|
    requires forall j :: i <= j < k ==> !Truthy(Get(o, UrlKeys[j]))
    requires Get(o, UrlKeys[k]).Str? && Get(o, UrlKeys[k]).s != ""
    ensures UrlFrom(o, i) == Get(o, UrlKeys[k]).s
    decreases k - i
  {
    if i < k {
      UrlFromFirstString(o, i + 1, k);
    }
  }

  /** What is found is empty or a non-empty string; an object with none of the keys truthy gives ''. */
  lemma {:induction false} UrlFromNone(o: JsValue, i: nat)
    requires forall j :: i <= j < |UrlKeys| ==> !Truthy(Get(o, UrlKeys[j]))
    ensures UrlFrom(o, i) == ""
    decreases |UrlKeys| - i
  {
    if i < |UrlKeys| {
      UrlFromNone(o, i + 1);
    }
  }

  // ---------------------------------------------------------------------------
  // Category names and normalizeMenuItem

  /**
   * The category text of an item (shared with the menu hook): a string is
   * kept, an object (null included) gives its first truthy name, label,
   * title, slug or id, else ''; anything else is `String(cat || '')`.
   */
  function CategoryName(cat: JsValue): (r: JsValue)
    ensures cat.Str? ==> r == cat
    ensures cat.Obj? && Truthy(Get(cat, "name")) ==> r == Get(cat, "name")
    ensures TypeofObject(cat) && !Truthy(r) ==> r == Str("")
    ensures !TypeofObject(cat) && !cat.Str? ==> r.Str?
  {
    if cat.Str? then cat
    else if TypeofObject(cat) then
      Or(Or(Or(Or(Or(Get(cat, "name"), Get(cat, "label")), Get(cat, "title")), Get(cat, "slug")), Get(cat, "id")),
         Str(""))
    else Str(ToStr(Or(cat, Str(""))))
  }

  /**
   * The category text in full: for an object (or null) the first truthy of
   * name, label, title, slug and id, else ''; for anything that is neither
   * a string nor of type object, `String(cat || '')`.
   */
  lemma CategoryNameFallbacks(cat: JsValue)
    ensures TypeofObject(cat) ==>
      CategoryName(cat) == FirstTruthy([Get(cat, "name"), Get(cat, "label"), Get(cat, "title"), Get(cat, "slug"), Get(cat, "id")])
    ensures !TypeofObject(cat) && !cat.Str? && !Truthy(cat) ==> CategoryName(cat) == Str("")
    ensures !TypeofObject(cat) && !cat.Str? && Truthy(cat) ==> CategoryName(cat) == Str(ToStr(cat))
  {
    var vs := [Get(cat, "name"), Get(cat, "label"), Get(cat, "title"), Get(cat, "slug"), Get(cat, "id")];
    FirstTruthyOfFive(vs);
  }

  /** Five chained `||` ending in '' pick the first truthy of the five. */
  lemma FirstTruthyOfFive(vs: seq<JsValue>)
    requires |vs| == 5
    ensures Or(Or(Or(Or(Or(vs[0], vs[1]), vs[2]), vs[3]), vs[4]), Str("")) == FirstTruthy(vs)
  {
    if Truthy(vs[0]) {
      FirstTruthyAt(vs, 0);
    } else if Truthy(vs[1]) {
      FirstTruthyAt(vs, 1);
    } else if Truthy(vs[2]) {
      FirstTruthyAt(vs, 2);
    } else if Truthy(vs[3]) {
      FirstTruthyAt(vs, 3);
    } else if Truthy(vs[4]) {
      FirstTruthyAt(vs, 4);
    }
  }

  /** `category || item.category || ''`. */
  function CategoryField(item: JsValue): JsValue {
    Or(Or(CategoryName(Get(item, "category")), Get(item, "category")), Str(""))
  }

  /**
   * `normalizeMenuItem`: non-objects (and falsy values) come back as they
   * are; an object is copied with its category text and with image and
   * imageUrl both set to the absolute URL found in it, or else to its own
   * image fields.
   */
  function NormalizeMenuItem(item: JsValue, origin: string): (r: JsValue)
    ensures !TypeofObject(item) || !Truthy(item) ==> r == item
    ensures TypeofObject(item) && Truthy(item) ==>
      && r.Obj?
      && Get(r, "category") == CategoryField(item)
      && (AbsoluteUrl(Str(UrlOf(item)), origin) != "" ==>
            Get(r, "image") == Get(r, "imageUrl") == Str(AbsoluteUrl(Str(UrlOf(item)), origin)))
      && (AbsoluteUrl(Str(UrlOf(item)), origin) == "" ==>
            && Get(r, "image") == Or(Or(Get(item, "image"), Get(item, "imageUrl")), Str(""))
            && Get(r, "imageUrl") == Or(Or(Get(item, "imageUrl"), Get(item, "image")), Str("")))
      && forall k :: k != "category" && k != "image" && k != "imageUrl" ==> Lookup(r.props, k) == Lookup(Spread(item), k)
  {
    if !TypeofObject(item) || !Truthy(item) then item
    else
      var img := AbsoluteUrl(Str(UrlOf(item)), origin);
      var set3 := [Prop("category", CategoryField(item)),
                   Prop("image", Or(Or(Or(Str(img), Get(item, "image")), Get(item, "imageUrl")), Str(""))),
                   Prop("imageUrl", Or(Or(Or(Str(img), Get(item, "imageUrl")), Get(item, "image")), Str("")))];
      var r := Obj(Merge(Spread(item), set3));
      OverrideThree(Spread(item), set3);
      r
  }

  /** Spreading three distinct keys over an object overrides those keys and keeps the rest. */
  lemma OverrideThree(a: seq<Prop>, b: seq<Prop>)
    requires |b| == 3 && b[0].key == "category" && b[1].key == "image" && b[2].key == "imageUrl"
    ensures Lookup(Merge(a, b), "category") == b[0].val
    ensures Lookup(Merge(a, b), "image") == b[1].val
    ensures Lookup(Merge(a, b), "imageUrl") == b[2].val
    ensures forall k :: k != "category" && k != "image" && k != "imageUrl" ==> Lookup(Merge(a, b), k) == Lookup(a, k)
  {
    assert DistinctKeys(b);
    forall k ensures Lookup(Merge(a, b), k) == if HasKey(b, k) then Lookup(b, k) else Lookup(a, k) {
      MergeLookup(a, b, k);
    }
    assert HasKey(b, "category") && HasKey(b, "image") && HasKey(b, "imageUrl");
    forall k | k != "category" && k != "image" && k != "imageUrl" ensures !HasKey(b, k) {
    }
  }

  // ---------------------------------------------------------------------------
  // getMenuItems

  /** `value?.data ?? value`. */
  function Unwrap(v: JsValue): JsValue {
    Coalesce(Get(v, "data"), v)
  }

  datatype MenuPage = MenuPage(query: string, data: seq<JsValue>, pagination: JsValue)

  /** The pagination used when the response has none: one page holding the whole list. */
  function DefaultPagination(n: nat): JsValue {
    Obj([Prop("page", Num(1)), Prop("limit", Num(n)), Prop("total", Num(n)), Prop("totalPages", Num(1))])
  }

  /**
   * `getMenuItems`: the request query keeps the non-empty parameters; the
   * list is `raw.data || raw`, each entry normalised, and [] when that is not
   * an array; the pagination is the response's, else the default.
   */
  method GetMenuItems(params: seq<Prop>, res: JsValue, origin: string) returns (page: MenuPage)
    ensures page.query == "/menu/items?" + QueryText(KeptPairs(params))
    ensures var list := Or(Or(Get(Unwrap(res), "data"), Unwrap(res)), Arr([]));
      && (list.Arr? ==> |page.data| == |list.elems|
                        && forall i :: 0 <= i < |list.elems| ==> page.data[i] == NormalizeMenuItem(list.elems[i], origin))
      && (!list.Arr? ==> page.data == [])
      && (!Truthy(Get(Unwrap(res), "pagination")) ==>
            page.pagination == DefaultPagination(if list.Arr? then |list.elems| else 0))
      && (Truthy(Get(Unwrap(res), "pagination")) ==> page.pagination == Get(Unwrap(res), "pagination"))
  {
    var pairs := AppendKept(params);
    var raw := Unwrap(res);
    var list := Or(Or(Get(raw, "data"), raw), Arr([]));
    var data: seq<JsValue> := [];
    if list.Arr? {
      var i := 0;
      while i < |list.elems|
        invariant 0 <= i <= |list.elems|
        invariant |data| == i
        invariant forall j :: 0 <= j < i ==> data[j] == NormalizeMenuItem(list.elems[j], origin)
      {
        data := data + [NormalizeMenuItem(list.elems[i], origin)];
        i := i + 1;
      }
    }
    var n := if list.Arr? then |list.elems| else 0;
    page := MenuPage("/menu/items?" + QueryText(pairs), data, Or(Get(raw, "pagination"), DefaultPagination(n)));
  }

  // ---------------------------------------------------------------------------
  // uploadItemImage: the returned URL

  /** Appends `v=<stamp>` with '&' when the URL already has a query, else with '?'; '' stays ''. */
  function CacheBust(url: string, stamp: string): (r: string)
    ensures url == "" <==> r == ""
    ensures url != "" ==> r == url + [if '?' in url then '&' else '?'] + "v=" + stamp
  {
    if url == "" then "" else url + (if '?' in url then "&" else "?") + "v=" + stamp
  }

  /** Without a query in the URL and with a numeric stamp, the query starts right after the URL. */
  lemma CacheBustStartsQuery(url: string, stamp: string)
    requires url != "" && '?' !in url && AllDigits(stamp)
    ensures IndexOf(CacheBust(url, stamp), '?') == Some(|url|)
    ensures CacheBust(url, stamp)[..|url|] == url
  {
    var r := CacheBust(url, stamp);
    assert r == url + ['?'] + ("v=" + stamp);
    IndexOfAfterFree(url, '?', "v=" + stamp);
  }

  /**
   * The result of an image upload: a missing id or file throws before any
   * request; otherwise the URL picked from the response, made absolute and
   * cache-busted.
   */
  function UploadedImageUrl(itemId: JsValue, hasFile: bool, res: JsValue, origin: string, stamp: string)
    : (r: Result<string, string>)
    ensures !Truthy(itemId) ==> r == Err("Menu item id is required")
    ensures Truthy(itemId) && !hasFile ==> r == Err("Image file is required")
    ensures Truthy(itemId) && hasFile ==>
      r == Ok(CacheBust(AbsoluteUrl(Str(UrlOf(Or(Unwrap(res), Obj([])))), origin), stamp))
  {
    if !Truthy(itemId) then Err("Menu item id is required")
    else if !hasFile then Err("Image file is required")
    else Ok(CacheBust(AbsoluteUrl(Str(UrlOf(Or(Unwrap(res), Obj([])))), origin), stamp))
  }
}
