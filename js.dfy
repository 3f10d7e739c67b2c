/**
 * JavaScript values as the web and mobile clients receive them from JSON,
 * and the handful of language rules the clients lean on: truthiness, `||`,
 * `??`, `typeof x === 'object'`, property reads, object spread, `===`,
 * `String(x)` and `Number(x)`.
 *
 * Numbers are integers here (NaN is the `None` of ToNumber); objects are
 * their own-property lists in insertion order.
 */
module Js {
  import opened Wrappers
  import opened Text

  datatype JsValue =
    | Undefined
    | Null
    | Bool(b: bool)
    | Num(n: int)
    | Str(s: string)
    | Arr(elems: seq<JsValue>)
    | Obj(props: seq<Prop>)

  datatype Prop = Prop(key: string, val: JsValue)

  /** Boolean(v). */
  predicate Truthy(v: JsValue) {
    match v
    case Undefined => false
    case Null => false
    case Bool(b) => b
    case Num(n) => n != 0
    case Str(s) => s != ""
    case Arr(_) => true
    case Obj(_) => true
  }

  predicate IsNullish(v: JsValue) {
    v.Undefined? || v.Null?
  }

  /** `a || b` */
  function Or(a: JsValue, b: JsValue): (r: JsValue)
    ensures Truthy(r) <==> Truthy(a) || Truthy(b)
    ensures r == a || r == b
  {
    if Truthy(a) then a else b
  }

  /** `v0 || v1 || ... || ''`: the first truthy value of the list, else ''. */
  function FirstTruthy(vals: seq<JsValue>): (r: JsValue)
    ensures (forall i :: 0 <= i < |vals| ==> !Truthy(vals[i])) ==> r == Str("")
    ensures r == Str("") || (r in vals && Truthy(r))
  {
    if vals == [] then Str("")
    else if Truthy(vals[0]) then vals[0]
    else
      assert forall i :: 0 < i < |vals| ==> vals[1..][i - 1] == vals[i];
      FirstTruthy(vals[1..])
  }

  /** The value at the first truthy position is the one chosen. */
  lemma {:induction false} FirstTruthyAt(vals: seq<JsValue>, i: nat)
    requires i < |vals| && Truthy(vals[i])
    requires forall j :: 0 <= j < i ==> !Truthy(vals[j])
    ensures FirstTruthy(vals) == vals[i]
  {
    if i > 0 {
      assert !Truthy(vals[0]);
      forall j | 0 <= j < i - 1 ensures !Truthy(vals[1..][j]) {
        assert vals[1..][j] == vals[j + 1];
      }
      FirstTruthyAt(vals[1..], i - 1);
    }
  }

  /** `a ?? b` */
  function Coalesce(a: JsValue, b: JsValue): (r: JsValue)
    ensures IsNullish(r) <==> IsNullish(a) && IsNullish(b)
    ensures !IsNullish(a) ==> r == a
  {
    if IsNullish(a) then b else a
  }

  /** `typeof v === 'object'`: true of null, arrays and plain objects. */
  predicate TypeofObject(v: JsValue) {
    v.Null? || v.Arr? || v.Obj?
  }

  /** Does a property list hold each key at most once (as every JavaScript object does)? */
  predicate DistinctKeys(props: seq<Prop>) {
    forall i, j :: 0 <= i < j < |props| ==> props[i].key != props[j].key
  }

  predicate HasKey(props: seq<Prop>, k: string) {
    exists i :: 0 <= i < |props| && props[i].key == k
  }

  /** The value stored under k, or undefined. */
  function Lookup(props: seq<Prop>, k: string): (r: JsValue)
    ensures !HasKey(props, k) ==> r == Undefined
    ensures HasKey(props, k) ==> Prop(k, r) in props
  {
    if props == [] then Undefined
    else if props[0].key == k then props[0].val
    else
      assert HasKey(props, k) ==> HasKey(props[1..], k) by {
        if HasKey(props, k) {
          var i :| 0 <= i < |props| && props[i].key == k;
          assert props[1..][i - 1].key == k;
        }
      }
      Lookup(props[1..], k)
  }

  /** In an object with distinct keys, each property is what its key looks up. */
  lemma {:induction false} LookupDistinct(props: seq<Prop>, i: nat)
    requires DistinctKeys(props) && i < |props|
    ensures Lookup(props, props[i].key) == props[i].val
  {
    if i > 0 {
      assert DistinctKeys(props[1..]);
      assert props[1..][i - 1] == props[i];
      LookupDistinct(props[1..], i - 1);
    }
  }

  /** `v?.[k]`: a property of a plain object, undefined for anything else. */
  function Get(v: JsValue, k: string): JsValue {
    if v.Obj? then Lookup(v.props, k) else Undefined
  }

  /** `{...props, [k]: v}`: overwrite k where it stands, or append it. */
  function SetProp(props: seq<Prop>, k: string, v: JsValue): (r: seq<Prop>)
    ensures Lookup(r, k) == v
    ensures forall k' :: k' != k ==> Lookup(r, k') == Lookup(props, k')
    ensures |r| == if HasKey(props, k) then |props| else |props| + 1
  {
    if props == [] then [Prop(k, v)]
    else if props[0].key == k then [Prop(k, v)] + props[1..]
    else
      var r := [props[0]] + SetProp(props[1..], k, v);
      assert HasKey(props, k) <==> HasKey(props[1..], k) by {
        if HasKey(props, k) {
          var i :| 0 <= i < |props| && props[i].key == k;
          assert props[1..][i - 1].key == k;
        }
        if HasKey(props[1..], k) {
          var i :| 0 <= i < |props[1..]| && props[1..][i].key == k;
          assert props[i + 1].key == k;
        }
      }
      r
  }

  /** Setting a property adds no key but k. */
  lemma {:induction false} SetPropNewKeys(props: seq<Prop>, k: string, v: JsValue)
    ensures forall j :: 0 <= j < |SetProp(props, k, v)| ==>
      SetProp(props, k, v)[j].key == k || HasKey(props, SetProp(props, k, v)[j].key)
  {
    var r := SetProp(props, k, v);
    if props != [] && props[0].key != k {
      var rest := SetProp(props[1..], k, v);
      SetPropNewKeys(props[1..], k, v);
      assert r == [props[0]] + rest;
      forall j | 0 < j < |r| && r[j].key != k ensures HasKey(props, r[j].key) {
        assert r[j] == rest[j - 1];
        var i :| 0 <= i < |props[1..]| && props[1..][i].key == r[j].key;
        assert props[i + 1].key == r[j].key;
      }
    } else if props != [] {
      assert forall j :: 0 < j < |r| ==> r[j] == props[j];
    }
  }

  /** Setting a property keeps the keys distinct. */
  lemma {:induction false} SetPropDistinct(props: seq<Prop>, k: string, v: JsValue)
    ensures DistinctKeys(props) ==> DistinctKeys(SetProp(props, k, v))
  {
    var r := SetProp(props, k, v);
    if DistinctKeys(props) && props != [] {
      if props[0].key != k {
        var rest := SetProp(props[1..], k, v);
        assert DistinctKeys(props[1..]);
        SetPropDistinct(props[1..], k, v);
        SetPropNewKeys(props[1..], k, v);
        assert r == [props[0]] + rest;
        forall a, b | 0 <= a < b < |r| ensures r[a].key != r[b].key {
          assert r[b] == rest[b - 1];
          if a > 0 {
            assert r[a] == rest[a - 1];
          } else if r[b].key != k {
            var i :| 0 <= i < |props[1..]| && props[1..][i].key == r[b].key;
            assert props[i + 1].key == r[b].key;
          }
        }
      } else {
        assert forall j :: 0 < j < |r| ==> r[j] == props[j];
      }
    }
  }

  /** Spreading keeps the keys of an object distinct. */
  lemma {:induction false} MergeDistinct(a: seq<Prop>, b: seq<Prop>)
    requires DistinctKeys(a)
    ensures DistinctKeys(Merge(a, b))
    decreases |b|
  {
    if b != [] {
      SetPropDistinct(a, b[0].key, b[0].val);
      MergeDistinct(SetProp(a, b[0].key, b[0].val), b[1..]);
    }
  }

  /** `{...a, ...b}`: b's properties overwrite a's, in b's order. */
  function Merge(a: seq<Prop>, b: seq<Prop>): (r: seq<Prop>)
    decreases |b|
  {
    if b == [] then a else Merge(SetProp(a, b[0].key, b[0].val), b[1..])
  }

  /** A merged object reads b's value where b has the key and a's elsewhere. */
  lemma {:induction false} MergeLookup(a: seq<Prop>, b: seq<Prop>, k: string)
    requires DistinctKeys(b)
    ensures Lookup(Merge(a, b), k) == if HasKey(b, k) then Lookup(b, k) else Lookup(a, k)
    decreases |b|
  {
    if b != [] {
      var a' := SetProp(a, b[0].key, b[0].val);
      assert DistinctKeys(b[1..]);
      MergeLookup(a', b[1..], k);
      if b[0].key == k {
        assert forall i :: 0 <= i < |b[1..]| ==> b[1..][i].key == b[i + 1].key;
        assert !HasKey(b[1..], k);
      } else {
        assert HasKey(b, k) <==> HasKey(b[1..], k) by {
          if HasKey(b, k) {
            var i :| 0 <= i < |b| && b[i].key == k;
            assert b[1..][i - 1].key == k;
          }
          if HasKey(b[1..], k) {
            var i :| 0 <= i < |b[1..]| && b[1..][i].key == k;
            assert b[i + 1].key == k;
          }
        }
      }
    }
  }

  /** The own enumerable properties `{...v}` copies. */
  function Spread(v: JsValue): seq<Prop> {
    match v
    case Obj(props) => props
    case Arr(es) => seq(|es|, i requires 0 <= i < |es| => Prop(NatToString(i), es[i]))
    case Str(s) => seq(|s|, i requires 0 <= i < |s| => Prop(NatToString(i), Str([s[i]])))
    case _ => []
  }

  /** Array.prototype.join(','), given the element strings. */
  function JoinComma(parts: seq<string>): string {
    if parts == [] then ""
    else if |parts| == 1 then parts[0]
    else parts[0] + "," + JoinComma(parts[1..])
  }

  /** String(v). */
  function ToStr(v: JsValue): string
    decreases v
  {
    match v
    case Undefined => "undefined"
    case Null => "null"
    case Bool(b) => if b then "true" else "false"
    case Num(n) => IntToString(n)
    case Str(s) => s
    case Arr(es) =>
      JoinComma(seq(|es|, i requires 0 <= i < |es| =>
        if es[i].Undefined? || es[i].Null? then "" else ToStr(es[i])))
    case Obj(_) => "[object Object]"
  }

  /**
   * Number(s) for a string: blank is 0, an optional sign and decimal digits
   * are read, anything else is NaN.
   */
  function StrToNumber(s: string): Option<int> {
    var t := Trim(s);
    if t == [] then Some(0)
    else if (t[0] == '+' || t[0] == '-') && |t| > 1 && AllDigits(t[1..]) then
      var v: int := DigitsValue(t[1..]);
      Some(if t[0] == '-' then -v else v)
    else if AllDigits(t) then Some(DigitsValue(t))
    else None
  }

  /** Number(v); None stands for NaN. */
  function ToNumber(v: JsValue): Option<int> {
    match v
    case Undefined => None
    case Null => Some(0)
    case Bool(b) => Some(if b then 1 else 0)
    case Num(n) => Some(n)
    case Str(s) => StrToNumber(s)
    case Arr(_) => StrToNumber(ToStr(v))
    case Obj(_) => None
  }

  /** `a === b` for primitives; two object values are taken to be distinct references. */
  predicate StrictEq(a: JsValue, b: JsValue) {
    match a
    case Undefined => b.Undefined?
    case Null => b.Null?
    case Bool(x) => b.Bool? && b.b == x
    case Num(x) => b.Num? && b.n == x
    case Str(x) => b.Str? && b.s == x
    case Arr(_) => false
    case Obj(_) => false
  }

  /** `typeof v === 'string' && v`: the value when it is a non-empty string. */
  function NonEmptyString(v: JsValue): Option<string> {
    if v.Str? && v.s != "" then Some(v.s) else None
  }

  /** `v !== undefined && v !== null && v !== ''`: a parameter worth sending. */
  predicate Kept(v: JsValue) {
    !v.Undefined? && !v.Null? && v != Str("")
  }
}
