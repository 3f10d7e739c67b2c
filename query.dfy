/**
 * The query-string builder both client services use: every parameter whose
 * value is not undefined, null or '' is appended as `key=String(value)`, in
 * the parameters' own order, joined with '&'.
 */
module Query {
  import opened Js

  datatype Pair = Pair(key: string, value: string)

  /** The pairs the builder appends, as a specification. */
  function KeptPairs(params: seq<Prop>): (r: seq<Pair>)
    ensures |r| <= |params|
  {
    if params == [] then []
    else
      var rest := KeptPairs(params[1..]);
      if Kept(params[0].val) then [Pair(params[0].key, ToStr(params[0].val))] + rest else rest
  }

  /** `Object.entries(params).forEach(...)` appending to a URLSearchParams. */
  method AppendKept(params: seq<Prop>) returns (pairs: seq<Pair>)
    ensures pairs == KeptPairs(params)
  {
    pairs := [];
    var i := 0;
    while i < |params|
      invariant 0 <= i <= |params|
      invariant pairs == KeptPairs(params[..i])
    {
      assert params[..i + 1] == params[..i] + [params[i]];
      KeptPairsSnoc(params[..i], params[i]);
      if Kept(params[i].val) {
        pairs := pairs + [Pair(params[i].key, ToStr(params[i].val))];
      }
      i := i + 1;
    }
    assert params[..|params|] == params;
  }

  /** One more parameter adds its pair at the end exactly when its value is kept. */
  lemma {:induction false} KeptPairsSnoc(params: seq<Prop>, p: Prop)
    ensures KeptPairs(params + [p]) == KeptPairs(params) + if Kept(p.val) then [Pair(p.key, ToStr(p.val))] else []
  {
    if params == [] {
      assert params + [p] == [p];
    } else {
      assert (params + [p])[1..] == params[1..] + [p];
      KeptPairsSnoc(params[1..], p);
    }
  }

  /** A parameter is sent exactly when its value is kept; what is sent is String(value). */
  lemma {:induction false} KeptPairsMembers(params: seq<Prop>, k: string, v: JsValue)
    ensures Prop(k, v) in params && Kept(v) ==> Pair(k, ToStr(v)) in KeptPairs(params)
    ensures (forall i :: 0 <= i < |params| && params[i].key == k ==> !Kept(params[i].val))
            ==> forall j :: 0 <= j < |KeptPairs(params)| ==> KeptPairs(params)[j].key != k
  {
    if params != [] {
      KeptPairsMembers(params[1..], k, v);
      if Prop(k, v) in params && Prop(k, v) != params[0] {
        assert Prop(k, v) in params[1..];
      }
    }
  }

  /** `qs.toString()`: `k=v` pairs joined with '&' (percent-encoding is not modelled). */
  function QueryText(pairs: seq<Pair>): (r: string)
    ensures pairs == [] <==> r == []
  {
    if pairs == [] then ""
    else
      var head := pairs[0].key + "=" + pairs[0].value;
      assert |head| > 0;
      if |pairs| == 1 then head else head + "&" + QueryText(pairs[1..])
  }
}
