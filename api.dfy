/**
 * The query string `todoAPI.getAllTodos` builds from a filter object, and
 * how the list handler reads it back.
 */
module Api {
  import opened Wrappers
  import opened JsString
  import opened JsObject
  import Server

  /** One `key=value` pair of the query string. */
  type Param = (string, string)

  /** The parameters the filter object yields: its truthy properties, in property order. */
  function TruthyParams(o: Object): seq<Param> {
    if o == [] then []
    else (if Truthy(o[0].1) then [(o[0].0, o[0].1.value)] else []) + TruthyParams(o[1..])
  }

  /** The loop of `getAllTodos`: appends each property whose value is truthy. */
  method GetAllTodosParams(filters: Object) returns (params: seq<Param>)
    ensures params == TruthyParams(filters)
  {
    params := [];
    var i := 0;
    while i < |filters|
      invariant 0 <= i <= |filters|
      invariant params + TruthyParams(filters[i..]) == TruthyParams(filters)
    {
      assert filters[i..][1..] == filters[i + 1..];
      if Truthy(filters[i].1) {
        params := params + [(filters[i].0, filters[i].1.value)];
      }
      i := i + 1;
    }
    assert filters[i..] == [];
  }

  /** Parameters follow property order: the parameters of two objects laid end to end are laid end to end. */
  lemma {:induction false} ParamsInPropertyOrder(a: Object, b: Object)
    ensures TruthyParams(a + b) == TruthyParams(a) + TruthyParams(b)
  {
    if a != [] {
      ParamsInPropertyOrder(a[1..], b);
      assert (a + b)[0] == a[0];
      assert (a + b)[1..] == a[1..] + b;
    } else {
      assert a + b == b;
    }
  }

  /** A pair is sent exactly when the object holds that key with that non-empty value. */
  lemma {:induction false} ParamMembership(o: Object, k: string, v: string)
    ensures (k, v) in TruthyParams(o) <==> (k, Some(v)) in o && v != ""
  {
    if o != [] {
      ParamMembership(o[1..], k, v);
      assert o == [o[0]] + o[1..];
    }
  }

  /** No parameter at all exactly when every property is falsy (in particular for `{}`). */
  lemma {:induction false} NoParamsWhenAllFalsy(o: Object)
    ensures TruthyParams(o) == [] <==> forall i :: 0 <= i < |o| ==> !Truthy(o[i].1)
  {
    if o != [] {
      NoParamsWhenAllFalsy(o[1..]);
      assert forall i :: 1 <= i < |o| ==> o[i] == o[1..][i - 1];
    }
  }

  /** `req.query[k]` for a query string: the value of the pair named `k` (the keys sent are distinct). */
  function QueryValue(params: seq<Param>, k: string): (v: Option<string>)
    ensures v.Some? ==> (k, v.value) in params
    ensures v.None? ==> forall i :: 0 <= i < |params| ==> params[i].0 != k
  {
    if params == [] then None
    else if params[0].0 == k then Some(params[0].1)
    else QueryValue(params[1..], k)
  }

  /** The list handler's view of the query string. */
  function QueryOf(params: seq<Param>): Server.Query {
    Server.Query(QueryValue(params, "category"), QueryValue(params, "status"),
                 QueryValue(params, "priority"), QueryValue(params, "filter"))
  }

  /**
   * What the server reads for a key is the object's value when truthy and
   * absent otherwise, so a falsy filter never constrains the listing.
   */
  lemma {:induction false} ServerSeesTruthyValue(o: Object, k: string)
    requires DistinctKeys(o)
    ensures QueryValue(TruthyParams(o), k) == WhenTruthy(Get(o, k))
  {
    if o != [] {
      assert DistinctKeys(o[1..]) by {
        forall i, j | 0 <= i < j < |o[1..]| ensures o[1..][i].0 != o[1..][j].0 {
          assert o[1..][i] == o[i + 1] && o[1..][j] == o[j + 1];
        }
      }
      ServerSeesTruthyValue(o[1..], k);
      if o[0].0 == k {
        assert !HasKey(o[1..], k) by {
          forall i | 0 <= i < |o[1..]| ensures o[1..][i].0 != k {
            assert o[1..][i] == o[i + 1];
          }
        }
        if Truthy(o[0].1) {
          assert TruthyParams(o)[0] == (k, o[0].1.value);
        } else {
          assert TruthyParams(o) == TruthyParams(o[1..]);
        }
      } else if Truthy(o[0].1) {
        assert TruthyParams(o)[0].0 != k;
        assert TruthyParams(o)[1..] == TruthyParams(o[1..]);
      } else {
        assert TruthyParams(o) == TruthyParams(o[1..]);
      }
    }
  }

  /** A value that reaches the server only when truthy. */
  function WhenTruthy(v: Option<string>): Option<string> {
    if Truthy(v) then v else None
  }

  /** The query the list handler receives is the truthy part of the filter object, key by key. */
  lemma SentQueryMatchesObject(o: Object)
    requires DistinctKeys(o)
    ensures QueryOf(TruthyParams(o)) == Server.Query(
      WhenTruthy(Get(o, "category")), WhenTruthy(Get(o, "status")),
      WhenTruthy(Get(o, "priority")), WhenTruthy(Get(o, "filter")))
  {
    ServerSeesTruthyValue(o, "category");
    ServerSeesTruthyValue(o, "status");
    ServerSeesTruthyValue(o, "priority");
    ServerSeesTruthyValue(o, "filter");
  }
}
