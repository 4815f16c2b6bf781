/**
 * A JavaScript plain object whose values are strings or `undefined`: an
 * association list in property order. Assigning to a key that exists keeps
 * its position; assigning to a new key appends it, as object spread and
 * property assignment do for string keys.
 */
module JsObject {
  import opened Wrappers

  /** Each property: its key and its value, `None` for `undefined`. */
  type Object = seq<(string, Option<string>)>

  /** The property names in order; also used for the rows of a GROUP BY, whose first column is the key. */
  function Keys<V>(o: seq<(string, V)>): (ks: seq<string>)
    ensures |ks| == |o|
    ensures forall i :: 0 <= i < |o| ==> ks[i] == o[i].0
  {
    if o == [] then [] else [o[0].0] + Keys(o[1..])
  }

  predicate HasKey(o: Object, k: string) {
    exists i :: 0 <= i < |o| && o[i].0 == k
  }

  predicate DistinctKeys<V>(o: seq<(string, V)>) {
    forall i, j :: 0 <= i < j < |o| ==> o[i].0 != o[j].0
  }

  /** `o[k]`: the value of the first property named `k`, `undefined` when there is none. */
  function Get(o: Object, k: string): (v: Option<string>)
    ensures !HasKey(o, k) ==> v.None?
    ensures forall i :: 0 <= i < |o| && o[i].0 == k && DistinctKeys(o) ==> v == o[i].1
  {
    if o == [] then None
    else if o[0].0 == k then o[0].1
    else Get(o[1..], k)
  }

  /** `{...o, [k]: v}`: the property `k` takes the value `v` in place, or is appended when new. */
  function Set(o: Object, k: string, v: Option<string>): (r: Object)
    ensures HasKey(o, k) ==> Keys(r) == Keys(o)
    ensures !HasKey(o, k) ==> Keys(r) == Keys(o) + [k]
    ensures forall i :: 0 <= i < |o| && o[i].0 != k ==> r[i] == o[i]
  {
    if o == [] then [(k, v)]
    else if o[0].0 == k then [(k, v)] + o[1..]
    else [o[0]] + Set(o[1..], k, v)
  }

  /** After `Set`, reading `k` gives the new value and every other key reads as before. */
  lemma {:induction false} SetGet(o: Object, k: string, v: Option<string>)
    ensures Get(Set(o, k, v), k) == v
    ensures forall k' :: k' != k ==> Get(Set(o, k, v), k') == Get(o, k')
  {
    if o != [] && o[0].0 != k {
      SetGet(o[1..], k, v);
      assert Set(o, k, v)[1..] == Set(o[1..], k, v);
    }
  }

  /** `Set` never duplicates a key. */
  lemma {:induction false} SetKeepsKeysDistinct(o: Object, k: string, v: Option<string>)
    requires DistinctKeys(o)
    ensures DistinctKeys(Set(o, k, v))
  {
    var r := Set(o, k, v);
    var ks := Keys(r);
    if HasKey(o, k) {
      assert Keys(r) == Keys(o);
    } else {
      assert Keys(r) == Keys(o) + [k];
    }
    forall i, j | 0 <= i < j < |r| ensures r[i].0 != r[j].0 {
      assert ks[i] == r[i].0 && ks[j] == r[j].0;
      if j < |o| {
        assert Keys(o)[i] == o[i].0 && Keys(o)[j] == o[j].0;
      } else {
        assert Keys(o)[i] == o[i].0;
      }
    }
  }
}
