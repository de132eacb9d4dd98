/**
 * Ordered string-keyed records: the model of a JavaScript object (whose
 * `Object.entries` come back in insertion order for keys that are not
 * integer-like; JavaScript lists integer-like keys first, in numeric order,
 * and no key used here is one: they are addresses, `0x`-prefixed or
 * lower-cased text, or query parameter names) and of a `URLSearchParams`
 * list. Keys are distinct; assigning an existing key replaces its value in
 * place, assigning a new key appends it at the end.
 */
module Entries {
  import opened Optional

  /** The set of keys. */
  function Keys<V>(es: seq<(string, V)>): set<string> {
    if es == [] then {} else {es[0].0} + Keys(es[1..])
  }

  /** No key occurs twice. */
  predicate DistinctKeys<V>(es: seq<(string, V)>) {
    es == [] || (es[0].0 !in Keys(es[1..]) && DistinctKeys(es[1..]))
  }

  /** The value under `k` (the first one, should `k` repeat). */
  function Get<V>(es: seq<(string, V)>, k: string): (r: Option<V>)
    ensures r.None? <==> k !in Keys(es)
    ensures r.Some? ==> (k, r.value) in es
  {
    if es == [] then None
    else if es[0].0 == k then Some(es[0].1)
    else Get(es[1..], k)
  }

  /** `obj[k] = v` on an object, and `params.set(k, v)` on search params
      whose keys are distinct. */
  function Assign<V>(es: seq<(string, V)>, k: string, v: V): (r: seq<(string, V)>)
    ensures Keys(r) == Keys(es) + {k}
    ensures |r| == if k in Keys(es) then |es| else |es| + 1
    ensures k !in Keys(es) ==> r == es + [(k, v)]
  {
    if es == [] then [(k, v)]
    else if es[0].0 == k then [(k, v)] + es[1..]
    else [es[0]] + Assign(es[1..], k, v)
  }

  /** Assigning keeps keys distinct, reads back the value just assigned and
      leaves every other key's value as it was. */
  lemma {:induction false} AssignGet<V>(es: seq<(string, V)>, k: string, v: V)
    requires DistinctKeys(es)
    ensures DistinctKeys(Assign(es, k, v))
    ensures Get(Assign(es, k, v), k) == Some(v)
    ensures forall k' | k' != k :: Get(Assign(es, k, v), k') == Get(es, k')
  {
    if es != [] && es[0].0 != k {
      AssignGet(es[1..], k, v);
      assert Assign(es, k, v) == [es[0]] + Assign(es[1..], k, v);
      assert Assign(es, k, v)[1..] == Assign(es[1..], k, v);
    } else if es != [] {
      assert Assign(es, k, v)[1..] == es[1..];
    }
  }

  /** The entries of a list with distinct keys are determined by `Get`. */
  lemma {:induction false} GetMember<V>(es: seq<(string, V)>, k: string, v: V)
    requires DistinctKeys(es) && (k, v) in es
    ensures Get(es, k) == Some(v)
  {
    if es[0] != (k, v) {
      assert (k, v) in es[1..];
      KeysOfMember(es[1..], k, v);
      GetMember(es[1..], k, v);
    }
  }

  /** The key of every entry is among the keys. */
  lemma {:induction false} KeysOfMember<V>(es: seq<(string, V)>, k: string, v: V)
    requires (k, v) in es
    ensures k in Keys(es)
  {
    if es[0] != (k, v) {
      assert (k, v) in es[1..];
      KeysOfMember(es[1..], k, v);
    }
  }
}
