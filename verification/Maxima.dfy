/** Choosing the first item with the greatest key, as the built-in maximum does. */
module Maxima {
  import opened Wrappers

  type Key = (real, real)

  predicate Less(a: Key, b: Key) {
    a.0 < b.0 || (a.0 == b.0 && a.1 < b.1)
  }

  /** The first position with the greatest key; positions without a key are not eligible. */
  function ArgMax(keys: seq<Option<Key>>): (r: Option<nat>)
    ensures r.None? <==> forall j :: 0 <= j < |keys| ==> keys[j].None?
    ensures r.Some? ==>
              && r.value < |keys| && keys[r.value].Some?
              && (forall j :: 0 <= j < |keys| && keys[j].Some? ==> !Less(keys[r.value].value, keys[j].value))
              && (forall j :: 0 <= j < r.value && keys[j].Some? ==> Less(keys[j].value, keys[r.value].value))
  {
    if keys == [] then None
    else
      var n := |keys| - 1;
      var before := ArgMax(keys[..n]);
      if keys[n].None? then before
      else if before.None? || Less(keys[before.value].value, keys[n].value) then Some(n)
      else before
  }

  /** The best of the first `i + 1` keys, from the best of the first `i` and the next one. */
  function Better(keys: seq<Option<Key>>, best: Option<nat>, i: nat): Option<nat>
    requires i < |keys| && (best.Some? ==> best.value < |keys| && keys[best.value].Some?)
  {
    if keys[i].Some? && (best.None? || Less(keys[best.value].value, keys[i].value)) then Some(i) else best
  }

  lemma NextArgMax(keys: seq<Option<Key>>, i: nat)
    requires i < |keys|
    ensures ArgMax(keys[..i+1]) == Better(keys, ArgMax(keys[..i]), i)
  {
    assert keys[..i+1][..i] == keys[..i];
  }
}
