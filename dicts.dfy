/**
 * A Python 3 `dict` with string keys, as a value: the keys in insertion order next to the
 * mapping itself. Assigning to a key that is already present keeps its place in the order;
 * deleting a key takes it out of the order. `list(d.keys())` is `keys`.
 */
module Dicts {

  /** No element occurs twice. */
  ghost predicate Distinct(s: seq<string>)
  {
    forall i, j | 0 <= i < j < |s| :: s[i] != s[j]
  }

  /** `s` without the occurrences of `k`, order kept. */
  function Remove(s: seq<string>, k: string): (r: seq<string>)
    ensures forall x :: x in r <==> x in s && x != k
    ensures Distinct(s) ==> Distinct(r)
    decreases |s|
  {
    if s == [] then []
    else
      var rest := Remove(s[1..], k);
      assert Distinct(s) ==> s[0] !in s[1..] && Distinct(s[1..]);
      if s[0] == k then rest else [s[0]] + rest
  }

  /** Removing a key that is not listed changes nothing. */
  lemma {:induction false} RemoveAbsent(s: seq<string>, k: string)
    requires k !in s
    ensures Remove(s, k) == s
    decreases |s|
  {
    if s != [] {
      RemoveAbsent(s[1..], k);
    }
  }

  /** Removing the one occurrence of `k` at `i` keeps the elements before and after it, in order. */
  lemma {:induction false} RemoveAt(s: seq<string>, k: string, i: nat)
    requires Distinct(s) && i < |s| && s[i] == k
    ensures Remove(s, k) == s[..i] + s[i + 1..]
    decreases i
  {
    assert Distinct(s[1..]);
    if i == 0 {
      assert k !in s[1..];
      RemoveAbsent(s[1..], k);
      assert s[..0] + s[1..] == s[1..];
    } else {
      assert s[0] != k && s[1..][i - 1] == k;
      RemoveAt(s[1..], k, i - 1);
      assert s[..i] + s[i + 1..] == [s[0]] + (s[1..][..i - 1] + s[1..][i..]);
    }
  }

  /** The first position of `k` in `s`. */
  function IndexOf(s: seq<string>, k: string): (i: nat)
    requires k in s
    ensures i < |s| && s[i] == k && k !in s[..i]
    decreases |s|
  {
    if s[0] == k then 0 else 1 + IndexOf(s[1..], k)
  }

  /** `Remove` keeps the order of what stays. */
  lemma RemoveOrder(s: seq<string>, k: string)
    ensures k !in s ==> Remove(s, k) == s
    ensures Distinct(s) && k in s ==> Remove(s, k) == s[..IndexOf(s, k)] + s[IndexOf(s, k) + 1..]
  {
    if k !in s {
      RemoveAbsent(s, k);
    } else if Distinct(s) {
      RemoveAt(s, k, IndexOf(s, k));
    }
  }

  datatype Dict<V> = Dict(keys: seq<string>, values: map<string, V>)
  {
    /** Every mapped key is listed once in the order, and only mapped keys are listed. */
    ghost predicate Valid()
    {
      && Distinct(keys)
      && (forall k :: k in values <==> k in keys)
    }

    /** `d[k] = v` */
    function Put(k: string, v: V): (d: Dict<V>)
      ensures d.values == values[k := v]
      ensures k in values ==> d.keys == keys
      ensures k !in values ==> d.keys == keys + [k]
      ensures Valid() ==> d.Valid()
    {
      if k in values then Dict(keys, values[k := v]) else Dict(keys + [k], values[k := v])
    }

    /** `del d[k]` */
    function Delete(k: string): (d: Dict<V>)
      ensures d.values == values - {k}
      ensures forall x :: x in d.keys <==> x in keys && x != k
      ensures k !in keys ==> d.keys == keys
      ensures Distinct(keys) && k in keys ==> d.keys == keys[..IndexOf(keys, k)] + keys[IndexOf(keys, k) + 1..]
      ensures Valid() ==> d.Valid()
    {
      RemoveOrder(keys, k);
      Dict(Remove(keys, k), values - {k})
    }
  }

  /** `{}` */
  function Empty<V>(): (d: Dict<V>)
    ensures d.Valid() && d.values == map[]
  {
    Dict([], map[])
  }
}
