/** The ordered `breakdown` dictionary of a valuation: each entry is either
    a money amount or a textual marker, and the total counts only amounts.
    Keys are of any type; each valuation names its own. */
module Breakdown {
  import opened Wrappers

  datatype Value = Mark(m: string) | Amount(x: real)

  datatype Entry<K> = Entry(key: K, value: Value)

  function AmountOf<K>(e: Entry<K>): real {
    if e.value.Amount? then e.value.x else 0.0
  }

  /** The sum of the numeric entries. */
  function Sum<K>(b: seq<Entry<K>>): real {
    if b == [] then 0.0 else Sum(b[..|b| - 1]) + AmountOf(b[|b| - 1])
  }

  /** `breakdown.get(key)`: the value of the first entry under `key`. */
  function Lookup<K(==)>(b: seq<Entry<K>>, key: K): Option<Value> {
    if b == [] then None
    else if b[0].key == key then Some(b[0].value)
    else Lookup(b[1..], key)
  }

  /** A key is missing exactly when no entry carries it. */
  lemma {:induction false} LookupMissing<K>(b: seq<Entry<K>>, key: K)
    ensures Lookup(b, key).None? <==> forall i :: 0 <= i < |b| ==> b[i].key != key
  {
    if b != [] {
      LookupMissing(b[1..], key);
      assert forall i :: 1 <= i < |b| ==> b[i] == b[1..][i - 1];
    }
  }

  lemma {:induction false} SumAppend<K>(a: seq<Entry<K>>, b: seq<Entry<K>>)
    ensures Sum(a + b) == Sum(a) + Sum(b)
  {
    if b != [] {
      SumAppend(a, b[..|b| - 1]);
      assert (a + b)[..|a + b| - 1] == a + b[..|b| - 1];
    } else {
      assert a + b == a;
    }
  }

  lemma SumOfOne<K>(e: Entry<K>)
    ensures Sum([e]) == AmountOf(e)
  {
    assert [e][..0] == [];
  }

  lemma SumOfThree<K>(e0: Entry<K>, e1: Entry<K>, e2: Entry<K>)
    ensures Sum([e0, e1, e2]) == AmountOf(e0) + AmountOf(e1) + AmountOf(e2)
  {
    assert [e0, e1, e2][..2] == [e0, e1];
    assert [e0, e1][..1] == [e0];
    SumOfOne(e0);
  }

  lemma LookupCons<K>(e: Entry<K>, rest: seq<Entry<K>>, key: K)
    ensures Lookup([e] + rest, key) == if e.key == key then Some(e.value) else Lookup(rest, key)
  {
    assert ([e] + rest)[1..] == rest;
  }

  lemma {:induction false} LookupAppend<K>(a: seq<Entry<K>>, b: seq<Entry<K>>, key: K)
    ensures Lookup(a + b, key) == if Lookup(a, key).Some? then Lookup(a, key) else Lookup(b, key)
  {
    if a == [] {
      assert a + b == b;
    } else {
      assert (a + b)[1..] == a[1..] + b;
      LookupAppend(a[1..], b, key);
    }
  }
}
