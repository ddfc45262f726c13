/** Option, the bounds of Go's 64-bit integers, and sums over finite maps. */
module Prelude {
  datatype Option<+T> = None | Some(value: T) {
    predicate IsFailure() { None? }

    function PropagateFailure<U>(): Option<U>
      requires IsFailure()
    {
      None
    }

    function Extract(): T
      requires !IsFailure()
    {
      value
    }
  }

  const TWO_TO_THE_63: int := 0x8000_0000_0000_0000
  const TWO_TO_THE_64: int := 0x1_0000_0000_0000_0000

  predicate ColonFree(s: string) {
    ':' !in s
  }

  /** The value stored under a key, 0 when the key is absent (a missing Redis hash field). */
  function Get<K>(m: map<K, int>, k: K): int {
    if k in m then m[k] else 0
  }

  function GetReal<K>(m: map<K, real>, k: K): real {
    if k in m then m[k] else 0.0
  }

  function Elems<T>(s: seq<T>): set<T> {
    set x | x in s
  }

  ghost predicate NoDuplicates<T>(s: seq<T>) {
    forall i, j | 0 <= i < j < |s| :: s[i] != s[j]
  }

  /** Sum of the values that m holds for the given keys. */
  ghost function SumOver<K>(keys: set<K>, m: map<K, int>): int {
    if keys == {} then 0
    else
      var k :| k in keys;
      Get(m, k) + SumOver(keys - {k}, m)
  }

  /** Sum of all values of m. */
  ghost function Total<K>(m: map<K, int>): int {
    SumOver(m.Keys, m)
  }

  ghost function SumOverReal<K>(keys: set<K>, m: map<K, real>): real {
    if keys == {} then 0.0
    else
      var k :| k in keys;
      GetReal(m, k) + SumOverReal(keys - {k}, m)
  }

  ghost function TotalReal<K>(m: map<K, real>): real {
    SumOverReal(m.Keys, m)
  }

  /** A sum does not depend on which key is taken first. */
  lemma {:induction false} SumOverPick<K>(keys: set<K>, m: map<K, int>, k: K)
    requires k in keys
    ensures SumOver(keys, m) == Get(m, k) + SumOver(keys - {k}, m)
    decreases |keys|
  {
    var j :| j in keys && SumOver(keys, m) == Get(m, j) + SumOver(keys - {j}, m);
    if j != k {
      SumOverPick(keys - {j}, m, k);
      SumOverPick(keys - {k}, m, j);
      assert keys - {j} - {k} == keys - {k} - {j};
    }
  }

  lemma {:induction false} SumOverRealPick<K>(keys: set<K>, m: map<K, real>, k: K)
    requires k in keys
    ensures SumOverReal(keys, m) == GetReal(m, k) + SumOverReal(keys - {k}, m)
    decreases |keys|
  {
    var j :| j in keys && SumOverReal(keys, m) == GetReal(m, j) + SumOverReal(keys - {j}, m);
    if j != k {
      SumOverRealPick(keys - {j}, m, k);
      SumOverRealPick(keys - {k}, m, j);
      assert keys - {j} - {k} == keys - {k} - {j};
    }
  }

  /** Key by key equality of a + b and c gives equality of the sums. */
  lemma {:induction false} SumOverAdd<K>(keys: set<K>, a: map<K, int>, b: map<K, int>, c: map<K, int>)
    requires forall k | k in keys :: Get(a, k) + Get(b, k) == Get(c, k)
    ensures SumOver(keys, a) + SumOver(keys, b) == SumOver(keys, c)
    decreases |keys|
  {
    if keys != {} {
      var k :| k in keys;
      SumOverPick(keys, a, k);
      SumOverPick(keys, b, k);
      SumOverPick(keys, c, k);
      SumOverAdd(keys - {k}, a, b, c);
    }
  }

  lemma {:induction false} SumOverSame<K>(keys: set<K>, a: map<K, int>, b: map<K, int>)
    requires forall k | k in keys :: Get(a, k) == Get(b, k)
    ensures SumOver(keys, a) == SumOver(keys, b)
    decreases |keys|
  {
    if keys != {} {
      var k :| k in keys;
      SumOverPick(keys, a, k);
      SumOverPick(keys, b, k);
      SumOverSame(keys - {k}, a, b);
    }
  }

  lemma {:induction false} SumOverRealSame<K>(keys: set<K>, a: map<K, real>, b: map<K, real>)
    requires forall k | k in keys :: GetReal(a, k) == GetReal(b, k)
    ensures SumOverReal(keys, a) == SumOverReal(keys, b)
    decreases |keys|
  {
    if keys != {} {
      var k :| k in keys;
      SumOverRealPick(keys, a, k);
      SumOverRealPick(keys, b, k);
      SumOverRealSame(keys - {k}, a, b);
    }
  }

  /** Keys that m does not hold add nothing. */
  lemma {:induction false} SumOverSuperset<K>(keys: set<K>, m: map<K, int>)
    requires m.Keys <= keys
    ensures SumOver(keys, m) == Total(m)
    decreases |keys|
  {
    if keys != m.Keys {
      var k :| k in keys && k !in m;
      SumOverPick(keys, m, k);
      SumOverSuperset(keys - {k}, m);
    }
  }
}
