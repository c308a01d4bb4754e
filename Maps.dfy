/** Sums over the values of an integer-keyed dictionary, taken in its enumeration order. */
module Maps {

  /** The values of `s` in order of first appearance, each once: the key order of a
      dictionary filled from `s` with no removals. */
  function Distinct(s: seq<int>): (r: seq<int>)
    ensures forall x :: x in r <==> x in s
    ensures forall i, j :: 0 <= i < j < |r| ==> r[i] != r[j]
    decreases |s|
  {
    if s == [] then []
    else
      var d := Distinct(s[..|s| - 1]);
      assert forall x :: x in s <==> x in s[..|s| - 1] || x == s[|s| - 1];
      if s[|s| - 1] in d then d else d + [s[|s| - 1]]
  }

  /** The sum of `f` over the values stored under `keys`, in that order. */
  function SumAt<V>(m: map<int, V>, keys: seq<int>, f: V -> int): int
    requires forall i :: 0 <= i < |keys| ==> keys[i] in m
    decreases |keys|
  {
    if keys == [] then 0
    else SumAt(m, keys[..|keys| - 1], f) + f(m[keys[|keys| - 1]])
  }

  /** A key that is not summed over may change freely. */
  lemma {:induction false} SumAtUnaffected<V>(m: map<int, V>, keys: seq<int>, f: V -> int, k: int, v: V)
    requires forall i :: 0 <= i < |keys| ==> keys[i] in m
    requires k !in keys
    ensures SumAt(m[k := v], keys, f) == SumAt(m, keys, f)
    decreases |keys|
  {
    if keys != [] {
      SumAtUnaffected(m, keys[..|keys| - 1], f, k, v);
    }
  }

  /** Replacing the value of a key summed over exactly once changes the sum by the difference. */
  lemma {:induction false} SumAtUpdate<V>(m: map<int, V>, keys: seq<int>, f: V -> int, k: int, v: V)
    requires forall i :: 0 <= i < |keys| ==> keys[i] in m
    requires forall i, j :: 0 <= i < j < |keys| ==> keys[i] != keys[j]
    requires k in keys
    ensures SumAt(m[k := v], keys, f) == SumAt(m, keys, f) - f(m[k]) + f(v)
    decreases |keys|
  {
    var init := keys[..|keys| - 1];
    if keys[|keys| - 1] == k {
      assert k !in init;
      SumAtUnaffected(m, init, f, k, v);
    } else {
      assert k in init;
      SumAtUpdate(m, init, f, k, v);
    }
  }
}
