/** Vocabulary shared by the models of the warden's components. */
module Common {

  datatype Option<+T> = None | Some(value: T)

  type byte = b: int | 0 <= b < 256

  const UINT32: nat := 0x1_0000_0000

  function Pow(b: nat, n: nat): (r: nat)
    ensures b > 0 ==> r > 0
  {
    if n == 0 then 1 else b * Pow(b, n - 1)
  }

  /** No element occurs twice. */
  ghost predicate Distinct<T>(s: seq<T>) {
    forall i, j :: 0 <= i < j < |s| ==> s[i] != s[j]
  }

  function Sum(ns: seq<nat>): nat {
    if ns == [] then 0 else ns[0] + Sum(ns[1..])
  }

  lemma {:induction false} SumUpdate(ns: seq<nat>, i: nat, v: nat)
    requires i < |ns|
    ensures Sum(ns[i := v]) + ns[i] == Sum(ns) + v
  {
    if i == 0 {
      assert ns[0 := v][1..] == ns[1..];
    } else {
      assert ns[i := v][1..] == ns[1..][i - 1 := v];
      SumUpdate(ns[1..], i - 1, v);
    }
  }

  lemma {:induction false} DistinctCount<T>(s: seq<T>, x: T)
    requires Distinct(s)
    ensures multiset(s)[x] == if x in s then 1 else 0
  {
    if s != [] {
      DistinctCount(s[1..], x);
      assert s == [s[0]] + s[1..];
    }
  }

  lemma SameElements<T>(s: seq<T>, t: seq<T>)
    requires Distinct(s) && Distinct(t)
    ensures multiset(s) == multiset(t) <==> forall x :: x in s <==> x in t
  {
    forall x ensures multiset(s)[x] == (if x in s then 1 else 0) && multiset(t)[x] == if x in t then 1 else 0 {
      DistinctCount(s, x);
      DistinctCount(t, x);
    }
    if multiset(s) == multiset(t) {
      forall x ensures x in s <==> x in t {
        assert x in multiset(s) <==> x in multiset(t);
      }
    }
  }
}
