// Facts about finite sequences shared by the models.
module Sequences {
  datatype Option<+T> = None | Some(value: T)

  function Min(a: nat, b: nat): nat { if a < b then a else b }

  /** The elements of the inner sequences, in order. */
  function Flatten<T>(ss: seq<seq<T>>): seq<T> {
    if ss == [] then [] else ss[0] + Flatten(ss[1..])
  }

  lemma {:induction false} FlattenAppend<T>(ss: seq<seq<T>>, s: seq<T>)
    ensures Flatten(ss + [s]) == Flatten(ss) + s
  {
    if ss == [] {
      assert ss + [s] == [s];
    } else {
      assert (ss + [s])[1..] == ss[1..] + [s];
      FlattenAppend(ss[1..], s);
    }
  }

  function TotalLength<T>(ss: seq<seq<T>>): nat {
    if ss == [] then 0 else |ss[0]| + TotalLength(ss[1..])
  }

  lemma {:induction false} TotalLengthAppend<T>(ss: seq<seq<T>>, s: seq<T>)
    ensures TotalLength(ss + [s]) == TotalLength(ss) + |s|
  {
    if ss == [] {
      assert ss + [s] == [s];
    } else {
      assert (ss + [s])[1..] == ss[1..] + [s];
      TotalLengthAppend(ss[1..], s);
    }
  }

  /** The sum of a weight over all elements; with weights 0 and 1 it counts. */
  function SumBy<T>(s: seq<T>, weight: T -> nat): nat {
    if s == [] then 0 else weight(s[0]) + SumBy(s[1..], weight)
  }

  lemma {:induction false} SumByUpdate<T>(s: seq<T>, i: nat, x: T, weight: T -> nat)
    requires i < |s|
    ensures SumBy(s[i := x], weight) + weight(s[i]) == SumBy(s, weight) + weight(x)
  {
    if i > 0 {
      assert s[i := x][1..] == s[1..][i - 1 := x];
      SumByUpdate(s[1..], i - 1, x, weight);
    }
  }

  lemma {:induction false} SumByZero<T>(s: seq<T>, weight: T -> nat)
    requires forall x :: x in s ==> weight(x) == 0
    ensures SumBy(s, weight) == 0
  {
    if s != [] {
      SumByZero(s[1..], weight);
    }
  }

  lemma {:induction false} SumByAtMost<T>(s: seq<T>, small: T -> nat, large: T -> nat)
    requires forall x :: x in s ==> small(x) <= large(x)
    ensures SumBy(s, small) <= SumBy(s, large)
  {
    if s != [] {
      SumByAtMost(s[1..], small, large);
    }
  }

  /** The sequence without its element i. */
  function Without<T>(s: seq<T>, i: nat): (r: seq<T>)
    requires i < |s|
    ensures |r| == |s| - 1 && forall j :: 0 <= j < |r| ==> r[j] == s[if j < i then j else j + 1]
  {
    s[..i] + s[i + 1..]
  }
}
