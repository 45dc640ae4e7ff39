/** Generic aggregates over sequences used to state conservation facts:
    the sum of a sequence of integers and the concatenation of a sequence of lists. */
module Seqs {

  /** No element occurs twice. */
  predicate Distinct<T(==)>(s: seq<T>)
  {
    forall i, j :: 0 <= i < j < |s| ==> s[i] != s[j]
  }

  /** Sum of a sequence of integers. */
  function Sum(xs: seq<int>): int
  {
    if xs == [] then 0 else xs[0] + Sum(xs[1..])
  }

  lemma {:induction false} SumAppend(xs: seq<int>, x: int)
    ensures Sum(xs + [x]) == Sum(xs) + x
  {
    if xs != [] {
      assert (xs + [x])[1..] == xs[1..] + [x];
      SumAppend(xs[1..], x);
    }
  }

  /** Increasing one element by `d` increases the sum by exactly `d`. */
  lemma {:induction false} SumExtend(xs: seq<int>, i: nat, d: int)
    requires i < |xs|
    ensures Sum(xs[i := xs[i] + d]) == Sum(xs) + d
  {
    if i > 0 {
      assert xs[i := xs[i] + d][1..] == xs[1..][i - 1 := xs[1..][i - 1] + d];
      SumExtend(xs[1..], i - 1, d);
    }
  }

  lemma {:induction false} SumZeros(xs: seq<int>)
    requires forall i :: 0 <= i < |xs| ==> xs[i] == 0
    ensures Sum(xs) == 0
  {
    if xs != [] {
      SumZeros(xs[1..]);
    }
  }

  /** Concatenation of a sequence of lists, in order. */
  function Flatten<T>(ss: seq<seq<T>>): seq<T>
  {
    if ss == [] then [] else ss[0] + Flatten(ss[1..])
  }

  lemma {:induction false} FlattenAppend<T>(ss: seq<seq<T>>, s: seq<T>)
    ensures Flatten(ss + [s]) == Flatten(ss) + s
  {
    if ss != [] {
      assert (ss + [s])[1..] == ss[1..] + [s];
      FlattenAppend(ss[1..], s);
    }
  }

  /** Extending one list by `t` extends the flattened multiset by exactly `t`. */
  lemma {:induction false} FlattenExtend<T>(ss: seq<seq<T>>, i: nat, t: seq<T>)
    requires i < |ss|
    ensures multiset(Flatten(ss[i := ss[i] + t])) == multiset(Flatten(ss)) + multiset(t)
  {
    var rest := ss[1..];
    if i > 0 {
      assert ss[i := ss[i] + t][1..] == rest[i - 1 := rest[i - 1] + t];
      FlattenExtend(rest, i - 1, t);
      assert multiset(Flatten(ss[i := ss[i] + t])) == multiset(ss[0]) + (multiset(Flatten(rest)) + multiset(t));
    } else {
      assert ss[i := ss[i] + t][1..] == rest;
      assert Flatten(ss[i := ss[i] + t]) == ss[0] + t + Flatten(rest);
    }
  }

  lemma {:induction false} FlattenEmpties<T>(ss: seq<seq<T>>)
    requires forall i :: 0 <= i < |ss| ==> ss[i] == []
    ensures Flatten(ss) == []
  {
    if ss != [] {
      FlattenEmpties(ss[1..]);
    }
  }
}
