/** The order in which `parallel_read.py` hands tapes to the placement loop:
    the dictionary's items sorted by `total_size`, largest first. Python's
    sort is stable also with `reverse=True`, so tapes of equal size keep the
    order in which they were first seen. The sort is modelled as a stable
    insertion sort. */
module Ordering {
  import opened Seqs
  import opened Listing

  predicate NonIncreasing(ts: seq<TapeEntry>)
  {
    forall i, j :: 0 <= i < j < |ts| ==> ts[i].totalSize >= ts[j].totalSize
  }

  /** Put `x` after every entry at least as large as it. */
  function Insert(x: TapeEntry, s: seq<TapeEntry>): (r: seq<TapeEntry>)
    ensures |r| == |s| + 1
  {
    if s == [] then [x]
    else if x.totalSize > s[0].totalSize then [x] + s
    else [s[0]] + Insert(x, s[1..])
  }

  /** `sorted(items, key=total_size, reverse=True)`. */
  function SortDesc(ts: seq<TapeEntry>): (r: seq<TapeEntry>)
    ensures |r| == |ts|
  {
    if ts == [] then []
    else Insert(ts[|ts| - 1], SortDesc(ts[..|ts| - 1]))
  }

  /** The entries of total size `v`, in their order in `ts`. */
  function WithTotal(ts: seq<TapeEntry>, v: int): seq<TapeEntry>
  {
    if ts == [] then []
    else (if ts[0].totalSize == v then [ts[0]] else []) + WithTotal(ts[1..], v)
  }

  lemma {:induction false} WithTotalAppend(ts: seq<TapeEntry>, x: TapeEntry, v: int)
    ensures WithTotal(ts + [x], v) == WithTotal(ts, v) + (if x.totalSize == v then [x] else [])
  {
    if ts != [] {
      assert (ts + [x])[1..] == ts[1..] + [x];
      WithTotalAppend(ts[1..], x, v);
    }
  }

  lemma {:induction false} WithTotalNone(ts: seq<TapeEntry>, v: int)
    requires forall i :: 0 <= i < |ts| ==> ts[i].totalSize < v
    ensures WithTotal(ts, v) == []
  {
    if ts != [] {
      WithTotalNone(ts[1..], v);
    }
  }

  lemma {:induction false} InsertMultiset(x: TapeEntry, s: seq<TapeEntry>)
    ensures multiset(Insert(x, s)) == multiset(s) + multiset{x}
  {
    if s != [] && x.totalSize <= s[0].totalSize {
      InsertMultiset(x, s[1..]);
      InsertMultisetBehind(x, s);
    }
  }

  /** The step of `InsertMultiset` where `x` goes behind the head of `s`. */
  lemma {:induction false} InsertMultisetBehind(x: TapeEntry, s: seq<TapeEntry>)
    requires s != [] && x.totalSize <= s[0].totalSize
    requires multiset(Insert(x, s[1..])) == multiset(s[1..]) + multiset{x}
    ensures multiset(Insert(x, s)) == multiset(s) + multiset{x}
  {
    assert s == [s[0]] + s[1..];
    PrependMultiset([s[0]], Insert(x, s[1..]), s[1..], multiset{x});
  }

  lemma {:induction false} InsertSorted(x: TapeEntry, s: seq<TapeEntry>)
    requires NonIncreasing(s)
    ensures NonIncreasing(Insert(x, s))
  {
    if s != [] && x.totalSize <= s[0].totalSize {
      var rest := Insert(x, s[1..]);
      assert NonIncreasing(rest) && multiset(rest) == multiset(s[1..]) + multiset{x} by {
        InsertSorted(x, s[1..]);
        InsertMultiset(x, s[1..]);
      }
      forall j | 0 <= j < |rest|
        ensures s[0].totalSize >= rest[j].totalSize
      {
        assert rest[j] in multiset(s[1..]) + multiset{x};
        if rest[j] != x {
          var m :| 0 <= m < |s[1..]| && s[1..][m] == rest[j];
          assert s[m + 1] == rest[j];
        }
      }
      var r := Insert(x, s);
      assert r == [s[0]] + rest;
      forall i, j | 0 <= i < j < |r|
        ensures r[i].totalSize >= r[j].totalSize
      {
        assert r[j] == rest[j - 1];
        if i > 0 {
          assert r[i] == rest[i - 1];
        }
      }
    }
  }

  lemma {:induction false} InsertStable(x: TapeEntry, s: seq<TapeEntry>, v: int)
    requires NonIncreasing(s)
    ensures WithTotal(Insert(x, s), v) == WithTotal(s, v) + (if x.totalSize == v then [x] else [])
  {
    if s == [] {
    } else if x.totalSize > s[0].totalSize {
      InsertFrontStable(x, s, v);
    } else {
      NonIncreasingTail(s);
      InsertStable(x, s[1..], v);
      InsertStableBehind(x, s, v);
    }
  }

  /** The step of `InsertStable` where `x` goes behind the head of `s`. */
  lemma {:induction false} InsertStableBehind(x: TapeEntry, s: seq<TapeEntry>, v: int)
    requires s != [] && x.totalSize <= s[0].totalSize
    requires WithTotal(Insert(x, s[1..]), v) == WithTotal(s[1..], v) + (if x.totalSize == v then [x] else [])
    ensures WithTotal(Insert(x, s), v) == WithTotal(s, v) + (if x.totalSize == v then [x] else [])
  {
    var rest := Insert(x, s[1..]);
    var head := if s[0].totalSize == v then [s[0]] else [];
    var tail := if x.totalSize == v then [x] else [];
    assert WithTotal(Insert(x, s), v) == head + WithTotal(rest, v) by {
      WithTotalCons(s[0], rest, v);
    }
    assert head + (WithTotal(s[1..], v) + tail) == head + WithTotal(s[1..], v) + tail;
  }

  lemma {:induction false} NonIncreasingTail(s: seq<TapeEntry>)
    requires NonIncreasing(s) && s != []
    ensures NonIncreasing(s[1..])
  {
    forall i, j | 0 <= i < j < |s[1..]|
      ensures s[1..][i].totalSize >= s[1..][j].totalSize
    {
      assert s[1..][i] == s[i + 1] && s[1..][j] == s[j + 1];
    }
  }

  lemma {:induction false} WithTotalCons(h: TapeEntry, r: seq<TapeEntry>, v: int)
    ensures WithTotal([h] + r, v) == (if h.totalSize == v then [h] else []) + WithTotal(r, v)
  {
    assert ([h] + r)[0] == h && ([h] + r)[1..] == r;
  }

  /** An entry larger than every entry of a non-increasing sequence goes in front, and
      comes last among the entries of its own total. */
  lemma {:induction false} InsertFrontStable(x: TapeEntry, s: seq<TapeEntry>, v: int)
    requires NonIncreasing(s) && s != [] && x.totalSize > s[0].totalSize
    ensures WithTotal([x] + s, v) == WithTotal(s, v) + (if x.totalSize == v then [x] else [])
  {
    assert ([x] + s)[0] == x && ([x] + s)[1..] == s;
    if x.totalSize == v {
      WithTotalNone(s, v);
    }
  }

  lemma {:induction false} InsertSum(x: TapeEntry, s: seq<TapeEntry>)
    ensures Sum(Totals(Insert(x, s))) == Sum(Totals(s)) + x.totalSize
  {
    if s == [] {
      assert Totals([x]) == [x.totalSize];
    } else if x.totalSize > s[0].totalSize {
      assert Totals([x] + s) == [x.totalSize] + Totals(s);
      assert Totals([x] + s)[1..] == Totals(s);
    } else {
      InsertSum(x, s[1..]);
      var r := Insert(x, s[1..]);
      assert Totals([s[0]] + r)[1..] == Totals(r);
      assert Totals(s)[1..] == Totals(s[1..]);
    }
  }

  lemma {:induction false} InsertDistinct(x: TapeEntry, s: seq<TapeEntry>)
    requires Distinct(Names(s)) && x.name !in Names(s)
    ensures Distinct(Names(Insert(x, s)))
  {
    if s != [] && x.totalSize <= s[0].totalSize {
      var rest := Insert(x, s[1..]);
      var n := s[0].name;
      assert Names(s) == [n] + Names(s[1..]);
      assert Distinct(Names(s[1..])) && n !in Names(s[1..]) by {
        var t := Names(s[1..]);
        forall i, j | 0 <= i < j < |t|
          ensures t[i] != t[j]
        {
          assert t[i] == Names(s)[i + 1] && t[j] == Names(s)[j + 1];
        }
        forall i | 0 <= i < |t|
          ensures t[i] != n
        {
          assert t[i] == Names(s)[i + 1] && n == Names(s)[0];
        }
      }
      assert Distinct(Names(rest)) && multiset(Names(rest)) == multiset(Names(s[1..])) + multiset{x.name} by {
        InsertDistinct(x, s[1..]);
        InsertNames(x, s[1..]);
      }
      assert n !in Names(rest) by {
        assert n !in multiset(Names(rest));
      }
      var ns := Names(Insert(x, s));
      assert ns == [n] + Names(rest);
      forall i, j | 0 <= i < j < |ns|
        ensures ns[i] != ns[j]
      {
        assert ns[j] == Names(rest)[j - 1];
      }
    } else {
      assert Names([x] + s) == [x.name] + Names(s);
    }
  }

  lemma {:induction false} InsertFiles(x: TapeEntry, s: seq<TapeEntry>)
    ensures multiset(Flatten(FileLists(Insert(x, s)))) == multiset(Flatten(FileLists(s))) + multiset(x.files)
  {
    if s == [] || x.totalSize > s[0].totalSize {
      assert Insert(x, s) == [x] + s;
      FilesCons(x, s);
    } else {
      InsertFiles(x, s[1..]);
      InsertFilesBehind(x, s);
    }
  }

  /** The step of `InsertFiles` where `x` goes behind the head of `s`. */
  lemma {:induction false} InsertFilesBehind(x: TapeEntry, s: seq<TapeEntry>)
    requires s != [] && x.totalSize <= s[0].totalSize
    requires multiset(Flatten(FileLists(Insert(x, s[1..]))))
          == multiset(Flatten(FileLists(s[1..]))) + multiset(x.files)
    ensures multiset(Flatten(FileLists(Insert(x, s)))) == multiset(Flatten(FileLists(s))) + multiset(x.files)
  {
    var r := Insert(x, s[1..]);
    assert Flatten(FileLists(Insert(x, s))) == s[0].files + Flatten(FileLists(r)) by {
      assert Insert(x, s) == [s[0]] + r;
      FilesCons(s[0], r);
    }
    assert Flatten(FileLists(s)) == s[0].files + Flatten(FileLists(s[1..])) by {
      assert s == [s[0]] + s[1..];
      FilesCons(s[0], s[1..]);
    }
    PrependMultiset(s[0].files, Flatten(FileLists(r)), Flatten(FileLists(s[1..])), multiset(x.files));
  }

  lemma {:induction false} PrependMultiset<T>(a: seq<T>, c: seq<T>, d: seq<T>, m: multiset<T>)
    requires multiset(c) == multiset(d) + m
    ensures multiset(a + c) == multiset(a + d) + m
  {
  }

  lemma {:induction false} FilesCons(h: TapeEntry, r: seq<TapeEntry>)
    ensures Flatten(FileLists([h] + r)) == h.files + Flatten(FileLists(r))
  {
    assert FileLists([h] + r)[0] == h.files && FileLists([h] + r)[1..] == FileLists(r);
  }

  lemma {:induction false} InsertNames(x: TapeEntry, s: seq<TapeEntry>)
    ensures multiset(Names(Insert(x, s))) == multiset(Names(s)) + multiset{x.name}
  {
    if s == [] {
      assert Names([x]) == [x.name];
    } else if x.totalSize > s[0].totalSize {
      assert Names([x] + s) == [x.name] + Names(s);
    } else {
      var r := Insert(x, s[1..]);
      InsertNames(x, s[1..]);
      assert Names([s[0]] + r) == [s[0].name] + Names(r);
      assert Names(s) == [s[0].name] + Names(s[1..]);
    }
  }

  lemma {:induction false} SortDescSorted(ts: seq<TapeEntry>)
    ensures NonIncreasing(SortDesc(ts))
  {
    if ts != [] {
      SortDescSorted(ts[..|ts| - 1]);
      InsertSorted(ts[|ts| - 1], SortDesc(ts[..|ts| - 1]));
    }
  }

  lemma {:induction false} SortDescPermutes(ts: seq<TapeEntry>)
    ensures multiset(SortDesc(ts)) == multiset(ts)
  {
    if ts != [] {
      var p, x := ts[..|ts| - 1], ts[|ts| - 1];
      SortDescPermutes(p);
      InsertMultiset(x, SortDesc(p));
      assert ts == p + [x];
    }
  }

  lemma {:induction false} SortDescStable(ts: seq<TapeEntry>, v: int)
    ensures WithTotal(SortDesc(ts), v) == WithTotal(ts, v)
  {
    if ts != [] {
      var p, x := ts[..|ts| - 1], ts[|ts| - 1];
      SortDescStable(p, v);
      SortDescSorted(p);
      InsertStable(x, SortDesc(p), v);
      WithTotalAppend(p, x, v);
      assert ts == p + [x];
    }
  }

  lemma {:induction false} SortDescSum(ts: seq<TapeEntry>)
    ensures Sum(Totals(SortDesc(ts))) == Sum(Totals(ts))
  {
    if ts != [] {
      var p, x := ts[..|ts| - 1], ts[|ts| - 1];
      SortDescSum(p);
      InsertSum(x, SortDesc(p));
      assert Totals(ts) == Totals(p) + [x.totalSize];
      SumAppend(Totals(p), x.totalSize);
    }
  }

  lemma {:induction false} SortDescDistinct(ts: seq<TapeEntry>)
    requires Distinct(Names(ts))
    ensures Distinct(Names(SortDesc(ts)))
  {
    if ts != [] {
      var p, x := ts[..|ts| - 1], ts[|ts| - 1];
      var sp := SortDesc(p);
      assert Names(p) == Names(ts)[..|ts| - 1];
      SortDescDistinct(p);
      SortDescPermutes(p);
      forall m | 0 <= m < |sp|
        ensures Names(sp)[m] != x.name
      {
        assert sp[m] in multiset(p);
        var q :| 0 <= q < |p| && p[q] == sp[m];
        assert Names(ts)[q] == sp[m].name;
        assert Names(ts)[|ts| - 1] == x.name;
      }
      InsertDistinct(x, sp);
    }
  }

  lemma {:induction false} SortDescFiles(ts: seq<TapeEntry>)
    ensures multiset(Flatten(FileLists(SortDesc(ts)))) == multiset(Flatten(FileLists(ts)))
  {
    if ts != [] {
      var p, x := ts[..|ts| - 1], ts[|ts| - 1];
      assert ts == p + [x];
      ProjectionsAppend(p, x);
      FlattenAppend(FileLists(p), x.files);
      var before := multiset(Flatten(FileLists(p)));
      assert multiset(Flatten(FileLists(ts))) == before + multiset(x.files);
      SortDescFiles(p);
      InsertFiles(x, SortDesc(p));
    }
  }

  lemma {:induction false} SortDescNames(ts: seq<TapeEntry>)
    ensures multiset(Names(SortDesc(ts))) == multiset(Names(ts))
  {
    if ts != [] {
      var p, x := ts[..|ts| - 1], ts[|ts| - 1];
      SortDescNames(p);
      InsertNames(x, SortDesc(p));
      assert Names(ts) == Names(p) + [x.name];
    }
  }

  /** The result is ordered by non-increasing total size; it is a permutation of the
      input; entries of equal size keep their relative order (stability); totals are
      preserved; distinct keys stay distinct. */
  lemma {:induction false} SortDescProperties(ts: seq<TapeEntry>)
    ensures NonIncreasing(SortDesc(ts))
    ensures multiset(SortDesc(ts)) == multiset(ts)
    ensures forall v :: WithTotal(SortDesc(ts), v) == WithTotal(ts, v)
    ensures Sum(Totals(SortDesc(ts))) == Sum(Totals(ts))
    ensures Distinct(Names(ts)) ==> Distinct(Names(SortDesc(ts)))
  {
    SortDescSorted(ts);
    SortDescPermutes(ts);
    forall v
      ensures WithTotal(SortDesc(ts), v) == WithTotal(ts, v)
    {
      SortDescStable(ts, v);
    }
    SortDescSum(ts);
    if Distinct(Names(ts)) {
      SortDescDistinct(ts);
    }
  }
}
