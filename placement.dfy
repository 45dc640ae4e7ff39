/** The placement loop of `assign_readers` / `process`, as a specification on
    values: for each tape in dictionary order, pick a reader with the
    last-drop rule on the current stored sizes, then give that reader the
    tape's files, its total size and its name. */
module Placement {
  import opened Seqs
  import opened Listing
  import opened Selection

  /** What one reader has accumulated: stored size, tape names and file names, in placement order. */
  datatype Load = Load(stored: int, tapes: seq<string>, files: seq<string>)

  /** `n` freshly created readers. */
  function Empties(n: nat): seq<Load>
  {
    seq(n, _ => Load(0, [], []))
  }

  function Sizes(ls: seq<Load>): seq<int>
  {
    seq(|ls|, i requires 0 <= i < |ls| => ls[i].stored)
  }

  function ReaderTapes(ls: seq<Load>): seq<seq<string>>
  {
    seq(|ls|, i requires 0 <= i < |ls| => ls[i].tapes)
  }

  function ReaderFiles(ls: seq<Load>): seq<seq<string>>
  {
    seq(|ls|, i requires 0 <= i < |ls| => ls[i].files)
  }

  /** One reader takes a whole tape: `add_file_name(files)`, `add_size(total_size)`, `add_tape(name)`. */
  function Receive(l: Load, t: TapeEntry): (r: Load)
    ensures r.stored - l.stored == t.totalSize
    ensures |r.tapes| == |l.tapes| + 1 && r.tapes[..|l.tapes|] == l.tapes && r.tapes[|l.tapes|] == t.name
    ensures |r.files| == |l.files| + |t.files|
    ensures r.files[..|l.files|] == l.files && r.files[|l.files|..] == t.files
  {
    Load(l.stored + t.totalSize, l.tapes + [t.name], l.files + t.files)
  }

  /** One turn of the placement loop. */
  function Step(ls: seq<Load>, t: TapeEntry): seq<Load>
    requires |ls| > 0
  {
    var i := LastDrop(Sizes(ls));
    ls[i := Receive(ls[i], t)]
  }

  /** The readers after placing the tapes `ts` in order. With no readers a tape cannot be
      placed (the source raises an IndexError), so either there are readers or no tapes. */
  function Place(ls: seq<Load>, ts: seq<TapeEntry>): (r: seq<Load>)
    requires |ls| > 0 || ts == []
    ensures |r| == |ls|
  {
    if ts == [] then ls else Step(Place(ls, ts[..|ts| - 1]), ts[|ts| - 1])
  }

  /** Placing the first `k + 1` tapes is placing the first `k` and then taking one more step. */
  lemma {:induction false} PlacePrefix(ls: seq<Load>, ts: seq<TapeEntry>, k: nat)
    requires |ls| > 0 && k < |ts|
    ensures Place(ls, ts[..k + 1]) == Step(Place(ls, ts[..k]), ts[k])
  {
    assert ts[..k + 1][..k] == ts[..k];
  }

  /** The reader each tape is placed on. */
  function Choices(ls: seq<Load>, ts: seq<TapeEntry>): (c: seq<nat>)
    requires |ls| > 0 || ts == []
    ensures |c| == |ts|
    ensures forall k :: 0 <= k < |c| ==> c[k] < |ls|
  {
    if ts == [] then []
    else
      var p := ts[..|ts| - 1];
      Choices(ls, p) + [LastDrop(Sizes(Place(ls, p)))]
  }

  /** The tapes routed to reader `j`, in placement order. */
  function Routed(ts: seq<TapeEntry>, c: seq<nat>, j: nat): seq<TapeEntry>
    requires |c| == |ts|
  {
    if ts == [] then []
    else Routed(ts[..|ts| - 1], c[..|c| - 1], j) + (if c[|c| - 1] == j then [ts[|ts| - 1]] else [])
  }

  /** A reader that takes the tapes `ts` one after another. */
  function ReceiveAll(l: Load, ts: seq<TapeEntry>): Load
  {
    if ts == [] then l else Receive(ReceiveAll(l, ts[..|ts| - 1]), ts[|ts| - 1])
  }

  // ---------------------------------------------------------------------------

  /** Taking tapes one by one adds their totals, appends their names and appends their
      whole file lists, in order. */
  lemma {:induction false} ReceiveAllSpec(l: Load, ts: seq<TapeEntry>)
    ensures ReceiveAll(l, ts)
         == Load(l.stored + Sum(Totals(ts)), l.tapes + Names(ts), l.files + Flatten(FileLists(ts)))
  {
    if ts != [] {
      var p, t := ts[..|ts| - 1], ts[|ts| - 1];
      ReceiveAllSpec(l, p);
      assert Totals(ts) == Totals(p) + [t.totalSize];
      assert Names(ts) == Names(p) + [t.name];
      assert FileLists(ts) == FileLists(p) + [t.files];
      SumAppend(Totals(p), t.totalSize);
      FlattenAppend(FileLists(p), t.files);
    }
  }

  /** Each tape goes to the reader the last-drop rule picks on the sizes at that moment. */
  lemma {:induction false} ChoicesFollowRule(ls: seq<Load>, ts: seq<TapeEntry>, k: nat)
    requires |ls| > 0 && k < |ts|
    ensures Choices(ls, ts)[k] == LastDrop(Sizes(Place(ls, ts[..k])))
  {
    var p := ts[..|ts| - 1];
    if k < |ts| - 1 {
      ChoicesFollowRule(ls, p, k);
      assert p[..k] == ts[..k];
    } else {
      assert p == ts[..k];
    }
  }

  /** Reader `j` ends as if it had taken, in order, exactly the tapes routed to it. */
  lemma {:induction false} PlaceRoutes(ls: seq<Load>, ts: seq<TapeEntry>, j: nat)
    requires |ls| > 0 || ts == []
    requires j < |ls|
    ensures Place(ls, ts)[j] == ReceiveAll(ls[j], Routed(ts, Choices(ls, ts), j))
  {
    if ts != [] {
      var p, t := ts[..|ts| - 1], ts[|ts| - 1];
      var before := Place(ls, p);
      var i := LastDrop(Sizes(before));
      var c := Choices(ls, ts);
      assert c == Choices(ls, p) + [i];
      assert Place(ls, ts) == before[i := Receive(before[i], t)];
      var r := Routed(p, Choices(ls, p), j);
      assert before[j] == ReceiveAll(ls[j], r) by { PlaceRoutes(ls, p, j); }
      assert c[..|c| - 1] == Choices(ls, p);
      if i == j {
        assert Routed(ts, c, j) == r + [t];
        assert (r + [t])[..|r|] == r;
      } else {
        assert Routed(ts, c, j) == r;
      }
    }
  }

  /** Whole-tape placement: reader `j`'s size grows by the totals of the tapes routed to it,
      its tape list by their names and its file list by their complete file lists, in order. */
  lemma {:induction false} PlaceWhole(ls: seq<Load>, ts: seq<TapeEntry>, j: nat)
    requires |ls| > 0 || ts == []
    requires j < |ls|
    ensures Place(ls, ts)[j].stored == ls[j].stored + Sum(Totals(Routed(ts, Choices(ls, ts), j)))
    ensures Place(ls, ts)[j].tapes == ls[j].tapes + Names(Routed(ts, Choices(ls, ts), j))
    ensures Place(ls, ts)[j].files == ls[j].files + Flatten(FileLists(Routed(ts, Choices(ls, ts), j)))
  {
    PlaceRoutes(ls, ts, j);
    ReceiveAllSpec(ls[j], Routed(ts, Choices(ls, ts), j));
  }

  lemma {:induction false} RoutedMembers(ts: seq<TapeEntry>, c: seq<nat>, j: nat, t: TapeEntry)
    requires |c| == |ts|
    ensures t in Routed(ts, c, j) <==> exists k :: 0 <= k < |ts| && c[k] == j && ts[k] == t
  {
    if ts != [] {
      var p, cp := ts[..|ts| - 1], c[..|c| - 1];
      RoutedMembers(p, cp, j, t);
      if exists k :: 0 <= k < |p| && cp[k] == j && p[k] == t {
        var k :| 0 <= k < |p| && cp[k] == j && p[k] == t;
        assert c[k] == j && ts[k] == t;
      }
      if exists k :: 0 <= k < |ts| && c[k] == j && ts[k] == t {
        var k :| 0 <= k < |ts| && c[k] == j && ts[k] == t;
        if k < |p| {
          assert cp[k] == j && p[k] == t;
        }
      }
    }
  }

  /** With distinct tape names, a tape's name is among the names routed to reader `j`
      exactly when the tape was routed to `j`. */
  lemma {:induction false} RoutedNames(ts: seq<TapeEntry>, c: seq<nat>, j: nat, k: nat)
    requires |c| == |ts| && k < |ts|
    requires Distinct(Names(ts))
    ensures ts[k].name in Names(Routed(ts, c, j)) <==> c[k] == j
  {
    var routed := Routed(ts, c, j);
    if ts[k].name in Names(routed) {
      var m :| 0 <= m < |routed| && Names(routed)[m] == ts[k].name;
      RoutedMembers(ts, c, j, routed[m]);
      var k' :| 0 <= k' < |ts| && c[k'] == j && ts[k'] == routed[m];
      assert Names(ts)[k'] == Names(ts)[k];
    }
    if c[k] == j {
      RoutedMembers(ts, c, j, ts[k]);
      var m :| 0 <= m < |routed| && routed[m] == ts[k];
      assert Names(routed)[m] == ts[k].name;
    }
  }

  /** With fresh readers and distinct tape names, a tape's name appears on exactly one
      reader: the one it was routed to. */
  lemma {:induction false} PlaceOnce(n: nat, ts: seq<TapeEntry>, k: nat, j: nat)
    requires n > 0 && Distinct(Names(ts))
    requires k < |ts| && j < n
    ensures ts[k].name in Place(Empties(n), ts)[j].tapes <==> j == Choices(Empties(n), ts)[k]
  {
    var c := Choices(Empties(n), ts);
    PlaceWhole(Empties(n), ts, j);
    assert Empties(n)[j].tapes == [];
    assert Place(Empties(n), ts)[j].tapes == Names(Routed(ts, c, j));
    RoutedNames(ts, c, j, k);
  }

  lemma {:induction false} StepSizes(ls: seq<Load>, t: TapeEntry)
    requires |ls| > 0
    ensures Sum(Sizes(Step(ls, t))) == Sum(Sizes(ls)) + t.totalSize
  {
    var i := LastDrop(Sizes(ls));
    assert Sizes(Step(ls, t)) == Sizes(ls)[i := Sizes(ls)[i] + t.totalSize];
    SumExtend(Sizes(ls), i, t.totalSize);
  }

  lemma {:induction false} StepFiles(ls: seq<Load>, t: TapeEntry)
    requires |ls| > 0
    ensures multiset(Flatten(ReaderFiles(Step(ls, t)))) == multiset(Flatten(ReaderFiles(ls))) + multiset(t.files)
  {
    var i := LastDrop(Sizes(ls));
    assert ReaderFiles(Step(ls, t)) == ReaderFiles(ls)[i := ReaderFiles(ls)[i] + t.files];
    FlattenExtend(ReaderFiles(ls), i, t.files);
  }

  lemma {:induction false} StepTapes(ls: seq<Load>, t: TapeEntry)
    requires |ls| > 0
    ensures multiset(Flatten(ReaderTapes(Step(ls, t)))) == multiset(Flatten(ReaderTapes(ls))) + multiset{t.name}
  {
    var i := LastDrop(Sizes(ls));
    assert ReaderTapes(Step(ls, t)) == ReaderTapes(ls)[i := ReaderTapes(ls)[i] + [t.name]];
    FlattenExtend(ReaderTapes(ls), i, [t.name]);
  }

  /** Conservation of size: placement adds exactly the tapes' total sizes to the readers' sizes. */
  lemma {:induction false} PlaceSizes(ls: seq<Load>, ts: seq<TapeEntry>)
    requires |ls| > 0 || ts == []
    ensures Sum(Sizes(Place(ls, ts))) == Sum(Sizes(ls)) + Sum(Totals(ts))
  {
    if ts != [] {
      var p, t := ts[..|ts| - 1], ts[|ts| - 1];
      assert Sum(Totals(ts)) == Sum(Totals(p)) + t.totalSize by {
        assert ts == p + [t];
        ProjectionsAppend(p, t);
        SumAppend(Totals(p), t.totalSize);
      }
      assert Sum(Sizes(Place(ls, ts))) == Sum(Sizes(ls)) + Sum(Totals(p)) + t.totalSize by {
        PlaceSizes(ls, p);
        StepSizes(Place(ls, p), t);
      }
    }
  }

  /** Conservation of files: placement adds exactly the tapes' files to the readers' file
      lists; none is lost or duplicated. */
  lemma {:induction false} PlaceFiles(ls: seq<Load>, ts: seq<TapeEntry>)
    requires |ls| > 0 || ts == []
    ensures multiset(Flatten(ReaderFiles(Place(ls, ts))))
         == multiset(Flatten(ReaderFiles(ls))) + multiset(Flatten(FileLists(ts)))
  {
    if ts != [] {
      var p, t := ts[..|ts| - 1], ts[|ts| - 1];
      var before, placed := multiset(Flatten(ReaderFiles(ls))), multiset(Flatten(FileLists(p)));
      assert multiset(Flatten(FileLists(ts))) == placed + multiset(t.files) by {
        assert ts == p + [t];
        ProjectionsAppend(p, t);
        FlattenAppend(FileLists(p), t.files);
      }
      assert multiset(Flatten(ReaderFiles(Place(ls, ts)))) == (before + placed) + multiset(t.files) by {
        PlaceFiles(ls, p);
        StepFiles(Place(ls, p), t);
      }
    }
  }

  /** Conservation of tapes: placement adds exactly the tapes' names to the readers' tape lists. */
  lemma {:induction false} PlaceTapeNames(ls: seq<Load>, ts: seq<TapeEntry>)
    requires |ls| > 0 || ts == []
    ensures multiset(Flatten(ReaderTapes(Place(ls, ts)))) == multiset(Flatten(ReaderTapes(ls))) + multiset(Names(ts))
  {
    if ts != [] {
      var p, t := ts[..|ts| - 1], ts[|ts| - 1];
      var before, placed := multiset(Flatten(ReaderTapes(ls))), multiset(Names(p));
      assert multiset(Names(ts)) == placed + multiset{t.name} by {
        assert ts == p + [t];
        ProjectionsAppend(p, t);
      }
      assert multiset(Flatten(ReaderTapes(Place(ls, ts)))) == (before + placed) + multiset{t.name} by {
        PlaceTapeNames(ls, p);
        StepTapes(Place(ls, p), t);
      }
    }
  }

  /** Fresh readers hold nothing. */
  lemma {:induction false} EmptiesHoldNothing(n: nat)
    ensures Sum(Sizes(Empties(n))) == 0
    ensures Flatten(ReaderFiles(Empties(n))) == []
    ensures Flatten(ReaderTapes(Empties(n))) == []
  {
    SumZeros(Sizes(Empties(n)));
    FlattenEmpties(ReaderFiles(Empties(n)));
    FlattenEmpties(ReaderTapes(Empties(n)));
  }

  /** Placing tapes with distinct names on `n > 0` fresh readers partitions them: the reader
      count stays `n`, the readers' sizes add up to the tapes' totals, their file lists
      together are a permutation of the tapes' file lists, their tape lists together are a
      permutation of the tape names, and every tape name lands on exactly one reader. */
  lemma {:induction false} PlacePartition(n: nat, ts: seq<TapeEntry>)
    requires n > 0 && Distinct(Names(ts))
    ensures |Place(Empties(n), ts)| == n
    ensures Sum(Sizes(Place(Empties(n), ts))) == Sum(Totals(ts))
    ensures multiset(Flatten(ReaderFiles(Place(Empties(n), ts)))) == multiset(Flatten(FileLists(ts)))
    ensures multiset(Flatten(ReaderTapes(Place(Empties(n), ts)))) == multiset(Names(ts))
    ensures forall k, j :: 0 <= k < |ts| && 0 <= j < n ==>
              (ts[k].name in Place(Empties(n), ts)[j].tapes <==> j == Choices(Empties(n), ts)[k])
  {
    EmptiesHoldNothing(n);
    PlaceSizes(Empties(n), ts);
    PlaceFiles(Empties(n), ts);
    PlaceTapeNames(Empties(n), ts);
    forall k, j | 0 <= k < |ts| && 0 <= j < n
      ensures ts[k].name in Place(Empties(n), ts)[j].tapes <==> j == Choices(Empties(n), ts)[k]
    {
      PlaceOnce(n, ts, k, j);
    }
  }
}
