/** The staging script `parallel_stage.py` (and its near copy `test2_tghi.py`):
    readers accumulate whole tapes, the listing is grouped by tape, each tape is
    handed to the reader the last-drop rule picks, and each reader's files are
    written one per line for the staging command. */
module ParallelStage {
  import opened Seqs
  import opened Listing
  import opened Selection
  import opened Placement

  /** What `add_file_name` may be given: a single name, a list of names, or anything else. */
  datatype FileNamesArg = Str(name: string) | List(names: seq<string>) | Unsupported

  /** A staging process and the work it has accumulated. */
  class Reader {
    const number: int
    /** Set by the constructor and never read by the scripts. */
    const size: int
    var tapes: seq<string>
    var files: seq<string>
    var stored: int

    constructor (number: int, size: int := 0)
      ensures this.number == number && this.size == size
      ensures stored == 0 && tapes == [] && files == []
    {
      this.number := number;
      this.size := size;
      tapes := [];
      files := [];
      stored := 0;
    }

    /** The reader's accumulated work as a value. */
    function State(): Load
      reads this
    {
      Load(stored, tapes, files)
    }

    method AddSize(s: int)
      modifies this
      ensures stored == old(stored) + s
      ensures tapes == old(tapes) && files == old(files)
    {
      stored := stored + s;
    }

    method AddTape(name: string)
      modifies this
      ensures tapes == old(tapes) + [name]
      ensures stored == old(stored) && files == old(files)
    {
      tapes := tapes + [name];
    }

    method AddFileName(arg: FileNamesArg)
      modifies this
      ensures arg.Str? ==> files == old(files) + [arg.name]
      ensures arg.List? ==> files == old(files) + arg.names
      ensures arg.Unsupported? ==> files == old(files)
      ensures stored == old(stored) && tapes == old(tapes)
    {
      match arg
      case Str(name) => files := files + [name];
      case List(names) => files := files + names;
      case Unsupported =>
    }
  }

  /** The readers' states, in order. */
  function Loads(readers: seq<Reader>): (ls: seq<Load>)
    reads set r | r in readers
    ensures |ls| == |readers|
    ensures forall i :: 0 <= i < |readers| ==> ls[i] == readers[i].State()
  {
    if readers == [] then []
    else Loads(readers[..|readers| - 1]) + [readers[|readers| - 1].State()]
  }

  /** `init_readers`: one fresh, empty reader per number in `range(count)`. */
  method InitReaders(count: int) returns (readers: seq<Reader>)
    ensures |readers| == if count < 0 then 0 else count
    ensures forall i :: 0 <= i < |readers| ==> fresh(readers[i])
    ensures forall i :: 0 <= i < |readers| ==> readers[i].number == i && readers[i].size == 0
    ensures Distinct(readers)
    ensures Loads(readers) == Empties(|readers|)
  {
    readers := [];
    var i := 0;
    while i < count
      invariant 0 <= i && (count >= 0 ==> i <= count) && (count < 0 ==> i == 0)
      invariant |readers| == i
      invariant Distinct(readers)
      invariant forall k :: 0 <= k < i ==>
                  fresh(readers[k]) && readers[k].number == k && readers[k].size == 0
                  && readers[k].State() == Load(0, [], [])
    {
      var r := new Reader(i);
      readers := readers + [r];
      i := i + 1;
    }
    assert Loads(readers) == Empties(|readers|);
  }

  /** `get_next_reader`: scan the readers, remembering the last one whose stored size is
      below its predecessor's. */
  method GetNextReader(readers: seq<Reader>) returns (r: nat)
    ensures r == LastDrop(Sizes(Loads(readers)))
    ensures IsSelection(Sizes(Loads(readers)), r)
    ensures |readers| > 0 ==> r < |readers|
  {
    ghost var s := Sizes(Loads(readers));
    r := 0;
    var prev := 0;
    for index := 0 to |readers|
      invariant r == LastDrop(s[..index])
      invariant prev == if index == 0 then 0 else s[index - 1]
    {
      var stored := readers[index].stored;
      assert stored == s[index];
      if stored < prev {
        r := index;
      }
      prev := stored;
      LastDropExtend(s, index);
    }
    assert s[..|readers|] == s;
  }

  /** One turn of the placement loop: reader `i` takes the tape's file list, its total size
      and its name; every other reader is left as it was. */
  method GiveTape(readers: seq<Reader>, i: nat, t: TapeEntry)
    requires Distinct(readers) && i < |readers|
    modifies readers[i]
    ensures Loads(readers) == old(Loads(readers))[i := Receive(old(Loads(readers))[i], t)]
  {
    ghost var before := Loads(readers);
    var reader := readers[i];
    reader.AddFileName(List(t.files));
    reader.AddSize(t.totalSize);
    reader.AddTape(t.name);
    var after := before[i := Receive(before[i], t)];
    forall k | 0 <= k < |readers|
      ensures Loads(readers)[k] == after[k]
    {
      if k != i {
        assert readers[k] != reader;
        assert readers[k].State() == old(readers[k].State());
      }
    }
    assert Loads(readers) == after;
  }

  /** The placement loop of `assign_readers`: hand each tape, in order, to the reader
      `get_next_reader` picks, which takes its files, its total size and its name. With no
      reader and at least one tape the source fails with an IndexError before changing
      anything; `ok` is false exactly then. */
  method PlaceAll(readers: seq<Reader>, info: seq<TapeEntry>) returns (ok: bool)
    requires Distinct(readers)
    modifies set r | r in readers
    ensures ok <==> |readers| > 0 || info == []
    ensures ok ==> Loads(readers) == Place(old(Loads(readers)), info)
    ensures !ok ==> Loads(readers) == old(Loads(readers))
  {
    ghost var start := Loads(readers);
    ok := true;
    for t := 0 to |info|
      invariant |readers| > 0 || t == 0
      invariant Loads(readers) == Place(start, info[..t])
    {
      var active := GetNextReader(readers);
      if active >= |readers| {
        assert info[..t] == [];
        ok := false;
        return;
      }
      ghost var before := Loads(readers);
      GiveTape(readers, active, info[t]);
      assert Loads(readers) == Step(before, info[t]);
      PlacePrefix(start, info, t);
    }
    assert info[..|info|] == info;
  }

  /** `assign_readers`: group the listing, create the readers, then place the tapes. */
  method AssignReaders(count: int, records: seq<Record>) returns (readers: seq<Reader>, ok: bool)
    ensures |readers| == (if count < 0 then 0 else count)
    ensures forall i :: 0 <= i < |readers| ==> readers[i].number == i && readers[i].size == 0
    ensures ok <==> count > 0 || records == []
    ensures ok ==> Loads(readers) == Place(Empties(|readers|), Group(records))
  {
    var info := GetData(records);
    GroupKeys(records);
    readers := InitReaders(count);
    ok := PlaceAll(readers, info);
  }

  /** After `assign_readers` with `count > 0`: the readers' sizes add up to the total size
      of the listing, their files together are a permutation of the listing's files (and of
      the dictionary's file lists), their tapes together are a permutation of the
      dictionary's keys, and each tape sits on exactly one reader, with its whole file list
      and its whole size. */
  lemma {:induction false} AssignmentPartition(count: nat, records: seq<Record>)
    requires count > 0
    ensures |Place(Empties(count), Group(records))| == count
    ensures Sum(Sizes(Place(Empties(count), Group(records)))) == Total(records)
    ensures multiset(Flatten(ReaderFiles(Place(Empties(count), Group(records)))))
         == multiset(Flatten(FileLists(Group(records))))
    ensures multiset(Flatten(ReaderFiles(Place(Empties(count), Group(records))))) == multiset(FileNames(records))
    ensures multiset(Flatten(ReaderTapes(Place(Empties(count), Group(records))))) == multiset(FirstSeen(records))
    ensures forall k, j :: 0 <= k < |Group(records)| && 0 <= j < count ==>
              (Group(records)[k].name in Place(Empties(count), Group(records))[j].tapes
               <==> j == Choices(Empties(count), Group(records))[k])
  {
    GroupKeys(records);
    GroupTotal(records);
    GroupFiles(records);
    PlacePartition(count, Group(records));
  }

  /** Without the sort, the last-drop rule can leave the readers further apart than the
      largest tape: any tapes of 10, 30, 20 and 40 bytes, in that order, on three readers
      give stored sizes 10, 30 and 60, a spread of 50. */
  lemma {:induction false} SpreadAboveLargestTape(a: TapeEntry, b: TapeEntry, c: TapeEntry, d: TapeEntry)
    requires a.totalSize == 10 && b.totalSize == 30 && c.totalSize == 20 && d.totalSize == 40
    ensures Sizes(Place(Empties(3), [a, b, c, d])) == [10, 30, 60]
    ensures 60 - 10 > d.totalSize
  {
    var l0 := Empties(3);
    assert Sizes(l0) == [0, 0, 0];
    var l1 := Step(l0, a);
    assert Sizes(l1) == [10, 0, 0] by {
      StepFrom(l0, a, [0, 0, 0], 0);
    }
    var l2 := Step(l1, b);
    assert Sizes(l2) == [10, 30, 0] by {
      StepFrom(l1, b, [10, 0, 0], 1);
    }
    var l3 := Step(l2, c);
    assert Sizes(l3) == [10, 30, 20] by {
      StepFrom(l2, c, [10, 30, 0], 2);
    }
    var l4 := Step(l3, d);
    assert Sizes(l4) == [10, 30, 60] by {
      StepFrom(l3, d, [10, 30, 20], 2);
    }
    PlaceFour(l0, a, b, c, d);
  }

  /** Placing four tapes is four turns of the loop. */
  lemma {:induction false} PlaceFour(ls: seq<Load>, a: TapeEntry, b: TapeEntry, c: TapeEntry, d: TapeEntry)
    requires |ls| > 0
    ensures Place(ls, [a, b, c, d]) == Step(Step(Step(Step(ls, a), b), c), d)
  {
    var ts := [a, b, c, d];
    assert ts[..0] == [] && ts[..4] == ts;
    PlacePrefix(ls, ts, 0);
    PlacePrefix(ls, ts, 1);
    PlacePrefix(ls, ts, 2);
    PlacePrefix(ls, ts, 3);
  }

  /** One turn on readers whose stored sizes select reader `i`: reader `i` grows by the tape. */
  lemma {:induction false} StepFrom(ls: seq<Load>, t: TapeEntry, sizes: seq<int>, i: nat)
    requires |ls| > 0 && Sizes(ls) == sizes && IsSelection(sizes, i) && i < |sizes|
    ensures Sizes(Step(ls, t)) == sizes[i := sizes[i] + t.totalSize]
  {
    SelectionUnique(sizes, i, LastDrop(sizes));
    var after := Step(ls, t);
    assert after == ls[i := Receive(ls[i], t)];
    forall j | 0 <= j < |ls|
      ensures Sizes(after)[j] == sizes[i := sizes[i] + t.totalSize][j]
    {
      assert Sizes(after)[j] == after[j].stored && sizes[j] == ls[j].stored;
    }
  }
}
