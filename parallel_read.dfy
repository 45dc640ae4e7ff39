/** The read-planning script `parallel_read.py`: like the staging script, but the
    dictionary is sorted by total size (largest first) before placement, the grand
    total of the listing is kept, and every reader is given a size cap, the total
    divided by the number of readers, with a percentage usage. The cap is never
    consulted while placing tapes. */
module ParallelRead {
  import opened Seqs
  import opened Listing
  import opened Selection
  import opened Ordering
  import opened Placement
  import Stage = ParallelStage

  function Abs(x: int): nat
  {
    if x < 0 then -x else x
  }

  /** `int(a / b)`: true division truncated toward zero. */
  function TruncDiv(a: int, b: int): (q: int)
    requires b != 0
    ensures Abs(q) * Abs(b) <= Abs(a) < (Abs(q) + 1) * Abs(b)
    ensures (a < 0) == (b < 0) ==> q >= 0
    ensures (a < 0) != (b < 0) ==> q <= 0
  {
    var m := Abs(a) / Abs(b);
    DivBounds(Abs(a), Abs(b));
    if (a < 0) == (b < 0) then m else -m
  }

  /** Euclidean division of naturals brackets the dividend between two multiples. */
  lemma {:induction false} DivBounds(n: nat, d: nat)
    requires d > 0
    ensures (n / d) * d <= n < (n / d + 1) * d
  {
    var q, r := n / d, n % d;
    assert n == q * d + r && 0 <= r < d;
    assert (q + 1) * d == q * d + d;
  }

  /** For a non-negative dividend and a positive divisor, the quotient is below `m`
      exactly when the dividend is below `m` times the divisor. */
  lemma {:induction false} QuotientBelow(x: int, c: int, m: int)
    requires x >= 0 && c > 0 && m >= 0
    ensures x / c < m <==> x < m * c
  {
    var q, r := x / c, x % c;
    assert x == q * c + r && 0 <= r < c;
    if q < m {
      assert (q + 1) * c == q * c + c;
      MulMonotone(q + 1, m, c);
    } else {
      MulMonotone(m, q, c);
    }
  }

  lemma {:induction false} MulMonotone(a: int, b: int, c: int)
    requires a <= b && c > 0
    ensures a * c <= b * c
  {
    assert b * c - a * c == (b - a) * c;
  }

  /** With a non-negative dividend and a positive divisor the quotient is 0 exactly when
      the dividend is below the divisor. */
  lemma {:induction false} TruncDivZero(a: int, b: int)
    requires a >= 0 && b > 0
    ensures TruncDiv(a, b) == 0 <==> a < b
  {
    assert TruncDiv(a, b) == a / b;
    QuotientBelow(a, b, 1);
  }

  /** The usage percentage of a reader that stores `stored` bytes under cap `cap`. */
  function Percent(stored: int, cap: int): (r: int)
    requires cap != 0
    ensures cap > 0 && stored >= 0 ==> 0 <= r && r * cap <= stored * 100 < (r + 1) * cap
  {
    TruncDiv(stored * 100, cap)
  }

  /** With a positive cap, usage is below 100 exactly when the stored size is below the cap. */
  lemma {:induction false} PercentBelowFull(stored: int, cap: int)
    requires cap > 0
    ensures Percent(stored, cap) < 100 <==> stored < cap
  {
    if stored >= 0 {
      assert Percent(stored, cap) == (stored * 100) / cap;
      QuotientBelow(stored * 100, cap, 100);
    }
  }

  /** A reader with a size cap. */
  class Reader {
    const number: int
    /** `max_size_allowed`. */
    const cap: int
    var tapes: seq<string>
    var files: seq<string>
    var stored: int
    /** `current_usage`, in percent of the cap. */
    var usage: int

    /** Usage is the stored size in percent of the cap, whenever the cap allows the division. */
    predicate Valid()
      reads this
    {
      cap != 0 ==> usage == Percent(stored, cap)
    }

    constructor (number: int, cap: int)
      ensures this.number == number && this.cap == cap
      ensures stored == 0 && usage == 0 && tapes == [] && files == []
      ensures Valid()
    {
      this.number := number;
      this.cap := cap;
      tapes := [];
      files := [];
      stored := 0;
      usage := 0;
    }

    function State(): Load
      reads this
    {
      Load(stored, tapes, files)
    }

    /** `add_size`: the stored size grows first; the usage is then recomputed, which fails
        with a ZeroDivisionError (`ok` false) when the cap is 0. */
    method AddSize(s: int) returns (ok: bool)
      modifies this
      ensures stored == old(stored) + s
      ensures ok <==> cap != 0
      ensures ok ==> usage == Percent(stored, cap)
      ensures !ok ==> usage == old(usage)
      ensures tapes == old(tapes) && files == old(files)
      ensures ok ==> Valid()
    {
      stored := stored + s;
      if cap == 0 {
        return false;
      }
      usage := TruncDiv(stored * 100, cap);
      ok := true;
    }

    method AddTape(name: string)
      modifies this
      ensures tapes == old(tapes) + [name]
      ensures stored == old(stored) && usage == old(usage) && files == old(files)
    {
      tapes := tapes + [name];
    }

    method AddFileName(arg: Stage.FileNamesArg)
      modifies this
      ensures arg.Str? ==> files == old(files) + [arg.name]
      ensures arg.List? ==> files == old(files) + arg.names
      ensures arg.Unsupported? ==> files == old(files)
      ensures stored == old(stored) && usage == old(usage) && tapes == old(tapes)
    {
      match arg
      case Str(name) => files := files + [name];
      case List(names) => files := files + names;
      case Unsupported =>
    }

    /** `check_size_allowed`: room for `s` more bytes, strictly below the cap. */
    function CheckSizeAllowed(s: int): (r: bool)
      reads this
      ensures s == 0 ==> (r <==> IsNotFull())
      ensures s >= 0 && r ==> IsNotFull()
      ensures r && s >= 0 && Valid() && cap > 0 ==> usage < 100
    {
      if cap > 0 then PercentBelowFull(stored, cap); stored + s < cap else stored + s < cap
    }

    /** `is_not_full`: the stored size is strictly below the cap; for a valid reader with a
        positive cap this is exactly a usage below 100 percent. */
    function IsNotFull(): (r: bool)
      reads this
      ensures Valid() && cap > 0 ==> (r <==> usage < 100)
    {
      if cap > 0 then PercentBelowFull(stored, cap); stored < cap else stored < cap
    }
  }

  function Loads(readers: seq<Reader>): (ls: seq<Load>)
    reads set r | r in readers
    ensures |ls| == |readers|
    ensures forall i :: 0 <= i < |readers| ==> ls[i] == readers[i].State()
  {
    if readers == [] then []
    else Loads(readers[..|readers| - 1]) + [readers[|readers| - 1].State()]
  }

  predicate AllValid(readers: seq<Reader>)
    reads set r | r in readers
  {
    forall i :: 0 <= i < |readers| ==> readers[i].Valid()
  }

  /** `get_data`: group the listing by tape while adding up every matched size, then sort
      the dictionary by total size, largest first, keeping first-seen order among equals. */
  method GetData(records: seq<Record>) returns (ordered: seq<TapeEntry>, total: int)
    ensures ordered == SortDesc(Group(records))
    ensures total == Total(records) == Sum(Totals(ordered))
    ensures NonIncreasing(ordered)
    ensures multiset(ordered) == multiset(Group(records))
    ensures forall v :: WithTotal(ordered, v) == WithTotal(Group(records), v)
  {
    var info: seq<TapeEntry> := [];
    total := 0;
    var i := 0;
    while i < |records|
      invariant 0 <= i <= |records|
      invariant info == Group(records[..i])
      invariant total == Total(records[..i])
    {
      var rec := records[i];
      total := total + rec.size;
      GroupPrefix(records, i);
      var k := Find(info, rec.tape);
      AbsorbAt(info, rec, k);
      if k < |info| {
        info := info[k := TapeEntry(info[k].name, info[k].totalSize + rec.size, info[k].files + [rec.file])];
      } else {
        info := info + [TapeEntry(rec.tape, rec.size, [rec.file])];
      }
      assert info == Group(records[..i + 1]) && total == Total(records[..i + 1]);
      i := i + 1;
    }
    assert info == Group(records) && total == Total(records) by {
      assert records[..|records|] == records;
    }
    ordered := SortDesc(info);
    SortedListing(records);
  }

  /** The sorted dictionary is ordered largest first, is a permutation of the dictionary,
      keeps dictionary order among equal totals, and its totals add up to the listing's. */
  lemma {:induction false} SortedListing(records: seq<Record>)
    ensures NonIncreasing(SortDesc(Group(records)))
    ensures multiset(SortDesc(Group(records))) == multiset(Group(records))
    ensures forall v :: WithTotal(SortDesc(Group(records)), v) == WithTotal(Group(records), v)
    ensures Sum(Totals(SortDesc(Group(records)))) == Total(records)
  {
    SortDescProperties(Group(records));
    GroupTotal(records);
  }

  /** `init_readers`: the cap is the total divided by the number of readers, truncated; a
      zero number of readers fails with a ZeroDivisionError (`ok` false) before any reader
      is created. */
  method InitReaders(number: int, total: int) returns (readers: seq<Reader>, ok: bool)
    ensures ok <==> number != 0
    ensures !ok ==> readers == []
    ensures |readers| == if number < 0 then 0 else number
    ensures forall i :: 0 <= i < |readers| ==> fresh(readers[i])
    ensures ok ==> forall i :: 0 <= i < |readers| ==> readers[i].number == i && readers[i].cap == TruncDiv(total, number)
    ensures Distinct(readers) && AllValid(readers)
    ensures Loads(readers) == Empties(|readers|)
    ensures forall i :: 0 <= i < |readers| ==> readers[i].usage == 0
  {
    readers := [];
    if number == 0 {
      return [], false;
    }
    ok := true;
    var cap := TruncDiv(total, number);
    var i := 0;
    while i < number
      invariant 0 <= i && (number >= 0 ==> i <= number) && (number < 0 ==> i == 0)
      invariant |readers| == i
      invariant Distinct(readers)
      invariant forall k :: 0 <= k < i ==>
                  fresh(readers[k]) && readers[k].number == k && readers[k].cap == cap
                  && readers[k].State() == Load(0, [], []) && readers[k].usage == 0 && readers[k].Valid()
    {
      var r := new Reader(i, cap);
      readers := readers + [r];
      i := i + 1;
    }
    assert Loads(readers) == Empties(|readers|);
  }

  /** `get_next_less_loaded_reader`: the same predecessor comparison as the staging
      script, so the last reader whose stored size dropped below its predecessor's. */
  method GetNextLessLoadedReader(readers: seq<Reader>) returns (r: nat)
    ensures r == LastDrop(Sizes(Loads(readers)))
    ensures IsSelection(Sizes(Loads(readers)), r)
    ensures |readers| > 0 ==> r < |readers|
  {
    ghost var s := Sizes(Loads(readers));
    r := 0;
    var prevLoad := 0;
    for index := 0 to |readers|
      invariant r == LastDrop(s[..index])
      invariant prevLoad == if index == 0 then 0 else s[index - 1]
    {
      var stored := readers[index].stored;
      assert stored == s[index];
      if stored < prevLoad {
        r := index;
      }
      prevLoad := stored;
      LastDropExtend(s, index);
    }
    assert s[..|readers|] == s;
  }

  /** A reader that took a tape's files and size but failed in `add_size` before recording
      the tape's name. */
  function Interrupted(l: Load, t: TapeEntry): Load
  {
    Load(l.stored + t.totalSize, l.tapes, l.files + t.files)
  }

  /** One turn of the placement loop of `process`, on reader `i`. */
  method GiveTape(readers: seq<Reader>, i: nat, t: TapeEntry) returns (ok: bool)
    requires Distinct(readers) && i < |readers|
    requires AllValid(readers)
    modifies readers[i]
    ensures ok <==> readers[i].cap != 0
    ensures ok ==> Loads(readers) == old(Loads(readers))[i := Receive(old(Loads(readers))[i], t)]
    ensures !ok ==> Loads(readers) == old(Loads(readers))[i := Interrupted(old(Loads(readers))[i], t)]
    ensures ok ==> AllValid(readers)
    ensures forall k :: 0 <= k < |readers| && (k != i || !ok) ==> readers[k].usage == old(readers[k].usage)
  {
    ghost var before := Loads(readers);
    var reader := readers[i];
    reader.AddFileName(Stage.List(t.files));
    ok := reader.AddSize(t.totalSize);
    if ok {
      reader.AddTape(t.name);
    }
    var after := before[i := if ok then Receive(before[i], t) else Interrupted(before[i], t)];
    forall k | 0 <= k < |readers|
      ensures Loads(readers)[k] == after[k]
      ensures ok ==> readers[k].Valid()
      ensures k != i || !ok ==> readers[k].usage == old(readers[k].usage)
    {
      if k != i {
        assert readers[k] != reader;
        assert readers[k].State() == old(readers[k].State());
        assert readers[k].Valid() == old(readers[k].Valid());
      }
    }
    assert Loads(readers) == after;
  }

  /** The body of the placement loop of `process`: select a reader and give it the tape.
      With no reader, `readers[active_reader]` fails with an IndexError before anything
      changes; with a zero cap the tape's files and size reach the reader before `add_size`
      fails with a ZeroDivisionError. */
  method Turn(readers: seq<Reader>, t: TapeEntry) returns (ok: bool)
    requires Distinct(readers) && AllValid(readers)
    modifies set r | r in readers
    ensures ok <==> |readers| > 0 && readers[LastDrop(Sizes(old(Loads(readers))))].cap != 0
    ensures ok ==> Loads(readers) == Step(old(Loads(readers)), t)
    ensures ok ==> AllValid(readers)
    ensures !ok && |readers| > 0 ==>
              var i := LastDrop(Sizes(old(Loads(readers))));
              Loads(readers) == old(Loads(readers))[i := Interrupted(old(Loads(readers))[i], t)]
    ensures !ok ==> forall k :: 0 <= k < |readers| ==> readers[k].usage == old(readers[k].usage)
  {
    ghost var before := Loads(readers);
    var active := GetNextLessLoadedReader(readers);
    if active >= |readers| {
      return false;
    }
    assert active == LastDrop(Sizes(before)) && active < |readers|;
    ok := GiveTape(readers, active, t);
    assert ok ==> Loads(readers) == Step(before, t);
  }

  /** The placement loop of `process`: the same whole-tape placement as the staging
      script; every reader has cap `cap`. With no reader and some tape it fails with an
      IndexError before changing anything; with a zero cap the first tape's files and size
      reach the chosen reader before `add_size` fails with a ZeroDivisionError. Usage
      percentages are left as they were whenever nothing was placed. */
  method PlaceAll(readers: seq<Reader>, info: seq<TapeEntry>, ghost cap: int) returns (ok: bool)
    requires Distinct(readers) && AllValid(readers)
    requires forall i :: 0 <= i < |readers| ==> readers[i].cap == cap
    modifies set r | r in readers
    ensures ok <==> info == [] || (|readers| > 0 && cap != 0)
    ensures ok ==> Loads(readers) == Place(old(Loads(readers)), info)
    ensures ok ==> AllValid(readers)
    ensures !ok && |readers| == 0 ==> Loads(readers) == old(Loads(readers))
    ensures !ok && |readers| > 0 ==>
              var i := LastDrop(Sizes(old(Loads(readers))));
              Loads(readers) == old(Loads(readers))[i := Interrupted(old(Loads(readers))[i], info[0])]
    ensures !ok || info == [] ==> forall k :: 0 <= k < |readers| ==> readers[k].usage == old(readers[k].usage)
  {
    ghost var start := Loads(readers);
    ok := true;
    for t := 0 to |info|
      invariant |readers| > 0 || t == 0
      invariant cap == 0 ==> t == 0
      invariant Loads(readers) == Place(start, info[..t])
      invariant AllValid(readers)
      invariant t == 0 ==> forall k :: 0 <= k < |readers| ==> readers[k].usage == old(readers[k].usage)
    {
      ghost var before := Loads(readers);
      ok := Turn(readers, info[t]);
      if !ok {
        assert info[..t] == [];
        return;
      }
      assert Loads(readers) == Place(start, info[..t + 1]) by {
        PlacePrefix(start, info, t);
      }
    }
    assert info[..|info|] == info;
  }

  /** `process`: read and order the listing, create the capped readers and place the
      tapes largest first. It fails (`ok` false) when the number of readers is 0, when
      there are tapes but no reader, and when there are tapes but the cap is 0 because the
      total size is below the number of readers. */
  method Process(number: int, records: seq<Record>) returns (readers: seq<Reader>, total: int, ok: bool)
    ensures total == Total(records)
    ensures ok <==> number != 0 && (records == [] || (number > 0 && Total(records) >= number))
    ensures ok ==> |readers| == (if number < 0 then 0 else number)
    ensures ok ==> forall i :: 0 <= i < |readers| ==> readers[i].number == i && readers[i].cap == TruncDiv(total, number)
    ensures ok ==> Loads(readers) == Place(Empties(|readers|), SortDesc(Group(records)))
    ensures ok ==> AllValid(readers)
    ensures ok ==> forall i :: 0 <= i < |readers| ==>
              readers[i].usage == if readers[i].cap == 0 then 0 else Percent(readers[i].stored, readers[i].cap)
  {
    var ordered;
    ordered, total := GetData(records);
    readers, ok := InitReaders(number, total);
    if !ok {
      return;
    }
    GroupKeys(records);
    assert |ordered| == |Group(records)| by {
      assert |multiset(ordered)| == |multiset(Group(records))|;
    }
    if number > 0 {
      TruncDivZero(total, number);
    }
    ok := PlaceAll(readers, ordered, TruncDiv(total, number));
  }

  /** After `process` succeeds with `number > 0` readers: the readers' sizes add up to
      `total_size_data`, their files together are a permutation of the listing's files,
      their tapes together are a permutation of the dictionary's keys, and each tape sits
      on exactly one reader. */
  lemma {:induction false} ProcessPartition(number: nat, records: seq<Record>)
    requires number > 0
    ensures |Place(Empties(number), SortDesc(Group(records)))| == number
    ensures Sum(Sizes(Place(Empties(number), SortDesc(Group(records))))) == Total(records)
    ensures multiset(Flatten(ReaderFiles(Place(Empties(number), SortDesc(Group(records))))))
         == multiset(FileNames(records))
    ensures multiset(Flatten(ReaderTapes(Place(Empties(number), SortDesc(Group(records))))))
         == multiset(FirstSeen(records))
    ensures forall k, j :: 0 <= k < |SortDesc(Group(records))| && 0 <= j < number ==>
              (SortDesc(Group(records))[k].name in Place(Empties(number), SortDesc(Group(records)))[j].tapes
               <==> j == Choices(Empties(number), SortDesc(Group(records)))[k])
  {
    var g := Group(records);
    GroupKeys(records);
    GroupTotal(records);
    GroupFiles(records);
    SortDescProperties(g);
    SortDescFiles(g);
    SortDescNames(g);
    PlacePartition(number, SortDesc(g));
  }

  /** The cap is not enforced: with two readers and tapes of 10 and 2 bytes, the cap is 6
      but the first reader ends up storing 10. */
  lemma {:induction false} CapCanBeExceeded()
    ensures var records := [Record(10, "a.tar", "T1"), Record(2, "b.tar", "T2")];
            Place(Empties(2), SortDesc(Group(records)))[0].stored > TruncDiv(Total(records), 2)
  {
    var records := [Record(10, "a.tar", "T1"), Record(2, "b.tar", "T2")];
    var t1, t2 := TapeEntry("T1", 10, ["a.tar"]), TapeEntry("T2", 2, ["b.tar"]);
    ExampleOrder(records, t1, t2);
    assert Total(records) == 12 by {
      assert records[..1] == [records[0]];
    }
    ExamplePlace(t1, t2);
  }

  lemma {:induction false} ExampleOrder(records: seq<Record>, t1: TapeEntry, t2: TapeEntry)
    requires records == [Record(10, "a.tar", "T1"), Record(2, "b.tar", "T2")]
    requires t1 == TapeEntry("T1", 10, ["a.tar"]) && t2 == TapeEntry("T2", 2, ["b.tar"])
    ensures SortDesc(Group(records)) == [t1, t2]
  {
    assert records[..1] == [records[0]];
    assert Group([records[0]]) == [t1];
    assert Group(records) == [t1, t2];
    assert [t1][..0] == [];
    assert SortDesc([t1]) == Insert(t1, []) == [t1];
    assert [t1, t2][..1] == [t1];
    assert Insert(t2, [t1]) == [t1] + Insert(t2, []);
  }

  lemma {:induction false} ExamplePlace(t1: TapeEntry, t2: TapeEntry)
    requires t1 == TapeEntry("T1", 10, ["a.tar"]) && t2 == TapeEntry("T2", 2, ["b.tar"])
    ensures Place(Empties(2), [t1, t2])[0].stored == 10
  {
    var e := Empties(2);
    assert Sizes(e) == [0, 0];
    var l1 := Step(e, t1);
    assert l1[0].stored == 10 && l1[1].stored == 0;
    assert Sizes(l1) == [10, 0];
    var l2 := Step(l1, t2);
    assert l2[0].stored == 10;
    assert [t1, t2][..1] == [t1];
    assert [t1][..0] == [];
    assert Place(e, [t1]) == l1;
    assert Place(e, [t1, t2]) == l2;
  }
}
