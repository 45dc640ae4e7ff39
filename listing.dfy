/** Grouping of parsed listing records by tape.

    The scripts read a listing whose matching lines give a file size, a file
    name and the tape that holds the file, and fold them into an
    insertion-ordered dictionary `tape -> {total_size, files}`. Here the
    lines are already parsed into `Record`s, and the dictionary is a sequence
    of `TapeEntry`s with distinct names in the order the tapes were first seen
    (the iteration order of a Python dict). */
module Listing {
  import opened Seqs

  /** One matching listing line: the file's size in bytes, its name and its tape. */
  datatype Record = Record(size: nat, file: string, tape: string)

  /** One item of the dictionary: the tape name (the key), its `total_size` and its `files`. */
  datatype TapeEntry = TapeEntry(name: string, totalSize: nat, files: seq<string>)

  function Names(info: seq<TapeEntry>): seq<string>
  {
    seq(|info|, k requires 0 <= k < |info| => info[k].name)
  }

  function Totals(info: seq<TapeEntry>): seq<int>
  {
    seq(|info|, k requires 0 <= k < |info| => info[k].totalSize)
  }

  function FileLists(info: seq<TapeEntry>): seq<seq<string>>
  {
    seq(|info|, k requires 0 <= k < |info| => info[k].files)
  }

  function FileNames(records: seq<Record>): seq<string>
  {
    seq(|records|, i requires 0 <= i < |records| => records[i].file)
  }

  lemma {:induction false} ProjectionsAppend(info: seq<TapeEntry>, e: TapeEntry)
    ensures Names(info + [e]) == Names(info) + [e.name]
    ensures Totals(info + [e]) == Totals(info) + [e.totalSize]
    ensures FileLists(info + [e]) == FileLists(info) + [e.files]
  {
  }

  /** Dictionary lookup: the position of the entry for `tape`, or `|info|` when there is none. */
  function Find(info: seq<TapeEntry>, tape: string): (k: nat)
    ensures k <= |info|
    ensures k < |info| ==> info[k].name == tape
    ensures forall i :: 0 <= i < k ==> info[i].name != tape
  {
    if info == [] then 0
    else if info[0].name == tape then 0
    else 1 + Find(info[1..], tape)
  }

  /** One turn of the grouping loop: add the record to its tape's entry, creating the entry on first sight. */
  function Absorb(info: seq<TapeEntry>, rec: Record): seq<TapeEntry>
  {
    var k := Find(info, rec.tape);
    if k < |info| then
      info[k := TapeEntry(info[k].name, info[k].totalSize + rec.size, info[k].files + [rec.file])]
    else
      info + [TapeEntry(rec.tape, rec.size, [rec.file])]
  }

  /** The dictionary built from `records` in order. */
  function Group(records: seq<Record>): seq<TapeEntry>
  {
    if records == [] then []
    else Absorb(Group(records[..|records| - 1]), records[|records| - 1])
  }

  // ---------------------------------------------------------------------------
  // Reference definitions, independent of the dictionary fold.

  /** The distinct tapes of `records`, in order of first appearance. */
  function FirstSeen(records: seq<Record>): seq<string>
  {
    if records == [] then []
    else
      var seen := FirstSeen(records[..|records| - 1]);
      var t := records[|records| - 1].tape;
      if t in seen then seen else seen + [t]
  }

  /** Sum of the sizes of the records on tape `t`. */
  function SizeOf(records: seq<Record>, t: string): nat
  {
    if records == [] then 0
    else
      var last := records[|records| - 1];
      SizeOf(records[..|records| - 1], t) + (if last.tape == t then last.size else 0)
  }

  /** Names of the files on tape `t`, in record order. */
  function FilesOf(records: seq<Record>, t: string): seq<string>
  {
    if records == [] then []
    else
      var last := records[|records| - 1];
      FilesOf(records[..|records| - 1], t) + (if last.tape == t then [last.file] else [])
  }

  /** Sum of the sizes of all records. */
  function Total(records: seq<Record>): nat
  {
    if records == [] then 0 else Total(records[..|records| - 1]) + records[|records| - 1].size
  }

  function Entry(records: seq<Record>, t: string): TapeEntry
  {
    TapeEntry(t, SizeOf(records, t), FilesOf(records, t))
  }

  // ---------------------------------------------------------------------------
  // Properties of the reference definitions.

  /** `Absorb` for a known lookup result `k`: update entry `k`, or append a new entry. */
  lemma {:induction false} AbsorbAt(info: seq<TapeEntry>, rec: Record, k: nat)
    requires k == Find(info, rec.tape)
    ensures k < |info| ==>
      Absorb(info, rec) == info[k := TapeEntry(info[k].name, info[k].totalSize + rec.size, info[k].files + [rec.file])]
    ensures k >= |info| ==> Absorb(info, rec) == info + [TapeEntry(rec.tape, rec.size, [rec.file])]
  {
  }

  /** Reading one more line extends the dictionary by that record and the byte count by its size. */
  lemma {:induction false} GroupPrefix(records: seq<Record>, i: nat)
    requires i < |records|
    ensures Group(records[..i + 1]) == Absorb(Group(records[..i]), records[i])
    ensures Total(records[..i + 1]) == Total(records[..i]) + records[i].size
  {
    assert records[..i + 1][..i] == records[..i];
  }

  lemma {:induction false} FirstSeenDistinct(records: seq<Record>)
    ensures Distinct(FirstSeen(records))
  {
    if records != [] {
      FirstSeenDistinct(records[..|records| - 1]);
    }
  }

  /** A tape is listed by FirstSeen exactly when some record lies on it. */
  lemma {:induction false} FirstSeenCovers(records: seq<Record>, t: string)
    ensures t in FirstSeen(records) <==> exists i :: 0 <= i < |records| && records[i].tape == t
  {
    if records != [] {
      var p := records[..|records| - 1];
      FirstSeenCovers(p, t);
      if exists i :: 0 <= i < |p| && p[i].tape == t {
        var i :| 0 <= i < |p| && p[i].tape == t;
        assert records[i].tape == t;
      }
      if exists i :: 0 <= i < |records| && records[i].tape == t {
        var i :| 0 <= i < |records| && records[i].tape == t;
        if i < |p| {
          assert p[i].tape == t;
        }
      }
    }
  }

  /** A tape no record lies on has size 0 and no files. */
  lemma {:induction false} AbsentTape(records: seq<Record>, t: string)
    requires t !in FirstSeen(records)
    ensures SizeOf(records, t) == 0 && FilesOf(records, t) == []
  {
    if records != [] {
      var p := records[..|records| - 1];
      assert records[|records| - 1].tape in FirstSeen(records);
      assert forall u :: u in FirstSeen(p) ==> u in FirstSeen(records);
      AbsentTape(p, t);
    }
  }

  // ---------------------------------------------------------------------------
  // What the grouping computes.

  /** The dictionary has one entry per distinct tape, in first-seen order; each entry's
      total is the sum of its records' sizes and its files are its records' names in order. */
  lemma {:induction false} GroupCharacterized(records: seq<Record>)
    ensures |Group(records)| == |FirstSeen(records)|
    ensures forall k :: 0 <= k < |Group(records)| ==> Group(records)[k] == Entry(records, FirstSeen(records)[k])
  {
    if records != [] {
      var p := records[..|records| - 1];
      GroupCharacterized(p);
      FirstSeenDistinct(p);
      if Find(Group(p), records[|records| - 1].tape) < |Group(p)| {
        GroupKnownTape(records);
      } else {
        GroupNewTape(records);
      }
    }
  }

  /** The induction step of GroupCharacterized when the last record's tape is already in the dictionary. */
  lemma {:induction false} GroupKnownTape(records: seq<Record>)
    requires records != []
    requires var p := records[..|records| - 1];
             |Group(p)| == |FirstSeen(p)| && Distinct(FirstSeen(p))
             && (forall k :: 0 <= k < |Group(p)| ==> Group(p)[k] == Entry(p, FirstSeen(p)[k]))
    requires Find(Group(records[..|records| - 1]), records[|records| - 1].tape) < |Group(records[..|records| - 1])|
    ensures |Group(records)| == |FirstSeen(records)|
    ensures forall k :: 0 <= k < |Group(records)| ==> Group(records)[k] == Entry(records, FirstSeen(records)[k])
  {
    var p := records[..|records| - 1];
    var x := records[|records| - 1];
    var g, f := Group(p), FirstSeen(p);
    var k0 := Find(g, x.tape);
    assert f[k0] == x.tape by {
      assert g[k0] == Entry(p, f[k0]);
    }
    assert FirstSeen(records) == f;
    forall k | 0 <= k < |g|
      ensures Group(records)[k] == Entry(records, f[k])
    {
      if k != k0 {
        assert f[k] != x.tape;
      }
    }
  }

  /** The induction step of GroupCharacterized when the last record's tape is new. */
  lemma {:induction false} GroupNewTape(records: seq<Record>)
    requires records != []
    requires var p := records[..|records| - 1];
             |Group(p)| == |FirstSeen(p)|
             && (forall k :: 0 <= k < |Group(p)| ==> Group(p)[k] == Entry(p, FirstSeen(p)[k]))
    requires Find(Group(records[..|records| - 1]), records[|records| - 1].tape) == |Group(records[..|records| - 1])|
    ensures |Group(records)| == |FirstSeen(records)|
    ensures forall k :: 0 <= k < |Group(records)| ==> Group(records)[k] == Entry(records, FirstSeen(records)[k])
  {
    var p := records[..|records| - 1];
    var x := records[|records| - 1];
    var g, f := Group(p), FirstSeen(p);
    assert x.tape !in f by {
      forall i | 0 <= i < |f|
        ensures f[i] != x.tape
      {
        assert g[i] == Entry(p, f[i]);
      }
    }
    assert SizeOf(p, x.tape) == 0 && FilesOf(p, x.tape) == [] by {
      AbsentTape(p, x.tape);
    }
    var h := FirstSeen(records);
    assert h == f + [x.tape];
    assert Group(records) == g + [TapeEntry(x.tape, x.size, [x.file])];
    forall k | 0 <= k < |h|
      ensures Group(records)[k] == Entry(records, h[k])
    {
      if k < |g| {
        assert h[k] == f[k] != x.tape;
        assert Group(records)[k] == g[k] == Entry(p, f[k]);
        EntryOther(records, f[k]);
      } else {
        assert h[k] == x.tape && Group(records)[k] == TapeEntry(x.tape, x.size, [x.file]);
        assert SizeOf(records, x.tape) == x.size && FilesOf(records, x.tape) == [x.file];
      }
    }
  }

  /** The last record does not change the entry of a tape it does not lie on. */
  lemma {:induction false} EntryOther(records: seq<Record>, t: string)
    requires records != [] && records[|records| - 1].tape != t
    ensures Entry(records, t) == Entry(records[..|records| - 1], t)
  {
    var p := records[..|records| - 1];
    assert SizeOf(records, t) == SizeOf(p, t) && FilesOf(records, t) == FilesOf(p, t);
  }

  /** The keys of the dictionary are pairwise distinct and are exactly the tapes of the records. */
  lemma {:induction false} GroupKeys(records: seq<Record>)
    ensures Names(Group(records)) == FirstSeen(records)
    ensures Distinct(Names(Group(records)))
    ensures forall t :: t in Names(Group(records)) <==> exists i :: 0 <= i < |records| && records[i].tape == t
    ensures Group(records) == [] <==> records == []
  {
    GroupCharacterized(records);
    FirstSeenDistinct(records);
    forall t
      ensures t in FirstSeen(records) <==> exists i :: 0 <= i < |records| && records[i].tape == t
    {
      FirstSeenCovers(records, t);
    }
    if records != [] {
      FirstSeenCovers(records, records[0].tape);
    }
  }

  lemma {:induction false} AbsorbTotals(info: seq<TapeEntry>, rec: Record)
    ensures Sum(Totals(Absorb(info, rec))) == Sum(Totals(info)) + rec.size
  {
    var k := Find(info, rec.tape);
    if k < |info| {
      var e := TapeEntry(info[k].name, info[k].totalSize + rec.size, info[k].files + [rec.file]);
      assert Totals(info[k := e]) == Totals(info)[k := Totals(info)[k] + rec.size];
      SumExtend(Totals(info), k, rec.size);
    } else {
      assert Totals(info + [TapeEntry(rec.tape, rec.size, [rec.file])]) == Totals(info) + [rec.size];
      SumAppend(Totals(info), rec.size);
    }
  }

  lemma {:induction false} AbsorbFiles(info: seq<TapeEntry>, rec: Record)
    ensures multiset(Flatten(FileLists(Absorb(info, rec)))) == multiset(Flatten(FileLists(info))) + multiset{rec.file}
  {
    var k := Find(info, rec.tape);
    var ss := FileLists(info);
    if k < |info| {
      var e := TapeEntry(info[k].name, info[k].totalSize + rec.size, info[k].files + [rec.file]);
      assert FileLists(Absorb(info, rec)) == ss[k := ss[k] + [rec.file]] by {
        assert Absorb(info, rec) == info[k := e];
      }
      FlattenExtend(ss, k, [rec.file]);
    } else {
      assert FileLists(Absorb(info, rec)) == ss + [[rec.file]] by {
        ProjectionsAppend(info, TapeEntry(rec.tape, rec.size, [rec.file]));
      }
      FlattenAppend(ss, [rec.file]);
    }
  }

  /** The entries' totals add up to the total size of all records. */
  lemma {:induction false} GroupTotal(records: seq<Record>)
    ensures Sum(Totals(Group(records))) == Total(records)
  {
    if records != [] {
      GroupTotal(records[..|records| - 1]);
      AbsorbTotals(Group(records[..|records| - 1]), records[|records| - 1]);
    }
  }

  /** The entries' file lists together hold every record's file name exactly once. */
  lemma {:induction false} GroupFiles(records: seq<Record>)
    ensures multiset(Flatten(FileLists(Group(records)))) == multiset(FileNames(records))
  {
    if records != [] {
      var p, last := records[..|records| - 1], records[|records| - 1];
      var before := multiset(FileNames(p));
      assert multiset(FileNames(records)) == before + multiset{last.file} by {
        assert FileNames(records) == FileNames(p) + [last.file];
      }
      assert multiset(Flatten(FileLists(Group(records)))) == before + multiset{last.file} by {
        GroupFiles(p);
        AbsorbFiles(Group(p), last);
      }
    }
  }

  /** The grouping loop of `get_data`. */
  method GetData(records: seq<Record>) returns (result: seq<TapeEntry>)
    ensures result == Group(records)
  {
    var info: seq<TapeEntry> := [];
    var i := 0;
    while i < |records|
      invariant 0 <= i <= |records|
      invariant info == Group(records[..i])
    {
      var rec := records[i];
      GroupPrefix(records, i);
      var k := Find(info, rec.tape);
      AbsorbAt(info, rec, k);
      if k < |info| {
        info := info[k := TapeEntry(info[k].name, info[k].totalSize + rec.size, info[k].files + [rec.file])];
      } else {
        info := info + [TapeEntry(rec.tape, rec.size, [rec.file])];
      }
      assert info == Group(records[..i + 1]);
      i := i + 1;
    }
    assert info == Group(records) by {
      assert records[..|records|] == records;
    }
    return info;
  }
}
