# Parallel tape staging and read planning, modelled in Dafny

The scripts split the files of a tape archive listing among a few parallel
staging ("reader") processes so that each tape is read by exactly one of
them. They share one core:

- a `Reader` accumulator that collects tape names, file names and a stored
  byte count (`parallel_stage.py`, its near copy `test2_tghi.py`, and a
  variant with a size cap and a usage percentage in `parallel_read.py`);
- the grouping loop of `get_data`, which folds parsed listing lines
  `(size, file, tape)` into a dictionary `tape -> {total_size, files}`,
  modelled in insertion (first-seen) order; `parallel_read.py` also adds up the grand
  total and sorts the dictionary by total size, largest first;
- the reader-selection scan `get_next_reader` /
  `get_next_less_loaded_reader`, which compares every reader's stored size
  with its predecessor's and returns the last index whose size dropped, or 0;
- the placement loop of `assign_readers` / `process`, which gives every
  tape, in dictionary order, whole to the selected reader;
- the list file written for the staging command, one file name per line.

The model is split into modules that follow that structure:

| file | module | contents |
|---|---|---|
| `seqs.dfy` | `Seqs` | `Distinct`, `Sum`, `Flatten` and their append/update lemmas |
| `listing.dfy` | `Listing` | parsed records, the dictionary as a sequence of entries with distinct names in first-seen order, the grouping loop, and reference definitions (first-seen tapes, per-tape size and files) it is proved against |
| `selection.dfy` | `Selection` | the last-drop selection rule |
| `ordering.dfy` | `Ordering` | the stable descending sort of `parallel_read.py` |
| `placement.dfy` | `Placement` | the placement loop as a function on reader states, with whole-tape placement, routing and conservation lemmas |
| `parallel_stage.dfy` | `ParallelStage` | the `Reader` class, `init_readers`, `get_next_reader` and `assign_readers` of `parallel_stage.py` and `test2_tghi.py` |
| `list_file.dfy` | `ListFile` | the list file `execute_cmd` writes for the staging command, and reading it back line by line |
| `parallel_read.dfy` | `ParallelRead` | the capped `Reader` class, `get_data` with sort and total, `init_readers` with the cap, `get_next_less_loaded_reader` and `process` |

Readers are Dafny classes whose methods update their fields; the loops over
records, readers and tapes are methods with loop invariants, each proved
against a function of its inputs (`Group`, `LastDrop`, `Place`, `SortDesc`),
and the promised properties are lemmas about those functions. A Python
exception ends the operation: the methods return `ok == false` exactly when
the source raises (an `IndexError` when there is a tape but no reader, a
`ZeroDivisionError` when `parallel_read.py` divides by a zero reader count or
a zero cap).

Python's `int(a / b)` on non-negative whole numbers is modelled as integer
division truncated toward zero (`TruncDiv`). Python's `sorted(...,
reverse=True)` is stable, so tapes of equal total keep their dictionary
order, which is first-seen order in this model; `SortDesc` is a stable
insertion sort.

Where the design intent and the code differ, the model follows the code:

- The selection scan is not a least-loaded search: for stored sizes
  `10, 30, 20` it picks reader 2 (`Selection.NotLeastLoaded`).
- `parallel_stage.py` and `test2_tghi.py` do not sort the tapes; only
  `parallel_read.py` does, and it keeps dictionary order among equal sizes
  rather than breaking ties by tape name.
- A non-positive reader count is not rejected up front: with no tapes it
  yields no readers, with some tape it fails with an `IndexError`; in
  `parallel_read.py` a count of 0 fails with a `ZeroDivisionError`.
- The cap of `parallel_read.py` is never consulted during placement, so a
  reader can end above it (`ParallelRead.CapCanBeExceeded`).
- The readers are not kept within one tape of each other: in the unsorted
  staging order, tapes of 10, 30, 20 and 40 bytes on three readers leave
  stored sizes 10, 30 and 60, a spread of 50 above the largest tape's 40
  (`ParallelStage.SpreadAboveLargestTape`).

`test2_tghi.py` repeats the staging core line for line, so the
`ParallelStage` and `Listing` members model it too. Its spans are: the
`Reader` constructor at lines 37-42, `add_size` 44-45, `add_tape` 50-51,
`add_file_name` 56-60, the grouping loop of `get_data` 91-107,
`init_readers` 110-116, `get_next_reader` 119-127, `assign_readers` 130-139
and the list file of `execute_cmd` 146-148.

## Model

| member | source | states |
|---|---|---|
| Listing.Find | parallel_stage.py:100 | dictionary lookup: the result is the position of the entry for the tape, or the length when no entry has that name; no earlier entry has it |
| Listing.GetData | parallel_stage.py:90-104 | the grouping loop computes exactly `Group(records)`, the fold of the records into the dictionary |
| Listing.GroupCharacterized | parallel_stage.py:92-104 | one entry per distinct tape in first-seen order; each entry's total is the sum of its records' sizes and its files are its records' file names in record order |
| Listing.GroupKeys | parallel_stage.py:100-104 | the dictionary's keys are pairwise distinct, are exactly the tapes of the records, in first-seen order, and the dictionary is empty only for an empty listing |
| Listing.AbsorbTotals | parallel_stage.py:100-104 | one record adds exactly its size to the sum of the entries' totals, whether it creates an entry or extends one |
| Listing.AbsorbFiles | parallel_stage.py:100-104 | one record adds exactly its file name to the entries' file lists |
| Listing.GroupTotal | parallel_read.py:59-74 | the entries' totals add up to the sum of all record sizes |
| Listing.GroupFiles | parallel_stage.py:92-104 | the entries' file lists together hold every record's file name exactly once (a permutation) |
| Listing.FirstSeenDistinct | parallel_stage.py:100-104 | the reference list of first-seen tapes has no duplicates |
| Listing.FirstSeenCovers | parallel_stage.py:100-104 | a tape is in the first-seen list iff some record lies on it |
| Listing.AbsentTape | parallel_stage.py:100-104 | a tape no record lies on has size 0 and no files |
| Selection.LastDrop | parallel_stage.py:119-128 | the selected index is 0 or an index whose size is below its predecessor's, no later index has such a drop, and it is below the reader count when there are readers |
| Selection.LastDropExtend | parallel_stage.py:123-126 | scanning one more size: it becomes the selection exactly when it is below its predecessor's, otherwise the selection is unchanged |
| Selection.SelectionUnique | parallel_stage.py:119-128 | the selection rule determines a single index |
| Selection.FirstWhenNoDrop | parallel_stage.py:119-128 | reader 0 is chosen iff sizes never drop from one reader to the next (all readers empty, or sizes non-decreasing) |
| Selection.NotLeastLoaded | parallel_read.py:92-102 | for sizes 10, 30, 20 the rule picks reader 2 although reader 0 holds less |
| Ordering.SortDesc | parallel_read.py:78 | `sorted(..., reverse=True)` on total size, as a stable insertion sort: every entry of the dictionary once, as many entries as the dictionary has |
| Ordering.SortDescProperties | parallel_read.py:78 | the sorted entries are non-increasing in total size, a permutation of the input, stable (equal totals keep their order), keep the sum of totals and keep keys distinct |
| Ordering.SortDescFiles | parallel_read.py:78 | sorting keeps the multiset of all file names |
| Ordering.SortDescNames | parallel_read.py:78 | sorting keeps the multiset of tape names |
| Placement.Receive | parallel_stage.py:137-139 | the chosen reader keeps what it had and gains the whole tape: its stored size grows by the tape's total, the tape's name is appended as its last tape, and the tape's file list is appended after its files |
| Placement.ReceiveAllSpec | parallel_stage.py:137-139 | a reader that takes tapes one by one gains the sum of their totals, their names in order and their complete file lists in order |
| Placement.ChoicesFollowRule | parallel_stage.py:135-136 | every tape goes to the reader the selection rule picks on the stored sizes at that moment |
| Placement.PlacePrefix | parallel_stage.py:135-139 | placing one more tape is one more turn of the loop on the state left by the earlier tapes |
| Placement.PlaceRoutes | parallel_stage.py:135-139 | each reader ends as if it had taken, in order, exactly the tapes routed to it |
| Placement.PlaceWhole | parallel_stage.py:135-139 | each reader's size grows by the totals of its tapes, its tape list by their names and its file list by their whole file lists |
| Placement.RoutedMembers | parallel_stage.py:135-139 | a tape is among those routed to reader j iff the placement loop chose j for it |
| Placement.RoutedNames | parallel_stage.py:135-139 | with distinct keys, a tape's name is among the names routed to reader j iff the tape was routed to j |
| Placement.PlaceOnce | parallel_stage.py:135-139 | on fresh readers, a tape's name is on reader j iff j is the reader chosen for it: each tape sits on exactly one reader |
| Placement.StepSizes | parallel_stage.py:138 | one turn adds exactly the tape's total to the sum of stored sizes |
| Placement.StepFiles | parallel_stage.py:137 | one turn adds exactly the tape's files to the readers' files |
| Placement.StepTapes | parallel_stage.py:139 | one turn adds exactly the tape's name to the readers' tape lists |
| Placement.PlaceSizes | parallel_stage.py:135-139 | placement adds exactly the sum of the tapes' totals to the readers' sizes |
| Placement.PlaceFiles | parallel_stage.py:135-139 | placement adds exactly the tapes' file lists (as a multiset) to the readers' files |
| Placement.PlaceTapeNames | parallel_stage.py:135-139 | placement adds exactly the tapes' names (as a multiset) to the readers' tape lists |
| Placement.EmptiesHoldNothing | parallel_stage.py:110-116 | freshly created readers store 0 bytes, no files and no tapes |
| Placement.PlacePartition | parallel_stage.py:131-141 | on n > 0 fresh readers: n readers remain, sizes add up to the totals, files and tape names are permutations of the tapes' files and names, each tape on exactly one reader |
| ParallelStage.Reader.constructor | parallel_stage.py:35-40 | a new reader has the given number and size, stored size 0 and no tapes or files |
| ParallelStage.Reader.AddSize | parallel_stage.py:42-43 | the stored size becomes old plus the argument; tapes and files are unchanged |
| ParallelStage.Reader.AddTape | parallel_stage.py:48-49 | the name is appended once; stored size and files are unchanged |
| ParallelStage.Reader.AddFileName | parallel_stage.py:54-58 | a string is appended as one element, a list is concatenated after the existing files in order, anything else leaves the files as they were; size and tapes never change |
| ParallelStage.InitReaders | parallel_stage.py:110-116 | `max(n, 0)` fresh, distinct, empty readers numbered 0..n-1 in order, with size 0 |
| ParallelStage.GetNextReader | parallel_stage.py:119-128 | the scan returns `LastDrop` of the stored sizes: 0 or the last index whose size is below its predecessor's, and an index in range when there are readers |
| ParallelStage.GiveTape | parallel_stage.py:137-139 | the chosen reader takes the tape's files, total and name; no other reader changes |
| ParallelStage.PlaceAll | parallel_stage.py:135-139 | the loop leaves the readers in the state `Place` describes; with no reader and some tape it fails before changing anything |
| ParallelStage.AssignReaders | parallel_stage.py:131-141 | the reader count is `max(n, 0)` with numbers 0..n-1; it fails iff there is a tape but no reader; on success the readers hold `Place` of the grouped listing on fresh readers |
| ParallelStage.SpreadAboveLargestTape | parallel_stage.py:135-139 | without sorting, tapes of 10, 30, 20 and 40 bytes on three readers end as stored sizes 10, 30 and 60, a spread of 50 above the largest tape's 40 |
| ParallelStage.AssignmentPartition | parallel_stage.py:131-141 | after assignment the readers' sizes add up to the listing's total, their files are a permutation of the listing's files and of the entries' file lists, their tapes a permutation of the keys, and each tape is on exactly one reader |
| ListFile.FileListText | parallel_stage.py:153 | every file name followed by one newline, in the reader's file order: empty exactly for no files, and otherwise ending in a newline |
| ListFile.LinesLine | parallel_stage.py:153 | a name without a newline, followed by the newline `execute_cmd` writes after it, reads back as exactly that name and then the lines of the rest |
| ListFile.FileListTextLength | parallel_stage.py:153 | the list file is as long as the file names plus one newline each |
| ListFile.FileListRoundTrip | parallel_stage.py:151-153 | reading the list file back line by line gives the reader's files in order, when no name contains a newline |
| ListFile.LinesRoundTrip | parallel_stage.py:153 | every newline-terminated text is the list file of its own lines |
| ListFile.LinesHaveNoNewline | parallel_stage.py:153 | no line read back from a list file contains a newline |
| ParallelRead.TruncDiv | parallel_read.py:83 | `int(a / b)`: the quotient's magnitude times the divisor's is at most the dividend's and the next multiple exceeds it; the sign is that of `a / b` |
| ParallelRead.Percent | parallel_read.py:23 | the usage `int(stored * 100 / cap)`: for a positive cap and non-negative stored size, the largest whole percentage whose share of the cap does not exceed the stored size |
| ParallelRead.QuotientBelow | parallel_read.py:23 | helper fact about integer division behind the usage check: for a non-negative dividend and positive divisor, the quotient is below m iff the dividend is below m times the divisor |
| ParallelRead.TruncDivZero | parallel_read.py:83 | with a non-negative total and a positive reader count the cap is 0 iff the total is below the count |
| ParallelRead.PercentBelowFull | parallel_read.py:21-23 | with a positive cap, usage is below 100 percent iff the stored size is below the cap |
| ParallelRead.Reader.constructor | parallel_read.py:13-19 | a new reader has the given number and cap, stored size 0, usage 0, no tapes or files, and its usage is consistent |
| ParallelRead.Reader.AddSize | parallel_read.py:21-23 | the stored size becomes old plus the argument; usage becomes the truncated percentage of the cap, or the call fails (division by zero) when the cap is 0; tapes and files are unchanged |
| ParallelRead.Reader.AddTape | parallel_read.py:28-29 | the name is appended once; nothing else changes |
| ParallelRead.Reader.AddFileName | parallel_read.py:37-41 | a string is appended, a list concatenated, anything else ignored; nothing else changes |
| ParallelRead.Reader.CheckSizeAllowed | parallel_read.py:34-35 | room for 0 more bytes is exactly not being full; room for a non-negative size implies not full, hence usage below 100 |
| ParallelRead.Reader.IsNotFull | parallel_read.py:47-48 | for a reader with a positive cap and consistent usage, not full iff usage is below 100 percent |
| ParallelRead.GetData | parallel_read.py:58-78 | the result is the grouped listing sorted by total, largest first, stable and a permutation of the dictionary; the second result is the sum of all record sizes and of the sorted totals |
| ParallelRead.SortedListing | parallel_read.py:58-78 | the sorted dictionary is non-increasing in total, a permutation of the dictionary, keeps dictionary order among equal totals, and its totals add up to the listing's total |
| ParallelRead.InitReaders | parallel_read.py:81-89 | fails iff the count is 0; otherwise `max(number, 0)` fresh, distinct, empty readers numbered in order, each with cap `int(total / number)`, usage 0 and consistent usage |
| ParallelRead.GetNextLessLoadedReader | parallel_read.py:92-102 | the same last-drop rule as the staging script, in range when there are readers |
| ParallelRead.GiveTape | parallel_read.py:118-120 | the chosen reader takes files, size and name, or with a zero cap only files and size before failing, its usage then unchanged; no other reader changes, usage included, and usage stays consistent |
| ParallelRead.Turn | parallel_read.py:114-120 | one turn of the loop: with no reader it fails and nothing changes; otherwise the `LastDrop` reader takes the tape as one `Step` of `Place`, or with a zero cap only its files and size before failing; on failure every usage is unchanged |
| ParallelRead.PlaceAll | parallel_read.py:114-120 | the loop succeeds iff there are no tapes or there are readers with a non-zero cap; on success the readers hold `Place` of the tapes; on failure the stored sizes, tapes, files and usages reached are stated exactly, and with no tapes every usage is unchanged |
| ParallelRead.Process | parallel_read.py:105-120 | total is the listing's total; success iff the count is non-zero and the listing is empty or the count is positive and at most the total; on success the readers hold `Place` of the sorted dictionary on fresh readers, and each reader's usage is 0 for a zero cap and otherwise the truncated percentage of its stored size |
| ParallelRead.ProcessPartition | parallel_read.py:114-120 | after `process` the readers' sizes add up to `total_size_data`, files and tapes are permutations of the listing's files and keys, each tape on exactly one reader |
| ParallelRead.CapCanBeExceeded | parallel_read.py:114-120 | the cap is not enforced: tapes of 10 and 2 bytes on two readers give cap 6 and a reader storing 10 |
| ParallelRead.ExampleOrder | parallel_read.py:78 | the example listing sorts to its two tapes, larger first |
| ParallelRead.ExamplePlace | parallel_read.py:114-120 | in the example the larger tape lands on reader 0 |

## Left out

- Regular-expression parsing of listing lines: the model starts from already
  parsed `(size, file, tape)` records; sizes are non-negative as the pattern
  only matches digits.
- Shell calls and data sources: `os.popen('ghi_ls ...')`, `os.getcwd`, the
  `dummydata` and `dummytest` modules; the `[''] in ghils_output` check, which
  never fires; the folder branch of `test2_tghi.py` that does not split the
  command output (its result is overwritten before use anyway).
- Staging side effects: the temporary file, `os.system('ghi_stage ...')` and
  its exit-code handling; only the text written to the list file is modelled.
  The list file is modelled as Python 2 (the `#!/usr/bin/python` interpreter)
  writes it: `tempfile.NamedTemporaryFile()` opens in binary mode, so under Python 3
  `writelines` of `str` raises a `TypeError` outside the `try` and the reader's
  thread ends before `ghi_stage` runs; `ListFile.FileListText` is the text
  Python 2 writes.
- Dictionary order: the dictionary is a plain `{}`, modelled in insertion
  (first-seen) order, the iteration order of Python 3.7 and later. Under
  Python 2, which the list-file text above follows, `items()`
  (parallel_stage.py:135, test2_tghi.py:134) and the order of equal totals
  handed to `sorted` (parallel_read.py:78) follow the dictionary's hash
  order, which is not modelled. No single interpreter runs the modelled
  program as a whole. `Placement.PlacePartition` and `Placement.PlaceWhole`
  are stated for every sequence of entries (the former for entries with
  distinct names), so whole-tape placement, conservation and single
  placement hold for any iteration order; the concrete reader choices and
  the tie order of `SortDesc` are those of insertion order.
- Concurrency: one thread is started per reader, with no join, including
  readers that received no tapes.
- Logging, argument parsing (which limits `--number` to 1..4), `print`
  reporting (including the space-joined file list of `process`) and
  `os._exit`.
- Getters (`get_size`, `get_tapes`, `get_file_names`, `usage`) are reads of
  the fields; that `get_file_names` returns the reader's own list object
  (aliasing) is not modelled.
- ParallelRead.TruncDiv: does not model floating-point rounding of `/`, which
  differs from exact division only for values beyond 2^53.
- ParallelStage.AssignReaders: does not state the readers' contents when it
  fails, because failure only happens with no readers at all.
- The `size` constructor argument of the staging `Reader` is kept as a field
  but never read by the scripts.
