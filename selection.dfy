/** The reader-selection rule shared by `get_next_reader` and
    `get_next_less_loaded_reader`.

    The scan compares each reader's stored size with its immediate
    predecessor's (starting from a predecessor size of 0) and remembers the
    last index whose size is strictly smaller. This is a "last drop" rule,
    not a search for the least loaded reader. */
module Selection {

  /** `r` is what the scan returns for stored sizes `sizes`: 0, or an index whose size
      is below its predecessor's, and no later index has such a drop. */
  predicate IsSelection(sizes: seq<int>, r: nat)
  {
    && (r == 0 || (r < |sizes| && sizes[r] < sizes[r - 1]))
    && forall j :: r < j < |sizes| ==> sizes[j - 1] <= sizes[j]
  }

  /** The last index `i >= 1` with `sizes[i] < sizes[i - 1]`, or 0 when there is none. */
  function LastDrop(sizes: seq<int>): (r: nat)
    ensures IsSelection(sizes, r)
    ensures |sizes| > 0 ==> r < |sizes|
  {
    if |sizes| < 2 then 0
    else if sizes[|sizes| - 1] < sizes[|sizes| - 2] then |sizes| - 1
    else LastDrop(sizes[..|sizes| - 1])
  }

  /** Scanning one more reader: it becomes the selection exactly when its size dropped. */
  lemma {:induction false} LastDropExtend(sizes: seq<int>, k: nat)
    requires k < |sizes|
    ensures LastDrop(sizes[..k + 1]) == if k > 0 && sizes[k] < sizes[k - 1] then k else LastDrop(sizes[..k])
  {
    assert sizes[..k + 1][..k] == sizes[..k];
  }

  /** The rule determines a single index. */
  lemma {:induction false} SelectionUnique(sizes: seq<int>, a: nat, b: nat)
    requires IsSelection(sizes, a) && IsSelection(sizes, b)
    ensures a == b
  {
  }

  /** Reader 0 is chosen exactly when the sizes never drop from one reader to the next
      (all readers empty, or sizes non-decreasing). */
  lemma {:induction false} FirstWhenNoDrop(sizes: seq<int>)
    ensures LastDrop(sizes) == 0 <==> forall j :: 1 <= j < |sizes| ==> sizes[j - 1] <= sizes[j]
  {
    var r := LastDrop(sizes);
    if r != 0 {
      assert sizes[r] < sizes[r - 1];
    }
  }

  /** The rule is not "least loaded": with stored sizes 10, 30, 20 it picks reader 2,
      although reader 0 holds less. */
  lemma {:induction false} NotLeastLoaded()
    ensures LastDrop([10, 30, 20]) == 2
    ensures [10, 30, 20][0] < [10, 30, 20][LastDrop([10, 30, 20])]
  {
    var s: seq<int> := [10, 30, 20];
    assert s[2] < s[1];
  }
}
