/** Reading the local chat log backwards, one page at a time. */
module ChatLog {

  const TWO_64: nat := 0x1_0000_0000_0000_0000

  /** The sum and difference of two `size_t` values. */
  function AddSize(a: nat, b: nat): nat { (a + b) % TWO_64 }

  function SubSize(a: nat, b: nat): nat
    requires a < TWO_64 && b < TWO_64
  {
    if b <= a then a - b else a - b + TWO_64
  }

  /** The lines from `start` up to `end`. */
  function Between<T>(lines: seq<T>, start: nat, end: nat): seq<T>
    requires end <= |lines|
  {
    if start <= end then lines[start..end] else []
  }

  function Page<T>(lines: seq<T>, count: nat, offset: nat): seq<T>
    requires |lines| < TWO_64 && count < TWO_64 && offset < TWO_64
  {
    var total := |lines|;
    if offset >= total then []
    else
      var start := if total > AddSize(offset, count) then SubSize(SubSize(total, offset), count) else 0;
      Between(lines, start, total - offset)
  }

  method LoadChatLogs<T>(lines: seq<T>, count: nat, offset: nat) returns (logs: seq<T>)
    requires |lines| < TWO_64 && count < TWO_64 && offset < TWO_64
    ensures logs == Page(lines, count, offset)
  {
    logs := [];
    var total := |lines|;
    if offset >= total {
      return;
    }
    var start := if total > AddSize(offset, count) then SubSize(SubSize(total, offset), count) else 0;
    var end := total - offset;
    var i := start;
    while i < end
      invariant start <= i
      invariant i <= end || i == start
      invariant logs == Between(lines, start, if i <= end then i else end)
    {
      logs := logs + [lines[i]];
      i := i + 1;
    }
  }

  /** The page a reader means: up to `count` lines that end `offset` lines before the last. */
  function Intended<T>(lines: seq<T>, count: nat, offset: nat): seq<T> {
    var end := if offset <= |lines| then |lines| - offset else 0;
    lines[(if count <= end then end - count else 0)..end]
  }

  lemma PageWithoutWrap<T>(lines: seq<T>, count: nat, offset: nat)
    requires |lines| < TWO_64 && count < TWO_64 && offset < TWO_64
    requires offset + count < TWO_64 || |lines| <= offset
    ensures Page(lines, count, offset) == Intended(lines, count, offset)
  {
    if |lines| <= offset {
      assert Intended(lines, count, offset) == [];
    } else {
      assert AddSize(offset, count) == offset + count;
    }
  }

  /** A sum that wraps around looks small, and the difference then wraps around to something huge. */
  lemma PageWithWrap<T>(lines: seq<T>, count: nat, offset: nat)
    requires |lines| < TWO_64 && count < TWO_64 && offset < |lines| && TWO_64 <= offset + count
    ensures Page(lines, count, offset) == [] && |Intended(lines, count, offset)| == |lines| - offset
  {
    assert AddSize(offset, count) == offset + count - TWO_64 < offset;
    assert SubSize(|lines|, offset) == |lines| - offset < count;
    assert SubSize(|lines| - offset, count) == |lines| - offset - count + TWO_64 > |lines| - offset;
  }

  /** The unsigned sum decides: the page is the intended one exactly when `offset + count` does not wrap
      around, or the offset is past the log anyway. */
  lemma PageIntendedIff<T>(lines: seq<T>, count: nat, offset: nat)
    requires |lines| < TWO_64 && count < TWO_64 && offset < TWO_64
    ensures Page(lines, count, offset) == Intended(lines, count, offset) <==>
      offset + count < TWO_64 || |lines| <= offset
  {
    hide Page, Intended;
    if offset + count < TWO_64 || |lines| <= offset {
      PageWithoutWrap(lines, count, offset);
    } else {
      PageWithWrap(lines, count, offset);
    }
  }

  /** Pages `0 .. n`, the oldest first. */
  function Pages<T>(lines: seq<T>, count: nat, n: nat): seq<T>
    requires |lines| < TWO_64 && count < TWO_64 && n * count < TWO_64
    decreases n
  {
    if n == 0 then []
    else
      OnePageLess(count, n);
      Page(lines, count, n * count - count) + Pages(lines, count, n - 1)
  }

  lemma OnePageLess(count: nat, n: nat)
    requires 0 < n
    ensures 0 <= (n - 1) * count == n * count - count
  {
  }

  function PageSize(total: nat, count: nat, offset: nat): nat {
    if offset + count <= total then count else if offset <= total then total - offset else 0
  }

  /** The intended page and the lines after it are the lines from the page's start. */
  lemma IntendedExtends<T>(lines: seq<T>, count: nat, offset: nat)
    ensures Intended(lines, count, offset) + Newest(lines, offset) == Newest(lines, offset + count)
    ensures |Intended(lines, count, offset)| == PageSize(|lines|, count, offset)
  {
  }

  /** The last `k` lines, or all. */
  function Newest<T>(lines: seq<T>, k: nat): seq<T> {
    if k <= |lines| then lines[|lines| - k..] else lines
  }

  /** Paging partitions the history: the first `n` pages joined oldest first are the newest `n * count`
      lines, so enough pages are the whole log; and a page is full unless it reaches the log's start. */
  lemma {:induction false} PagesPartition<T>(lines: seq<T>, count: nat, n: nat)
    requires 0 < count < TWO_64 && |lines| < TWO_64 && n * count < TWO_64
    ensures Pages(lines, count, n) == Newest(lines, n * count)
    ensures 0 < n ==>
      && count <= n * count
      && |Page(lines, count, n * count - count)| == PageSize(|lines|, count, n * count - count)
    decreases n
  {
    if n == 0 {
      assert Newest(lines, 0) == [];
    } else {
      hide Page, Intended, Newest;
      OnePageLess(count, n);
      PagesPartition(lines, count, n - 1);
      PageIntendedIff(lines, count, n * count - count);
      IntendedExtends(lines, count, n * count - count);
    }
  }
}
