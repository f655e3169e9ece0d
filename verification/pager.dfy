/**
 The pagination arithmetic of the command list: how many pages a list of
 commands has, and which slice of it one page shows. Generic over the
 element type, since only the positions matter.
 */
module Pager {

  /** How many commands one page of the command list shows. */
  const CommandsPerPage: nat := 6

  function Min(a: int, b: int): int {
    if a <= b then a else b
  }

  /** Resolves one bound of a JavaScript `Array.prototype.slice` call: a
      negative bound counts back from the end of the array, and the result
      is clamped into `[0, len]`. */
  function ResolveBound(bound: int, len: nat): (r: nat)
    ensures r <= len
    ensures 0 <= bound ==> r == Min(bound, len)
    ensures bound < 0 ==> r == len - Min(-bound, len)
  {
    if bound < 0 then
      (if len + bound < 0 then 0 else len + bound)
    else if bound < len then bound
    else len
  }

  /** JavaScript's `items.slice(start, end)`: the elements from the resolved
      start up to (not including) the resolved end, or nothing when the end
      does not lie after the start. */
  function Slice<T>(items: seq<T>, start: int, end: int): (r: seq<T>)
    ensures |r| <= |items|
    ensures 0 <= start ==>
      forall i :: 0 <= i < |r| ==> start + i < |items| && r[i] == items[start + i]
    ensures 0 <= start && 0 <= end ==>
      |r| == (if Min(end, |items|) <= start then 0 else Min(end, |items|) - start)
  {
    var from := ResolveBound(start, |items|);
    var to := ResolveBound(end, |items|);
    if to <= from then [] else items[from..to]
  }

  /** `calculateTotalPages`: `Math.ceil(items.length / 6)`, the least number
      of pages of six that holds every item. An empty list has zero pages:
      `Math.ceil` is not clamped to one. */
  function TotalPages<T>(items: seq<T>): (r: nat)
    ensures |items| <= r * CommandsPerPage
    ensures r > 0 ==> (r - 1) * CommandsPerPage < |items|
  {
    (|items| + CommandsPerPage - 1) / CommandsPerPage
  }

  /** The commands `CommandSection` shows for `page`:
      `items.slice((page - 1) * 6, (page - 1) * 6 + 6)`. For a page of one or
      more it is exactly the run of items from index `(page - 1) * 6` up to
      index `page * 6`, both cut off at the end of the list: contiguous and in
      the list's own order. */
  function Window<T>(items: seq<T>, page: int): (r: seq<T>)
    ensures |r| <= CommandsPerPage
    ensures 1 <= page ==>
      forall i :: 0 <= i < |r| ==>
        (page - 1) * CommandsPerPage + i < |items| &&
        r[i] == items[(page - 1) * CommandsPerPage + i]
    ensures 1 <= page <= TotalPages(items) ==> 0 < |r|
    ensures 1 <= page && TotalPages(items) < page ==> r == []
    ensures page == 0 ==> r == []
    ensures 1 <= page ==>
      r == items[Min(PageStart(page), |items|)..Min(PageStart(page + 1), |items|)]
  {
    var start := (page - 1) * CommandsPerPage;
    Slice(items, start, start + CommandsPerPage)
  }

  /** Index of the first item on `page`, before clipping to the list. */
  function PageStart(page: int): int {
    (page - 1) * CommandsPerPage
  }

  /** The windows of pages `first`, `first + 1`, ..., `first + count - 1`,
      concatenated in that order: what a reader sees by paging forward
      `count` times starting at `first`. */
  function PagesFrom<T>(items: seq<T>, first: int, count: nat): seq<T>
    decreases count
  {
    if count == 0 then []
    else Window(items, first) + PagesFrom(items, first + 1, count - 1)
  }

  /** Paging forward through `count` pages from `first` shows exactly the
      run of items those pages span, each once and in order. */
  lemma {:induction false} PagesFromIsRun<T>(items: seq<T>, first: int, count: nat)
    requires 1 <= first
    ensures PagesFrom(items, first, count)
         == items[Min(PageStart(first), |items|)..Min(PageStart(first + count), |items|)]
    decreases count
  {
    if count > 0 {
      var n := |items|;
      var a := Min(PageStart(first), n);
      var b := Min(PageStart(first + 1), n);
      var c := Min(PageStart(first + count), n);
      PageStartMonotonic(first, first + 1);
      PageStartMonotonic(first + 1, first + count);
      var window := Window(items, first);
      var rest := PagesFrom(items, first + 1, count - 1);
      assert window == items[a..b];
      PagesFromIsRun(items, first + 1, count - 1);
      assert first + 1 + (count - 1) == first + count;
      assert rest == items[b..c];
      JoinRuns(items, a, b, c, window, rest);
    }
  }

  /** Later pages start no earlier. */
  lemma PageStartMonotonic(p: int, q: int)
    requires p <= q
    ensures PageStart(p) <= PageStart(q)
  {
  }

  /** Two adjacent runs of a list join into one. */
  lemma JoinRuns<T>(items: seq<T>, a: nat, b: nat, c: nat, left: seq<T>, right: seq<T>)
    requires a <= b <= c <= |items|
    requires left == items[a..b] && right == items[b..c]
    ensures left + right == items[a..c]
  {
  }

  /** Coverage: the windows of pages 1 to `TotalPages(items)`, concatenated,
      give back the whole list, with nothing lost and nothing repeated. (That
      each of those windows is non-empty is part of `Window`'s contract.) */
  lemma Coverage<T>(items: seq<T>)
    ensures PagesFrom(items, 1, TotalPages(items)) == items
  {
    PagesFromIsRun(items, 1, TotalPages(items));
  }

  /** A longer list never has fewer pages. */
  lemma TotalPagesMonotonic<T, U>(shorter: seq<T>, longer: seq<U>)
    requires |shorter| <= |longer|
    ensures TotalPages(shorter) <= TotalPages(longer)
  {
  }
}
