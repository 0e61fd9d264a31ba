/**
 * rq_dashboard/utils.py: the pagination window, `remove_none_values`,
 * the `None` case of `serialize_date` and the `jsonify` error wrapper.
 * The copies of these helpers in web.py and scheduler.py are textually
 * identical and are modelled by the same definitions.
 */
module Utils {
  import opened Wrappers
  import opened Json
  import Slicing

  function Min(a: int, b: int): int { if a <= b then a else b }
  function Max(a: int, b: int): int { if a >= b then a else b }

  /** `int(ceil(a / float(b)))`, computed exactly (the float rounding of huge values is not modelled). */
  function CeilDiv(a: int, b: int): (q: int)
    requires b != 0
    ensures b > 0 ==> (q - 1) * b < a <= q * b
    ensures b < 0 ==> q * b <= a < (q - 1) * b
  {
    if b > 0 then -((-a) / b) else -(a / (-b))
  }

  /** `len(range(1, ceil(total_items / per_page) + 1))`: the number of pages. */
  function NumPages(totalItems: nat, perPage: int): (n: nat)
    requires perPage != 0
    ensures perPage > 0 ==> n == CeilDiv(totalItems, perPage)
    ensures perPage > 0 ==> (n == 0 <==> totalItems == 0)
    ensures perPage > 0 ==> (n - 1) * perPage < totalItems <= n * perPage
  {
    var c := CeilDiv(totalItems, perPage);
    if c < 0 then 0 else c
  }

  /** `range(1, m + 1)` as a sequence: the pages `first..first+count-1`. */
  function Pages(first: int, count: nat): (r: seq<int>)
    ensures |r| == count
    ensures forall i :: 0 <= i < count ==> r[i] == first + i
  {
    seq(count, i => first + i)
  }

  /** The offset into `range(1, n+1)` at which `pagination_window` starts its slice. */
  function WindowStart(numPages: nat, curPage: int, windowSize: int): nat
  {
    Max(0, Min(numPages - windowSize, (curPage - 1) - CeilDiv(windowSize, 2)))
  }

  /**
   * `pagination_window(total_items, cur_page, per_page, window_size)`:
   * all page numbers when `window_size < 1`, otherwise the slice
   * `all_pages[start:start+window_size]` with the start centred on the
   * current page and clamped to the page range.
   */
  function Window(totalItems: nat, curPage: int, perPage: int, windowSize: int): (r: seq<int>)
    requires perPage != 0
    ensures forall i :: 0 <= i < |r| ==> 1 <= r[i] <= NumPages(totalItems, perPage)
    ensures forall i :: 0 < i < |r| ==> r[i] == r[i - 1] + 1
  {
    var allPages := Pages(1, NumPages(totalItems, perPage));
    if windowSize >= 1 then
      var start := WindowStart(|allPages|, curPage, windowSize);
      Slicing.PySliceNonNegative(allPages, start, start + windowSize);
      Slicing.PySlice(allPages, start, start + windowSize)
    else allPages
  }

  /** The window as the page run it is: `Pages(start + 1, min(window_size, n))` for a positive window size. */
  lemma WindowIsRun(totalItems: nat, curPage: int, perPage: int, windowSize: int)
    requires perPage != 0 && windowSize >= 1
    ensures var n := NumPages(totalItems, perPage);
      Window(totalItems, curPage, perPage, windowSize)
        == Pages(WindowStart(n, curPage, windowSize) + 1, Min(windowSize, n))
  {
    var n := NumPages(totalItems, perPage);
    var allPages := Pages(1, n);
    var start := WindowStart(n, curPage, windowSize);
    Slicing.PySliceNonNegative(allPages, start, start + windowSize);
    assert start <= n;
    assert start + Min(windowSize, n) <= n;
  }

  /** A positive window size gives exactly `min(window_size, num_pages)` pages. */
  lemma WindowLength(totalItems: nat, curPage: int, perPage: int, windowSize: int)
    requires perPage != 0 && windowSize >= 1
    ensures |Window(totalItems, curPage, perPage, windowSize)| == Min(windowSize, NumPages(totalItems, perPage))
  {
    WindowIsRun(totalItems, curPage, perPage, windowSize);
  }

  /** A window size below 1 gives every page `1..num_pages`. */
  lemma WindowAllPages(totalItems: nat, curPage: int, perPage: int, windowSize: int)
    requires perPage != 0 && windowSize < 1
    ensures Window(totalItems, curPage, perPage, windowSize) == Pages(1, NumPages(totalItems, perPage))
  {
  }

  /** An empty collection has no pages at all, so its window is empty. */
  lemma WindowEmpty(curPage: int, perPage: int, windowSize: int)
    requires perPage > 0
    ensures Window(0, curPage, perPage, windowSize) == []
  {
  }

  /** With at least two slots, the window contains every valid current page. */
  lemma WindowContainsCurrent(totalItems: nat, curPage: int, perPage: int, windowSize: int)
    requires perPage != 0 && windowSize >= 2
    requires 1 <= curPage <= NumPages(totalItems, perPage)
    ensures curPage in Window(totalItems, curPage, perPage, windowSize)
  {
    var n := NumPages(totalItems, perPage);
    var start := WindowStart(n, curPage, windowSize);
    WindowIsRun(totalItems, curPage, perPage, windowSize);
    var r := Window(totalItems, curPage, perPage, windowSize);
    assert start + 1 <= curPage < start + 1 + Min(windowSize, n);
    assert r[curPage - start - 1] == curPage;
  }

  /**
   * With a single slot the window holds the page BEFORE the current one
   * (for current pages from 2 on), since the start is `cur_page - 2`.
   */
  lemma WindowOfOneLagsBehind(totalItems: nat, curPage: int, perPage: int)
    requires perPage != 0
    requires 2 <= curPage <= NumPages(totalItems, perPage)
    ensures Window(totalItems, curPage, perPage, 1) == [curPage - 1]
  {
    WindowIsRun(totalItems, curPage, perPage, 1);
  }

  /**
   * Away from both ends the window starts `ceil(window_size / 2)` pages
   * before the current page and holds `window_size` pages.
   */
  lemma WindowCentred(totalItems: nat, curPage: int, perPage: int, windowSize: int)
    requires perPage != 0 && windowSize >= 1
    requires var half := CeilDiv(windowSize, 2);
      curPage - half >= 1 && curPage - half + windowSize - 1 <= NumPages(totalItems, perPage)
    ensures Window(totalItems, curPage, perPage, windowSize)
      == Pages(curPage - CeilDiv(windowSize, 2), windowSize)
  {
    WindowIsRun(totalItems, curPage, perPage, windowSize);
  }

  /** With the default ten slots, away from the ends the window is `cur_page-5 .. cur_page+4`. */
  lemma DefaultWindowCentred(totalItems: nat, curPage: int, perPage: int)
    requires perPage != 0
    requires 6 <= curPage && curPage + 4 <= NumPages(totalItems, perPage)
    ensures Window(totalItems, curPage, perPage, 10) == Pages(curPage - 5, 10)
  {
    WindowCentred(totalItems, curPage, perPage, 10);
  }

  /** Near page 1 the window sits flush against page 1. */
  lemma WindowFlushWithFirst(totalItems: nat, curPage: int, perPage: int, windowSize: int)
    requires perPage != 0 && windowSize >= 1
    requires curPage - CeilDiv(windowSize, 2) <= 1
    ensures Window(totalItems, curPage, perPage, windowSize)
      == Pages(1, Min(windowSize, NumPages(totalItems, perPage)))
  {
    WindowIsRun(totalItems, curPage, perPage, windowSize);
  }

  /** Near the last page the window sits flush against the last page. */
  lemma WindowFlushWithLast(totalItems: nat, curPage: int, perPage: int, windowSize: int)
    requires perPage != 0 && windowSize >= 1
    requires windowSize <= NumPages(totalItems, perPage)
    requires curPage - CeilDiv(windowSize, 2) + windowSize - 1 >= NumPages(totalItems, perPage)
    ensures var n := NumPages(totalItems, perPage);
      Window(totalItems, curPage, perPage, windowSize) == Pages(n - windowSize + 1, windowSize)
  {
    WindowIsRun(totalItems, curPage, perPage, windowSize);
  }

  /** `remove_none_values`: keeps exactly the entries whose value is not `None`, unchanged. */
  function RemoveNoneValues(d: Dict): (r: Dict)
    ensures forall k :: k in r <==> k in d && d[k] != Null
    ensures forall k :: k in r ==> r[k] == d[k]
  {
    map k | k in d && d[k] != Null :: d[k]
  }

  /** Removing `None` values twice is the same as removing them once. */
  lemma RemoveNoneValuesIdempotent(d: Dict)
    ensures RemoveNoneValues(RemoveNoneValues(d)) == RemoveNoneValues(d)
  {
  }

  /** `serialize_date`: an absent timestamp stays absent, a present one becomes a string. */
  function SerializeDate<T>(dt: Option<T>, isoFormat: T -> string): (r: Value)
    ensures r == Null <==> dt.None?
    ensures dt.Some? ==> r.Str?
  {
    match dt
    case None => Null
    case Some(t) => Str(isoFormat(t))
  }

  /** An exception raised by a wrapped handler: its message and its formatted traceback. */
  datatype Exception = Exception(message: string, traceback: string)

  /**
   * The `jsonify` decorator: a handler's dict is passed through; an exception
   * becomes `{status: 'error'}`, plus `reason` and `exc_info` when DEBUG is on.
   */
  function Jsonify(outcome: Result<Dict, Exception>, debug: bool): (r: Dict)
    ensures outcome.Ok? ==> r == outcome.value
    ensures outcome.Err? ==>
      && "status" in r && r["status"] == Str("error")
      && ("reason" in r <==> debug)
      && ("exc_info" in r <==> debug)
      && (debug ==> r["reason"] == Str(outcome.error.message))
      && r.Keys <= {"status", "reason", "exc_info"}
  {
    match outcome
    case Ok(d) => d
    case Err(e) =>
      var base := map["status" := Str("error")];
      if debug then base["reason" := Str(e.message)]["exc_info" := Str(e.traceback)] else base
  }
}
