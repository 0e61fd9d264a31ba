/**
 * The `pagination` dict that every `list_jobs` handler assembles from the
 * page window (web.py, scheduler.py and dashboard.py build it with the same
 * statements): one link per window page, a previous-page link when there is
 * an earlier page, a next-page link when there is a later one, and absent
 * links dropped by `remove_none_values`.
 */
module Navigation {
  import opened Json
  import Utils

  /** `url_for('.overview', queue_name=q, page=p)`, an uninterpreted function of queue and page. */
  type UrlFor = (string, int) -> string

  /** `dict(url=url_for('.overview', queue_name=q, page=p))` */
  function Link(queueName: string, page: int, urlFor: UrlFor): Value
  {
    Obj(map["url" := Str(urlFor(queueName, page))])
  }

  /** `[dict(number=p, url=url_for(...)) for p in pages_numbers_in_window]` */
  function PageLinks(window: seq<int>, queueName: string, urlFor: UrlFor): (r: seq<Value>)
    ensures |r| == |window|
  {
    seq(|window|, i requires 0 <= i < |window| =>
      Obj(map["number" := Num(window[i]), "url" := Str(urlFor(queueName, window[i]))]))
  }

  /** The `pagination` dict for `current_page` given the window and `last_page`. */
  function PaginationDict(window: seq<int>, currentPage: int, lastPage: int, queueName: string, urlFor: UrlFor): (r: Dict)
    ensures "pages_in_window" in r && r["pages_in_window"] == Arr(PageLinks(window, queueName, urlFor))
    ensures "prev_page" in r <==> currentPage > 1
    ensures "next_page" in r <==> currentPage < lastPage
    ensures "prev_page" in r ==> r["prev_page"] == Link(queueName, currentPage - 1, urlFor)
    ensures "next_page" in r ==> r["next_page"] == Link(queueName, currentPage + 1, urlFor)
    ensures r.Keys <= {"pages_in_window", "prev_page", "next_page"}
    ensures forall k :: k in r ==> r[k] != Null
  {
    KeysDistinct();
    var prevPage := if currentPage > 1 then Link(queueName, currentPage - 1, urlFor) else Null;
    var nextPage := if currentPage < lastPage then Link(queueName, currentPage + 1, urlFor) else Null;
    var d := map[
      "pages_in_window" := Arr(PageLinks(window, queueName, urlFor)),
      "next_page" := nextPage,
      "prev_page" := prevPage];
    assert d.Keys == {"pages_in_window", "next_page", "prev_page"};
    Utils.RemoveNoneValues(d)
  }

  /**
   * The window, the last page (`ceil(total_items / per_page)`) and the
   * `pagination` dict, computed from the item count as the `list_jobs`
   * handlers of web.py and scheduler.py do.
   */
  function Paginate(totalItems: nat, currentPage: int, perPage: int, windowSize: int, queueName: string, urlFor: UrlFor): (r: Dict)
    requires perPage > 0
    ensures "prev_page" in r <==> currentPage > 1
    ensures "next_page" in r <==> currentPage < Utils.NumPages(totalItems, perPage)
    ensures "pages_in_window" in r
      && r["pages_in_window"] == Arr(PageLinks(Utils.Window(totalItems, currentPage, perPage, windowSize), queueName, urlFor))
    ensures forall k :: k in r ==> r[k] != Null
  {
    var window := Utils.Window(totalItems, currentPage, perPage, windowSize);
    var lastPage := Utils.CeilDiv(totalItems, perPage);
    PaginationDict(window, currentPage, lastPage, queueName, urlFor)
  }

  /** The three keys of the dict differ (in their first letters). */
  lemma KeysDistinct()
    ensures "pages_in_window" != "prev_page" && "pages_in_window" != "next_page" && "prev_page" != "next_page"
  {
    assert "pages_in_window"[0] == 'p' && "prev_page"[2] == 'e' && "pages_in_window"[2] == 'g';
    assert "next_page"[0] == 'n';
  }

  /** Each window entry is linked, in window order, with its own number and URL. */
  lemma PageLinksInWindowOrder(window: seq<int>, queueName: string, urlFor: UrlFor, i: nat)
    requires i < |window|
    ensures var links := PageLinks(window, queueName, urlFor);
      links[i].Obj? && links[i].fields.Keys == {"number", "url"}
      && links[i].fields["number"] == Num(window[i])
      && links[i].fields["url"] == Str(urlFor(queueName, window[i]))
  {
  }
}
