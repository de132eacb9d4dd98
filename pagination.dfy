/**
 * The pager under every list page: a window of at most five consecutive
 * page numbers around the current page, previous/next links, and the link
 * target of each page, which keeps the page's other query parameters.
 */
module Pagination {
  import opened Optional
  import opened Decimal
  import opened Entries

  const MaxPages: int := 5

  /** The first and last page of the window: centred on the current page
      where possible, pulled back to start at 1, cut at the last page, and
      then widened backwards when it was cut short. */
  function WindowBounds(currentPage: int, totalPages: int): (int, int) {
    var start := if currentPage - MaxPages / 2 > 1 then currentPage - MaxPages / 2 else 1;
    var end := if totalPages < start + MaxPages - 1 then totalPages else start + MaxPages - 1;
    var start' := if end - start < MaxPages - 1 then (if end - MaxPages + 1 > 1 then end - MaxPages + 1 else 1) else start;
    (start', end)
  }

  /** The pages `lo..hi`, empty when `hi < lo`. */
  function Range(lo: int, hi: int): (r: seq<int>)
    ensures |r| == if hi < lo then 0 else hi - lo + 1
    ensures forall i | 0 <= i < |r| :: r[i] == lo + i
  {
    seq(if hi < lo then 0 else hi - lo + 1, i => lo + i)
  }

  /** The window is a run of pages inside `1..totalPages`, as long as it can
      be up to five, and holds the current page whenever that page exists. */
  lemma WindowShape(currentPage: int, totalPages: int)
    ensures var (s, e) := WindowBounds(currentPage, totalPages);
      1 <= s && e <= totalPages &&
      |Range(s, e)| == (if totalPages <= 0 then 0 else if totalPages < MaxPages then totalPages else MaxPages) &&
      (1 <= currentPage <= totalPages ==> s <= currentPage <= e)
  {
  }

  /** The window computation, step by step, pushing each page in turn. */
  method PageWindow(currentPage: int, totalPages: int) returns (startPage: int, endPage: int, pages: seq<int>)
    ensures (startPage, endPage) == WindowBounds(currentPage, totalPages)
    ensures pages == Range(startPage, endPage)
  {
    startPage := if 1 > currentPage - MaxPages / 2 then 1 else currentPage - MaxPages / 2;
    endPage := if totalPages < startPage + MaxPages - 1 then totalPages else startPage + MaxPages - 1;
    if endPage - startPage < MaxPages - 1 {
      startPage := if 1 > endPage - MaxPages + 1 then 1 else endPage - MaxPages + 1;
    }
    pages := [];
    var i := startPage;
    while i <= endPage
      invariant startPage <= i <= (if endPage < startPage then startPage else endPage + 1)
      invariant pages == Range(startPage, i - 1)
      decreases endPage - i
    {
      pages := pages + [i];
      i := i + 1;
    }
  }

  /** Exactly the entry equal to the current page is highlighted, and one is
      highlighted iff the current page exists. */
  lemma OneHighlighted(currentPage: int, totalPages: int)
    ensures var (s, e) := WindowBounds(currentPage, totalPages);
      var pages := Range(s, e);
      (forall i, j | 0 <= i < j < |pages| :: !(pages[i] == currentPage && pages[j] == currentPage)) &&
      ((exists i | 0 <= i < |pages| :: pages[i] == currentPage) <==> 1 <= currentPage <= totalPages)
  {
    var (s, e) := WindowBounds(currentPage, totalPages);
    var pages := Range(s, e);
    WindowShape(currentPage, totalPages);
    if 1 <= currentPage <= totalPages {
      assert pages[currentPage - s] == currentPage;
    }
  }

  /** The previous link shows iff there is an earlier page, the next link
      iff there is a later one; both targets are then real pages. */
  function ShowPrev(currentPage: int): (r: bool)
    ensures r ==> currentPage - 1 >= 1
  {
    currentPage > 1
  }

  function ShowNext(currentPage: int, totalPages: int): (r: bool)
    ensures r ==> currentPage + 1 <= totalPages
  {
    currentPage < totalPages
  }

  /** For a current page that exists: the previous link shows exactly when
      the page before is a real page, the next link exactly when the page
      after is; both are hidden only when there is a single page, and the
      page each link leads to is also among the numbered pages shown. */
  lemma PrevNextLinks(currentPage: int, totalPages: int)
    ensures 1 <= currentPage <= totalPages ==>
      (ShowPrev(currentPage) <==> 1 <= currentPage - 1 <= totalPages) &&
      (ShowNext(currentPage, totalPages) <==> 1 <= currentPage + 1 <= totalPages) &&
      (!ShowPrev(currentPage) && !ShowNext(currentPage, totalPages) <==> totalPages == 1)
    ensures var (s, e) := WindowBounds(currentPage, totalPages);
      1 <= currentPage <= totalPages ==>
        (ShowPrev(currentPage) ==> currentPage - 1 in Range(s, e)) &&
        (ShowNext(currentPage, totalPages) ==> currentPage + 1 in Range(s, e))
  {
    var (s, e) := WindowBounds(currentPage, totalPages);
    if 1 <= currentPage <= totalPages {
      WindowShape(currentPage, totalPages);
      if ShowPrev(currentPage) {
        assert Range(s, e)[currentPage - 1 - s] == currentPage - 1;
      }
      if ShowNext(currentPage, totalPages) {
        assert Range(s, e)[currentPage + 1 - s] == currentPage + 1;
      }
    }
  }

  // ---------------------------------------------------------------------
  // Link targets

  /** A query parameter's value: text, a number, or `undefined`. */
  datatype QueryValue = Text(s: string) | Number(n: int) | Undefined

  function Stringify(v: QueryValue): string
    requires !v.Undefined?
  {
    if v.Text? then v.s else IntToString(v.n)
  }

  /** A link target: the path and the ordered query parameters. */
  datatype Href = Href(path: string, query: seq<(string, string)>)

  /** The parameters after setting each defined entry in turn; setting a key
      already present replaces its value in place. */
  function SetEach(params: seq<(string, string)>, entries: seq<(string, QueryValue)>): seq<(string, string)>
    decreases |entries|
  {
    if entries == [] then params
    else
      var before := SetEach(params, entries[..|entries| - 1]);
      var (k, v) := entries[|entries| - 1];
      if v.Undefined? then before else Assign(before, k, Stringify(v))
  }

  /** The value of the last defined entry for `key`, if any. */
  function LastDefined(entries: seq<(string, QueryValue)>, key: string): Option<string>
    decreases |entries|
  {
    if entries == [] then None
    else
      var (k, v) := entries[|entries| - 1];
      if k == key && !v.Undefined? then Some(Stringify(v)) else LastDefined(entries[..|entries| - 1], key)
  }

  lemma {:induction false} SetEachValues(entries: seq<(string, QueryValue)>)
    ensures DistinctKeys(SetEach([], entries))
    ensures forall k :: Get(SetEach([], entries), k) == LastDefined(entries, k)
    decreases |entries|
  {
    if entries != [] {
      SetEachValues(entries[..|entries| - 1]);
      var (k, v) := entries[|entries| - 1];
      if !v.Undefined? {
        AssignGet(SetEach([], entries[..|entries| - 1]), k, Stringify(v));
      }
    }
  }

  /** One more entry set. */
  lemma SetEachStep(entries: seq<(string, QueryValue)>, i: int)
    requires 0 <= i < |entries|
    ensures SetEach([], entries[..i + 1]) ==
      if entries[i].1.Undefined? then SetEach([], entries[..i])
      else Assign(SetEach([], entries[..i]), entries[i].0, Stringify(entries[i].1))
  {
    assert entries[..i + 1][..i] == entries[..i];
  }

  /** `buildHref`: defined parameters in order, then `page` set to the
      requested page. */
  method BuildHref(basePath: string, queryParams: Option<seq<(string, QueryValue)>>, page: int) returns (href: Href)
    ensures href.path == basePath
    ensures href.query == Assign(SetEach([], queryParams.GetOr([])), "page", IntToString(page))
  {
    var params: seq<(string, string)> := [];
    if queryParams.Some? {
      var entries := queryParams.value;
      var i := 0;
      while i < |entries|
        invariant 0 <= i <= |entries|
        invariant params == SetEach([], entries[..i])
      {
        SetEachStep(entries, i);
        var (key, value) := entries[i];
        if !value.Undefined? {
          params := Assign(params, key, Stringify(value));
        }
        i := i + 1;
      }
      assert entries[..|entries|] == entries;
    }
    params := Assign(params, "page", IntToString(page));
    href := Href(basePath, params);
  }

  /** What a link carries: `page` set to the requested page whatever the
      parameters said, every other parameter with its defined value, and
      no parameter whose value is undefined. The query is never empty. */
  lemma HrefQuery(entries: seq<(string, QueryValue)>, page: int)
    ensures var q := Assign(SetEach([], entries), "page", IntToString(page));
      q != [] && DistinctKeys(q) &&
      Get(q, "page") == Some(IntToString(page)) &&
      forall k | k != "page" :: Get(q, k) == LastDefined(entries, k)
  {
    SetEachValues(entries);
    AssignGet(SetEach([], entries), "page", IntToString(page));
  }
}
