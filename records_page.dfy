/** The repair-history page: the records fetched from the server, the ones
    the search box lets through, and the page of them on show, with the
    page links under the table. */
module RecordsPage {
  import opened Common
  import opened Sequences
  import opened Strings
  import opened Schema

  /** Rows per page. */
  const PageSize: nat := 20

  /** Page numbers shown around the current page. */
  const MaxPagesToShow: nat := 5

  // ---------------------------------------------------------------------
  // Search

  /** A text field is non-empty and, lowercased, contains `term`. */
  predicate Mentions(text: string, term: string)
  {
    text != [] && Contains(Lower(text), term)
  }

  /** The search test for a lowercased term: the symptom, the fix, the
      repairer or the machine mentions it. */
  predicate Matches(term: string, rec: MaintenanceRecord)
  {
    Mentions(rec.symptom, term) ||
    (rec.howToFix.Some? && Mentions(rec.howToFix.value, term)) ||
    Mentions(rec.repairer, term) ||
    Mentions(rec.machine, term)
  }

  function MatchesTerm(term: string): MaintenanceRecord -> bool
  {
    (rec: MaintenanceRecord) => Matches(term, rec)
  }

  /** `filterRecords`: every record for an empty search, else the records
      that match the lowercased search term, in their original order. */
  function Filtered(all: seq<MaintenanceRecord>, searchTerm: string): seq<MaintenanceRecord>
  {
    if searchTerm == [] then all else Filter(all, MatchesTerm(Lower(searchTerm)))
  }

  /** An empty search restores every record; otherwise a record is kept
      exactly when one of its four text fields contains the term, case
      ignored. */
  lemma FilteredMeaning(all: seq<MaintenanceRecord>, searchTerm: string)
    ensures searchTerm == [] ==> Filtered(all, searchTerm) == all
    ensures searchTerm != [] ==>
      forall rec :: rec in Filtered(all, searchTerm) <==> rec in all && Matches(Lower(searchTerm), rec)
  {
    FilterMember(all, MatchesTerm(Lower(searchTerm)));
  }

  /** The search keeps the order of the records: what it keeps from the
      first `k` records comes before what it keeps from the rest. */
  lemma FilteredKeepsOrder(all: seq<MaintenanceRecord>, searchTerm: string, k: nat)
    requires k <= |all|
    ensures Filtered(all, searchTerm) == Filtered(all[..k], searchTerm) + Filtered(all[k..], searchTerm)
  {
    assert all == all[..k] + all[k..];
    if searchTerm != [] {
      FilterConcat(all[..k], all[k..], MatchesTerm(Lower(searchTerm)));
    }
  }

  lemma LowerTwice(s: string)
    ensures Lower(Lower(s)) == Lower(s)
  {
  }

  /** Case does not matter in the search box: a term and its lowercase
      form keep the same records. */
  lemma FilteredIgnoresCase(all: seq<MaintenanceRecord>, searchTerm: string)
    ensures Filtered(all, Lower(searchTerm)) == Filtered(all, searchTerm)
  {
    LowerTwice(searchTerm);
  }

  // ---------------------------------------------------------------------
  // Pages

  /** `Math.ceil(length / pageSize)`. */
  function TotalPages(length: nat): nat
  {
    (length + PageSize - 1) / PageSize
  }

  /** The pages hold all the records, and the last page is not empty. */
  lemma TotalPagesBounds(length: nat)
    ensures TotalPages(length) * PageSize >= length
    ensures length > 0 ==> (TotalPages(length) - 1) * PageSize < length
    ensures length == 0 <==> TotalPages(length) == 0
  {
  }

  /** The index of the first record on `page`. */
  function PageStart(page: int): int
  {
    (page - 1) * PageSize
  }

  /** `slice(startIndex, endIndex)` of the table, `endIndex` capped at the
      number of records. */
  function PageSlice(records: seq<MaintenanceRecord>, page: int): (r: seq<MaintenanceRecord>)
    requires page >= 1
    ensures |r| <= PageSize
    ensures |r| > 0 ==> PageStart(page) + |r| <= |records|
    ensures forall k :: 0 <= k < |r| ==> r[k] == records[PageStart(page) + k]
  {
    var start := PageStart(page);
    var end := Min(start + PageSize, |records|);
    if start >= end then [] else records[start..end]
  }

  /** Every record is shown exactly once: record `i` is row `i % 20` of page
      `i / 20 + 1`, a page that exists, and no other page shows index `i`. */
  lemma RecordPage(records: seq<MaintenanceRecord>, i: nat)
    requires i < |records|
    ensures var page := i / PageSize + 1;
      1 <= page <= TotalPages(|records|) &&
      i % PageSize < |PageSlice(records, page)| && PageSlice(records, page)[i % PageSize] == records[i]
    ensures forall page :: page >= 1 && page != i / PageSize + 1 ==>
      !(PageStart(page) <= i < PageStart(page) + |PageSlice(records, page)|)
  {
    var page := i / PageSize + 1;
    assert PageStart(page) + i % PageSize == i;
    forall p | p >= 1 && p != page
      ensures !(PageStart(p) <= i < PageStart(p) + |PageSlice(records, p)|)
    {
      if p < page {
        assert PageStart(p) + PageSize <= PageStart(page);
      } else {
        assert PageStart(page) + PageSize <= PageStart(p);
      }
    }
  }

  /** The "showing from-to of n" line: the numbers of the first and last
      rows of the page. */
  function PageInfo(length: nat, page: int): (int, int)
  {
    (PageStart(page) + 1, Min(page * PageSize, length))
  }

  /** The line names the rows of the page slice. */
  lemma PageInfoMatchesSlice(records: seq<MaintenanceRecord>, page: int)
    requires 1 <= page <= TotalPages(|records|)
    ensures var (first, last) := PageInfo(|records|, page);
      first == PageStart(page) + 1 && last - first + 1 == |PageSlice(records, page)| &&
      |PageSlice(records, page)| >= 1
  {
  }

  // ---------------------------------------------------------------------
  // Page links

  /** The first and last page numbers listed: five pages around the current
      one, shifted to stay within the pages. */
  function PageWindow(current: int, total: int): (int, int)
  {
    var start := Max(1, current - MaxPagesToShow / 2);
    var end := Min(total, start + MaxPagesToShow - 1);
    var start' := if end - start < MaxPagesToShow - 1 then Max(1, end - MaxPagesToShow + 1) else start;
    (start', end)
  }

  /** With the current page among the pages, the window holds it, stays
      within the pages, lists at most five, and lists exactly five when
      there are that many. */
  lemma WindowBounds(current: int, total: int)
    requires 1 <= current <= total
    ensures var (start, end) := PageWindow(current, total);
      1 <= start <= current <= end <= total && end - start <= 4 &&
      (total >= MaxPagesToShow ==> end - start == 4)
  {
  }

  /** An item of the pagination bar: a link to a page (the arrows too) or
      an ellipsis. */
  datatype PageItem = PageLink(page: int, active: bool, disabled: bool) | Gap

  /** The page links from `start` to `end`, the current one marked active. */
  function NumberedLinks(start: int, end: int, current: int): (r: seq<PageItem>)
    decreases end - start
    ensures |r| == if end < start then 0 else end - start + 1
    ensures forall k :: 0 <= k < |r| ==> r[k] == PageLink(start + k, start + k == current, false)
  {
    if end < start then [] else NumberedLinks(start, end - 1, current) + [PageLink(end, end == current, false)]
  }

  /** The previous arrow, then page 1 and an ellipsis when the window
      starts later. */
  function LeadItems(current: int, start: int): seq<PageItem>
  {
    [PageLink(current - 1, false, current == 1)] +
    (if start > 1 then [PageLink(1, false, false)] + (if start > 2 then [Gap] else []) else [])
  }

  /** An ellipsis and the last page when the window ends earlier, then the
      next arrow. */
  function TrailItems(current: int, end: int, total: int): seq<PageItem>
  {
    (if end < total then (if end < total - 1 then [Gap] else []) + [PageLink(total, false, false)] else []) +
    [PageLink(current + 1, false, current == total)]
  }

  /** The pagination bar: nothing for a single page; otherwise the lead
      items, the window of page links and the trailing items. */
  function PaginationItems(current: int, total: int): seq<PageItem>
  {
    if total <= 1 then []
    else
      var (start, end) := PageWindow(current, total);
      LeadItems(current, start) + NumberedLinks(start, end, current) + TrailItems(current, end, total)
  }

  /** The click handler's test on the page a link carries. */
  predicate Accepts(page: int, current: int, total: int)
  {
    page != 0 && page != current && 1 <= page <= total
  }

  /** The bar starts with the previous arrow and ends with the next one; a
      disabled arrow does nothing when clicked, and every other link leads
      to a page that exists. */
  lemma PaginationLinks(current: int, total: int)
    requires 1 <= current <= total && total > 1
    ensures var items := PaginationItems(current, total);
      |items| >= 3 &&
      items[0] == PageLink(current - 1, false, current == 1) &&
      items[|items| - 1] == PageLink(current + 1, false, current == total) &&
      (items[0].disabled ==> !Accepts(items[0].page, current, total)) &&
      (items[|items| - 1].disabled ==> !Accepts(items[|items| - 1].page, current, total)) &&
      forall k :: 0 < k < |items| - 1 && items[k].PageLink? ==> 1 <= items[k].page <= total
  {
    WindowBounds(current, total);
  }

  /** Exactly the link to the current page is marked active. */
  lemma PaginationActive(current: int, total: int)
    requires 1 <= current <= total && total > 1
    ensures var items := PaginationItems(current, total);
      (exists k :: 0 <= k < |items| && items[k] == PageLink(current, true, false)) &&
      forall k :: 0 <= k < |items| && items[k].PageLink? && items[k].active ==> items[k].page == current
  {
    WindowBounds(current, total);
    var (start, end) := PageWindow(current, total);
    var items := PaginationItems(current, total);
    var before := LeadItems(current, start);
    var links := NumberedLinks(start, end, current);
    var after := TrailItems(current, end, total);
    assert items == before + links + after;
    assert items[|before| + current - start] == links[current - start];
    assert forall k :: 0 <= k < |before| ==> items[k] == before[k];
    assert forall k :: |before| <= k < |before| + |links| ==> items[k] == links[k - |before|];
    assert forall k :: |before| + |links| <= k < |items| ==> items[k] == after[k - |before| - |links|];
  }

  /** The loop of `updatePagination` that adds the page links from `start`
      to `end`. */
  method AppendLinks(items: seq<PageItem>, start: int, end: int, current: int) returns (r: seq<PageItem>)
    ensures r == items + NumberedLinks(start, end, current)
  {
    r := items;
    var i := start;
    while i <= end
      invariant start <= i <= if end < start then start else end + 1
      invariant r == items + NumberedLinks(start, i - 1, current)
      decreases end - i
    {
      assert NumberedLinks(start, i, current) == NumberedLinks(start, i - 1, current) + [PageLink(i, i == current, false)];
      r := r + [PageLink(i, i == current, false)];
      i := i + 1;
    }
  }

  // ---------------------------------------------------------------------
  // The page

  class RecordsPage {
    var allRecords: seq<MaintenanceRecord>
    var filteredRecords: seq<MaintenanceRecord>
    var currentPage: int

    /** The current page is a page of the filtered records (page 1 when
        there are none). */
    predicate Valid()
      reads this
    {
      1 <= currentPage && (filteredRecords != [] ==> currentPage <= TotalPages(|filteredRecords|))
    }

    constructor()
      ensures Valid()
      ensures allRecords == [] && filteredRecords == [] && currentPage == 1
    {
      allRecords := [];
      filteredRecords := [];
      currentPage := 1;
    }

    /** `loadRecords`: the records the server returned (`None` when the
        request failed, which leaves the page as it was) replace the list,
        the filtered list becomes the whole list (the text in the search box
        is left as it is, so it no longer matches what is shown) and the
        first page is shown. */
    method LoadRecords(fetched: Option<seq<MaintenanceRecord>>)
      requires Valid()
      modifies this
      ensures Valid()
      ensures fetched.Some? ==>
        allRecords == fetched.value && filteredRecords == fetched.value && currentPage == 1
      ensures fetched.None? ==>
        allRecords == old(allRecords) && filteredRecords == old(filteredRecords) && currentPage == old(currentPage)
    {
      if fetched.Some? {
        allRecords := fetched.value;
        filteredRecords := allRecords;
        currentPage := 1;
      }
    }

    /** `filterRecords`: applies the search to all records and goes back to
        the first page. */
    method FilterRecords(searchTerm: string)
      modifies this
      ensures Valid()
      ensures filteredRecords == Filtered(allRecords, searchTerm)
      ensures allRecords == old(allRecords) && currentPage == 1
    {
      if searchTerm == [] {
        filteredRecords := allRecords;
      } else {
        var term := Lower(searchTerm);
        filteredRecords := Filter(allRecords, MatchesTerm(term));
      }
      currentPage := 1;
    }

    /** The rows `renderTable` shows: none without records, else the slice
        of the current page. */
    function PageRows(): (r: seq<MaintenanceRecord>)
      reads this
      requires Valid()
      ensures filteredRecords != [] ==> 1 <= |r| <= PageSize
      ensures |r| > 0 ==> PageStart(currentPage) + |r| <= |filteredRecords|
      ensures forall k :: 0 <= k < |r| ==> r[k] == filteredRecords[PageStart(currentPage) + k]
    {
      if filteredRecords == [] then [] else PageSlice(filteredRecords, currentPage)
    }

    /** `updatePagination`: the items of the pagination bar, the numbered
        links added one by one. */
    method UpdatePagination() returns (items: seq<PageItem>)
      ensures items == PaginationItems(currentPage, TotalPages(|filteredRecords|))
    {
      var totalPages := TotalPages(|filteredRecords|);
      if totalPages <= 1 {
        return [];
      }
      items := [PageLink(currentPage - 1, false, currentPage == 1)];
      var startPage := Max(1, currentPage - MaxPagesToShow / 2);
      var endPage := Min(totalPages, startPage + MaxPagesToShow - 1);
      if endPage - startPage < MaxPagesToShow - 1 {
        startPage := Max(1, endPage - MaxPagesToShow + 1);
      }
      assert (startPage, endPage) == PageWindow(currentPage, totalPages);
      if startPage > 1 {
        items := items + [PageLink(1, false, false)];
        if startPage > 2 {
          items := items + [Gap];
        }
      }
      assert items == LeadItems(currentPage, startPage);
      items := AppendLinks(items, startPage, endPage, currentPage);
      ghost var body := items;
      if endPage < totalPages {
        if endPage < totalPages - 1 {
          items := items + [Gap];
        }
        items := items + [PageLink(totalPages, false, false)];
      }
      items := items + [PageLink(currentPage + 1, false, currentPage == totalPages)];
      assert items == body + TrailItems(currentPage, endPage, totalPages);
    }

    /** The click handler of a page link: a different page that exists
        becomes the current one; any other click changes nothing. */
    method ClickPage(page: int)
      requires Valid()
      modifies this
      ensures Valid()
      ensures allRecords == old(allRecords) && filteredRecords == old(filteredRecords)
      ensures currentPage == if Accepts(page, old(currentPage), TotalPages(|filteredRecords|)) then page else old(currentPage)
    {
      var totalPages := TotalPages(|filteredRecords|);
      if page != 0 && page != currentPage && page >= 1 && page <= totalPages {
        currentPage := page;
      }
    }
  }
}
