/** The page window of the web tables, and the Previous and Next buttons. */
module Pages {

  /** An entry is also its key: a page's number, or which of the two ellipses it is. */
  datatype Entry = Page(n: int) | LeadingEllipsis | TrailingEllipsis

  const PAGE_BUFFER: int := 2

  function Max(a: int, b: int): int {
    if a < b then b else a
  }

  function Min(a: int, b: int): int {
    if a < b then a else b
  }

  /** The middle block, after widening it over a single skipped page. */
  function StartPage(current: int): int {
    var start := Max(current - PAGE_BUFFER, 2);
    if start - 1 == 2 then 2 else start
  }

  function EndPage(current: int, total: int): int {
    var end := Min(current + PAGE_BUFFER, total - 1);
    if end + 1 == total - 1 then total - 1 else end
  }

  function PageRange(from: int, to: int): seq<Entry> {
    if from <= to then seq(to - from + 1, i requires 0 <= i < to - from + 1 => Page(from + i)) else []
  }

  function PageNumbers(current: int, total: int): seq<Entry> {
    var start, end := StartPage(current), EndPage(current, total);
    [Page(1)]
    + (if start > 2 then [LeadingEllipsis] else [])
    + PageRange(start, end)
    + (if end < total - 1 then [TrailingEllipsis] else [])
    + (if total > 1 then [Page(total)] else [])
  }

  /** generatePageNumbers, for any two numbers. */
  method GeneratePageNumbers(currentPage: int, totalPages: int) returns (pageNumbers: seq<Entry>)
    ensures pageNumbers == PageNumbers(currentPage, totalPages)
  {
    var startPage := Max(currentPage - PAGE_BUFFER, 2);
    var endPage := Min(currentPage + PAGE_BUFFER, totalPages - 1);
    pageNumbers := [Page(1)];
    if startPage - 1 == 2 {
      startPage := 2;
    }
    if endPage + 1 == totalPages - 1 {
      endPage := totalPages - 1;
    }
    if startPage > 2 {
      pageNumbers := pageNumbers + [LeadingEllipsis];
    }
    ghost var front := pageNumbers;
    var i := startPage;
    while i <= endPage
      invariant startPage <= i && (i <= endPage + 1 || i == startPage)
      invariant pageNumbers == front + PageRange(startPage, i - 1)
    {
      pageNumbers := pageNumbers + [Page(i)];
      i := i + 1;
    }
    assert PageRange(startPage, i - 1) == PageRange(startPage, endPage);
    if endPage < totalPages - 1 {
      pageNumbers := pageNumbers + [TrailingEllipsis];
    }
    if totalPages > 1 {
      pageNumbers := pageNumbers + [Page(totalPages)];
    }
  }

  // Reading the window back: an ellipsis stands for the pages between its neighbours.

  function Between(from: int, to: int): seq<int> {
    if from <= to then seq(to - from + 1, i requires 0 <= i < to - from + 1 => from + i) else []
  }

  function Expand(previous: int, entries: seq<Entry>): seq<int>
    decreases entries
  {
    if entries == [] then []
    else if entries[0].Page? then [entries[0].n] + Expand(entries[0].n, entries[1..])
    else if |entries| > 1 && entries[1].Page? then
      Between(previous + 1, entries[1].n - 1) + Expand(entries[1].n - 1, entries[1..])
    else []
  }

  lemma RangeSteps(from: int, to: int, rest: seq<Entry>)
    requires from <= to
    ensures PageRange(from, to) + rest == [Page(from)] + (PageRange(from + 1, to) + rest)
    ensures Between(from, to) == [from] + Between(from + 1, to)
  {
  }

  lemma ExpandPage(previous: int, n: int, rest: seq<Entry>)
    ensures Expand(previous, [Page(n)] + rest) == [n] + Expand(n, rest)
  {
    assert ([Page(n)] + rest)[1..] == rest;
  }

  lemma {:induction false} ExpandRange(previous: int, from: int, to: int, rest: seq<Entry>)
    requires from <= to + 1
    ensures Expand(previous, PageRange(from, to) + rest) ==
            Between(from, to) + Expand(if from <= to then to else previous, rest)
    decreases 1 + to - from
  {
    if from <= to {
      ExpandRange(from, from + 1, to, rest);
      RangeSteps(from, to, rest);
      ExpandPage(previous, from, PageRange(from + 1, to) + rest);
    } else {
      assert PageRange(from, to) + rest == rest;
    }
  }

  lemma BetweenConcat(a: int, b: int, c: int)
    requires a <= b + 1 && b <= c
    ensures Between(a, b) + Between(b + 1, c) == Between(a, c)
  {
  }

  /** The part of the window behind the middle block. */
  function Rear(end: int, total: int): seq<Entry> {
    (if end < total - 1 then [TrailingEllipsis] else []) + (if total > 1 then [Page(total)] else [])
  }

  lemma ExpandRear(end: int, total: int)
    requires 1 <= end < total
    ensures Expand(end, Rear(end, total)) == Between(end + 1, total)
  {
    var rear := Rear(end, total);
    assert Expand(total, []) == [];
    if end < total - 1 {
      assert rear[1..] == [Page(total)] && rear[1..][1..] == [];
      assert Expand(total - 1, [Page(total)]) == [total];
      BetweenConcat(end + 1, total - 1, total);
      assert Between(total, total) == [total];
    } else {
      assert rear == [Page(total)] && rear[1..] == [];
      assert Between(end + 1, total) == [total];
    }
  }

  lemma WindowShape(current: int, total: int)
    requires 1 <= current <= total && total > 1
    ensures var start, end := StartPage(current), EndPage(current, total);
            && 2 <= start <= end + 1 && 1 <= end < total
            && (start > 2 ==> start <= end)
  {
  }

  lemma ExpandMiddle(start: int, end: int, total: int)
    requires 2 <= start <= end + 1 && 1 <= end < total
    ensures Expand(start - 1, PageRange(start, end) + Rear(end, total)) == Between(start, total)
  {
    ExpandRange(start - 1, start, end, Rear(end, total));
    ExpandRear(end, total);
    BetweenConcat(start, end, total);
  }

  lemma ExpandLeading(start: int, middle: seq<Entry>)
    requires 2 < start && middle != [] && middle[0] == Page(start)
    ensures Expand(1, [LeadingEllipsis] + middle) == Between(2, start - 1) + Expand(start - 1, middle)
  {
    assert ([LeadingEllipsis] + middle)[1..] == middle;
  }

  /** The window leaves no page out and invents none: expanded, it is exactly 1..total. */
  lemma WindowExpands(current: int, total: int)
    requires 1 <= current <= total
    ensures Expand(0, PageNumbers(current, total)) == Between(1, total)
  {
    var start, end := StartPage(current), EndPage(current, total);
    var entries := PageNumbers(current, total);
    if total == 1 {
      assert entries == [Page(1)] && entries[1..] == [];
      assert Expand(1, []) == [];
    } else {
      WindowShape(current, total);
      ExpandMiddle(start, end, total);
      var middle := PageRange(start, end) + Rear(end, total);
      if start > 2 {
        assert entries == [Page(1)] + ([LeadingEllipsis] + middle);
        ExpandLeading(start, middle);
        BetweenConcat(2, start - 1, total);
      } else {
        assert entries == [Page(1)] + middle;
      }
      assert Expand(0, entries) == [1] + Expand(1, entries[1..]);
      BetweenConcat(1, 1, total);
    }
  }

  /** Every page within two of the current one can be clicked. */
  lemma NearbyPagesAreShown(current: int, total: int, page: int)
    requires 1 <= current <= total && 1 <= page <= total && current - 2 <= page <= current + 2
    ensures Page(page) in PageNumbers(current, total)
  {
    var start, end := StartPage(current), EndPage(current, total);
    if 1 < page < total {
      assert PageRange(start, end)[page - start] == Page(page);
    }
  }

  /** An ellipsis lies between two pages and never hides just one page. */
  predicate EllipsesHideTwo(entries: seq<Entry>) {
    forall i :: 0 <= i < |entries| && !entries[i].Page? ==>
      && 0 < i < |entries| - 1 && entries[i - 1].Page? && entries[i + 1].Page?
      && entries[i + 1].n - entries[i - 1].n - 1 >= 2
  }

  /** Also for a page number left over from a longer listing, unless it is far beyond a short one. */
  lemma EllipsisHidesTwo(current: int, total: int)
    requires 1 <= current && 0 <= total
    requires current <= 5 || current <= total + 1 || total >= 4
    ensures EllipsesHideTwo(PageNumbers(current, total))
  {
  }

  lemma StaleWindow(current: int, total: int)
    requires 5 < current && total + 1 < current && 0 <= total < 4
    ensures PageNumbers(current, total) == [Page(1), LeadingEllipsis] + (if total > 1 then [Page(total)] else [])
    ensures !EllipsesHideTwo(PageNumbers(current, total))
  {
    var entries := PageNumbers(current, total);
    assert PageRange(StartPage(current), EndPage(current, total)) == [];
    assert entries[1] == LeadingEllipsis && (total > 1 ==> entries[1 + 1] == Page(total)) && entries[1 - 1] == Page(1);
  }

  /** When the table component's window is sound, for every page number it can hold. */
  lemma EllipsesHideTwoIff(current: int, total: int)
    requires 1 <= current && 0 <= total
    ensures EllipsesHideTwo(PageNumbers(current, total)) <==> current <= 5 || current <= total + 1 || total >= 4
  {
    if current <= 5 || current <= total + 1 || total >= 4 {
      EllipsisHidesTwo(current, total);
    } else {
      StaleWindow(current, total);
    }
  }

  /** Which pages are shown: the ends, two on each side of the current one, and a page that would be hidden alone. */
  lemma PageIsShownIff(current: int, total: int, page: int)
    requires 1 <= current <= total && 1 <= page <= total
    ensures Page(page) in PageNumbers(current, total) <==>
            || page == 1 || page == total || current - 2 <= page <= current + 2
            || (page == 2 && current == 5) || (page == total - 1 && current == total - 4)
  {
    var start, end := StartPage(current), EndPage(current, total);
    var range := PageRange(start, end);
    assert Page(page) in range <==> start <= page <= end by {
      if start <= page <= end {
        assert range[page - start] == Page(page);
      }
    }
  }

  lemma WindowIsShort(current: int, total: int)
    requires 1 <= current <= total
    ensures |PageNumbers(current, total)| <= 9
  {
  }

  /** React keys are distinct: page numbers rise strictly, and each ellipsis occurs once. */
  lemma KeysAreDistinct(current: int, total: int, i: nat, j: nat)
    requires 1 <= current <= total && i < j < |PageNumbers(current, total)|
    ensures PageNumbers(current, total)[i] != PageNumbers(current, total)[j]
  {
  }

  /** A case where the window hides a single page. */
  lemma StaleCurrentPage()
    ensures PageNumbers(10, 3) == [Page(1), LeadingEllipsis, Page(3)] && !EllipsesHideTwo(PageNumbers(10, 3))
  {
    StaleWindow(10, 3);
  }

  // Previous and Next

  function Previous(current: int): int {
    Max(1, current - 1)
  }

  function Next(current: int, total: int): int {
    Min(total, current + 1)
  }

  function Click(current: int, total: int, next: bool, times: nat): int
    decreases times
  {
    if times == 0 then current
    else Click(if next then Next(current, total) else Previous(current), total, next, times - 1)
  }

  /** The buttons stay in range, and lead from every page to every other. */
  lemma {:induction false} ButtonsReachEveryPage(current: int, total: int, page: int)
    requires 1 <= current <= total && 1 <= page <= total
    ensures 1 <= Next(current, total) <= total && 1 <= Previous(current) <= total
    ensures current <= page ==> Click(current, total, true, page - current) == page
    ensures page <= current ==> Click(current, total, false, current - page) == page
    decreases if current < page then page - current else current - page
  {
    if current < page {
      ButtonsReachEveryPage(Next(current, total), total, page);
    } else if page < current {
      ButtonsReachEveryPage(Previous(current), total, page);
    }
  }
}
