/**
 Listing a table page by page.  The listing is one fixed sequence: the rows that pass the
 filter, in the order the query asks for, with ties always broken the same way.
 */
module Listing {
  import opened Arithmetic

  datatype Cursor = Cursor(offset: int, limit: int)

  /** PaginationCursor.Validate. */
  predicate Valid(page: Cursor) {
    0 <= page.limit && 0 <= page.offset
  }

  function Min(a: int, b: int): int {
    if a < b then a else b
  }

  /** ApplyOffsetLimit: a limit of zero is no limit. */
  function Slice<T>(listing: seq<T>, page: Cursor): seq<T>
    requires Valid(page)
  {
    var rest := listing[Min(page.offset, |listing|)..];
    if page.limit == 0 then rest else rest[..Min(page.limit, |rest|)]
  }

  /** A limit of zero asks for everything from the offset on, also beyond the end. */
  lemma NoLimit<T>(listing: seq<T>, offset: nat)
    ensures listing[..Min(offset, |listing|)] + Slice(listing, Cursor(offset, 0)) == listing
  {
  }

  /** Math.ceil(count / perPage), and no pages without rows. */
  function TotalPages(count: nat, perPage: nat): nat
    requires perPage > 0
  {
    if count == 0 then 0 else (count + perPage - 1) / perPage
  }

  /** The request the table component makes for a page. */
  function PageCursor(page: nat, perPage: nat): Cursor
    requires page >= 1
  {
    Cursor((page - 1) * perPage, perPage)
  }

  function PageOf<T>(listing: seq<T>, page: nat, perPage: nat): seq<T>
    requires page >= 1
  {
    OffsetIsValid(page - 1, perPage);
    Slice(listing, PageCursor(page, perPage))
  }

  lemma OffsetIsValid(a: nat, b: nat)
    ensures 0 <= a * b
  {
  }

  /** Pages 1 to `pages`, one after the other. */
  function AllPages<T>(listing: seq<T>, pages: nat, perPage: nat): seq<T> {
    if pages == 0 then [] else AllPages(listing, pages - 1, perPage) + PageOf(listing, pages, perPage)
  }

  lemma {:induction false} AllPagesPrefix<T>(listing: seq<T>, pages: nat, perPage: nat)
    requires perPage > 0
    ensures 0 <= pages * perPage
    ensures AllPages(listing, pages, perPage) == listing[..Min(pages * perPage, |listing|)]
  {
    if pages > 0 {
      AllPagesPrefix(listing, pages - 1, perPage);
      assert pages * perPage == (pages - 1) * perPage + perPage;
      PrefixAndSlice(listing, (pages - 1) * perPage, perPage);
    }
  }

  lemma PrefixAndSlice<T>(listing: seq<T>, offset: nat, limit: nat)
    requires limit > 0
    ensures listing[..Min(offset, |listing|)] + Slice(listing, Cursor(offset, limit)) ==
            listing[..Min(offset + limit, |listing|)]
  {
  }

  /** How many pages it takes: enough for every row, and none to spare. */
  lemma TotalPagesBounds(count: nat, perPage: nat)
    requires perPage > 0
    ensures count <= TotalPages(count, perPage) * perPage
    ensures count > 0 ==> 0 < TotalPages(count, perPage) && (TotalPages(count, perPage) - 1) * perPage < count
  {
    if count > 0 {
      var n := count + perPage - 1;
      var q := n / perPage;
      assert n == perPage * q + n % perPage;
      assert q * perPage == perPage * q;
      assert (q - 1) * perPage == q * perPage - perPage;
      if q <= 0 {
        ProductMonotone(perPage, q, 0);
      }
    }
  }

  /** The pages partition the listing: one after the other they are exactly all its rows, in order. */
  lemma PagesPartitionTheListing<T>(listing: seq<T>, perPage: nat)
    requires perPage > 0
    ensures AllPages(listing, TotalPages(|listing|, perPage), perPage) == listing
  {
    var pages := TotalPages(|listing|, perPage);
    AllPagesPrefix(listing, pages, perPage);
    TotalPagesBounds(|listing|, perPage);
    assert listing[..|listing|] == listing;
  }

  /** Every page but the last is full, the last one is not empty, and beyond it there is nothing. */
  lemma PageSizes<T>(listing: seq<T>, page: nat, perPage: nat)
    requires perPage > 0 && page >= 1
    ensures var pages := TotalPages(|listing|, perPage);
            && (page < pages ==> |PageOf(listing, page, perPage)| == perPage)
            && (page == pages ==> 0 < |PageOf(listing, page, perPage)| <= perPage)
            && (page > pages ==> PageOf(listing, page, perPage) == [])
  {
    var pages := TotalPages(|listing|, perPage);
    TotalPagesBounds(|listing|, perPage);
    OffsetIsValid(page - 1, perPage);
    if page < pages {
      ProductMonotone(perPage, page, pages - 1);
      assert page * perPage == (page - 1) * perPage + perPage;
    } else if page > pages {
      ProductMonotone(perPage, pages, page - 1);
    }
  }

  // Count and list see the same rows.

  function Filter<T>(table: seq<T>, admits: T -> bool): seq<T> {
    if table == [] then []
    else (if admits(table[0]) then [table[0]] else []) + Filter(table[1..], admits)
  }

  /** A listing is any ordering of the filtered rows; which one is the query's business. */
  ghost predicate IsListing<T>(table: seq<T>, admits: T -> bool, listing: seq<T>) {
    multiset(listing) == multiset(Filter(table, admits))
  }

  function CountRows<T>(table: seq<T>, admits: T -> bool): nat {
    if table == [] then 0 else (if admits(table[0]) then 1 else 0) + CountRows(table[1..], admits)
  }

  lemma {:induction false} CountIsFilteredLength<T>(table: seq<T>, admits: T -> bool)
    ensures CountRows(table, admits) == |Filter(table, admits)|
  {
    if table != [] {
      CountIsFilteredLength(table[1..], admits);
    }
  }

  lemma {:induction false} FilterKeepsMultiplicity<T>(table: seq<T>, admits: T -> bool, x: T)
    ensures multiset(Filter(table, admits))[x] == if admits(x) then multiset(table)[x] else 0
  {
    if table != [] {
      FilterKeepsMultiplicity(table[1..], admits, x);
      assert table == [table[0]] + table[1..];
    }
  }

  /**
   The table component asks for the count and for pages separately.  On an unchanged table the
   pages it offers cover every matching row exactly once, whatever the order.
   */
  lemma PagesCoverTheCount<T>(table: seq<T>, admits: T -> bool, listing: seq<T>, perPage: nat)
    requires perPage > 0 && IsListing(table, admits, listing)
    ensures CountRows(table, admits) == |listing|
    ensures multiset(AllPages(listing, TotalPages(CountRows(table, admits), perPage), perPage)) ==
            multiset(Filter(table, admits))
  {
    CountIsFilteredLength(table, admits);
    assert |multiset(listing)| == |listing|;
    assert |multiset(Filter(table, admits))| == |Filter(table, admits)|;
    PagesPartitionTheListing(listing, perPage);
  }
}
