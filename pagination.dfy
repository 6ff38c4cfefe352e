/**
 * The page-number strip under the product listing: every page when there
 * are at most five, otherwise a window of up to five pages around the
 * current one, the first and the last page, and an ellipsis over each gap.
 */
module Pagination {
  import opened Wrappers
  import opened SearchParams
  import NumberText

  datatype PageEntry = Num(n: int) | Ellipsis

  const MaxVisible := 5

  /** The numbers `a` through `b`, in order. */
  function Range(a: int, b: int): (r: seq<PageEntry>)
    ensures |r| == Max(0, b - a + 1)
    ensures forall k :: 0 <= k < |r| ==> r[k] == Num(a + k)
    decreases b - a
  {
    if a > b then [] else Range(a, b - 1) + [Num(b)]
  }

  function WindowStart(currentPage: int): int { Max(1, currentPage - 2) }

  function WindowEnd(currentPage: int, totalPages: int): int { Min(totalPages, currentPage + 2) }

  /** Page 1, and an ellipsis when the window starts after page 2. */
  function Head(start: int): seq<PageEntry> {
    if start > 1 then [Num(1)] + (if start > 2 then [Ellipsis] else []) else []
  }

  /** The last page, and an ellipsis before it when the window ends before the page before it. */
  function Tail(end: int, totalPages: int): seq<PageEntry> {
    if end < totalPages then (if end < totalPages - 1 then [Ellipsis] else []) + [Num(totalPages)] else []
  }

  /** The strip, by cases. */
  function PageNumbers(currentPage: int, totalPages: int): seq<PageEntry> {
    if totalPages <= MaxVisible then Range(1, totalPages)
    else
      var start := WindowStart(currentPage);
      var end := WindowEnd(currentPage, totalPages);
      Head(start) + Range(start, end) + Tail(end, totalPages)
  }

  /** `for (let i = a; i <= b; i++) pages.push(i)`. */
  method PushRange(pages: seq<PageEntry>, a: int, b: int) returns (r: seq<PageEntry>)
    ensures r == pages + Range(a, b)
  {
    r := pages;
    var i := a;
    while i <= b
      invariant a <= i <= Max(a, b + 1)
      invariant r == pages + Range(a, i - 1)
      decreases b - i
    {
      r := r + [Num(i)];
      i := i + 1;
    }
  }

  /** `getPageNumbers`, pushing entries in order. */
  method GetPageNumbers(currentPage: int, totalPages: int) returns (pages: seq<PageEntry>)
    ensures pages == PageNumbers(currentPage, totalPages)
  {
    if totalPages <= MaxVisible {
      pages := PushRange([], 1, totalPages);
    } else {
      var start := Max(1, currentPage - 2);
      var end := Min(totalPages, currentPage + 2);
      pages := PushHead(start);
      pages := PushRange(pages, start, end);
      pages := PushTail(pages, end, totalPages);
    }
  }

  /** The pushes before the window. */
  method PushHead(start: int) returns (pages: seq<PageEntry>)
    ensures pages == Head(start)
  {
    pages := [];
    if start > 1 {
      pages := pages + [Num(1)];
      if start > 2 {
        pages := pages + [Ellipsis];
      }
    }
  }

  /** The pushes after the window. */
  method PushTail(pages: seq<PageEntry>, end: int, totalPages: int) returns (r: seq<PageEntry>)
    ensures r == pages + Tail(end, totalPages)
  {
    r := pages;
    if end < totalPages {
      if end < totalPages - 1 {
        r := r + [Ellipsis];
      }
      r := r + [Num(totalPages)];
    }
  }

  /** With at most five pages the strip is exactly 1, 2, …, totalPages. */
  lemma FewPagesAllShown(currentPage: int, totalPages: int)
    requires totalPages <= MaxVisible
    ensures |PageNumbers(currentPage, totalPages)| == Max(0, totalPages)
    ensures forall k :: 0 <= k < |PageNumbers(currentPage, totalPages)| ==>
              PageNumbers(currentPage, totalPages)[k] == Num(k + 1)
  {
  }

  /** Numbers strictly increase and lie between 1 and totalPages, for any inputs. */
  lemma NumbersIncreaseWithinRange(currentPage: int, totalPages: int)
    ensures NumsWithin(PageNumbers(currentPage, totalPages), 1, totalPages)
    ensures NumsIncrease(PageNumbers(currentPage, totalPages))
  {
    if totalPages <= MaxVisible {
      RangeIncreasesWithin(1, totalPages);
    } else {
      var start := WindowStart(currentPage);
      var end := WindowEnd(currentPage, totalPages);
      var h := Head(start);
      var w := Range(start, end);
      var t := Tail(end, totalPages);
      assert PageNumbers(currentPage, totalPages) == h + (w + t);
      HeadNums(start);
      Widen(h, 1, 1, 1, totalPages);
      TailNums(end, totalPages);
      if start > end && start == 1 {
        assert h == [] && w == [];
        assert h + (w + t) == t;
        Widen(t, totalPages, totalPages, 1, totalPages);
      } else if start > end {
        assert w == [] && t == [];
        assert h + (w + t) == h;
      } else {
        RangeIncreasesWithin(start, end);
        ConcatIncreases(w, t, start, end, totalPages);
        Widen(w, start, end, start, totalPages);
        Widen(t, end + 1, totalPages, start, totalPages);
        ConcatWithin(w, t, start, totalPages);
        ConcatIncreases(h, w + t, 1, start - 1, totalPages);
        Widen(w + t, start, totalPages, 1, totalPages);
        ConcatWithin(h, w + t, 1, totalPages);
      }
    }
  }

  lemma HeadNums(start: int)
    ensures NumsWithin(Head(start), 1, start - 1) && NumsWithin(Head(start), 1, 1)
    ensures NumsIncrease(Head(start))
  {
  }

  lemma TailNums(end: int, totalPages: int)
    ensures NumsWithin(Tail(end, totalPages), end + 1, totalPages)
    ensures NumsWithin(Tail(end, totalPages), totalPages, totalPages)
    ensures NumsIncrease(Tail(end, totalPages))
  {
  }

  lemma Widen(r: seq<PageEntry>, lo: int, hi: int, lo2: int, hi2: int)
    requires NumsWithin(r, lo, hi) && lo2 <= lo && hi <= hi2
    ensures NumsWithin(r, lo2, hi2)
  {
  }

  /** Every number in `r` lies between `lo` and `hi`. */
  predicate NumsWithin(r: seq<PageEntry>, lo: int, hi: int) {
    forall i :: (0 <= i < |r| && r[i].Num?) ==> lo <= r[i].n <= hi
  }

  /** Reading left to right, the numbers of `r` strictly increase. */
  predicate NumsIncrease(r: seq<PageEntry>) {
    forall i, j :: (0 <= i < j < |r| && r[i].Num? && r[j].Num?) ==> r[i].n < r[j].n
  }

  lemma RangeIncreasesWithin(a: int, b: int)
    ensures NumsWithin(Range(a, b), a, b)
    ensures NumsIncrease(Range(a, b))
  {
  }

  lemma ConcatWithin(x: seq<PageEntry>, y: seq<PageEntry>, lo: int, hi: int)
    requires NumsWithin(x, lo, hi) && NumsWithin(y, lo, hi)
    ensures NumsWithin(x + y, lo, hi)
  {
    var r := x + y;
    forall i | 0 <= i < |r| && r[i].Num? ensures lo <= r[i].n <= hi {
      if i < |x| {
        assert r[i] == x[i];
      } else {
        assert r[i] == y[i - |x|];
      }
    }
  }

  /** An increasing run whose numbers are at most `mid`, followed by one whose numbers exceed `mid`, increases. */
  lemma ConcatIncreases(x: seq<PageEntry>, y: seq<PageEntry>, lo: int, mid: int, hi: int)
    requires NumsWithin(x, lo, mid) && NumsIncrease(x)
    requires NumsWithin(y, mid + 1, hi) && NumsIncrease(y)
    ensures NumsIncrease(x + y)
  {
    var r := x + y;
    forall i, j | 0 <= i < j < |r| && r[i].Num? && r[j].Num? ensures r[i].n < r[j].n {
      if j < |x| {
        assert r[i] == x[i] && r[j] == x[j];
      } else if i < |x| {
        assert r[i] == x[i] && r[j] == y[j - |x|];
      } else {
        assert r[i] == y[i - |x|] && r[j] == y[j - |x|];
      }
    }
  }

  /** Never more than nine entries: two for the head, five for the window, two for the tail. */
  lemma AtMostNineEntries(currentPage: int, totalPages: int)
    ensures |PageNumbers(currentPage, totalPages)| <= 9
  {
  }

  /** With a current page in range, the strip starts at page 1, ends at the last page and shows the whole window. */
  lemma WindowShown(currentPage: int, totalPages: int)
    requires 1 <= currentPage <= totalPages
    ensures PageNumbers(currentPage, totalPages)[0] == Num(1)
    ensures PageNumbers(currentPage, totalPages)[|PageNumbers(currentPage, totalPages)| - 1] == Num(totalPages)
    ensures Num(currentPage) in PageNumbers(currentPage, totalPages)
    ensures WindowStart(currentPage) <= currentPage <= WindowEnd(currentPage, totalPages)
    ensures totalPages > MaxVisible ==>
              forall n :: WindowStart(currentPage) <= n <= WindowEnd(currentPage, totalPages) ==>
                Num(n) in PageNumbers(currentPage, totalPages)
  {
    var r := PageNumbers(currentPage, totalPages);
    if totalPages <= MaxVisible {
      assert r[currentPage - 1] == Num(currentPage);
    } else {
      var start := WindowStart(currentPage);
      var end := WindowEnd(currentPage, totalPages);
      var h := Head(start);
      var w := Range(start, end);
      assert r == h + w + Tail(end, totalPages);
      forall n | start <= n <= end ensures Num(n) in r {
        assert r[|h| + n - start] == w[n - start];
      }
    }
  }

  /**
   * Numbers side by side are consecutive, and each ellipsis sits between
   * two numbers that are more than one apart.
   */
  predicate WellSpaced(r: seq<PageEntry>) {
    (forall i :: (0 <= i < |r| - 1 && r[i].Num? && r[i + 1].Num?) ==> r[i + 1].n == r[i].n + 1) &&
    (forall i :: (0 <= i < |r| && r[i].Ellipsis?) ==>
       0 < i < |r| - 1 && r[i - 1].Num? && r[i + 1].Num? && r[i + 1].n > r[i - 1].n + 1)
  }

  lemma RangeWellSpaced(a: int, b: int)
    ensures WellSpaced(Range(a, b))
  {
  }

  lemma PrependFirstPage(s: seq<PageEntry>)
    requires WellSpaced(s) && s != [] && s[0] == Num(2)
    ensures WellSpaced([Num(1)] + s)
  {
    var r := [Num(1)] + s;
    forall i | 0 <= i < |r| - 1 && r[i].Num? && r[i + 1].Num? ensures r[i + 1].n == r[i].n + 1 {
      if i > 0 {
        assert r[i] == s[i - 1] && r[i + 1] == s[i];
      }
    }
    forall i | 0 <= i < |r| && r[i].Ellipsis?
      ensures 0 < i < |r| - 1 && r[i - 1].Num? && r[i + 1].Num? && r[i + 1].n > r[i - 1].n + 1
    {
      assert r[i] == s[i - 1];
      if i > 1 {
        assert r[i - 1] == s[i - 2];
      }
      assert r[i + 1] == s[i];
    }
  }

  lemma PrependFirstPageAndGap(s: seq<PageEntry>)
    requires WellSpaced(s) && s != [] && s[0].Num? && s[0].n > 2
    ensures WellSpaced([Num(1), Ellipsis] + s)
  {
    var r := [Num(1), Ellipsis] + s;
    forall i | 0 <= i < |r| - 1 && r[i].Num? && r[i + 1].Num? ensures r[i + 1].n == r[i].n + 1 {
      assert i >= 2;
      assert r[i] == s[i - 2] && r[i + 1] == s[i - 1];
    }
    forall i | 0 <= i < |r| && r[i].Ellipsis?
      ensures 0 < i < |r| - 1 && r[i - 1].Num? && r[i + 1].Num? && r[i + 1].n > r[i - 1].n + 1
    {
      if i > 1 {
        assert r[i] == s[i - 2];
        if i > 2 {
          assert r[i - 1] == s[i - 3];
        }
        assert r[i + 1] == s[i - 1];
      }
    }
  }

  lemma AppendLastPage(s: seq<PageEntry>, totalPages: int)
    requires WellSpaced(s) && s != [] && s[|s| - 1] == Num(totalPages - 1)
    ensures WellSpaced(s + [Num(totalPages)])
  {
    var r := s + [Num(totalPages)];
    forall i | 0 <= i < |r| - 1 && r[i].Num? && r[i + 1].Num? ensures r[i + 1].n == r[i].n + 1 {
      assert r[i] == s[i];
      if i + 1 < |s| {
        assert r[i + 1] == s[i + 1];
      }
    }
    forall i | 0 <= i < |r| && r[i].Ellipsis?
      ensures 0 < i < |r| - 1 && r[i - 1].Num? && r[i + 1].Num? && r[i + 1].n > r[i - 1].n + 1
    {
      assert i < |s| && r[i] == s[i];
      assert r[i - 1] == s[i - 1] && r[i + 1] == s[i + 1];
    }
  }

  lemma AppendGapAndLastPage(s: seq<PageEntry>, totalPages: int)
    requires WellSpaced(s) && s != [] && s[|s| - 1].Num? && s[|s| - 1].n < totalPages - 1
    ensures WellSpaced(s + [Ellipsis, Num(totalPages)])
  {
    var r := s + [Ellipsis, Num(totalPages)];
    forall i | 0 <= i < |r| - 1 && r[i].Num? && r[i + 1].Num? ensures r[i + 1].n == r[i].n + 1 {
      assert i + 1 < |s|;
      assert r[i] == s[i] && r[i + 1] == s[i + 1];
    }
    forall i | 0 <= i < |r| && r[i].Ellipsis?
      ensures 0 < i < |r| - 1 && r[i - 1].Num? && r[i + 1].Num? && r[i + 1].n > r[i - 1].n + 1
    {
      if i < |s| {
        assert r[i] == s[i];
        assert r[i - 1] == s[i - 1] && r[i + 1] == s[i + 1];
      } else {
        assert i == |s| && r[i - 1] == s[|s| - 1] && r[i + 1] == Num(totalPages);
      }
    }
  }

  /** With a current page in range, an ellipsis stands exactly where two neighbouring numbers are more than one apart. */
  lemma EllipsisExactlyAtGaps(currentPage: int, totalPages: int)
    requires 1 <= currentPage <= totalPages
    ensures WellSpaced(PageNumbers(currentPage, totalPages))
  {
    if totalPages <= MaxVisible {
      RangeWellSpaced(1, totalPages);
    } else {
      var start := WindowStart(currentPage);
      var end := WindowEnd(currentPage, totalPages);
      var w := Range(start, end);
      RangeWellSpaced(start, end);
      assert w[0] == Num(start) && w[|w| - 1] == Num(end);
      var hw := Head(start) + w;
      HeadKeepsWellSpaced(w, start);
      assert hw[|hw| - 1] == Num(end);
      TailKeepsWellSpaced(hw, end, totalPages);
      assert PageNumbers(currentPage, totalPages) == hw + Tail(end, totalPages);
    }
  }

  lemma HeadKeepsWellSpaced(w: seq<PageEntry>, start: int)
    requires WellSpaced(w) && w != [] && w[0] == Num(start) && start >= 1
    ensures WellSpaced(Head(start) + w)
  {
    if start == 2 {
      assert Head(start) == [Num(1)];
      PrependFirstPage(w);
    } else if start > 2 {
      assert Head(start) == [Num(1), Ellipsis];
      PrependFirstPageAndGap(w);
    } else {
      assert Head(start) + w == w;
    }
  }

  lemma TailKeepsWellSpaced(s: seq<PageEntry>, end: int, totalPages: int)
    requires WellSpaced(s) && s != [] && s[|s| - 1] == Num(end) && end <= totalPages
    ensures WellSpaced(s + Tail(end, totalPages))
  {
    if end == totalPages - 1 {
      assert Tail(end, totalPages) == [Num(totalPages)];
      AppendLastPage(s, totalPages);
    } else if end < totalPages - 1 {
      assert Tail(end, totalPages) == [Ellipsis, Num(totalPages)];
      AppendGapAndLastPage(s, totalPages);
    } else {
      assert s + Tail(end, totalPages) == s;
    }
  }

  /**
   * `goToPage`: a page outside 1..totalPages does nothing; any other page
   * navigates to the listing with the current query and "page" set to it.
   */
  method GoToPage(current: seq<Entry>, page: int, totalPages: int) returns (pushed: Option<Location>)
    ensures pushed.None? <==> page < 1 || page > totalPages
    ensures pushed.Some? ==> pushed.value.path == ProductsPath
    ensures pushed.Some? ==> GetParam(pushed.value.query, "page") == Some(NumberText.IntToString(page))
    ensures pushed.Some? ==> forall other :: other != "page" ==> GetParam(pushed.value.query, other) == GetParam(current, other)
  {
    if page < 1 || page > totalPages {
      return None;
    }
    var params := new Params(current);
    params.Set("page", NumberText.IntToString(page));
    forall other | other != "page"
      ensures GetParam(params.entries, other) == GetParam(current, other)
    {
      SetKeepsOthers(current, "page", NumberText.IntToString(page), other);
    }
    pushed := Some(Location(ProductsPath, params.entries));
  }
}
