/**
 * The page arithmetic of the "All Copies" table: the page count read off the
 * pager, the backward batch windows of `scrapeItemForDeletedUsers`, and the
 * direct-or-fallback addressing of `navigateToPage`.
 *
 * The pager is described by what it shows on a freshly loaded table (page 1):
 * the texts of its `a.page-link` buttons. Its "previous" link is looked up on
 * every backward step; `prevMissing` holds the pages on which that lookup fails.
 */
module Pagination {
  import opened JsStrings

  /** `PAGES_PER_BATCH`. */
  const PagesPerBatch := 10

  function Max(a: int, b: int): int
  {
    if a < b then b else a
  }

  /** The page number a pager button stands for, when its trimmed text passes `/^\d+$/`. */
  predicate IsPageLabel(text: string)
  {
    AllDigits(Trim(text))
  }

  /** The page count: the largest page number on the pager, and 1 when there is none larger. */
  function TotalPages(labels: seq<string>): (t: nat)
    ensures t >= 1
    ensures forall i | 0 <= i < |labels| && IsPageLabel(labels[i]) :: ParseDigits(Trim(labels[i])) <= t
    ensures t == 1 || exists i | 0 <= i < |labels| :: IsPageLabel(labels[i]) && ParseDigits(Trim(labels[i])) == t
  {
    if labels == [] then 1
    else
      var t := TotalPages(labels[..|labels| - 1]);
      var text := Trim(labels[|labels| - 1]);
      if AllDigits(text) && ParseDigits(text) > t then ParseDigits(text) else t
  }

  /** The scan of the pager buttons in `scrapeItemForDeletedUsers`. */
  method FindTotalPages(labels: seq<string>) returns (totalPages: nat)
    ensures totalPages == TotalPages(labels)
  {
    totalPages := 1;
    for i := 0 to |labels|
      invariant totalPages == TotalPages(labels[..i])
    {
      assert labels[..i + 1][..i] == labels[..i];
      var text := Trim(labels[i]);
      if AllDigits(text) {
        var pageNum := ParseDigits(text);
        if pageNum > totalPages {
          totalPages := pageNum;
        }
      }
    }
    assert labels[..|labels|] == labels;
  }

  /** Every page whose button the pager shows is within the page count. */
  lemma ShownPageWithinTotal(labels: seq<string>, page: nat)
    requires NatToString(page) in labels
    ensures page <= TotalPages(labels)
  {
    PageLabelRoundTrip(page);
  }

  /** One batch: pages `start` to `end`, collected from `end` down. */
  datatype Window = Window(start: int, end: int)

  /** `batchStart` for a batch that ends at `currentPage`. */
  function BatchStart(currentPage: int): int
  {
    Max(1, currentPage - PagesPerBatch + 1)
  }

  /** The windows the batch loop goes through, starting from `currentPage`. */
  function Windows(currentPage: int): seq<Window>
    decreases currentPage
  {
    if currentPage < 1 then []
    else [Window(BatchStart(currentPage), currentPage)] + Windows(BatchStart(currentPage) - 1)
  }

  /**
   * The windows cover 1 to `c` from the top down: each is non-empty and holds
   * at most `PagesPerBatch` pages (all but the last exactly that many), each
   * ends right below the previous one's start, the first ends at `c` and the
   * last starts at 1.
   */
  lemma {:induction false} WindowsShape(c: int)
    ensures var ws := Windows(c);
      && (c < 1 <==> ws == [])
      && (c >= 1 ==> ws[0].end == c && ws[|ws| - 1].start == 1)
      && (forall k | 0 <= k < |ws| :: 1 <= ws[k].start <= ws[k].end <= c)
      && (forall k | 0 <= k < |ws| :: ws[k].end - ws[k].start < PagesPerBatch)
      && (forall k | 0 <= k < |ws| - 1 :: ws[k].end - ws[k].start + 1 == PagesPerBatch)
      && (forall k | 0 <= k < |ws| - 1 :: ws[k + 1].end == ws[k].start - 1)
    decreases c
  {
    if c >= 1 {
      var b := BatchStart(c);
      WindowsShape(b - 1);
      var ws := Windows(c);
      assert ws[1..] == Windows(b - 1);
      forall k | 0 <= k < |ws| ensures 1 <= ws[k].start <= ws[k].end <= c {
        if k > 0 { assert ws[k] == Windows(b - 1)[k - 1]; }
      }
      forall k | 0 <= k < |ws| - 1 ensures ws[k + 1].end == ws[k].start - 1 {
        if k > 0 { assert ws[k] == Windows(b - 1)[k - 1]; }
      }
    }
  }

  /** The windows come strictly from the top down: a later window lies wholly below an earlier one. */
  lemma WindowsDescending(c: int)
    ensures var ws := Windows(c);
      forall k1, k2 | 0 <= k1 < k2 < |ws| :: ws[k2].end < ws[k1].start
  {
    var ws := Windows(c);
    WindowsShape(c);
    forall k1, k2 | 0 <= k1 < k2 < |ws| ensures ws[k2].end < ws[k1].start {
      WindowsDescendingFrom(ws, k1, k2);
    }
  }

  lemma {:induction false} WindowsDescendingFrom(ws: seq<Window>, k1: nat, k2: nat)
    requires forall k | 0 <= k < |ws| :: ws[k].start <= ws[k].end
    requires forall k | 0 <= k < |ws| - 1 :: ws[k + 1].end == ws[k].start - 1
    requires k1 < k2 < |ws|
    ensures ws[k2].end < ws[k1].start
    decreases k2 - k1
  {
    if k2 > k1 + 1 {
      WindowsDescendingFrom(ws, k1 + 1, k2);
    }
  }

  /** Every page from 1 to `c` lies in exactly one window. */
  lemma WindowsPartition(c: int, page: int)
    requires 1 <= page <= c
    ensures var ws := Windows(c);
      && (exists k | 0 <= k < |ws| :: ws[k].start <= page <= ws[k].end)
      && (forall k1, k2 | 0 <= k1 < |ws| && 0 <= k2 < |ws| &&
            ws[k1].start <= page <= ws[k1].end && ws[k2].start <= page <= ws[k2].end :: k1 == k2)
  {
    var ws := Windows(c);
    WindowsShape(c);
    WindowsDescending(c);
    WindowsCover(ws, c, page);
  }

  /** Contiguous windows from `c` down to 1 leave no page out. */
  lemma {:induction false} WindowsCover(ws: seq<Window>, c: int, page: int)
    requires |ws| > 0 && ws[0].end == c && ws[|ws| - 1].start == 1
    requires forall k | 0 <= k < |ws| - 1 :: ws[k + 1].end == ws[k].start - 1
    requires 1 <= page <= c
    ensures exists k | 0 <= k < |ws| :: ws[k].start <= page <= ws[k].end
    decreases |ws|
  {
    if page < ws[0].start {
      WindowsCover(ws[1..], ws[1].end, page);
      var k :| 0 <= k < |ws[1..]| && ws[1..][k].start <= page <= ws[1..][k].end;
      assert ws[k + 1] == ws[1..][k];
    }
  }

  /** There are ceil(c / `PagesPerBatch`) windows. */
  lemma {:induction false} WindowsCount(c: nat)
    ensures |Windows(c)| == (c + PagesPerBatch - 1) / PagesPerBatch
    decreases c
  {
    if c >= 1 {
      WindowsCount(BatchStart(c) - 1);
    }
  }

  /** The button for `page` is on the pager: the XPath test `text()='${page}'`. */
  predicate ButtonShown(labels: seq<string>, page: int)
  {
    IntToString(page) in labels
  }

  /** After "previous": one page back, except on page 1 where the link is disabled. */
  function PrevPage(page: int): int
  {
    if page > 1 then page - 1 else 1
  }

  /**
   * `navigateToPage` reaches its target: directly, or from the last page when
   * the "previous" link is found on every page from `totalPages` down to just
   * above the target.
   */
  predicate Reaches(targetPage: int, totalPages: int, labels: seq<string>, prevMissing: set<int>)
  {
    ButtonShown(labels, targetPage) ||
    (ButtonShown(labels, totalPages) && forall q | targetPage < q <= totalPages :: q !in prevMissing)
  }

  /**
   * `navigateToPage`, started on a freshly loaded table (page 1). `ok` is what
   * the function returns, `shown` the page the table then shows and `clicks`
   * the number of "previous" clicks made.
   */
  method NavigateToPage(targetPage: int, totalPages: int, labels: seq<string>, prevMissing: set<int>)
    returns (ok: bool, shown: int, clicks: nat)
    requires 1 <= targetPage
    ensures ok <==> Reaches(targetPage, totalPages, labels, prevMissing)
    ensures ButtonShown(labels, targetPage) ==> shown == targetPage && clicks == 0
    ensures !ButtonShown(labels, targetPage) && !ButtonShown(labels, totalPages) ==> shown == 1 && clicks == 0
    ensures !ButtonShown(labels, targetPage) && ButtonShown(labels, totalPages) && ok ==>
      clicks == Max(0, totalPages - targetPage) && shown == (if targetPage < totalPages then targetPage else totalPages)
    ensures !ok && ButtonShown(labels, totalPages) ==>
      && targetPage < shown <= totalPages && shown in prevMissing
      && clicks == totalPages - shown
      && forall q | shown < q <= totalPages :: q !in prevMissing
  {
    if ButtonShown(labels, targetPage) {
      return true, targetPage, 0;
    }
    if !ButtonShown(labels, totalPages) {
      return false, 1, 0;
    }
    shown, clicks := totalPages, 0;
    var p := totalPages;
    while p > targetPage
      invariant shown == p && clicks == totalPages - p
      invariant p <= totalPages
      invariant p >= targetPage || p == totalPages
      invariant forall q | p < q <= totalPages :: q !in prevMissing
    {
      if shown in prevMissing {
        return false, shown, clicks;
      }
      shown := PrevPage(shown);
      clicks := clicks + 1;
      p := p - 1;
    }
    return true, shown, clicks;
  }
}
