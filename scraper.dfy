/**
 * The scraper's run: the row collector of the "All Copies" table, the batch
 * loop of `scrapeItemForDeletedUsers` and the item loop of `main`, over a
 * run-wide context holding the `processedUAIDs` set and the `totalFound`
 * counter.
 *
 * An item page is described by a `Site` value: whether its "All Copies" table
 * loads, the pager labels, the pages on which the "previous" link cannot be
 * found, the rows of every table page, the recorded-owner links of every UAID
 * page and the profile pages those links lead to.
 */
module Scraper {
  import opened Wrappers
  import opened JsStrings
  import opened Avatar
  import opened Owners
  import opened Webhook
  import opened Pagination

  /**
   * One row of the "All Copies" table: the text of its player link (`None` when
   * the row has none) and the `href` and text of its UAID link (`href` `None`
   * when the row has no UAID link).
   */
  datatype Row = Row(playerText: Option<string>, uaidHref: Option<string>, uaidText: string)

  /** A queued UAID: `{ uaid, url }`. */
  datatype Uaid = Uaid(uaid: string, url: string)

  /** An item page, as the browser would show it. */
  datatype Site = Site(
    tableLoads: bool,
    labels: seq<string>,
    prevMissing: set<int>,
    pages: seq<seq<Row>>,
    uaidPages: map<string, seq<Link>>,
    profiles: map<string, Profile>,
    webhookUp: bool)

  /** The rows the table shows on `page` (1-based); no rows past the last page. */
  function RowsAt(pages: seq<seq<Row>>, page: int): seq<Row>
  {
    if 1 <= page <= |pages| then pages[page - 1] else []
  }

  /** The row's owner is a live player: its player link text is non-blank and names neither a deleted nor a hidden user. */
  predicate HasLiveHolder(row: Row)
  {
    row.playerText.Some? && Trim(row.playerText.value) != "" &&
    !Contains(row.playerText.value, "Deleted") && !Contains(row.playerText.value, "Hidden")
  }

  /** The row is a candidate for the queue: no live holder, and a UAID link with an `href`. */
  predicate Queueable(row: Row)
  {
    !HasLiveHolder(row) && row.uaidHref.Some?
  }

  function UaidOf(row: Row): Uaid
    requires row.uaidHref.Some?
  {
    Uaid(row.uaidText, AbsoluteUrl(row.uaidHref.value))
  }

  /** What a scan of one page yields: the UAIDs queued, in order, and the processed set afterwards. */
  datatype ScanResult = ScanResult(found: seq<Uaid>, seen: set<string>)

  /** The row collector over `rows`, examined from the last row to the first, starting from the processed set `seen`. */
  function Scan(rows: seq<Row>, seen: set<string>): ScanResult
  {
    if rows == [] then ScanResult([], seen)
    else ScanStep(rows[0], Scan(rows[1..], seen))
  }

  /** One row examined: queued and marked processed when queueable and not yet processed. */
  function ScanStep(row: Row, r: ScanResult): ScanResult
  {
    if Queueable(row) && row.uaidText !in r.seen
    then ScanResult(r.found + [UaidOf(row)], r.seen + {row.uaidText})
    else r
  }

  /** The UAID texts of a queue, in order. */
  function Texts(us: seq<Uaid>): (ts: seq<string>)
    ensures |ts| == |us| && forall k | 0 <= k < |us| :: ts[k] == us[k].uaid
  {
    if us == [] then [] else Texts(us[..|us| - 1]) + [us[|us| - 1].uaid]
  }

  lemma TextsAppend(a: seq<Uaid>, b: seq<Uaid>)
    ensures Texts(a + b) == Texts(a) + Texts(b)
  {
  }

  lemma TextsSnoc(us: seq<Uaid>, u: Uaid)
    ensures Texts(us + [u]) == Texts(us) + [u.uaid]
  {
    assert (us + [u])[..|us|] == us;
  }

  lemma SeqAssoc<T>(a: seq<T>, b: seq<T>, c: seq<T>)
    ensures (a + b) + c == a + (b + c)
  {
  }

  lemma PrefixOfAppend<T>(a: seq<T>, b: seq<T>)
    ensures a <= a + b
  {
    assert (a + b)[..|a|] == a;
  }

  function Elems(s: seq<string>): set<string>
  {
    set x | x in s
  }

  predicate Distinct(s: seq<string>)
  {
    forall i, j | 0 <= i < j < |s| :: s[i] != s[j]
  }

  /** Joining two duplicate-free sequences with nothing in common gives a duplicate-free sequence with both's elements. */
  lemma DistinctJoin(a: seq<string>, b: seq<string>)
    requires Distinct(a) && Distinct(b) && Elems(a) !! Elems(b)
    ensures Distinct(a + b) && Elems(a + b) == Elems(a) + Elems(b)
  {
    forall i, j | 0 <= i < j < |a + b| ensures (a + b)[i] != (a + b)[j] {
      if i < |a| && j >= |a| {
        assert (a + b)[i] in Elems(a) && (a + b)[j] == b[j - |a|] && b[j - |a|] in Elems(b);
      }
    }
  }

  /** Appending a text not yet in a duplicate-free sequence keeps it duplicate-free and adds just that text. */
  lemma DistinctPush(q: seq<string>, t: string)
    requires Distinct(q) && t !in Elems(q)
    ensures Distinct(q + [t]) && Elems(q + [t]) == Elems(q) + {t}
  {
    assert Elems([t]) == {t};
    DistinctJoin(q, [t]);
  }

  /** The highest-indexed queueable row with UAID text `t`: the first one the collector meets. */
  function LastRowFor(rows: seq<Row>, t: string): (r: Option<nat>)
    ensures r.Some? ==> r.value < |rows| && Queueable(rows[r.value]) && rows[r.value].uaidText == t
  {
    if rows == [] then None
    else
      match LastRowFor(rows[1..], t)
      case Some(i) => Some(i + 1)
      case None => if Queueable(rows[0]) && rows[0].uaidText == t then Some(0) else None
  }

  /** Row `i` is queueable with UAID text `t`. */
  predicate QueueableWith(rows: seq<Row>, i: int, t: string)
    requires 0 <= i < |rows|
  {
    Queueable(rows[i]) && rows[i].uaidText == t
  }

  /** `LastRowFor` finds the last queueable row with text `t`, and finds nothing exactly when there is none. */
  lemma {:induction false} LastRowForSpec(rows: seq<Row>, t: string)
    ensures LastRowFor(rows, t).Some? ==>
      forall j | LastRowFor(rows, t).value < j < |rows| :: !QueueableWith(rows, j, t)
    ensures LastRowFor(rows, t).None? <==> forall j | 0 <= j < |rows| :: !QueueableWith(rows, j, t)
  {
    if rows != [] {
      LastRowForSpec(rows[1..], t);
      forall j | 1 <= j < |rows| ensures QueueableWith(rows, j, t) == QueueableWith(rows[1..], j - 1, t) {
        assert rows[j] == rows[1..][j - 1];
      }
    }
    if LastRowFor(rows, t).Some? {
      assert QueueableWith(rows, LastRowFor(rows, t).value, t);
    }
  }

  /**
   * At-most-once, for a scan started from the processed set `seen`: the
   * processed set grows by exactly the queued texts, which are pairwise
   * distinct and were none of them processed before.
   */
  predicate Dedupes(seen: set<string>, r: ScanResult)
  {
    && r.seen == seen + Elems(Texts(r.found))
    && Distinct(Texts(r.found))
    && Elems(Texts(r.found)) !! seen
  }

  /** Scanning on from where a deduplicating scan left off deduplicates the two together. */
  lemma DedupesJoin(seen: set<string>, r: ScanResult, s: ScanResult)
    requires Dedupes(seen, r) && Dedupes(r.seen, s)
    ensures Dedupes(seen, ScanResult(r.found + s.found, s.seen))
  {
    TextsAppend(r.found, s.found);
    DistinctJoin(Texts(r.found), Texts(s.found));
  }

  /** Each row is queued at most once: a scan of a page deduplicates. */
  lemma {:induction false} ScanDedupes(rows: seq<Row>, seen: set<string>)
    ensures Dedupes(seen, Scan(rows, seen))
  {
    if rows != [] {
      ScanDedupes(rows[1..], seen);
      var r := Scan(rows[1..], seen);
      assert Scan(rows, seen) == ScanStep(rows[0], r);
      if Queueable(rows[0]) && rows[0].uaidText !in r.seen {
        DedupesPush(seen, r, UaidOf(rows[0]));
      }
    }
  }

  /** Queuing a text not yet processed, and marking it processed, keeps a scan deduplicating. */
  lemma DedupesPush(seen: set<string>, r: ScanResult, u: Uaid)
    requires Dedupes(seen, r) && u.uaid !in r.seen
    ensures Dedupes(seen, ScanResult(r.found + [u], r.seen + {u.uaid}))
  {
    TextsSnoc(r.found, u);
    DistinctPush(Texts(r.found), u.uaid);
  }

  /** Every queueable row's UAID text is in the processed set afterwards: either it was there already or it was queued. */
  lemma {:induction false} ScanComplete(rows: seq<Row>, seen: set<string>)
    ensures var r := Scan(rows, seen);
      forall i | 0 <= i < |rows| && Queueable(rows[i]) :: rows[i].uaidText in r.seen
  {
    if rows != [] {
      ScanComplete(rows[1..], seen);
      assert forall i | 1 <= i < |rows| :: rows[i] == rows[1..][i - 1];
      ScanSeenGrows(rows[1..], seen);
    }
  }

  lemma {:induction false} ScanSeenGrows(rows: seq<Row>, seen: set<string>)
    ensures seen <= Scan(rows, seen).seen
  {
    if rows != [] {
      ScanSeenGrows(rows[1..], seen);
    }
  }

  /** `u` is what the collector makes of the last queueable row with its text. */
  predicate FromLastRow(rows: seq<Row>, u: Uaid)
  {
    LastRowFor(rows, u.uaid).Some? && u == UaidOf(rows[LastRowFor(rows, u.uaid).value])
  }

  /** `a`'s last row comes after `b`'s. */
  predicate LaterRow(rows: seq<Row>, a: Uaid, b: Uaid)
  {
    LastRowFor(rows, a.uaid).Some? && LastRowFor(rows, b.uaid).Some? &&
    LastRowFor(rows, a.uaid).value > LastRowFor(rows, b.uaid).value
  }

  /** Each queued UAID comes from the last queueable row with its text, its url made absolute. */
  predicate FoundFromLastRows(rows: seq<Row>, found: seq<Uaid>)
  {
    forall k | 0 <= k < |found| :: FromLastRow(rows, found[k])
  }

  /** The queue follows the rows from the last to the first. */
  predicate FoundInReverseRowOrder(rows: seq<Row>, found: seq<Uaid>)
  {
    forall k1, k2 | 0 <= k1 < k2 < |found| :: LaterRow(rows, found[k1], found[k2])
  }

  /** The queue lists its UAIDs in the order the rows are examined, each from its last row. */
  lemma {:induction false} ScanFollowsRows(rows: seq<Row>, seen: set<string>)
    ensures FoundFromLastRows(rows, Scan(rows, seen).found)
    ensures FoundInReverseRowOrder(rows, Scan(rows, seen).found)
  {
    if rows != [] {
      ScanFollowsRows(rows[1..], seen);
      ScanFollowsRowsStep(rows, seen);
    }
  }

  lemma ScanFollowsRowsStep(rows: seq<Row>, seen: set<string>)
    requires rows != []
    requires FoundFromLastRows(rows[1..], Scan(rows[1..], seen).found)
    requires FoundInReverseRowOrder(rows[1..], Scan(rows[1..], seen).found)
    ensures FoundFromLastRows(rows, Scan(rows, seen).found)
    ensures FoundInReverseRowOrder(rows, Scan(rows, seen).found)
  {
    var r := Scan(rows[1..], seen);
    assert Scan(rows, seen) == ScanStep(rows[0], r);
    if Queueable(rows[0]) && rows[0].uaidText !in r.seen {
      ScanComplete(rows[1..], seen);
      LastRowForHead(rows, r.seen);
      ScanFollowsRowsPush(rows, r.found);
    } else {
      ScanFollowsRowsKeep(rows, r.found);
    }
  }

  /** A UAID found in the later rows keeps its row, one further on, once the first row is put in front. */
  lemma LastRowForShift(rows: seq<Row>, u: Uaid)
    requires rows != [] && FromLastRow(rows[1..], u)
    ensures LastRowFor(rows, u.uaid) == Some(LastRowFor(rows[1..], u.uaid).value + 1)
    ensures FromLastRow(rows, u)
  {
    assert rows[LastRowFor(rows[1..], u.uaid).value + 1] == rows[1..][LastRowFor(rows[1..], u.uaid).value];
  }

  /** A queueable first row whose text no later queueable row has is its own last row. */
  lemma LastRowForHead(rows: seq<Row>, seen: set<string>)
    requires rows != [] && Queueable(rows[0]) && rows[0].uaidText !in seen
    requires forall i | 0 <= i < |rows[1..]| && Queueable(rows[1..][i]) :: rows[1..][i].uaidText in seen
    ensures LastRowFor(rows, rows[0].uaidText) == Some(0)
  {
    var t := rows[0].uaidText;
    LastRowForSpec(rows[1..], t);
    forall j | 0 <= j < |rows[1..]| ensures !QueueableWith(rows[1..], j, t) {
    }
  }

  /** The step where the first row is queued: it comes after every UAID from later rows. */
  lemma ScanFollowsRowsPush(rows: seq<Row>, found: seq<Uaid>)
    requires rows != [] && Queueable(rows[0])
    requires LastRowFor(rows, rows[0].uaidText) == Some(0)
    requires FoundFromLastRows(rows[1..], found) && FoundInReverseRowOrder(rows[1..], found)
    ensures FoundFromLastRows(rows, found + [UaidOf(rows[0])])
    ensures FoundInReverseRowOrder(rows, found + [UaidOf(rows[0])])
  {
    var u := UaidOf(rows[0]);
    ScanFollowsRowsKeep(rows, found);
    forall k | 0 <= k < |found| ensures LaterRow(rows, found[k], u) {
      LastRowForShift(rows, found[k]);
    }
    FoundAppend(rows, found, u);
  }

  /** Appending a UAID from its last row, below every row already queued, keeps both properties. */
  lemma FoundAppend(rows: seq<Row>, found: seq<Uaid>, u: Uaid)
    requires FoundFromLastRows(rows, found) && FoundInReverseRowOrder(rows, found)
    requires FromLastRow(rows, u)
    requires forall k | 0 <= k < |found| :: LaterRow(rows, found[k], u)
    ensures FoundFromLastRows(rows, found + [u])
    ensures FoundInReverseRowOrder(rows, found + [u])
  {
    var f := found + [u];
    forall k | 0 <= k < |f| ensures FromLastRow(rows, f[k]) {
      if k < |found| {
        assert f[k] == found[k];
      }
    }
    forall k1, k2 | 0 <= k1 < k2 < |f| ensures LaterRow(rows, f[k1], f[k2]) {
      assert f[k1] == found[k1];
      if k2 < |found| {
        assert f[k2] == found[k2];
      }
    }
  }

  /** The step where the first row is not queued: the later rows' UAIDs keep their rows and their order. */
  lemma ScanFollowsRowsKeep(rows: seq<Row>, found: seq<Uaid>)
    requires rows != []
    requires FoundFromLastRows(rows[1..], found) && FoundInReverseRowOrder(rows[1..], found)
    ensures FoundFromLastRows(rows, found)
    ensures FoundInReverseRowOrder(rows, found)
  {
    forall k | 0 <= k < |found| ensures FromLastRow(rows, found[k]) {
      LastRowForShift(rows, found[k]);
    }
    forall k1, k2 | 0 <= k1 < k2 < |found| ensures LaterRow(rows, found[k1], found[k2]) {
      LastRowForShift(rows, found[k1]);
      LastRowForShift(rows, found[k2]);
      assert LaterRow(rows[1..], found[k1], found[k2]);
    }
  }

  /** The queued urls are absolute. */
  lemma ScanUrlsAbsolute(rows: seq<Row>, seen: set<string>)
    ensures forall u | u in Scan(rows, seen).found :: StartsWith(u.url, "http")
  {
    ScanFollowsRows(rows, seen);
  }

  /** The collector over a sequence of displayed pages, each page starting from the processed set the previous one left. */
  function ScanPages(pages: seq<seq<Row>>, visited: seq<int>, seen: set<string>): ScanResult
  {
    if visited == [] then ScanResult([], seen)
    else
      var r := ScanPages(pages, visited[..|visited| - 1], seen);
      var s := Scan(RowsAt(pages, visited[|visited| - 1]), r.seen);
      ScanResult(r.found + s.found, s.seen)
  }

  /** Across pages too, each UAID text is queued at most once and the processed set grows by exactly the queued texts. */
  lemma {:induction false} ScanPagesDedupes(pages: seq<seq<Row>>, visited: seq<int>, seen: set<string>)
    ensures Dedupes(seen, ScanPages(pages, visited, seen))
  {
    if visited != [] {
      var r := ScanPages(pages, visited[..|visited| - 1], seen);
      var rows := RowsAt(pages, visited[|visited| - 1]);
      ScanPagesDedupes(pages, visited[..|visited| - 1], seen);
      ScanDedupes(rows, r.seen);
      DedupesJoin(seen, r, Scan(rows, r.seen));
    }
  }

  /** Reading pages `v1` then pages `v2` is reading `v1`, then reading `v2` with what `v1` left processed. */
  lemma {:induction false} ScanPagesAppend(pages: seq<seq<Row>>, v1: seq<int>, v2: seq<int>, seen: set<string>)
    ensures var r1 := ScanPages(pages, v1, seen);
      var r2 := ScanPages(pages, v2, r1.seen);
      ScanPages(pages, v1 + v2, seen) == ScanResult(r1.found + r2.found, r2.seen)
    decreases |v2|
  {
    if v2 == [] {
      assert v1 + v2 == v1;
    } else {
      var pre := v2[..|v2| - 1];
      var v := v1 + v2;
      assert v[..|v| - 1] == v1 + pre && v[|v| - 1] == v2[|v2| - 1];
      ScanPagesAppend(pages, v1, pre, seen);
      var r1 := ScanPages(pages, v1, seen);
      var rp := ScanPages(pages, pre, r1.seen);
      var last := Scan(RowsAt(pages, v2[|v2| - 1]), rp.seen);
      SeqAssoc(r1.found, rp.found, last.found);
    }
  }

  /** `f` of each element in turn, one result after the other. */
  function FlatMap<T, U>(f: T -> seq<U>, xs: seq<T>): seq<U>
  {
    if xs == [] then [] else FlatMap(f, xs[..|xs| - 1]) + f(xs[|xs| - 1])
  }

  lemma FlatMapSnoc<T, U>(f: T -> seq<U>, xs: seq<T>, x: T)
    ensures FlatMap(f, xs + [x]) == FlatMap(f, xs) + f(x)
  {
    assert (xs + [x])[..|xs|] == xs;
  }

  lemma {:induction false} FlatMapAppend<T, U>(f: T -> seq<U>, a: seq<T>, b: seq<T>)
    ensures FlatMap(f, a + b) == FlatMap(f, a) + FlatMap(f, b)
    decreases |b|
  {
    if b == [] {
      assert a + b == a;
    } else {
      var pre, x := b[..|b| - 1], b[|b| - 1];
      assert b == pre + [x] && a + b == (a + pre) + [x];
      FlatMapAppend(f, a, pre);
      FlatMapSnoc(f, a + pre, x);
      FlatMapSnoc(f, pre, x);
      SeqAssoc(FlatMap(f, a), FlatMap(f, pre), f(x));
    }
  }

  lemma {:induction false} FlatMapIn<T, U>(f: T -> seq<U>, xs: seq<T>, k: nat, y: U)
    requires k < |xs| && y in f(xs[k])
    ensures y in FlatMap(f, xs)
    decreases |xs|
  {
    var pre := xs[..|xs| - 1];
    if k < |pre| {
      assert pre[k] == xs[k];
      FlatMapIn(f, pre, k, y);
    } else {
      assert xs[k] == xs[|xs| - 1];
    }
  }

  /** `NoticeFor` as a function of the UAID alone. */
  function NoticeOf(uaidPages: map<string, seq<Link>>, profiles: map<string, Profile>): Uaid -> seq<Payload>
  {
    u => NoticeFor(uaidPages, profiles, u)
  }

  /** The payloads a batch gives rise to: one per UAID whose previous owner is resolved, in batch order. */
  function Notices(uaidPages: map<string, seq<Link>>, profiles: map<string, Profile>, batch: seq<Uaid>): seq<Payload>
  {
    FlatMap(NoticeOf(uaidPages, profiles), batch)
  }

  /** The payloads of a batch and one more UAID are the batch's, then that UAID's. */
  lemma NoticesSnoc(uaidPages: map<string, seq<Link>>, profiles: map<string, Profile>, batch: seq<Uaid>, u: Uaid)
    ensures Notices(uaidPages, profiles, batch + [u]) == Notices(uaidPages, profiles, batch) + NoticeFor(uaidPages, profiles, u)
  {
    FlatMapSnoc(NoticeOf(uaidPages, profiles), batch, u);
  }

  /** The payloads of two batches in a row are those of the first followed by those of the second. */
  lemma {:induction false} NoticesAppend(uaidPages: map<string, seq<Link>>, profiles: map<string, Profile>, a: seq<Uaid>, b: seq<Uaid>)
    ensures Notices(uaidPages, profiles, a + b) == Notices(uaidPages, profiles, a) + Notices(uaidPages, profiles, b)
  {
    FlatMapAppend(NoticeOf(uaidPages, profiles), a, b);
  }

  /**
   * Reading the pages `visited` from the processed set `seen0` queued exactly
   * `uaids` (taking the queue from `queued0` to `queued` and the processed set
   * to `seen`), and their lookups took the sends from `sent0` to `sent`.
   */
  ghost predicate ReadAndSent(site: Site, visited: seq<int>, uaids: seq<Uaid>,
                              seen0: set<string>, queued0: seq<string>, sent0: seq<Payload>,
                              seen: set<string>, queued: seq<string>, sent: seq<Payload>)
  {
    && queued == queued0 + Texts(uaids)
    && ScanResult(uaids, seen) == ScanPages(site.pages, visited, seen0)
    && sent == sent0 + Notices(site.uaidPages, site.profiles, uaids)
  }

  /** Two stretches of reading and sending in a row make one. */
  lemma ReadAndSentJoin(site: Site, v1: seq<int>, u1: seq<Uaid>, v2: seq<int>, u2: seq<Uaid>,
                        seen0: set<string>, queued0: seq<string>, sent0: seq<Payload>,
                        seen1: set<string>, queued1: seq<string>, sent1: seq<Payload>,
                        seen2: set<string>, queued2: seq<string>, sent2: seq<Payload>)
    requires ReadAndSent(site, v1, u1, seen0, queued0, sent0, seen1, queued1, sent1)
    requires ReadAndSent(site, v2, u2, seen1, queued1, sent1, seen2, queued2, sent2)
    ensures ReadAndSent(site, v1 + v2, u1 + u2, seen0, queued0, sent0, seen2, queued2, sent2)
  {
    ScanPagesAppend(site.pages, v1, v2, seen0);
    TextsAppend(u1, u2);
    NoticesAppend(site.uaidPages, site.profiles, u1, u2);
    SeqAssoc(queued0, Texts(u1), Texts(u2));
    SeqAssoc(sent0, Notices(site.uaidPages, site.profiles, u1), Notices(site.uaidPages, site.profiles, u2));
  }

  /** Looking up `done` in order took the sends from `sent0` to `sent` and the lookups from `resolved0` to `resolved`. */
  ghost predicate LookedUp(site: Site, done: seq<Uaid>, sent0: seq<Payload>, resolved0: seq<string>,
                           sent: seq<Payload>, resolved: seq<string>)
  {
    sent == sent0 + Notices(site.uaidPages, site.profiles, done) && resolved == resolved0 + Texts(done)
  }

  lemma LookedUpSnoc(site: Site, done: seq<Uaid>, u: Uaid, sent0: seq<Payload>, resolved0: seq<string>,
                     sent1: seq<Payload>, resolved1: seq<string>, sent2: seq<Payload>, resolved2: seq<string>)
    requires LookedUp(site, done, sent0, resolved0, sent1, resolved1)
    requires sent2 == sent1 + NoticeFor(site.uaidPages, site.profiles, u) && resolved2 == resolved1 + [u.uaid]
    ensures LookedUp(site, done + [u], sent0, resolved0, sent2, resolved2)
  {
    NoticesSnoc(site.uaidPages, site.profiles, done, u);
    TextsSnoc(done, u);
    SeqAssoc(resolved0, Texts(done), [u.uaid]);
    SeqAssoc(sent0, Notices(site.uaidPages, site.profiles, done), NoticeFor(site.uaidPages, site.profiles, u));
  }

  /** The payload one UAID gives rise to: one when its previous owner is resolved, none otherwise. */
  function NoticeFor(uaidPages: map<string, seq<Link>>, profiles: map<string, Profile>, u: Uaid): seq<Payload>
  {
    match Resolve(uaidPages, profiles, u.url)
    case Some(o) => [BuildPayload(o)]
    case None => []
  }

  /** The UAID's previous owner is resolved. */
  predicate Resolves(uaidPages: map<string, seq<Link>>, profiles: map<string, Profile>, u: Uaid)
  {
    Resolve(uaidPages, profiles, u.url).Some?
  }

  /** `n` is the payload for the resolved owner of one of the batch's UAIDs. */
  predicate NoticeOfBatch(uaidPages: map<string, seq<Link>>, profiles: map<string, Profile>, batch: seq<Uaid>, n: Payload)
  {
    exists k | 0 <= k < |batch| ::
      Resolves(uaidPages, profiles, batch[k]) && n == BuildPayload(Resolve(uaidPages, profiles, batch[k].url).value)
  }

  /** How many of the batch's UAIDs have a resolved previous owner. */
  function ResolvedCount(uaidPages: map<string, seq<Link>>, profiles: map<string, Profile>, batch: seq<Uaid>): nat
  {
    if batch == [] then 0
    else
      ResolvedCount(uaidPages, profiles, batch[..|batch| - 1])
      + (if Resolves(uaidPages, profiles, batch[|batch| - 1]) then 1 else 0)
  }

  /**
   * One send per resolved owner and none otherwise: exactly as many payloads
   * as UAIDs that resolve (so at most one per UAID, one for each when every
   * UAID resolves, none when none does), each payload names the resolved owner
   * of one of the batch's UAIDs, and every resolved owner's payload is sent.
   */
  lemma NoticesPerResolvedOwner(uaidPages: map<string, seq<Link>>, profiles: map<string, Profile>, batch: seq<Uaid>)
    ensures var ns := Notices(uaidPages, profiles, batch);
      && |ns| == ResolvedCount(uaidPages, profiles, batch)
      && |ns| <= |batch|
      && ((forall k | 0 <= k < |batch| :: Resolves(uaidPages, profiles, batch[k])) ==> |ns| == |batch|)
      && ((forall k | 0 <= k < |batch| :: !Resolves(uaidPages, profiles, batch[k])) ==> ns == [])
      && (forall n | n in ns :: NoticeOfBatch(uaidPages, profiles, batch, n))
      && forall k | 0 <= k < |batch| && Resolves(uaidPages, profiles, batch[k]) ::
           BuildPayload(Resolve(uaidPages, profiles, batch[k].url).value) in ns
  {
    NoticesCount(uaidPages, profiles, batch);
    NoticesFromBatch(uaidPages, profiles, batch);
    forall k | 0 <= k < |batch| && Resolves(uaidPages, profiles, batch[k])
      ensures BuildPayload(Resolve(uaidPages, profiles, batch[k].url).value) in Notices(uaidPages, profiles, batch)
    {
      NoticeCovered(uaidPages, profiles, batch, k);
    }
  }

  lemma {:induction false} NoticesCount(uaidPages: map<string, seq<Link>>, profiles: map<string, Profile>, batch: seq<Uaid>)
    ensures var ns := Notices(uaidPages, profiles, batch);
      && |ns| == ResolvedCount(uaidPages, profiles, batch)
      && |ns| <= |batch|
      && ((forall k | 0 <= k < |batch| :: Resolves(uaidPages, profiles, batch[k])) ==> |ns| == |batch|)
      && ((forall k | 0 <= k < |batch| :: !Resolves(uaidPages, profiles, batch[k])) ==> ns == [])
  {
    if batch != [] {
      var pre := batch[..|batch| - 1];
      var u := batch[|batch| - 1];
      assert batch == pre + [u];
      NoticesSnoc(uaidPages, profiles, pre, u);
      NoticesCount(uaidPages, profiles, pre);
      NoticeForCount(uaidPages, profiles, u);
      forall k | 0 <= k < |pre| ensures pre[k] == batch[k] {
      }
    }
  }

  lemma NoticeForCount(uaidPages: map<string, seq<Link>>, profiles: map<string, Profile>, u: Uaid)
    ensures |NoticeFor(uaidPages, profiles, u)| == if Resolves(uaidPages, profiles, u) then 1 else 0
  {
  }

  lemma {:induction false} NoticesFromBatch(uaidPages: map<string, seq<Link>>, profiles: map<string, Profile>, batch: seq<Uaid>)
    ensures forall n | n in Notices(uaidPages, profiles, batch) :: NoticeOfBatch(uaidPages, profiles, batch, n)
  {
    if batch != [] {
      var pre := batch[..|batch| - 1];
      var u := batch[|batch| - 1];
      NoticesFromBatch(uaidPages, profiles, pre);
      var ns0 := Notices(uaidPages, profiles, pre);
      var n1 := NoticeFor(uaidPages, profiles, u);
      assert batch == pre + [u];
      NoticesSnoc(uaidPages, profiles, pre, u);
      forall n | n in ns0 + n1 ensures NoticeOfBatch(uaidPages, profiles, batch, n) {
        NoticeOfBatchSnoc(uaidPages, profiles, pre, u, n);
      }
    }
  }

  /** The payload of a resolving UAID of a batch is among the batch's sends. */
  lemma NoticeCovered(uaidPages: map<string, seq<Link>>, profiles: map<string, Profile>, batch: seq<Uaid>, k: nat)
    requires k < |batch| && Resolves(uaidPages, profiles, batch[k])
    ensures BuildPayload(Resolve(uaidPages, profiles, batch[k].url).value) in Notices(uaidPages, profiles, batch)
  {
    NoticeForHas(uaidPages, profiles, batch[k]);
    FlatMapIn(NoticeOf(uaidPages, profiles), batch, k, BuildPayload(Resolve(uaidPages, profiles, batch[k].url).value));
  }

  lemma NoticeForHas(uaidPages: map<string, seq<Link>>, profiles: map<string, Profile>, u: Uaid)
    requires Resolves(uaidPages, profiles, u)
    ensures BuildPayload(Resolve(uaidPages, profiles, u.url).value) in NoticeFor(uaidPages, profiles, u)
  {
  }

  /** A payload of the batch without its last UAID, or of that last UAID, is a payload of the batch. */
  lemma NoticeOfBatchSnoc(uaidPages: map<string, seq<Link>>, profiles: map<string, Profile>, pre: seq<Uaid>, u: Uaid, n: Payload)
    requires NoticeOfBatch(uaidPages, profiles, pre, n) || n in NoticeFor(uaidPages, profiles, u)
    ensures NoticeOfBatch(uaidPages, profiles, pre + [u], n)
  {
    var b := pre + [u];
    if NoticeOfBatch(uaidPages, profiles, pre, n) {
      var k :| 0 <= k < |pre| &&
        Resolves(uaidPages, profiles, pre[k]) && n == BuildPayload(Resolve(uaidPages, profiles, pre[k].url).value);
      assert b[k] == pre[k];
    } else {
      assert b[|pre|] == u;
    }
  }

  /** Each page read after the first is the one "previous" leads to from the page before, which has the link. */
  predicate StepsBack(visited: seq<int>, prevMissing: set<int>)
  {
    forall j | 0 <= j < |visited| - 1 :: visited[j] !in prevMissing && visited[j + 1] == PrevPage(visited[j])
  }

  lemma StepsBackSnoc(visited: seq<int>, prevMissing: set<int>, shown: int)
    requires StepsBack(visited, prevMissing)
    requires visited != [] ==> visited[|visited| - 1] !in prevMissing && shown == PrevPage(visited[|visited| - 1])
    ensures StepsBack(visited + [shown], prevMissing)
  {
    var v := visited + [shown];
    forall j | 0 <= j < |v| - 1 ensures v[j] !in prevMissing && v[j + 1] == PrevPage(v[j]) {
      assert v[j] == visited[j];
    }
  }

  /** The walk so far started on `landing` and stands on `shown`. */
  predicate WalkEnds(visited: seq<int>, landing: int, shown: int)
  {
    if visited == [] then shown == landing else visited[0] == landing && shown == visited[|visited| - 1]
  }

  /**
   * A walk back from `batchEnd` that meets no missing "previous" link above
   * `batchStart` reads every page of the batch once, from the last down.
   */
  lemma WalkIsCountdown(visited: seq<int>, prevMissing: set<int>, batchStart: int, batchEnd: int)
    requires 1 <= batchStart && 1 <= |visited| <= batchEnd - batchStart + 1 && visited[0] == batchEnd
    requires StepsBack(visited, prevMissing)
    requires |visited| < batchEnd - batchStart + 1 ==> visited[|visited| - 1] in prevMissing
    requires forall q | batchStart < q <= batchEnd :: q !in prevMissing
    ensures visited == Countdown(batchEnd, batchStart)
  {
    forall j | 0 <= j < |visited| ensures visited[j] == batchEnd - j {
      WalkValues(visited, prevMissing, batchStart, batchEnd, j);
    }
    CountdownAt(batchEnd, batchStart);
  }

  lemma {:induction false} WalkValues(visited: seq<int>, prevMissing: set<int>, batchStart: int, batchEnd: int, j: nat)
    requires 1 <= batchStart && 1 <= |visited| <= batchEnd - batchStart + 1 && visited[0] == batchEnd
    requires StepsBack(visited, prevMissing)
    requires j < |visited|
    ensures visited[j] == batchEnd - j
  {
    if j > 0 {
      WalkValues(visited, prevMissing, batchStart, batchEnd, j - 1);
    }
  }

  /** Pages `hi` down to `lo`. */
  function Countdown(hi: int, lo: int): seq<int>
    decreases hi - lo
  {
    if lo > hi then [] else Countdown(hi, lo + 1) + [lo]
  }

  lemma {:induction false} CountdownAt(hi: int, lo: int)
    requires lo <= hi + 1
    ensures |Countdown(hi, lo)| == hi - lo + 1
    ensures forall k | 0 <= k < hi - lo + 1 :: Countdown(hi, lo)[k] == hi - k
    decreases hi - lo
  {
    if lo <= hi {
      CountdownAt(hi, lo + 1);
    }
  }

  lemma {:induction false} CountdownJoin(hi: int, mid: int, lo: int)
    requires lo <= mid + 1 <= hi + 1
    ensures Countdown(hi, mid + 1) + Countdown(mid, lo) == Countdown(hi, lo)
    decreases mid - lo
  {
    if lo <= mid {
      CountdownJoin(hi, mid, lo + 1);
    }
  }

  /**
   * The pages a batch reads: at least one and at most the batch's size; after
   * the first, each is "previous" of the one before; the walk stops early only
   * at a page missing "previous"; and it starts on the batch's last page when
   * that is reachable (or is page 1), on page 1 when neither the batch's last
   * page nor the last page has a button, and otherwise on the first page
   * missing "previous" met walking down from the last page, the only page read.
   */
  ghost predicate BatchWalk(site: Site, totalPages: int, batchStart: int, batchEnd: int, visited: seq<int>)
  {
    && 1 <= |visited| <= batchEnd - batchStart + 1
    && StepsBack(visited, site.prevMissing)
    && (|visited| < batchEnd - batchStart + 1 ==> visited[|visited| - 1] in site.prevMissing)
    && (batchEnd == 1 || Reaches(batchEnd, totalPages, site.labels, site.prevMissing) ==> visited[0] == batchEnd)
    && (batchEnd > 1 && !ButtonShown(site.labels, batchEnd) && !ButtonShown(site.labels, totalPages) ==> visited[0] == 1)
    && (batchEnd > 1 && !Reaches(batchEnd, totalPages, site.labels, site.prevMissing) && ButtonShown(site.labels, totalPages) ==>
          && batchEnd < visited[0] <= totalPages && visited[0] in site.prevMissing && |visited| == 1
          && forall q | visited[0] < q <= totalPages :: q !in site.prevMissing)
  }

  /** The pages of several walks, read one walk after the other. */
  function Concat(walks: seq<seq<int>>): seq<int>
  {
    if walks == [] then [] else Concat(walks[..|walks| - 1]) + walks[|walks| - 1]
  }

  /**
   * Walk `k` is the walk of window `k`, for every window gone through, and
   * `pages` are the pages of the walks, one walk after the other.
   */
  ghost predicate WalksOfWindows(site: Site, totalPages: int, windows: seq<Window>, walks: seq<seq<int>>, pages: seq<int>)
  {
    && |walks| == |windows|
    && (forall k | 0 <= k < |walks| :: BatchWalk(site, totalPages, windows[k].start, windows[k].end, walks[k]))
    && pages == Concat(walks)
  }

  /** One more window walked extends the walks by its walk and the pages read by its pages. */
  lemma {:induction false} WalksOfWindowsSnoc(site: Site, totalPages: int, windows: seq<Window>, walks: seq<seq<int>>, pages: seq<int>,
                           w: Window, visited: seq<int>)
    requires WalksOfWindows(site, totalPages, windows, walks, pages)
    requires BatchWalk(site, totalPages, w.start, w.end, visited)
    ensures WalksOfWindows(site, totalPages, windows + [w], walks + [visited], pages + visited)
  {
    var ws, vs := windows + [w], walks + [visited];
    forall k | 0 <= k < |vs| ensures BatchWalk(site, totalPages, ws[k].start, ws[k].end, vs[k]) {
      if k < |walks| {
        assert ws[k] == windows[k] && vs[k] == walks[k];
      }
    }
    assert vs[..|vs| - 1] == walks;
  }

  /**
   * The batch loop has gone through `windows`, reading each with its walk in
   * `walks`, and `currentPage` is where it goes on; when `clean` (the walk is
   * clean) the pages read so far count down from the page count to just above
   * `currentPage`.
   */
  ghost predicate Swept(site: Site, totalPages: int, clean: bool, currentPage: int, windows: seq<Window>, walks: seq<seq<int>>, pages: seq<int>)
  {
    && windows + Windows(currentPage) == Windows(totalPages)
    && WalksOfWindows(site, totalPages, windows, walks, pages)
    && (clean ==> pages + Countdown(currentPage, 1) == Countdown(totalPages, 1))
  }

  /** One pass of the batch loop moves the sweep from the window's last page to just below its first. */
  lemma {:induction false} SweptStep(site: Site, totalPages: int, clean: bool, batchEnd: int, windows: seq<Window>, walks: seq<seq<int>>, pages: seq<int>,
                  batchStart: int, visited: seq<int>)
    requires Swept(site, totalPages, clean, batchEnd, windows, walks, pages)
    requires 1 <= batchEnd <= totalPages && batchStart == BatchStart(batchEnd)
    requires BatchWalk(site, totalPages, batchStart, batchEnd, visited)
    requires clean ==> visited == Countdown(batchEnd, batchStart)
    ensures Swept(site, totalPages, clean, batchStart - 1, windows + [Window(batchStart, batchEnd)], walks + [visited], pages + visited)
  {
    WindowsStep(totalPages, batchEnd, windows);
    WalksOfWindowsSnoc(site, totalPages, windows, walks, pages, Window(batchStart, batchEnd), visited);
    if clean {
      CountdownStep(pages, visited, totalPages, batchStart, batchEnd);
    }
  }

  /** The windows gone through grow by the window ending at `batchEnd`. */
  lemma {:induction false} WindowsStep(totalPages: int, batchEnd: int, windows: seq<Window>)
    requires 1 <= batchEnd && windows + Windows(batchEnd) == Windows(totalPages)
    ensures (windows + [Window(BatchStart(batchEnd), batchEnd)]) + Windows(BatchStart(batchEnd) - 1) == Windows(totalPages)
  {
    var w := Window(BatchStart(batchEnd), batchEnd);
    assert Windows(batchEnd) == [w] + Windows(BatchStart(batchEnd) - 1);
    SeqAssoc(windows, [w], Windows(BatchStart(batchEnd) - 1));
  }

  /** A sweep that has gone below page 1 has gone through every window and, on a clean walk, every page. */
  lemma {:induction false} SweptDone(site: Site, totalPages: int, clean: bool, windows: seq<Window>, walks: seq<seq<int>>, pages: seq<int>)
    requires Swept(site, totalPages, clean, 0, windows, walks, pages)
    ensures windows == Windows(totalPages)
    ensures clean ==> pages == Countdown(totalPages, 1)
  {
    assert Windows(0) == [] && Countdown(0, 1) == [];
    assert windows == windows + [] && pages == pages + [];
  }

  /** Reading a window's pages from its last down continues a countdown from the page count. */
  lemma CountdownStep(before: seq<int>, visited: seq<int>, totalPages: int, batchStart: int, batchEnd: int)
    requires 1 <= batchStart <= batchEnd
    requires before + Countdown(batchEnd, 1) == Countdown(totalPages, 1)
    requires visited == Countdown(batchEnd, batchStart)
    ensures (before + visited) + Countdown(batchStart - 1, 1) == Countdown(totalPages, 1)
  {
    CountdownJoin(batchEnd, batchStart - 1, 1);
    SeqAssoc(before, visited, Countdown(batchStart - 1, 1));
  }

  /** The batch's last page is reached and "previous" is found on every page of the batch above its first. */
  predicate OnTrack(site: Site, totalPages: int, batchStart: int, batchEnd: int)
  {
    (batchEnd == 1 || Reaches(batchEnd, totalPages, site.labels, site.prevMissing)) &&
    forall q | batchStart < q <= batchEnd :: q !in site.prevMissing
  }

  /** Nothing on the walk can fail: the last page's button is shown (or there is one page) and "previous" is found on every page above 1. */
  predicate CleanWalk(site: Site)
  {
    var t := TotalPages(site.labels);
    (t == 1 || ButtonShown(site.labels, t)) && forall q | 2 <= q <= t :: q !in site.prevMissing
  }

  /**
   * The page a batch starts reading on: `navigateToPage(batchEnd, totalPages)`
   * on the freshly loaded table, or page 1 itself for a batch that ends there.
   * Where navigation fails the table stays on page 1 or on the page where the
   * "previous" link went missing, and reading starts there.
   */
  method LandOnBatchEnd(site: Site, totalPages: int, batchEnd: int) returns (shown: int)
    requires 1 <= batchEnd <= totalPages
    ensures batchEnd == 1 || Reaches(batchEnd, totalPages, site.labels, site.prevMissing) ==> shown == batchEnd
    ensures batchEnd > 1 && !ButtonShown(site.labels, batchEnd) && !ButtonShown(site.labels, totalPages) ==> shown == 1
    ensures batchEnd > 1 && !Reaches(batchEnd, totalPages, site.labels, site.prevMissing) && ButtonShown(site.labels, totalPages) ==>
      && batchEnd < shown <= totalPages && shown in site.prevMissing
      && forall q | shown < q <= totalPages :: q !in site.prevMissing
  {
    if batchEnd > 1 {
      var ok, clicks;
      ok, shown, clicks := NavigateToPage(batchEnd, totalPages, site.labels, site.prevMissing);
    } else {
      shown := 1;
    }
  }

  /** On a clean walk every batch reaches its last page and walks it to its first. */
  lemma CleanWalkOnTrack(site: Site, totalPages: int, batchStart: int, batchEnd: int)
    requires CleanWalk(site) && totalPages == TotalPages(site.labels)
    requires 1 <= batchStart <= batchEnd <= totalPages
    ensures OnTrack(site, totalPages, batchStart, batchEnd)
  {
  }

  /** `findPreviousOwnerFromUAID` on a UAID url of the item's table, the profiles checked set aside. */
  method LookUpOwner(site: Site, uaidUrl: string) returns (owner: Option<Owner>)
    ensures owner == Resolve(site.uaidPages, site.profiles, uaidUrl)
  {
    var checked;
    owner, checked := FindPreviousOwnerFromUaid(site.uaidPages, site.profiles, uaidUrl);
  }

  /** The run-wide state of the scraper. */
  class RunContext {
    /** `processedUAIDs`. */
    var processed: set<string>
    /** `totalFound`. */
    var totalFound: nat
    /** `isScraping`, reported by the health endpoint. */
    var scraping: bool
    /** Every UAID text queued so far, in order. */
    ghost var queued: seq<string>
    /** Every UAID text whose previous owner has been looked up, in order. */
    ghost var resolved: seq<string>
    /** Every payload handed to the webhook, in order. */
    ghost var sent: seq<Payload>

    /** The processed set is exactly the queued texts, none queued twice, and `totalFound` counts the sends. */
    ghost predicate Valid()
      reads this
    {
      && processed == Elems(queued)
      && Distinct(queued)
      && totalFound == |sent|
    }

    /** Every queued UAID has been looked up, once, in queue order. */
    ghost predicate Settled()
      reads this
    {
      resolved == queued
    }

    constructor ()
      ensures Valid() && Settled() && !scraping
      ensures processed == {} && totalFound == 0 && queued == [] && sent == []
    {
      processed, totalFound, scraping := {}, 0, false;
      queued, resolved, sent := [], [], [];
    }

    /** A UAID text not yet processed is added to the processed set and queued. */
    method MarkProcessed(t: string)
      requires Valid() && t !in processed
      modifies this`processed, this`queued
      ensures Valid()
      ensures processed == old(processed) + {t} && queued == old(queued) + [t]
    {
      DistinctPush(queued, t);
      processed := processed + {t};
      queued := queued + [t];
    }

    /** `collectUAIDsFromCurrentPage` on the rows the table shows. */
    method CollectUaidsFromCurrentPage(rows: seq<Row>) returns (uaids: seq<Uaid>)
      requires Valid()
      modifies this`processed, this`queued
      ensures Valid()
      ensures ScanResult(uaids, processed) == Scan(rows, old(processed))
      ensures queued == old(queued) + Texts(uaids)
    {
      uaids := [];
      var i := |rows| - 1;
      while i >= 0
        invariant -1 <= i < |rows|
        invariant Scan(rows[i + 1..], old(processed)) == ScanResult(uaids, processed)
        invariant queued == old(queued) + Texts(uaids)
        invariant Valid()
      {
        var row := rows[i];
        assert rows[i..][1..] == rows[i + 1..];
        ghost var r := ScanResult(uaids, processed);
        var hasPlayerLink := HasLiveHolder(row);
        if !hasPlayerLink && row.uaidHref.Some? {
          var uaidUrl := AbsoluteUrl(row.uaidHref.value);
          if row.uaidText !in processed {
            ghost var t0 := Texts(uaids);
            TextsSnoc(uaids, Uaid(row.uaidText, uaidUrl));
            SeqAssoc(old(queued), t0, [row.uaidText]);
            uaids := uaids + [Uaid(row.uaidText, uaidUrl)];
            MarkProcessed(row.uaidText);
          }
        }
        assert ScanResult(uaids, processed) == ScanStep(row, r);
        i := i - 1;
      }
    }

    /**
     * `sendToWebhook`: the payload is handed over; `postOk` is whether the POST succeeds.
     * It appends to `sent` without counting it, so `Valid()` is restored by the caller,
     * `ProcessUaid`, when it increments `totalFound`.
     */
    method SendToWebhook(owner: Owner, postOk: bool) returns (ok: bool)
      modifies this`sent
      ensures sent == old(sent) + [BuildPayload(owner)]
      ensures ok == postOk
    {
      var payload := BuildPayload(owner);
      sent := sent + [payload];
      ok := postOk;
    }

    /** Collect the UAIDs of the page the table shows and add them to the batch's. */
    method ReadPage(site: Site, shown: int, batchUaids: seq<Uaid>, ghost visited: seq<int>,
                    ghost seen0: set<string>, ghost queued0: seq<string>)
      returns (uaids: seq<Uaid>)
      requires Valid()
      requires queued == queued0 + Texts(batchUaids)
      requires ScanResult(batchUaids, processed) == ScanPages(site.pages, visited, seen0)
      modifies this`processed, this`queued
      ensures Valid()
      ensures queued == queued0 + Texts(uaids)
      ensures ScanResult(uaids, processed) == ScanPages(site.pages, visited + [shown], seen0)
    {
      ghost var t0 := Texts(batchUaids);
      var pageUaids := CollectUaidsFromCurrentPage(RowsAt(site.pages, shown));
      TextsAppend(batchUaids, pageUaids);
      SeqAssoc(queued0, t0, Texts(pageUaids));
      assert (visited + [shown])[..|visited|] == visited;
      uaids := batchUaids + pageUaids;
    }

    /**
     * The page loop of a batch: read the page shown (`landing` at first), then
     * click "previous" and read again, until the batch's first page or until
     * the "previous" link cannot be found. `visited` is the sequence of
     * displayed pages read.
     */
    method WalkBatch(site: Site, batchStart: int, batchEnd: int, landing: int)
      returns (batchUaids: seq<Uaid>, ghost visited: seq<int>)
      requires Valid()
      requires 1 <= batchStart <= batchEnd
      modifies this`processed, this`queued
      ensures Valid()
      ensures queued == old(queued) + Texts(batchUaids)
      ensures ScanResult(batchUaids, processed) == ScanPages(site.pages, visited, old(processed))
      ensures 1 <= |visited| <= batchEnd - batchStart + 1 && visited[0] == landing
      ensures StepsBack(visited, site.prevMissing)
      ensures |visited| < batchEnd - batchStart + 1 ==> visited[|visited| - 1] in site.prevMissing
      ensures landing == batchEnd && (forall q | batchStart < q <= batchEnd :: q !in site.prevMissing) ==>
        visited == Countdown(batchEnd, batchStart)
    {
      var shown := landing;
      batchUaids, visited := [], [];
      var page := batchEnd;
      while page >= batchStart
        invariant batchStart - 1 <= page <= batchEnd
        invariant |visited| == batchEnd - page
        invariant WalkEnds(visited, landing, shown)
        invariant StepsBack(visited, site.prevMissing)
        invariant Valid()
        invariant queued == old(queued) + Texts(batchUaids)
        invariant ScanResult(batchUaids, processed) == ScanPages(site.pages, visited, old(processed))
      {
        if page != batchEnd {
          if shown in site.prevMissing {
            break;
          }
          shown := PrevPage(shown);
        }
        StepsBackSnoc(visited, site.prevMissing, shown);
        ghost var next := visited + [shown];
        assert next[0] == (if visited == [] then shown else visited[0]) && next[|next| - 1] == shown;
        assert WalkEnds(next, landing, shown);
        batchUaids := ReadPage(site, shown, batchUaids, visited, old(processed), old(queued));
        visited := next;
        page := page - 1;
      }
      if landing == batchEnd && forall q | batchStart < q <= batchEnd :: q !in site.prevMissing {
        WalkIsCountdown(visited, site.prevMissing, batchStart, batchEnd);
      }
    }

    /** Navigate to the batch's last page, then walk back through the batch collecting UAIDs. */
    method CollectBatch(site: Site, totalPages: nat, batchStart: int, batchEnd: int)
      returns (batchUaids: seq<Uaid>, ghost visited: seq<int>)
      requires Valid()
      requires 1 <= batchStart <= batchEnd <= totalPages
      modifies this`processed, this`queued
      ensures Valid()
      ensures queued == old(queued) + Texts(batchUaids)
      ensures ScanResult(batchUaids, processed) == ScanPages(site.pages, visited, old(processed))
      ensures BatchWalk(site, totalPages, batchStart, batchEnd, visited)
      ensures OnTrack(site, totalPages, batchStart, batchEnd) ==> visited == Countdown(batchEnd, batchStart)
    {
      var shown := LandOnBatchEnd(site, totalPages, batchEnd);
      batchUaids, visited := WalkBatch(site, batchStart, batchEnd, shown);
      assert |visited| > 1 ==> visited[0] !in site.prevMissing;
    }

    /** Look up the previous owner of one UAID and send it when found. */
    method ProcessUaid(site: Site, u: Uaid)
      requires Valid()
      modifies this`sent, this`totalFound, this`resolved
      ensures Valid()
      ensures sent == old(sent) + NoticeFor(site.uaidPages, site.profiles, u)
      ensures resolved == old(resolved) + [u.uaid]
    {
      var userData := LookUpOwner(site, u.url);
      resolved := resolved + [u.uaid];
      if userData.Some? {
        assert NoticeFor(site.uaidPages, site.profiles, u) == [BuildPayload(userData.value)];
        var delivered := SendToWebhook(userData.value, site.webhookUp);
        totalFound := totalFound + 1;
      } else {
        assert NoticeFor(site.uaidPages, site.profiles, u) == [];
      }
    }

    /** Look up the previous owner of every UAID of a batch and send each one found. */
    method ProcessBatch(site: Site, batch: seq<Uaid>)
      requires Valid()
      modifies this`sent, this`totalFound, this`resolved
      ensures Valid()
      ensures sent == old(sent) + Notices(site.uaidPages, site.profiles, batch)
      ensures totalFound == old(totalFound) + |Notices(site.uaidPages, site.profiles, batch)|
      ensures resolved == old(resolved) + Texts(batch)
    {
      for i := 0 to |batch|
        invariant Valid()
        invariant LookedUp(site, batch[..i], old(sent), old(resolved), sent, resolved)
      {
        ghost var sent1, resolved1 := sent, resolved;
        ProcessUaid(site, batch[i]);
        assert batch[..i + 1] == batch[..i] + [batch[i]];
        LookedUpSnoc(site, batch[..i], batch[i], old(sent), old(resolved), sent1, resolved1, sent, resolved);
      }
      assert batch[..|batch|] == batch;
    }

    /** One pass of the batch loop: the batch ending at `batchEnd`, collected and then processed. */
    method ScrapeBatch(site: Site, totalPages: nat, batchEnd: int)
      returns (batchStart: int, batchUaids: seq<Uaid>, ghost visited: seq<int>)
      requires Valid() && Settled()
      requires 1 <= batchEnd <= totalPages
      modifies this`processed, this`queued, this`resolved, this`sent, this`totalFound
      ensures Valid() && Settled()
      ensures batchStart == BatchStart(batchEnd)
      ensures queued == old(queued) + Texts(batchUaids) && old(queued) <= queued
      ensures sent == old(sent) + Notices(site.uaidPages, site.profiles, batchUaids) && old(sent) <= sent
      ensures ScanResult(batchUaids, processed) == ScanPages(site.pages, visited, old(processed))
      ensures BatchWalk(site, totalPages, batchStart, batchEnd, visited)
      ensures OnTrack(site, totalPages, batchStart, batchEnd) ==> visited == Countdown(batchEnd, batchStart)
      ensures CleanWalk(site) && totalPages == TotalPages(site.labels) ==> visited == Countdown(batchEnd, batchStart)
    {
      batchStart := Max(1, batchEnd - PagesPerBatch + 1);
      batchUaids, visited := CollectBatch(site, totalPages, batchStart, batchEnd);
      ProcessBatch(site, batchUaids);
      if CleanWalk(site) && totalPages == TotalPages(site.labels) {
        CleanWalkOnTrack(site, totalPages, batchStart, batchEnd);
      }
    }

    /**
     * `scrapeItemForDeletedUsers`: count the pages, then collect and process
     * the batch windows from the last page down. `windows` are the windows
     * gone through, `walks` the displayed pages each of them read (a
     * `BatchWalk`), `pagesVisited` those pages one walk after the other and
     * `uaids` the UAIDs queued, in order: exactly the new ones those pages
     * show, each of which is looked up and sent when its owner resolves.
     */
    method ScrapeItemForDeletedUsers(site: Site)
      returns (ghost windows: seq<Window>, ghost walks: seq<seq<int>>, ghost pagesVisited: seq<int>, ghost uaids: seq<Uaid>)
      requires Valid() && Settled()
      modifies this`processed, this`queued, this`resolved, this`sent, this`totalFound
      ensures Valid() && Settled()
      ensures old(queued) <= queued && old(sent) <= sent
      ensures queued == old(queued) + Texts(uaids)
      ensures ScanResult(uaids, processed) == ScanPages(site.pages, pagesVisited, old(processed))
      ensures sent == old(sent) + Notices(site.uaidPages, site.profiles, uaids)
      ensures !site.tableLoads ==> windows == [] && pagesVisited == [] && uaids == [] && queued == old(queued) && sent == old(sent)
      ensures site.tableLoads ==> windows == Windows(TotalPages(site.labels))
      ensures site.tableLoads ==> WalksOfWindows(site, TotalPages(site.labels), windows, walks, pagesVisited)
      ensures site.tableLoads && CleanWalk(site) ==> pagesVisited == Countdown(TotalPages(site.labels), 1)
    {
      windows, walks, pagesVisited, uaids := [], [], [], [];
      if !site.tableLoads {
        return;
      }
      var totalPages := FindTotalPages(site.labels);
      windows, walks, pagesVisited, uaids := ScrapeBatches(site, totalPages);
      PrefixOfAppend(old(queued), Texts(uaids));
      PrefixOfAppend(old(sent), Notices(site.uaidPages, site.profiles, uaids));
    }

    /**
     * One pass of the batch loop, carrying along what the passes before it
     * swept, read and sent: the batch ending at `batchEnd` is scraped, and the
     * sweep goes on just below its first page.
     */
    method SweepBatch(site: Site, totalPages: nat, ghost clean: bool, batchEnd: int,
                      ghost windows: seq<Window>, ghost walks: seq<seq<int>>, ghost pages: seq<int>, ghost uaids: seq<Uaid>,
                      ghost seen0: set<string>, ghost queued0: seq<string>, ghost sent0: seq<Payload>)
      returns (batchStart: int, ghost windows': seq<Window>, ghost walks': seq<seq<int>>, ghost pages': seq<int>, ghost uaids': seq<Uaid>)
      requires Valid() && Settled()
      requires 1 <= batchEnd <= totalPages
      requires clean ==> CleanWalk(site) && totalPages == TotalPages(site.labels)
      requires Swept(site, totalPages, clean, batchEnd, windows, walks, pages)
      requires ReadAndSent(site, pages, uaids, seen0, queued0, sent0, processed, queued, sent)
      modifies this`processed, this`queued, this`resolved, this`sent, this`totalFound
      ensures Valid() && Settled()
      ensures batchStart == BatchStart(batchEnd)
      ensures Swept(site, totalPages, clean, batchStart - 1, windows', walks', pages')
      ensures ReadAndSent(site, pages', uaids', seen0, queued0, sent0, processed, queued, sent)
    {
      ghost var seen1, queued1, sent1 := processed, queued, sent;
      var batchUaids;
      ghost var visited;
      batchStart, batchUaids, visited := ScrapeBatch(site, totalPages, batchEnd);
      ReadAndSentJoin(site, pages, uaids, visited, batchUaids,
        seen0, queued0, sent0, seen1, queued1, sent1, processed, queued, sent);
      SweptStep(site, totalPages, clean, batchEnd, windows, walks, pages, batchStart, visited);
      windows', walks', pages', uaids' := windows + [Window(batchStart, batchEnd)], walks + [visited], pages + visited, uaids + batchUaids;
    }

    /** The batch loop of `scrapeItemForDeletedUsers`, from the last page down. */
    method ScrapeBatches(site: Site, totalPages: nat)
      returns (ghost windows: seq<Window>, ghost walks: seq<seq<int>>, ghost pagesVisited: seq<int>, ghost uaids: seq<Uaid>)
      requires Valid() && Settled()
      modifies this`processed, this`queued, this`resolved, this`sent, this`totalFound
      ensures Valid() && Settled()
      ensures queued == old(queued) + Texts(uaids)
      ensures ScanResult(uaids, processed) == ScanPages(site.pages, pagesVisited, old(processed))
      ensures sent == old(sent) + Notices(site.uaidPages, site.profiles, uaids)
      ensures windows == Windows(totalPages)
      ensures WalksOfWindows(site, totalPages, windows, walks, pagesVisited)
      ensures CleanWalk(site) && totalPages == TotalPages(site.labels) ==> pagesVisited == Countdown(totalPages, 1)
    {
      windows, walks, pagesVisited, uaids := [], [], [], [];
      ghost var clean := CleanWalk(site) && totalPages == TotalPages(site.labels);
      var currentPage := totalPages;
      while currentPage >= 1
        invariant 0 <= currentPage <= totalPages
        invariant Swept(site, totalPages, clean, currentPage, windows, walks, pagesVisited)
        invariant Valid() && Settled()
        invariant ReadAndSent(site, pagesVisited, uaids, old(processed), old(queued), old(sent), processed, queued, sent)
        decreases currentPage
      {
        var batchStart;
        batchStart, windows, walks, pagesVisited, uaids :=
          SweepBatch(site, totalPages, clean, currentPage, windows, walks, pagesVisited, uaids, old(processed), old(queued), old(sent));
        currentPage := batchStart - 1;
      }
      SweptDone(site, totalPages, clean, windows, walks, pagesVisited);
    }

    /** `main`'s item loop: scrape every item in turn. */
    method Run(items: seq<Site>)
      requires Valid() && Settled()
      modifies this
      ensures Valid() && Settled() && !scraping
      ensures old(queued) <= queued && old(sent) <= sent
    {
      scraping := true;
      for i := 0 to |items|
        invariant Valid() && Settled() && scraping
        invariant old(queued) <= queued && old(sent) <= sent
      {
        ghost var windows, walks, pagesVisited, uaids := ScrapeItemForDeletedUsers(items[i]);
      }
      scraping := false;
    }
  }
}
