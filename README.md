# UAID previous-owner scraper, modelled in Dafny

The scraper walks the "All Copies" table of Rolimons item pages. It looks for copies (UAIDs) whose current holder is deleted or hidden. For each one it opens the UAID page and scans the recorded owners. It returns the first owner whose profile the avatar check does not find terminated (a profile that cannot be read, or whose avatar cannot be determined, counts as active), and posts that owner to a Discord webhook as an embed.

This project models that decision logic. The browser is replaced by plain values:

- the pager labels;
- the rows of each table page;
- the pages on which the "previous" link cannot be found;
- the recorded-owner links of each UAID page;
- for each profile page: the `src` of each avatar selector, the page source and the matches of its two regular expressions.

The modules follow the script's functions:

- `JsStrings`: the JavaScript string operations the decisions rest on. These are `includes`, `startsWith`, `trim`, the `/^\d+$/` test, `parseInt` and the decimal text of a number.
- `Avatar`: `checkUserHasAvatar`. Its selector loop is a method proved against the function `Classification`, and the lemmas state the cascade's behaviour.
- `Owners`: `findPreviousOwnerFromUAID`.
  - Collecting candidates is a loop proved against `Candidates`.
  - Checking candidates is a loop with an early return, proved against `FirstValid`.
- `Webhook`: the embed and payload built by `sendToWebhook`, with a reader that recovers what the payload carries.
- `Pagination`: the page count, the batch windows and `navigateToPage`.
- `Scraper`:
  - the row collector;
  - the batch loop of `scrapeItemForDeletedUsers`;
  - `main`'s item loop, over a `RunContext` class whose fields are `processedUAIDs`, `totalFound` and `isScraping`.
  - Ghost fields record the UAIDs queued, the UAIDs looked up and the payloads sent. The class invariant ties them together: the processed set is exactly the queued texts, no text is queued twice, and `totalFound` counts the sends.

Two behaviours of the script are modelled as written:

- The result of `navigateToPage` is ignored (uaid-scraper.js:384). When navigation fails, a batch reads from the page the table is left on. That is page 1, or the first page missing its "previous" link on the way down from the last page. `CollectBatch` states exactly which, and the item-level methods state it for every window.
- `totalFound` grows for every resolved owner, whether or not the POST succeeds.

## Model

| member | source | states |
|---|---|---|
| JsStrings.TrimStartDropsSpace | uaid-scraper.js:203-206 | leading-trim keeps a suffix that does not start with white space and drops only white space |
| JsStrings.TrimEndDropsSpace | uaid-scraper.js:203-206 | trailing-trim keeps a prefix that does not end with white space and drops only white space |
| JsStrings.TrimIsCore | uaid-scraper.js:203-206 | `trim()` returns a contiguous piece of the text with only white space around it |
| JsStrings.TrimEmptyIff | uaid-scraper.js:203 | `!text.trim()` holds exactly when the text is all white space |
| JsStrings.TrimmedEnds | uaid-scraper.js:206 | a trimmed username has no white space at either end |
| JsStrings.TrimIdempotent | uaid-scraper.js:206 | trimming a trimmed text changes nothing |
| JsStrings.TrimOfTrimmed | uaid-scraper.js:360 | a text with no white space at its ends is left alone by `trim()` |
| JsStrings.NatToString | uaid-scraper.js:258 | the text `${n}` of a non-negative number passes `/^\d+$/` |
| JsStrings.ParseNatToString | uaid-scraper.js:258-266 | `parseInt` of the decimal text of n gives back n |
| JsStrings.PageLabelRoundTrip | uaid-scraper.js:360-362 | a page button labelled `${n}` survives trim, passes the digit test and parses to n |
| Avatar.SrcVerdict | uaid-scraper.js:132-144 | a decisive `src` gives valid iff it is not a placeholder; valid carries that `src` (a CDN url), invalid carries no url |
| Avatar.SourceVerdict | uaid-scraper.js:151-179 | the page-source fallback is invalid iff neither regex matched and the source has the placeholder file but no `tr.rbxcdn.com`; a valid verdict carries the avatar match when there is one, and otherwise the CDN match |
| Avatar.CheckUserHasAvatar | uaid-scraper.js:113-185 | the selector loop with early returns, then the fallback, computes `Classification` |
| Avatar.SelectorVerdictIsFirstDecisive | uaid-scraper.js:127-149 | the selector stage answers with the first decisive selector, and with nothing iff no selector decides |
| Avatar.PlaceholderBeforeCdn | uaid-scraper.js:133-143 | a placeholder `src` on the first decisive selector means terminated, even when it is also on the CDN |
| Avatar.CdnSrcIsAvatar | uaid-scraper.js:139-143 | a non-placeholder CDN `src` on the first decisive selector is the reported avatar |
| Avatar.TerminatedExactly | uaid-scraper.js:127-179 | "terminated" happens in exactly two cases: a placeholder selector first, or no decisive selector, no regex match and the placeholder file without any `tr.rbxcdn.com` |
| Avatar.FailOpen | uaid-scraper.js:177-183 | a page that fails to load, a source that cannot be read, or a page without any avatar markup is classified valid with no url |
| Avatar.PlaceholderOnlyIsTerminated | uaid-scraper.js:170-175 | a source whose only evidence is the placeholder file is classified terminated |
| Avatar.AvatarUrlProvenance | uaid-scraper.js:140-167 | a reported avatar url is a CDN selector `src` or one of the two regex matches; terminated never carries a url |
| Owners.AbsoluteUrl | uaid-scraper.js:207-210 | an href starting with `http` is kept as it is; any other href gets the site origin in front; either way the url starts with `http` and ends with the href |
| Owners.AbsoluteUrlIdempotent | uaid-scraper.js:207-210 | making an absolute url absolute again changes nothing |
| Owners.FirstLinkFor | uaid-scraper.js:212-214 | the index of the first eligible link whose trimmed text is the username, and none iff there is no such link |
| Owners.CandidatesComplete | uaid-scraper.js:198-214 | every eligible link's trimmed text appears among the candidates |
| Owners.NewCandidateIsFirst | uaid-scraper.js:212-214 | a link that adds a new username is the first eligible link with that username |
| Owners.CandidatesFromFirstLinks | uaid-scraper.js:203-214 | each candidate is built from the first eligible link that carries its username |
| Owners.CandidatesInFirstAppearanceOrder | uaid-scraper.js:212-214 | candidates are ordered by the position of their first link |
| Owners.CandidatesDistinct | uaid-scraper.js:212-214 | no username appears twice among the candidates |
| Owners.CandidatesWellFormed | uaid-scraper.js:203-210 | each username is non-empty, trimmed and free of "Deleted" and "Hidden", and each profile url starts with `http` |
| JsStrings.TrimKeepsContains | uaid-scraper.js:203-206 | whatever the trimmed text includes, the untrimmed text includes too, so the sentinel test on the raw text also covers the username |
| Owners.CollectCandidates | uaid-scraper.js:193-219 | the push loop over the player links computes `Candidates` |
| Owners.FirstValidIsFirst | uaid-scraper.js:222-237 | the result is none iff no candidate is valid; otherwise it is built from the first valid candidate with its avatar url and an empty discord |
| Owners.ResolvedOwnerIsCandidate | uaid-scraper.js:222-232 | a resolved owner is one of the UAID page's candidates, its profile classified valid |
| Owners.CheckCandidates | uaid-scraper.js:222-237 | the loop computes `FirstValid`; it checks a prefix of the candidates and stops at the first valid one; on a null result every candidate was checked |
| Owners.FindPreviousOwnerFromUaid | uaid-scraper.js:187-242 | computes `Resolve`; a UAID page that fails to load checks no profile; otherwise the facts of `CheckCandidates` hold |
| Webhook.DiscordValue | uaid-scraper.js:77 | the discord field is never empty: it is the handle when the handle is non-empty, and a single space otherwise |
| Webhook.BuildEmbed | uaid-scraper.js:71-97 | title and colour; exactly three fields in order: the discord value (a space for an empty handle, not inline), the username (inline) and the markdown link to the profile (not inline); thumbnail present iff the avatar url is truthy, and then it is that url |
| Webhook.PayloadRoundTrip | uaid-scraper.js:71-99 | reading the payload back gives the username, the profile url and the avatar url exactly when that url is truthy |
| Pagination.TotalPages | uaid-scraper.js:354-365 | at least 1, no smaller than any all-digit label, and equal to 1 or to some label's value |
| Pagination.FindTotalPages | uaid-scraper.js:354-365 | the scan over the pager buttons computes `TotalPages` |
| Pagination.ShownPageWithinTotal | uaid-scraper.js:359-363 | every page whose button the pager shows is within the page count |
| Pagination.WindowsShape | uaid-scraper.js:371-377 | windows are non-empty, hold at most 10 pages (all but the last exactly 10), are contiguous, start at the page count and end at page 1 |
| Pagination.WindowsDescending | uaid-scraper.js:374-430 | a later window lies wholly below an earlier one |
| Pagination.WindowsPartition | uaid-scraper.js:374-430 | every page from 1 to the page count lies in exactly one window |
| Pagination.WindowsCount | uaid-scraper.js:374-430 | there are ceil(pages / 10) windows |
| Pagination.NavigateToPage | uaid-scraper.js:255-281 | the call succeeds iff the target is reachable; a direct hit shows the target; with only the last-page button it clicks "previous" max(0, total - target) times; with neither button it fails on page 1; a stuck walk ends on a page missing its "previous" link |
| Scraper.LastRowFor | uaid-scraper.js:287-317 | the row found is queueable and carries the given UAID text |
| Scraper.LastRowForSpec | uaid-scraper.js:287-317 | the row found is the highest-indexed queueable row with the text, and none is found iff there is no such row |
| Scraper.ScanDedupes | uaid-scraper.js:314-317 | the processed set grows by exactly the queued texts, which are distinct and were not processed before |
| Scraper.ScanSeenGrows | uaid-scraper.js:314-317 | a scan only adds to the processed set |
| Scraper.ScanComplete | uaid-scraper.js:291-317 | after a page, every row without a live holder and with a UAID link has its text in the processed set |
| Scraper.ScanFollowsRows | uaid-scraper.js:287-317 | each queued UAID comes from the last queueable row with its text, and the queue follows the rows from last to first |
| Scraper.ScanUrlsAbsolute | uaid-scraper.js:309-312 | queued UAID urls start with `http` |
| Scraper.ScanPagesAppend | uaid-scraper.js:374-404 | reading two runs of pages in a row queues what the first run queues, then what the second queues given what the first left processed |
| Scraper.ScanPagesDedupes | uaid-scraper.js:388-403 | across the pages of a batch, each UAID text is queued at most once and none was processed before |
| Scraper.LookUpOwner | uaid-scraper.js:414 | the owner looked up is `Resolve` of the UAID url |
| Scraper.WalkIsCountdown | uaid-scraper.js:390-399 | a walk that starts on the batch's last page and never misses "previous" reads the batch's pages from the last down to the first |
| Scraper.NoticesPerResolvedOwner | uaid-scraper.js:410-423 | exactly as many sends as UAIDs that resolve (so at most one per UAID, one for each when all resolve, none when none do); each send names a resolved owner of the batch, and every resolved owner's payload is sent |
| Scraper.NoticesAppend | uaid-scraper.js:374-423 | the sends for two batches in a row are the sends of the first followed by those of the second |
| Scraper.LandOnBatchEnd | uaid-scraper.js:381-385 | a batch starts on its last page when that page is reachable or is page 1; on page 1 when neither button is shown; otherwise on the first page missing "previous" met walking down from the last page, which lies above the batch |
| Scraper.CleanWalkOnTrack | uaid-scraper.js:383-399 | when the last page's button is shown and "previous" never goes missing, every batch is reached and walked completely |
| Scraper.RunContext.constructor | uaid-scraper.js:18-20 | an empty processed set, zero found, not scraping |
| Scraper.RunContext.MarkProcessed | uaid-scraper.js:314-317 | a text not yet processed is added to the processed set and queued once, keeping the invariant |
| Scraper.RunContext.CollectUaidsFromCurrentPage | uaid-scraper.js:283-324 | the reverse row loop computes `Scan` from the old processed set, and the queue grows by exactly the returned texts |
| Scraper.RunContext.SendToWebhook | uaid-scraper.js:68-111 | hands `BuildPayload(owner)` over; the result is the POST's outcome |
| Scraper.RunContext.ReadPage | uaid-scraper.js:401-402 | the batch's UAIDs grow by the scan of the page shown, continuing the scan of the pages read before |
| Scraper.RunContext.WalkBatch | uaid-scraper.js:390-404 | reads one page per step back, stops early only at a page missing "previous", and reads the whole batch from its last page down when nothing is missing |
| Scraper.RunContext.CollectBatch | uaid-scraper.js:381-404 | the UAIDs are the scan of the displayed pages; the first page read is the batch's last page when reachable, page 1 when both buttons are missing, and otherwise the first page missing "previous" met walking down from the last page, which lies above the batch and is then the only page read; after the first page each page read is "previous" of the one before, and the walk stops early only at a page missing "previous" |
| Scraper.RunContext.ProcessUaid | uaid-scraper.js:411-422 | one UAID is looked up and its `NoticeFor` payload, if any, is sent |
| Scraper.RunContext.ProcessBatch | uaid-scraper.js:406-426 | every UAID is looked up once, in order; sends are `Notices` of the batch; `totalFound` grows by their number |
| Scraper.RunContext.ScrapeBatch | uaid-scraper.js:376-426 | one batch starting at max(1, end - 9): the UAIDs queued are the scan of the pages read, and the sends are their `Notices`, keeping the invariant; the pages read follow `CollectBatch`'s walk (landing page, one step back per page, early stop only where "previous" is missing); on a clean walk it reads its pages from the last down |
| Scraper.RunContext.SweepBatch | uaid-scraper.js:374-429 | one pass of the batch loop extends what the passes before it swept: the windows by the one ending at the current page, the walks by that window's `BatchWalk`, the queue and the sends by its scan and its `Notices`; the loop goes on just below the window's first page |
| Scraper.RunContext.ScrapeBatches | uaid-scraper.js:371-430 | the batch loop goes through `Windows(totalPages)`; the pages read are the walks of those windows one after the other, each walk a `BatchWalk` of its window (landing page, one step back per page, early stop only where "previous" is missing); the UAIDs queued are the scan of all pages read, in order, and the sends are their `Notices`; on a clean walk it reads every page once, from the last to the first |
| Scraper.RunContext.ScrapeItemForDeletedUsers | uaid-scraper.js:326-437 | the batches go through `Windows(TotalPages(labels))`, each read by a `BatchWalk` of its window, the walks one after the other; the UAIDs queued are the scan of the pages read and the sends are their `Notices`; a clean walk reads every page once, from the last to the first; an unloadable table changes nothing |
| Scraper.RunContext.Run | uaid-scraper.js:453-459 | scrapes every item, keeping the invariant, and ends not scraping |

## Left out

- WebDriver setup, page loads, sleeps and waits (uaid-scraper.js:40-66 and every `driver` call): the browser is replaced by the `Site` and `Profile` values.
- The express health endpoint (uaid-scraper.js:23-38): only the `isScraping` flag it reports is modelled.
- The HTTP POST of the webhook: its outcome is the input `webhookUp`, and the endpoint address is not part of this model.
- Timestamps (`new Date()`): they are nondeterministic.
- Item-ID parsing in `main` (uaid-scraper.js:450): `Run` takes the item pages directly.
- Other parts of the script:
  - the item title lookup;
  - console logging;
  - the batch counter, which is only logged;
  - the `SIGINT` handler;
  - `driver.quit`.
- Regular-expression evaluation: the two `tr.rbxcdn.com` matches of a profile page are inputs.
- JavaScript number precision: `ParseDigits` is exact for every length, while `parseInt` loses precision above 2^53.
- `tableLoads` is one flag per item. It does not model the table loading on the first visit but failing on a later batch's reload, which would end the item at uaid-scraper.js:434.
- The pager is one list of labels, read on a freshly loaded table. The model does not tell apart the XPath button search (anywhere on the page) and the pager selector used for the count.
- `prevMissing` is a fixed set of pages, and the same on every visit. Clicking "previous" on page 1 leaves page 1 shown.
- Exceptions inside a row, link or selector lookup are folded into absent values (`None`).
- Scraper.RunContext.Run: states the invariant and that the queue and the sends only grow, not the per-item contents.
