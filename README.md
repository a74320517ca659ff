# Competitor site monitor: discovery and diff engine

A Dafny model of the engine in `gha-competitor-monitor/monitor.py`. For each configured
site, the monitor finds a sitemap and walks its index tree, probes and de-duplicates RSS/Atom
feeds, filters the discovered URLs by path prefix, and clamps them to a per-site and a global
budget. It then fingerprints every kept page, classifies the pages as New or Changed against the
stored state, updates the state in place, and lists the stored URLs that are Gone.

Everything outside the program is an input of the model:
- `Net`: whether attempt *k* of a GET of a URL succeeds;
- the parsed sitemap documents;
- `urljoin`, and the netloc and path parts of `urlparse`;
- what `robots.txt` declares, the homepage's feed links and each feed's items;
- the feed test on a probed URL;
- the content fingerprint of a page.

The network is deterministic per (URL, attempt). Fetching the same URL twice with the same
retries therefore gives the same answer.

Modules, one file each:
- `Wrappers`: `Option`.
- `Urls`: strings, prefixes, `rstrip("/")`, duplicate-free sequences, set iteration.
- `Fetcher`: `fetch` and `try_urls`.
- `Sitemap`: `parse_sitemap_collect` and `discover_sitemaps`.
- `Feeds`: `discover_rss_feeds` and its de-duplication.
- `Filter`: `should_include` and `clamp_urls`.
- `Diff`: the classification loop, the record update and Gone.
- `Monitor`: one iteration of the site loop of `main`, and the budgeted loop itself.

The loops of `monitor.py` stay loops. These are:
- the attempt loop of `fetch` and the candidate loop of `try_urls`;
- the stack walk of `parse_sitemap_collect` and its two inner loops;
- the probe loop and the de-duplication loop of `discover_rss_feeds`;
- the classification loop and the Gone loop;
- the site loop.

Each loop is a method proved against a specification function or against an invariant, and the
properties of that function are lemmas.

Python's dictionaries keep insertion order. `site_state["urls"]` is therefore a `Table`: a map
together with the order of its keys. Iterating a Python `set` visits its elements in an order
the model does not fix. The method `Urls.Enumerate` picks that order nondeterministically, and
the results are stated for whatever order it picks.

## Model

| member | source | states |
|---|---|---|
| Fetcher.Fetch | gha-competitor-monitor/monitor.py:46-59 | Makes between 1 and retries+1 attempts. It succeeds iff some attempt among the first retries+1 succeeds. On success, the last attempt succeeded and every earlier one failed. On failure, all retries+1 attempts were made. |
| Fetcher.TryUrls | gha-competitor-monitor/monitor.py:61-68 | The chosen candidate is `FirstFetchable` of the candidate list. |
| Fetcher.FirstFetchableIsFirst | gha-competitor-monitor/monitor.py:61-68 | The result is None iff no candidate fetches. Otherwise it is a candidate that fetches, and every candidate before it fails. |
| Fetcher.FirstFetchableAppend | gha-competitor-monitor/monitor.py:61-68 | Trying `first + rest` gives the first success in `first` when there is one, and trying `rest` otherwise. |
| Sitemap.Collect | gha-competitor-monitor/monitor.py:82-108 | Terminates on cyclic or self-referential indexes, with decreasing measure (unseen document URLs, stack length). The collected set is the `Harvest` of the seed: a cap of 0 or less collects nothing; otherwise at most `maxUrls` pages are collected. Every collected page is a `url/loc` of a document that loads and is reachable from the seed through `sitemap/loc` links; below the cap, every such page is collected. No URL is fetched twice, the seed is fetched first, and every fetched URL is reachable. Below the cap, every reachable URL was fetched. |
| Sitemap.PushAll | gha-competitor-monitor/monitor.py:99-101 | The child sitemaps are pushed onto the stack in document order. |
| Sitemap.AddPages | gha-competitor-monitor/monitor.py:103-107 | The result is the set before plus the first j pages of the document, for some j; when j stops short of the end, the set has reached the cap exactly. So pages are only added, only from this document and in document order, the set never exceeds the cap, and if it stays below the cap every page of the document was added. |
| Sitemap.WalkDone | gha-competitor-monitor/monitor.py:88 | When the walk ends with an empty stack, every URL reachable from the seed has been fetched. |
| Sitemap.DiscoverSitemaps | gha-competitor-monitor/monitor.py:110-119 | The chosen sitemap is the first candidate that fetches. The candidates are the robots-declared sitemaps, then `/sitemap.xml`, then `/sitemap_index.xml`, all joined to the base without its trailing slashes. |
| Sitemap.RobotsDeclaredFirst | gha-competitor-monitor/monitor.py:112-118 | A robots-declared sitemap that fetches always wins. Failing that, `/sitemap.xml` wins over `/sitemap_index.xml`. Failing both, there is no sitemap. |
| Feeds.FirstOccurrences | gha-competitor-monitor/monitor.py:147-151 | The de-duplicated list holds exactly the elements of its input, and none of them twice. |
| Feeds.FirstOccurrencesOrder | gha-competitor-monitor/monitor.py:147-151 | First-seen order: an earlier element of the result first occurs earlier in the input. |
| Feeds.Dedup | gha-competitor-monitor/monitor.py:147-151 | The loop builds exactly `FirstOccurrences` of the feed list. |
| Feeds.DiscoverFeeds | gha-competitor-monitor/monitor.py:121-151 | The result is the de-duplicated list of two parts, in this order. First come the well-known paths (in probe order) that fetch and look like a feed. Then, when the homepage fetches, each non-empty alternate link joined to the base. |
| Feeds.ProbedFeedsMembers | gha-competitor-monitor/monitor.py:125-133 | A URL is a probed feed iff it is the base joined with one of the probed paths, it fetches, and it looks like a feed. |
| Feeds.DeclaredFeedsMembers | gha-competitor-monitor/monitor.py:138-143 | A URL is a declared feed iff it is the base joined with a non-empty href. |
| Feeds.FeedCandidatesMembers | gha-competitor-monitor/monitor.py:121-151 | A URL is discovered as a feed iff one of two things holds. Either it is a well-known feed path that fetches and looks like a feed, or the homepage fetches and the URL is one of its non-empty feed links. |
| Filter.AnyStartsWith | gha-competitor-monitor/monitor.py:188 | True iff the path starts with one of the prefixes. |
| Filter.ShouldInclude | gha-competitor-monitor/monitor.py:185-194 | True iff two things hold: there are no include prefixes or the path starts with one, and the path starts with no exclude prefix. An empty path counts as `/`. |
| Filter.InScope | gha-competitor-monitor/monitor.py:248 | Keeps exactly the listed URLs that `should_include` accepts. A duplicate-free listing stays duplicate-free. |
| Filter.ClampUrls | gha-competitor-monitor/monitor.py:216-218 | For a non-negative `take`, the result is a subset of the URLs of size min(\|urls\|, max per site, remaining budget). When the budget covers all the URLs, it is all of them. |
| Diff.Put | gha-competitor-monitor/monitor.py:272 | Assigning a dictionary entry sets that one record and keeps the table well formed. |
| Diff.DiffSite | gha-competitor-monitor/monitor.py:253-272 | The classification loop computes exactly `Scan` of the prior table over the kept URLs in iteration order. |
| Diff.ScanRecords | gha-competitor-monitor/monitor.py:257-272 | Each fingerprinted kept URL ends with exactly its new digest and length. Every other URL keeps its record or its absence, no key is removed, and the table stays well formed. |
| Diff.ScanClassifies | gha-competitor-monitor/monitor.py:257-271 | A URL is New iff it is kept, fingerprinted and had no record. It is Changed iff it is kept, fingerprinted and had a record whose digest differs, with the length moved by at least the threshold (a missing length counts as 0). A URL whose fingerprint failed is in neither list. |
| Diff.NewChangedDisjoint | gha-competitor-monitor/monitor.py:265-271 | No URL is both New and Changed. |
| Diff.ScanFixpoint | gha-competitor-monitor/monitor.py:257-272 | A table that already holds every fingerprint of the scan reports nothing and does not change. |
| Diff.ScanIdempotent | gha-competitor-monitor/monitor.py:257-272 | Scanning the updated table again with the same fingerprints reports no New and no Changed URL, and changes nothing. |
| Diff.ThresholdInclusive | gha-competitor-monitor/monitor.py:268-270 | A changed digest whose length moved by exactly the threshold is Changed. One whose length moved by one less is not, and only its record is updated. |
| Diff.Gone | gha-competitor-monitor/monitor.py:274-279 | A key is Gone iff two things hold: it is not among the kept URLs, and either no include rules are set or the key passes them. Gone has no duplicates when the keys have none. |
| Diff.GoneOrder | gha-competitor-monitor/monitor.py:275 | Gone lists its keys in the table's key order. |
| Diff.ComputeGone | gha-competitor-monitor/monitor.py:274-279 | The loop over the table's keys builds exactly `Gone` of the key order. |
| Urls.RStripSlashSpec | gha-competitor-monitor/monitor.py:228 | `rstrip("/")` gives the longest prefix that does not end in a slash and after which only slashes follow. |
| Urls.RStripSlashIdempotent | gha-competitor-monitor/monitor.py:228 | Stripping the slashes twice strips nothing more. |
| Urls.Enumerate | gha-competitor-monitor/monitor.py:257 | Iterating a set visits each of its elements exactly once. |
| Monitor.AddFeedItems | gha-competitor-monitor/monitor.py:245-246 | After the loop, the URLs are those found before, together with every item of every feed. |
| Monitor.DiscoverUrls | gha-competitor-monitor/monitor.py:236-246 | `Discovered` over the stripped base. The sitemap is the one `discover_sitemaps` chooses. When it is present and not empty, the sitemap part is the `Harvest` of a walk from it under the per-site cap; otherwise the sitemap part is empty. The feeds are the discovered feeds when feed discovery is on, and none otherwise. A URL is discovered iff it is in the sitemap part or an item of one of the feeds. |
| Monitor.ProcessSite | gha-competitor-monitor/monitor.py:228-297 | `SiteOutcome`: discovery is `Discovered` over the stripped base, and the report is keyed by its netloc. The kept URLs are discovered and in scope, and there are min(in-scope count, max per site, remaining budget) of them; the budget drops by that number. Only this site's state entry changes, and no domain or URL key is lost. `last_run` is `now`. New, Changed and the new table are `Scan` of the prior table over the kept URLs in iteration order. Gone is `Gone` of the new table's key order. |
| Monitor.ReportsMatchStep | gha-competitor-monitor/monitor.py:227-231 | Appending the next site's report keeps every report matched to its site, provided the report is keyed by that site's domain and keeps at most the per-site cap. |
| Monitor.KeptBeforeStep | gha-competitor-monitor/monitor.py:249-250 | Appending a site's report adds its kept count to the running total, and leaves the totals of the earlier prefixes as they were. |
| Monitor.KeptBeforeMonotone | gha-competitor-monitor/monitor.py:249 | The running total of kept URLs never decreases along the reports. |
| Monitor.KeptBelow | gha-competitor-monitor/monitor.py:249-250 | Since prefix totals only grow, a total under the budget before the last report bounds every earlier total. |
| Monitor.ChainStep | gha-competitor-monitor/monitor.py:227-297 | Appending the step of the next site, from the last state and budget of the chain, extends the chain of the run by one step. |
| Monitor.ChainStamps | gha-competitor-monitor/monitor.py:296-297 | Step k of a run writes the entry of site k's domain, and that entry's `last_run` is the clock reading of site k. |
| Monitor.NextSite | gha-competitor-monitor/monitor.py:227-297 | One pass of the site loop appends one report. The chain of states and budgets grows by one `SiteStep`: the processing of the next site, from the last state, with the budget left. The new report matches the next site and keeps at most the per-site cap. The remaining budget stays non-negative and equals the total budget minus all URLs kept so far. The state keeps every domain and URL key, and its tables stay well formed. |
| Monitor.Run | gha-competitor-monitor/monitor.py:220-303 | Sites are processed in order, one report each. The run passes through a chain of states and budgets that starts at the given state and the whole budget and ends at the final state; step k is the `SiteStep` of site k at its own clock reading `nows[k]`. Each report keeps at most the per-site cap, and in total at most `max_total_urls` are kept. A site after the first is processed only while budget remains. When sites are left unprocessed, the budget was used up exactly. The state loses no domain and no URL key, and its tables stay well formed. |

## Left out

- HTTP: `requests.get` is the `Net` oracle. `backoff_sleep` and the polite sleep are left out because they are timing only and have no observable result. The timeouts are left out for the same reason.
- `robots_sitemaps` is an input (`World.robotsSitemaps`). Its line parsing uses case folding, which has no counterpart over `seq<char>`.
- XML and HTML parsing are inputs: ElementTree, BeautifulSoup, the homepage `<link>` scan and `parse_rss_items`. A sitemap body is its list of `sitemap/loc` texts and its list of `url/loc` texts. A feed is its item set, already truncated to the per-site cap as the parser returns it.
- The crash on a `loc` element without text is a parser artefact and is not modelled.
- `loc.text.strip()`: a document's `loc` lists hold the texts after whitespace stripping; the stripping itself belongs to the parser input.
- Fingerprinting is an input (`World.fingerprint`): `normalize_text`, SHA-256 and the length of the normalised text. It is None where `content_fingerprint` raises.
- `urljoin` and `urlparse` are inputs (`join`, `netloc`, `path`).
- The feed test of a probed URL is the input `looksLikeFeed`. That test reads the Content-Type header or the start of the body.
- `load_config`, `load_state` and `save_state` are file I/O. The configuration is given as parameters and the state as an in-memory map.
- Slack posting, message building and the 20/10-item display truncation are presentation only. A run's `reports` holds every processed site, whether or not it would be posted.
- `time.time()` is an input: `ProcessSite` takes the reading `now`, and `Run` takes one reading per site, `nows[k]` for site k.
- Monitor.ProcessSite: requires a non-negative per-site cap and a non-negative remaining budget. The reason is that Python's negative slice in `clamp_urls` drops elements from the end, and that behaviour is not modelled.
- Monitor.Run: requires non-negative `max_urls_per_site` and `max_total_urls`, for the same reason.
- Fetcher.Fetch: `retries` is a natural number. A negative `retries` makes the attempt loop of `fetch` run zero times and return None without raising, which is not modelled.
- Diff.Gone: with only exclude rules configured, excluded stored keys are still reported as Gone, because the Gone pass of `main` skips keys only when include rules exist.
- The model's network answers the same way every time a given URL and attempt number are fetched. A real network can answer differently on a second fetch of the same URL.
