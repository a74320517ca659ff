/** The per-site pipeline of `main` and the run loop over the configured sites, with
    the global URL budget. */
module Monitor {
  import opened Wrappers
  import opened Urls
  import opened Fetcher
  import opened Sitemap
  import opened Feeds
  import opened Filter
  import opened Diff

  /** One entry of the site list: its base URL and its path rules. */
  datatype SiteConfig = SiteConfig(url: Url, includePaths: seq<string>, excludePaths: seq<string>)

  /** The limits a run uses (timeouts and the polite delay have no observable effect
      here). */
  datatype Limits = Limits(maxUrlsPerSite: int, maxTotalUrls: int, requestRetries: nat)

  /** `state["sites"][domain]`: the URL table and the time of the last run. */
  datatype SiteState = SiteState(table: Table, lastRun: int)

  /** What a run produces for one site: its domain key, the kept URLs, and the three
      lists handed to the notifier. */
  datatype Report = Report(domain: string, kept: set<Url>, newUrls: seq<Url>, changedUrls: seq<Url>,
                           goneUrls: seq<Url>)

  /** Everything the run learns from outside: the network, the URL library, and what
      the XML/HTML parsers and the fingerprinter make of each body. */
  datatype World = World(
    net: Net,                                // requests.get, attempt by attempt
    join: (Url, string) -> Url,              // urljoin
    netloc: Url -> string,                   // urlparse(u).netloc
    path: Url -> string,                     // urlparse(u).path
    robotsSitemaps: Url -> seq<Url>,         // robots_sitemaps(base)
    sitemaps: Documents,                     // fetched sitemap bodies, parsed
    looksLikeFeed: Url -> bool,              // the feed test of a probed path
    feedLinks: Url -> seq<string>,           // alternate feed hrefs on the homepage
    feedItems: Url -> set<Url>,              // parse_rss_items(feed)
    fingerprint: Url -> Option<Fingerprint>) // content_fingerprint(u), None when it raises

  /** The table a site starts from: its stored one, or an empty one. */
  function PriorTable(state: map<string, SiteState>, domain: string): Table
  {
    if domain in state then state[domain].table else Table(map[], [])
  }

  /** Every stored table is a well-formed dictionary. */
  ghost predicate StateWellFormed(state: map<string, SiteState>)
  {
    forall d :: d in state ==> WellFormed(state[d].table)
  }

  /** No domain and no URL key of `before` is missing from `after`. */
  ghost predicate Retains(before: map<string, SiteState>, after: map<string, SiteState>)
  {
    && before.Keys <= after.Keys
    && forall d :: d in before ==> before[d].table.records.Keys <= after[d].table.records.Keys
  }

  lemma RetainsTransitive(a: map<string, SiteState>, b: map<string, SiteState>, c: map<string, SiteState>)
    requires Retains(a, b) && Retains(b, c)
    ensures Retains(a, c)
  {
  }

  /** The feed loop of `main`: the items of every feed are added to the URLs found so
      far. */
  method AddFeedItems(feedItems: Url -> set<Url>, feeds: seq<Url>, found: set<Url>) returns (urls: set<Url>)
    ensures forall p :: p in urls <==> p in found || exists f :: f in feeds && p in feedItems(f)
  {
    urls := found;
    for i := 0 to |feeds|
      invariant forall p :: p in urls <==> p in found || exists k :: 0 <= k < i && p in feedItems(feeds[k])
    {
      urls := urls + feedItems(feeds[i]);
    }
  }

  /** `if sitemap_url:` — a sitemap was found and its URL is not the empty string. */
  predicate HasSitemap(sitemap: Option<Url>)
  {
    sitemap.Some? && sitemap.value != ""
  }

  /** What discovery found for a site: the chosen sitemap, the feeds, the pages the
      sitemap walk collected, and all discovered URLs. */
  datatype Discovery = Discovery(sitemap: Option<Url>, feeds: seq<Url>, fromSitemap: set<Url>, urls: set<Url>)

  /** Discovery for the (already stripped) base: the sitemap `discover_sitemaps`
      chooses; the feeds `discover_rss_feeds` finds when feed discovery is on; the walk
      over the chosen sitemap, capped at the per-site limit (nothing when there is no
      sitemap); and, as the URLs, those pages together with every item of every feed. */
  ghost predicate Discovered(w: World, base: Url, retries: nat, maxUrlsPerSite: int, discoverRss: bool, d: Discovery)
  {
    && d.sitemap == FirstFetchable(w.net, retries, SitemapCandidates(w.join, base, w.robotsSitemaps(base)))
    && d.feeds == (if discoverRss
                   then FirstOccurrences(FeedCandidates(w.net, retries, w.join, w.looksLikeFeed, base, w.feedLinks(base)))
                   else [])
    && (if HasSitemap(d.sitemap) then Harvest(w.net, retries, w.sitemaps, d.sitemap.value, maxUrlsPerSite, d.fromSitemap)
        else d.fromSitemap == {})
    && forall p :: p in d.urls <==> p in d.fromSitemap || exists f :: f in d.feeds && p in w.feedItems(f)
  }

  /** The discovery step of `main` for one site: sitemap walk, then the feeds. */
  method DiscoverUrls(w: World, base: Url, retries: nat, maxUrlsPerSite: int, discoverRss: bool)
    returns (sitemap: Option<Url>, feeds: seq<Url>, urls: set<Url>, ghost fromSitemap: set<Url>)
    ensures Discovered(w, RStripSlash(base), retries, maxUrlsPerSite, discoverRss,
                       Discovery(sitemap, feeds, fromSitemap, urls))
  {
    var stripped := RStripSlash(base);
    sitemap := DiscoverSitemaps(w.net, w.join, w.robotsSitemaps(stripped), base, retries);
    var pages: set<Url> := {};
    if HasSitemap(sitemap) {
      var collected, fetched := Collect(w.net, retries, w.sitemaps, sitemap.value, maxUrlsPerSite);
      pages := collected;
    }
    fromSitemap := pages;
    feeds := [];
    if discoverRss {
      feeds := DiscoverFeeds(w.net, retries, w.join, w.looksLikeFeed, base, w.feedLinks(stripped));
    }
    urls := AddFeedItems(w.feedItems, feeds, pages);
  }

  /** What one iteration of the site loop does, for a site processed with `remaining`
      URLs of the global budget left. The domain key is the netloc of the stripped
      base. The discovered URLs are filtered by the site's path rules and clamped: the
      kept URLs are in scope, and there are as many as the smaller of the in-scope
      count, the per-site cap and the remaining budget, which then drops by that many.
      Only the site's own state entry is written. New, Changed and its new table are the
      classification scan of its prior table over the kept URLs in iteration `order`;
      Gone is computed from that new table; `last_run` is `now`. */
  ghost predicate SiteOutcome(w: World, site: SiteConfig, threshold: int, limits: Limits, discoverRss: bool, now: int,
                              state: map<string, SiteState>, remaining: int,
                              state': map<string, SiteState>, report: Report, remaining': int,
                              d: Discovery, order: seq<Url>)
  {
    var base := RStripSlash(site.url);
    var scoped := set u | u in d.urls && ShouldInclude(w.path(u), site.includePaths, site.excludePaths);
    && Discovered(w, base, limits.requestRetries, limits.maxUrlsPerSite, discoverRss, d)
    && report.domain == w.netloc(base)
    && report.kept <= scoped
    && |report.kept| == Min(|scoped|, Min(limits.maxUrlsPerSite, remaining))
    && remaining' == remaining - |report.kept|
    && state'.Keys == state.Keys + {report.domain}
    && (forall dom :: dom in state && dom != report.domain ==> state'[dom] == state[dom])
    && Distinct(order) && Elems(order) == report.kept
    && state'[report.domain].lastRun == now
    && Outcome(state'[report.domain].table, report.newUrls, report.changedUrls) ==
         Scan(PriorTable(state, report.domain), order, w.fingerprint, threshold)
    && report.goneUrls ==
         Gone(state'[report.domain].table.order, report.kept, w.path, site.includePaths, site.excludePaths)
  }

  /** One iteration of the site loop of `main`, from the stripped base to the write of
      the site's state entry. `order` is the order in which the kept set is iterated. */
  method ProcessSite(w: World, site: SiteConfig, threshold: int, limits: Limits, discoverRss: bool, now: int,
                     state: map<string, SiteState>, remaining: int)
    returns (state': map<string, SiteState>, report: Report, remaining': int,
             ghost d: Discovery, ghost order: seq<Url>)
    requires limits.maxUrlsPerSite >= 0 && remaining >= 0
    requires StateWellFormed(state)
    ensures SiteOutcome(w, site, threshold, limits, discoverRss, now, state, remaining, state', report, remaining', d, order)
    ensures StateWellFormed(state') && Retains(state, state')
  {
    var base := RStripSlash(site.url);
    RStripSlashIdempotent(site.url);
    var domain := w.netloc(base);
    var prior := PriorTable(state, domain);
    var retries := limits.requestRetries;

    var sitemap, feeds, urls, fromSitemap := DiscoverUrls(w, base, retries, limits.maxUrlsPerSite, discoverRss);
    d := Discovery(sitemap, feeds, fromSitemap, urls);

    // the path filter, over the set in its iteration order
    var listing := Enumerate(urls);
    var inScope := InScope(listing, w.path, site.includePaths, site.excludePaths);
    ghost var scoped := set u | u in urls && ShouldInclude(w.path(u), site.includePaths, site.excludePaths);
    assert Elems(inScope) == scoped;
    DistinctCard(inScope);
    // the clamp and the global budget
    var kept := ClampUrls(inScope, limits.maxUrlsPerSite, remaining);
    remaining' := remaining - |kept|;

    // classification and record update
    var iteration := Enumerate(kept);
    order := iteration;
    var table, newUrls, changedUrls := DiffSite(prior, iteration, w.fingerprint, threshold);
    ScanRecords(prior, iteration, w.fingerprint, threshold);

    // the Gone pass over the updated table
    var gone := ComputeGone(table, kept, w.path, site.includePaths, site.excludePaths);

    // the site's state entry
    state' := state[domain := SiteState(table, now)];
    report := Report(domain, kept, newUrls, changedUrls, gone);
  }

  /** One step of a run: the state and budget before a site, and the state, report and
      budget after it. */
  datatype Step = Step(before: map<string, SiteState>, budget: int, after: map<string, SiteState>,
                       report: Report, budget': int)

  /** Some discovery and some iteration order make `step` the processing of `site`. */
  ghost predicate SiteStep(w: World, site: SiteConfig, threshold: int, limits: Limits, discoverRss: bool, now: int,
                           step: Step)
  {
    exists d: Discovery, order: seq<Url> ::
      SiteOutcome(w, site, threshold, limits, discoverRss, now,
                  step.before, step.budget, step.after, step.report, step.budget', d, order)
  }

  /** The number of URLs kept by the first n reports of a run. */
  function KeptBefore(reports: seq<Report>, n: nat): int
    requires n <= |reports|
  {
    if n == 0 then 0 else KeptBefore(reports, n - 1) + |reports[n - 1].kept|
  }

  /** The total of a prefix depends on that prefix only. */
  lemma {:induction false} KeptBeforeAppend(reports: seq<Report>, report: Report, n: nat)
    requires n <= |reports|
    ensures KeptBefore(reports + [report], n) == KeptBefore(reports, n)
  {
    if n > 0 {
      KeptBeforeAppend(reports, report, n - 1);
      assert (reports + [report])[n - 1] == reports[n - 1];
    }
  }

  /** Prefix totals grow with the prefix. */
  lemma {:induction false} KeptBeforeMonotone(reports: seq<Report>, k: nat, n: nat)
    requires k <= n <= |reports|
    ensures KeptBefore(reports, k) <= KeptBefore(reports, n)
  {
    if k < n {
      KeptBeforeMonotone(reports, k, n - 1);
    }
  }

  /** When the total before the last report is under the budget, so is every earlier
      total. */
  lemma KeptBelow(reports: seq<Report>, budget: int)
    requires |reports| > 1 ==> KeptBefore(reports, |reports| - 1) < budget
    ensures forall k :: 0 < k < |reports| ==> KeptBefore(reports, k) < budget
  {
    forall k | 0 < k < |reports| ensures KeptBefore(reports, k) < budget {
      KeptBeforeMonotone(reports, k, |reports| - 1);
    }
  }

  /** The i-th report is the i-th site's and keeps no more than the per-site cap. */
  ghost predicate ReportsMatch(w: World, sites: seq<SiteConfig>, limits: Limits, reports: seq<Report>)
  {
    && |reports| <= |sites|
    && forall k :: 0 <= k < |reports| ==>
         reports[k].domain == w.netloc(RStripSlash(sites[k].url)) &&
         |reports[k].kept| <= limits.maxUrlsPerSite
  }

  /** Appending the report of the next site keeps the reports matched to the sites. */
  lemma ReportsMatchStep(w: World, sites: seq<SiteConfig>, limits: Limits, reports: seq<Report>, report: Report)
    requires ReportsMatch(w, sites, limits, reports) && |reports| < |sites|
    requires report.domain == w.netloc(RStripSlash(sites[|reports|].url))
    requires |report.kept| <= limits.maxUrlsPerSite
    ensures ReportsMatch(w, sites, limits, reports + [report])
  {
    var longer := reports + [report];
    assert forall k :: 0 <= k < |reports| ==> longer[k] == reports[k];
  }

  /** Appending one report adds its kept URLs to the total and leaves the earlier
      totals as they were. */
  lemma KeptBeforeStep(reports: seq<Report>, report: Report)
    ensures KeptBefore(reports + [report], |reports| + 1) == KeptBefore(reports, |reports|) + |report.kept|
    ensures forall k :: 0 <= k <= |reports| ==> KeptBefore(reports + [report], k) == KeptBefore(reports, k)
  {
    forall k | 0 <= k <= |reports| ensures KeptBefore(reports + [report], k) == KeptBefore(reports, k) {
      KeptBeforeAppend(reports, report, k);
    }
  }

  /** Step k of a run, read off its states, budgets and reports. */
  function StepAt(states: seq<map<string, SiteState>>, budgets: seq<int>, reports: seq<Report>, k: nat): Step
    requires k < |reports| && |states| == |budgets| == |reports| + 1
  {
    Step(states[k], budgets[k], states[k + 1], reports[k], budgets[k + 1])
  }

  /** The chain of states and budgets that a run passes through: the step from entry k
      to entry k + 1 is the processing of site k with the budget left at entry k, at
      the clock reading `nows[k]`. */
  ghost predicate Chain(w: World, sites: seq<SiteConfig>, threshold: int, limits: Limits, discoverRss: bool, nows: seq<int>,
                        states: seq<map<string, SiteState>>, budgets: seq<int>, reports: seq<Report>)
  {
    && |states| == |budgets| == |reports| + 1 && |reports| <= |sites| == |nows|
    && forall k {:trigger StepAt(states, budgets, reports, k)} :: 0 <= k < |reports| ==>
         SiteStep(w, sites[k], threshold, limits, discoverRss, nows[k], StepAt(states, budgets, reports, k))
  }

  /** Extending the chain of a run by the step of its next site. */
  lemma ChainStep(w: World, sites: seq<SiteConfig>, threshold: int, limits: Limits, discoverRss: bool, nows: seq<int>,
                  states: seq<map<string, SiteState>>, budgets: seq<int>, reports: seq<Report>,
                  state': map<string, SiteState>, report: Report, remaining': int)
    requires Chain(w, sites, threshold, limits, discoverRss, nows, states, budgets, reports) && |reports| < |sites|
    requires SiteStep(w, sites[|reports|], threshold, limits, discoverRss, nows[|reports|],
                      Step(states[|reports|], budgets[|reports|], state', report, remaining'))
    ensures Chain(w, sites, threshold, limits, discoverRss, nows,
                  states + [state'], budgets + [remaining'], reports + [report])
  {
    var states', budgets', reports' := states + [state'], budgets + [remaining'], reports + [report];
    forall k | 0 <= k < |reports'|
      ensures SiteStep(w, sites[k], threshold, limits, discoverRss, nows[k], StepAt(states', budgets', reports', k))
    {
      if k < |reports| {
        assert StepAt(states', budgets', reports', k) == StepAt(states, budgets, reports, k);
      } else {
        assert StepAt(states', budgets', reports', k) == Step(states[|reports|], budgets[|reports|], state', report, remaining');
      }
    }
  }

  /** Each step of a chain stamps its own site's entry with that site's clock reading. */
  lemma ChainStamps(w: World, sites: seq<SiteConfig>, threshold: int, limits: Limits, discoverRss: bool, nows: seq<int>,
                    states: seq<map<string, SiteState>>, budgets: seq<int>, reports: seq<Report>, k: nat)
    requires Chain(w, sites, threshold, limits, discoverRss, nows, states, budgets, reports) && k < |reports|
    ensures reports[k].domain in states[k + 1] && states[k + 1][reports[k].domain].lastRun == nows[k]
  {
    var step := StepAt(states, budgets, reports, k);
    assert SiteStep(w, sites[k], threshold, limits, discoverRss, nows[k], step);
    var d: Discovery, order: seq<Url> :|
      SiteOutcome(w, sites[k], threshold, limits, discoverRss, nows[k],
                  step.before, step.budget, step.after, step.report, step.budget', d, order);
  }

  /** One pass of the site loop: the next site is processed within the remaining
      budget, its report is appended and the chain of the run grows by that step. */
  method NextSite(w: World, sites: seq<SiteConfig>, threshold: int, limits: Limits, discoverRss: bool, nows: seq<int>,
                  state: map<string, SiteState>, reports: seq<Report>, remaining: int,
                  ghost states: seq<map<string, SiteState>>, ghost budgets: seq<int>)
    returns (state': map<string, SiteState>, reports': seq<Report>, remaining': int,
             ghost states': seq<map<string, SiteState>>, ghost budgets': seq<int>)
    requires limits.maxUrlsPerSite >= 0 && remaining >= 0
    requires ReportsMatch(w, sites, limits, reports) && |reports| < |sites|
    requires remaining == limits.maxTotalUrls - KeptBefore(reports, |reports|)
    requires StateWellFormed(state)
    requires Chain(w, sites, threshold, limits, discoverRss, nows, states, budgets, reports)
    requires states[|reports|] == state && budgets[|reports|] == remaining
    ensures |reports'| == |reports| + 1 && reports'[..|reports|] == reports
    ensures Chain(w, sites, threshold, limits, discoverRss, nows, states', budgets', reports')
    ensures states' == states + [state'] && budgets' == budgets + [remaining']
    ensures ReportsMatch(w, sites, limits, reports')
    ensures remaining' == limits.maxTotalUrls - KeptBefore(reports', |reports'|) && remaining' >= 0
    ensures KeptBefore(reports', |reports|) == KeptBefore(reports, |reports|)
    ensures StateWellFormed(state') && Retains(state, state')
  {
    var report;
    ghost var d, order;
    state', report, remaining', d, order :=
      ProcessSite(w, sites[|reports|], threshold, limits, discoverRss, nows[|reports|], state, remaining);
    ReportsMatchStep(w, sites, limits, reports, report);
    KeptBeforeStep(reports, report);
    assert SiteOutcome(w, sites[|reports|], threshold, limits, discoverRss, nows[|reports|], state, remaining, state', report, remaining', d, order);
    ChainStep(w, sites, threshold, limits, discoverRss, nows, states, budgets, reports, state', report, remaining');
    reports' := reports + [report];
    states', budgets' := states + [state'], budgets + [remaining'];
    assert reports'[..|reports|] == reports;
  }

  /** `main` without its I/O: the sites are processed in order against one global
      budget, and after a site the run stops once the budget is used up. `states` and
      `budgets` are the states and the budget left that the run passes through, from
      the state it starts from and the whole global budget to the state it ends in.
      `nows[k]` is what the clock reads when site k finishes: each processed site is
      stamped with its own reading. */
  method Run(w: World, sites: seq<SiteConfig>, threshold: int, limits: Limits, discoverRss: bool, nows: seq<int>,
             state: map<string, SiteState>)
    returns (state': map<string, SiteState>, reports: seq<Report>,
             ghost states: seq<map<string, SiteState>>, ghost budgets: seq<int>)
    requires limits.maxUrlsPerSite >= 0 && limits.maxTotalUrls >= 0
    requires |nows| == |sites|
    requires StateWellFormed(state)
    ensures Chain(w, sites, threshold, limits, discoverRss, nows, states, budgets, reports)
    ensures states[0] == state && states[|reports|] == state' && budgets[0] == limits.maxTotalUrls
    ensures ReportsMatch(w, sites, limits, reports)
    ensures |sites| > 0 ==> |reports| > 0
    ensures KeptBefore(reports, |reports|) <= limits.maxTotalUrls
    ensures forall k :: 0 < k < |reports| ==> KeptBefore(reports, k) < limits.maxTotalUrls
    ensures |reports| < |sites| ==> KeptBefore(reports, |reports|) == limits.maxTotalUrls
    ensures StateWellFormed(state') && Retains(state, state')
  {
    state' := state;
    reports := [];
    var remaining := limits.maxTotalUrls;
    states, budgets := [state], [remaining];
    while |reports| < |sites|
      invariant Chain(w, sites, threshold, limits, discoverRss, nows, states, budgets, reports)
      invariant states[0] == state && states[|reports|] == state'
      invariant budgets[0] == limits.maxTotalUrls && budgets[|reports|] == remaining
      invariant ReportsMatch(w, sites, limits, reports)
      invariant remaining == limits.maxTotalUrls - KeptBefore(reports, |reports|) && remaining >= 0
      invariant |reports| > 0 ==> remaining > 0
      invariant |reports| > 1 ==> KeptBefore(reports, |reports| - 1) < limits.maxTotalUrls
      invariant StateWellFormed(state') && Retains(state, state')
      decreases |sites| - |reports|
    {
      ghost var before := state';
      state', reports, remaining, states, budgets :=
        NextSite(w, sites, threshold, limits, discoverRss, nows, state', reports, remaining, states, budgets);
      RetainsTransitive(state, before, state');
      if remaining <= 0 {
        break;
      }
    }
    KeptBelow(reports, limits.maxTotalUrls);
  }
}
