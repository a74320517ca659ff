/** The Feed Resolver's discovery step: well-known feed paths, then the feeds the
    homepage declares, de-duplicated in first-seen order. */
module Feeds {
  import opened Urls
  import opened Fetcher

  /** The list that the de-duplication loop of `discover_rss_feeds` builds: each
      element of s once, at the place where it first occurs. */
  function FirstOccurrences(s: seq<Url>): (r: seq<Url>)
    ensures forall x :: x in r <==> x in s
    ensures Distinct(r)
  {
    if s == [] then []
    else
      var d := FirstOccurrences(s[..|s| - 1]);
      assert forall x :: x in s <==> x in s[..|s| - 1] || x == s[|s| - 1];
      if s[|s| - 1] in d then d else d + [s[|s| - 1]]
  }

  /** First-seen order: x comes before y in the result exactly when x first occurs
      in s before y first does. */
  lemma {:induction false} FirstOccurrencesOrder(s: seq<Url>)
    ensures forall i, j :: 0 <= i < j < |FirstOccurrences(s)| ==>
              IndexOf(s, FirstOccurrences(s)[i]) < IndexOf(s, FirstOccurrences(s)[j])
  {
    if s != [] {
      var init, last := s[..|s| - 1], s[|s| - 1];
      var d := FirstOccurrences(init);
      FirstOccurrencesOrder(init);
      assert s == init + [last];
      forall y | y in init ensures IndexOf(s, y) == IndexOf(init, y) {
        IndexOfAppend(init, last, y);
      }
      if last !in d {
        assert last !in init;
        assert IndexOf(s, last) == |init|;
        assert FirstOccurrences(s) == d + [last];
      }
    }
  }

  /** `dedup` in `discover_rss_feeds`: one pass that appends each feed not seen yet. */
  method Dedup(feeds: seq<Url>) returns (dedup: seq<Url>)
    ensures dedup == FirstOccurrences(feeds)
  {
    dedup := [];
    for i := 0 to |feeds|
      invariant dedup == FirstOccurrences(feeds[..i])
    {
      assert feeds[..i + 1][..i] == feeds[..i];
      if feeds[i] !in dedup {
        dedup := dedup + [feeds[i]];
      }
    }
    assert feeds[..|feeds|] == feeds;
  }

  /** The paths probed for a feed, in the order they are tried. */
  const WellKnownFeedPaths: seq<string> := ["/feed", "/rss", "/rss.xml", "/atom.xml"]

  /** The well-known paths of `discover_rss_feeds` whose probe fetches and looks like a
      feed (`looksLikeFeed` is its content-type / XML-declaration test). */
  function ProbedFeeds(net: Net, retries: nat, join: (Url, string) -> Url, looksLikeFeed: Url -> bool,
                       base: Url, paths: seq<string>): seq<Url>
  {
    if paths == [] then []
    else
      var u := join(base, paths[|paths| - 1]);
      ProbedFeeds(net, retries, join, looksLikeFeed, base, paths[..|paths| - 1]) +
        if Fetchable(net, retries, u) && looksLikeFeed(u) then [u] else []
  }

  /** The `href` of each alternate feed `<link>` on the homepage,
      resolved against the base; an empty `href` is skipped. */
  function DeclaredFeeds(join: (Url, string) -> Url, base: Url, hrefs: seq<string>): seq<Url>
  {
    if hrefs == [] then []
    else
      DeclaredFeeds(join, base, hrefs[..|hrefs| - 1]) +
        if hrefs[|hrefs| - 1] != "" then [join(base, hrefs[|hrefs| - 1])] else []
  }

  /** The feeds found before de-duplication: the probes, then the homepage's links
      when the homepage fetches. */
  function FeedCandidates(net: Net, retries: nat, join: (Url, string) -> Url, looksLikeFeed: Url -> bool,
                          base: Url, hrefs: seq<string>): seq<Url>
  {
    ProbedFeeds(net, retries, join, looksLikeFeed, base, WellKnownFeedPaths) +
      if Fetchable(net, retries, base) then DeclaredFeeds(join, base, hrefs) else []
  }

  /** A URL is probed as a feed exactly when it is the base joined with one of the
      paths, fetches, and looks like a feed. */
  lemma {:induction false} ProbedFeedsMembers(net: Net, retries: nat, join: (Url, string) -> Url,
                                              looksLikeFeed: Url -> bool, base: Url, paths: seq<string>)
    ensures forall f :: f in ProbedFeeds(net, retries, join, looksLikeFeed, base, paths) <==>
              (exists i :: 0 <= i < |paths| && f == join(base, paths[i])) && Fetchable(net, retries, f) && looksLikeFeed(f)
  {
    if paths != [] {
      var init := paths[..|paths| - 1];
      ProbedFeedsMembers(net, retries, join, looksLikeFeed, base, init);
      assert forall i :: 0 <= i < |init| ==> init[i] == paths[i];
    }
  }

  /** A URL is declared exactly when it is the base joined with a non-empty href. */
  lemma {:induction false} DeclaredFeedsMembers(join: (Url, string) -> Url, base: Url, hrefs: seq<string>)
    ensures forall f :: f in DeclaredFeeds(join, base, hrefs) <==>
              exists k :: 0 <= k < |hrefs| && hrefs[k] != "" && f == join(base, hrefs[k])
  {
    if hrefs != [] {
      var init := hrefs[..|hrefs| - 1];
      DeclaredFeedsMembers(join, base, init);
      assert forall k :: 0 <= k < |init| ==> init[k] == hrefs[k];
    }
  }

  /** The feeds discovered for a base: a well-known path that fetches and looks like
      a feed, or a non-empty homepage link when the homepage itself fetches; and
      every such URL is listed. */
  lemma FeedCandidatesMembers(net: Net, retries: nat, join: (Url, string) -> Url, looksLikeFeed: Url -> bool,
                              base: Url, hrefs: seq<string>)
    ensures forall f :: f in FirstOccurrences(FeedCandidates(net, retries, join, looksLikeFeed, base, hrefs)) <==>
              ((exists i :: 0 <= i < |WellKnownFeedPaths| && f == join(base, WellKnownFeedPaths[i])) &&
                 Fetchable(net, retries, f) && looksLikeFeed(f)) ||
              (Fetchable(net, retries, base) && exists k :: 0 <= k < |hrefs| && hrefs[k] != "" && f == join(base, hrefs[k]))
  {
    ProbedFeedsMembers(net, retries, join, looksLikeFeed, base, WellKnownFeedPaths);
    DeclaredFeedsMembers(join, base, hrefs);
  }

  /** `discover_rss_feeds`. `hrefs` are the `href` values of the homepage's `<link>`
      elements whose rel is alternate and whose type names rss, atom or xml, as the
      HTML parser gives them (an absent href as ""). */
  method DiscoverFeeds(net: Net, retries: nat, join: (Url, string) -> Url, looksLikeFeed: Url -> bool,
                       baseUrl: Url, hrefs: seq<string>) returns (feeds: seq<Url>)
    ensures feeds == FirstOccurrences(FeedCandidates(net, retries, join, looksLikeFeed, RStripSlash(baseUrl), hrefs))
  {
    var base := RStripSlash(baseUrl);
    var found: seq<Url> := [];
    for k := 0 to |WellKnownFeedPaths|
      invariant found == ProbedFeeds(net, retries, join, looksLikeFeed, base, WellKnownFeedPaths[..k])
    {
      assert WellKnownFeedPaths[..k + 1][..k] == WellKnownFeedPaths[..k];
      var u := join(base, WellKnownFeedPaths[k]);
      var ok, _ := Fetch(net, u, retries);
      if ok && looksLikeFeed(u) {
        found := found + [u];
      }
    }
    assert WellKnownFeedPaths[..|WellKnownFeedPaths|] == WellKnownFeedPaths;
    ghost var probed := found;
    var ok, _ := Fetch(net, base, retries);
    if ok {
      for k := 0 to |hrefs|
        invariant found == probed + DeclaredFeeds(join, base, hrefs[..k])
      {
        assert hrefs[..k + 1][..k] == hrefs[..k];
        if hrefs[k] != "" {
          found := found + [join(base, hrefs[k])];
        }
      }
      assert hrefs[..|hrefs|] == hrefs;
    } else {
      assert found == probed + [];
    }
    feeds := Dedup(found);
  }
}
