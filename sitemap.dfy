/** The Sitemap Resolver: choosing a sitemap for a site and walking its index tree. */
module Sitemap {
  import opened Wrappers
  import opened Urls
  import opened Fetcher

  /** What the XML parser finds in a fetched sitemap body: the text of every
      `sitemap/loc` element and of every `url/loc` element, in document order, each
      with its surrounding whitespace already stripped. An index has the former, a
      urlset the latter; the walk reads both lists of every document. */
  datatype Document = Document(sitemapLocs: seq<Url>, urlLocs: seq<Url>)

  /** The parse of the body served at each URL; a URL without an entry serves a
      body that is not well-formed XML. */
  type Documents = map<Url, Document>

  /** Fetching u succeeds and its body parses. */
  predicate Loads(net: Net, retries: nat, docs: Documents, u: Url)
  {
    Fetchable(net, retries, u) && u in docs
  }

  /** A chain of sitemap links: every URL but the last loads and lists the next one
      among its `sitemap/loc` entries. */
  ghost predicate IsChain(net: Net, retries: nat, docs: Documents, path: seq<Url>)
  {
    && |path| > 0
    && forall i, j :: 0 <= i && j == i + 1 && j < |path| ==> Links(net, retries, docs, path[i], path[j])
  }

  /** Document `from` loads and lists `to` among its child sitemaps. */
  predicate Links(net: Net, retries: nat, docs: Documents, from: Url, to: Url)
  {
    Loads(net, retries, docs, from) && to in docs[from].sitemapLocs
  }

  /** u can be reached from seed through `sitemap/loc` links of documents that load. */
  ghost predicate Reachable(net: Net, retries: nat, docs: Documents, seed: Url, u: Url)
  {
    exists path :: IsChain(net, retries, docs, path) && path[0] == seed && path[|path| - 1] == u
  }

  /** Every loading document in `seen` links only into `seen`. */
  ghost predicate Closed(net: Net, retries: nat, docs: Documents, seen: set<Url>)
  {
    forall u, c :: u in seen && Links(net, retries, docs, u, c) ==> c in seen
  }

  lemma ReachableSeed(net: Net, retries: nat, docs: Documents, seed: Url)
    ensures Reachable(net, retries, docs, seed, seed)
  {
    assert IsChain(net, retries, docs, [seed]);
  }

  lemma ReachableStep(net: Net, retries: nat, docs: Documents, seed: Url, u: Url, c: Url)
    requires Reachable(net, retries, docs, seed, u)
    requires Loads(net, retries, docs, u) && c in docs[u].sitemapLocs
    ensures Reachable(net, retries, docs, seed, c)
  {
    var path :| IsChain(net, retries, docs, path) && path[0] == seed && path[|path| - 1] == u;
    var longer := path + [c];
    assert forall i :: 0 <= i < |path| ==> longer[i] == path[i];
    assert IsChain(net, retries, docs, longer);
  }

  /** A chain that starts in a closed set stays in it. */
  lemma {:induction false} ChainStaysInside(net: Net, retries: nat, docs: Documents, seen: set<Url>, path: seq<Url>)
    requires IsChain(net, retries, docs, path) && path[0] in seen
    requires Closed(net, retries, docs, seen)
    ensures path[|path| - 1] in seen
  {
    if |path| > 1 {
      var init := path[..|path| - 1];
      assert forall i :: 0 <= i < |init| ==> init[i] == path[i];
      assert IsChain(net, retries, docs, init);
      ChainStaysInside(net, retries, docs, seen, init);
      assert path[|path| - 2] == init[|init| - 1];
    }
  }

  /** The walk's termination measure: marking a URL seen never enlarges the unseen
      part of the documents' domain, and shrinks it when the URL has a document. */
  lemma UnseenShrinks(keys: set<Url>, seen: set<Url>, cur: Url)
    requires cur !in seen
    ensures |keys - (seen + {cur})| <= |keys - seen|
    ensures cur in keys ==> |keys - (seen + {cur})| < |keys - seen|
  {
    if cur in keys {
      assert keys - (seen + {cur}) == (keys - seen) - {cur};
    } else {
      assert keys - (seen + {cur}) == keys - seen;
    }
  }

  /** Every child sitemap of a sitemap index is pushed, in document order. */
  method PushAll(stack: seq<Url>, locs: seq<Url>) returns (pushed: seq<Url>)
    ensures pushed == stack + locs
  {
    pushed := stack;
    var i := 0;
    while i < |locs|
      invariant 0 <= i <= |locs|
      invariant pushed == stack + locs[..i]
    {
      pushed := pushed + [locs[i]];
      i := i + 1;
    }
    assert locs[..i] == locs;
  }

  /** The page locations of one document are added in document order, each time
      checking the cap; once the collected set reaches the cap the rest of the document
      is dropped. So the result is the old set together with a prefix of the document's
      pages, and that prefix stops short of the end only when the cap is reached. */
  method AddPages(collected: set<Url>, locs: seq<Url>, maxUrls: int) returns (grown: set<Url>)
    requires |collected| < maxUrls
    ensures exists j :: 0 <= j <= |locs| && grown == collected + Elems(locs[..j]) &&
              (j < |locs| ==> |grown| == maxUrls)
    ensures collected <= grown && |grown| <= maxUrls
    ensures forall p :: p in grown ==> p in collected || p in locs
    ensures |grown| < maxUrls ==> forall k :: 0 <= k < |locs| ==> locs[k] in grown
  {
    grown := collected;
    var j := 0;
    while j < |locs|
      invariant 0 <= j <= |locs|
      invariant grown == collected + Elems(locs[..j])
      invariant |grown| < maxUrls
    {
      assert locs[..j + 1] == locs[..j] + [locs[j]];
      grown := grown + {locs[j]};
      if |grown| >= maxUrls {
        assert |grown| <= |grown - {locs[j]}| + 1;
        AddPagesPrefix(collected, locs, j + 1, grown);
        return;
      }
      j := j + 1;
    }
    assert locs[..j] == locs;
    AddPagesPrefix(collected, locs, j, grown);
  }

  /** What a prefix of the document's pages contributes. */
  lemma AddPagesPrefix(collected: set<Url>, locs: seq<Url>, j: nat, grown: set<Url>)
    requires j <= |locs| && grown == collected + Elems(locs[..j])
    ensures collected <= grown
    ensures forall p :: p in grown ==> p in collected || p in locs
    ensures forall k :: 0 <= k < j ==> locs[k] in grown
  {
    assert forall k :: 0 <= k < j ==> locs[k] == locs[..j][k];
  }

  /** What holds of the walk's state at the head of every iteration. */
  ghost predicate WalkInv(net: Net, retries: nat, docs: Documents, seed: Url, maxUrls: int,
                          collected: set<Url>, seen: set<Url>, fetched: seq<Url>, stack: seq<Url>)
  {
    && (forall u :: u in seen <==> u in fetched)
    && Distinct(fetched)
    && (fetched == [] ==> stack == [seed] && collected == {})
    && (maxUrls <= 0 ==> fetched == [] && collected == {})
    && (fetched != [] ==> fetched[0] == seed)
    && (forall i :: 0 <= i < |stack| ==> Reachable(net, retries, docs, seed, stack[i]))
    && (forall u :: u in seen ==> Reachable(net, retries, docs, seed, u))
    && (seed in seen || seed in stack)
    && (forall u, c :: u in seen && Links(net, retries, docs, u, c) ==> c in seen || c in stack)
    && (maxUrls > 0 ==> |collected| <= maxUrls)
    && (forall p :: p in collected ==>
          exists u :: u in seen && Loads(net, retries, docs, u) && p in docs[u].urlLocs)
    && (|collected| < maxUrls ==>
          forall u, p :: u in seen && Loads(net, retries, docs, u) && p in docs[u].urlLocs ==> p in collected)
  }

  lemma WalkStart(net: Net, retries: nat, docs: Documents, seed: Url, maxUrls: int)
    ensures WalkInv(net, retries, docs, seed, maxUrls, {}, {}, [], [seed])
  {
    ReachableSeed(net, retries, docs, seed);
  }

  /** A URL popped a second time is dropped unfetched. */
  lemma WalkSkip(net: Net, retries: nat, docs: Documents, seed: Url, maxUrls: int,
                 collected: set<Url>, seen: set<Url>, fetched: seq<Url>, rest: seq<Url>, cur: Url)
    requires WalkInv(net, retries, docs, seed, maxUrls, collected, seen, fetched, rest + [cur])
    requires cur in seen
    ensures WalkInv(net, retries, docs, seed, maxUrls, collected, seen, fetched, rest)
  {
    var stack := rest + [cur];
    assert forall i :: 0 <= i < |rest| ==> rest[i] == stack[i];
    assert forall c :: c in stack ==> c in rest || c == cur;
  }

  /** A URL is marked seen, then fetched; when the fetch or the parse
      fails the walk moves on. */
  lemma WalkFail(net: Net, retries: nat, docs: Documents, seed: Url, maxUrls: int,
                 collected: set<Url>, seen: set<Url>, fetched: seq<Url>, rest: seq<Url>, cur: Url)
    requires WalkInv(net, retries, docs, seed, maxUrls, collected, seen, fetched, rest + [cur])
    requires cur !in seen && !Loads(net, retries, docs, cur) && |collected| < maxUrls
    ensures WalkInv(net, retries, docs, seed, maxUrls, collected, seen + {cur}, fetched + [cur], rest)
  {
    var stack := rest + [cur];
    assert forall i :: 0 <= i < |rest| ==> rest[i] == stack[i];
    assert forall c :: c in stack ==> c in rest || c == cur;
    assert Reachable(net, retries, docs, seed, stack[|stack| - 1]);
  }

  /** A loaded document pushes its child sitemaps and adds its pages
      (`grown`, as AddPages leaves it). */
  lemma WalkExpand(net: Net, retries: nat, docs: Documents, seed: Url, maxUrls: int,
                   collected: set<Url>, seen: set<Url>, fetched: seq<Url>, rest: seq<Url>, cur: Url,
                   grown: set<Url>)
    requires WalkInv(net, retries, docs, seed, maxUrls, collected, seen, fetched, rest + [cur])
    requires cur !in seen && Loads(net, retries, docs, cur) && |collected| < maxUrls
    requires collected <= grown && |grown| <= maxUrls
    requires forall p :: p in grown ==> p in collected || p in docs[cur].urlLocs
    requires |grown| < maxUrls ==> forall k :: 0 <= k < |docs[cur].urlLocs| ==> docs[cur].urlLocs[k] in grown
    ensures WalkInv(net, retries, docs, seed, maxUrls, grown, seen + {cur}, fetched + [cur],
                    rest + docs[cur].sitemapLocs)
  {
    var stack := rest + [cur];
    var doc := docs[cur];
    var stack' := rest + doc.sitemapLocs;
    assert forall i :: 0 <= i < |rest| ==> rest[i] == stack[i];
    assert forall c :: c in stack ==> c in rest || c == cur;
    assert Reachable(net, retries, docs, seed, stack[|stack| - 1]);
    forall k | 0 <= k < |stack'| ensures Reachable(net, retries, docs, seed, stack'[k]) {
      if k < |rest| {
        assert stack'[k] == stack[k];
      } else {
        assert stack'[k] == doc.sitemapLocs[k - |rest|];
        ReachableStep(net, retries, docs, seed, cur, doc.sitemapLocs[k - |rest|]);
      }
    }
    forall c | Links(net, retries, docs, cur, c) ensures c in stack' {
      var k :| 0 <= k < |doc.sitemapLocs| && doc.sitemapLocs[k] == c;
      assert stack'[|rest| + k] == c;
    }
    assert forall c :: c in rest ==> c in stack';
    forall p | p in grown
      ensures exists u :: u in seen + {cur} && Loads(net, retries, docs, u) && p in docs[u].urlLocs
    {
      if p !in collected {
        assert p in doc.urlLocs;
      }
    }
  }

  /** When the walk ends below the cap its stack is empty, so every URL reachable
      from the seed has been fetched. */
  lemma WalkDone(net: Net, retries: nat, docs: Documents, seed: Url, maxUrls: int,
                 collected: set<Url>, seen: set<Url>, fetched: seq<Url>)
    requires WalkInv(net, retries, docs, seed, maxUrls, collected, seen, fetched, [])
    ensures forall u :: Reachable(net, retries, docs, seed, u) ==> u in fetched
  {
    assert Closed(net, retries, docs, seen);
    forall u | Reachable(net, retries, docs, seed, u) ensures u in fetched {
      var path :| IsChain(net, retries, docs, path) && path[0] == seed && path[|path| - 1] == u;
      ChainStaysInside(net, retries, docs, seen, path);
    }
  }

  /** p is a page location of a document that loads and is reachable from seed. */
  ghost predicate PageOf(net: Net, retries: nat, docs: Documents, seed: Url, p: Url)
  {
    exists u :: Reachable(net, retries, docs, seed, u) && Loads(net, retries, docs, u) && p in docs[u].urlLocs
  }

  /** What the walk from seed collects, as far as the pages are concerned: nothing for
      a cap of 0 or less, otherwise at most `maxUrls` pages; only pages of reachable
      documents that load; and, when it stops below the cap, every such page. */
  ghost predicate Harvest(net: Net, retries: nat, docs: Documents, seed: Url, maxUrls: int, collected: set<Url>)
  {
    && (maxUrls <= 0 ==> collected == {})
    && (maxUrls > 0 ==> |collected| <= maxUrls)
    && (forall p :: p in collected ==> PageOf(net, retries, docs, seed, p))
    && (|collected| < maxUrls ==> forall p :: PageOf(net, retries, docs, seed, p) ==> p in collected)
  }

  /** When the walk stops, every collected page is a page of a reachable document;
      below the cap the stack is empty and every such page was collected. */
  lemma WalkPages(net: Net, retries: nat, docs: Documents, seed: Url, maxUrls: int,
                  collected: set<Url>, seen: set<Url>, fetched: seq<Url>, stack: seq<Url>)
    requires WalkInv(net, retries, docs, seed, maxUrls, collected, seen, fetched, stack)
    requires |stack| == 0 || |collected| >= maxUrls
    ensures forall p :: p in collected ==> PageOf(net, retries, docs, seed, p)
    ensures |collected| < maxUrls ==> forall u :: Reachable(net, retries, docs, seed, u) ==> u in fetched
    ensures |collected| < maxUrls ==> forall p :: PageOf(net, retries, docs, seed, p) ==> p in collected
  {
    forall p | p in collected ensures PageOf(net, retries, docs, seed, p) {
      var u :| u in seen && Loads(net, retries, docs, u) && p in docs[u].urlLocs;
      assert Reachable(net, retries, docs, seed, u);
    }
    if |collected| < maxUrls {
      WalkDone(net, retries, docs, seed, maxUrls, collected, seen, fetched);
    }
  }

  /** `parse_sitemap_collect`: a depth-first walk over an explicit stack, seeded with
      the chosen sitemap. A URL already in `seen` is skipped before it is fetched; a
      node that fails to fetch or parse is skipped; child sitemaps are pushed before
      the page locations are read; the walk stops once `maxUrls` pages are collected,
      a cap also checked after each page is added. `fetched` lists the URLs fetched,
      in order. */
  method Collect(net: Net, retries: nat, docs: Documents, seed: Url, maxUrls: int)
    returns (collected: set<Url>, ghost fetched: seq<Url>)
    ensures Harvest(net, retries, docs, seed, maxUrls, collected)
    ensures Distinct(fetched)
    ensures forall u :: u in fetched ==> Reachable(net, retries, docs, seed, u)
    ensures maxUrls <= 0 ==> fetched == []
    ensures maxUrls > 0 ==> |fetched| > 0 && fetched[0] == seed
    ensures |collected| < maxUrls ==>
              forall u :: Reachable(net, retries, docs, seed, u) ==> u in fetched
  {
    collected := {};
    var seen: set<Url> := {};
    var stack := [seed];
    fetched := [];
    WalkStart(net, retries, docs, seed, maxUrls);
    while |stack| > 0 && |collected| < maxUrls
      invariant WalkInv(net, retries, docs, seed, maxUrls, collected, seen, fetched, stack)
      decreases |docs.Keys - seen|, |stack|
    {
      var cur := stack[|stack| - 1];
      ghost var before := stack;
      stack := stack[..|stack| - 1];
      assert before == stack + [cur];
      if cur in seen {
        WalkSkip(net, retries, docs, seed, maxUrls, collected, seen, fetched, stack, cur);
        continue;
      }
      UnseenShrinks(docs.Keys, seen, cur);
      ghost var seen0, fetched0 := seen, fetched;
      seen := seen + {cur};
      fetched := fetched + [cur];
      var ok, _ := Fetch(net, cur, retries);
      if !ok || cur !in docs {
        WalkFail(net, retries, docs, seed, maxUrls, collected, seen0, fetched0, stack, cur);
        continue;
      }
      var doc := docs[cur];
      ghost var rest := stack;
      stack := PushAll(stack, doc.sitemapLocs);
      var grown := AddPages(collected, doc.urlLocs, maxUrls);
      WalkExpand(net, retries, docs, seed, maxUrls, collected, seen0, fetched0, rest, cur, grown);
      collected := grown;
    }
    WalkPages(net, retries, docs, seed, maxUrls, collected, seen, fetched, stack);
  }

  /** The two canonical guesses, after whatever robots.txt declares. */
  function SitemapCandidates(join: (Url, string) -> Url, base: Url, robots: seq<Url>): seq<Url>
  {
    robots + [join(base, "/sitemap.xml"), join(base, "/sitemap_index.xml")]
  }

  /** `discover_sitemaps`: `robots` is what `robots_sitemaps(base)` returned (empty
      when robots.txt could not be read) and `join` is `urljoin`. */
  method DiscoverSitemaps(net: Net, join: (Url, string) -> Url, robots: seq<Url>, baseUrl: Url, retries: nat)
    returns (chosen: Option<Url>)
    ensures chosen == FirstFetchable(net, retries, SitemapCandidates(join, RStripSlash(baseUrl), robots))
  {
    var base := RStripSlash(baseUrl);
    chosen := TryUrls(net, SitemapCandidates(join, base, robots), retries);
  }

  /** A robots-declared sitemap that fetches always wins over the canonical guesses,
      and `/sitemap.xml` is tried before `/sitemap_index.xml`. */
  lemma RobotsDeclaredFirst(net: Net, retries: nat, join: (Url, string) -> Url, base: Url, robots: seq<Url>)
    ensures FirstFetchable(net, retries, robots).Some? ==>
              FirstFetchable(net, retries, SitemapCandidates(join, base, robots)) == FirstFetchable(net, retries, robots)
    ensures FirstFetchable(net, retries, robots).None? ==>
              FirstFetchable(net, retries, SitemapCandidates(join, base, robots)) ==
                if Fetchable(net, retries, join(base, "/sitemap.xml")) then Some(join(base, "/sitemap.xml"))
                else if Fetchable(net, retries, join(base, "/sitemap_index.xml")) then Some(join(base, "/sitemap_index.xml"))
                else None
  {
    var guesses := [join(base, "/sitemap.xml"), join(base, "/sitemap_index.xml")];
    FirstFetchableAppend(net, retries, robots, guesses);
    assert guesses[1..] == [join(base, "/sitemap_index.xml")];
    assert guesses[1..][1..] == [];
    assert FirstFetchable(net, retries, guesses[1..]) ==
      if Fetchable(net, retries, guesses[1]) then Some(guesses[1]) else None;
  }
}
