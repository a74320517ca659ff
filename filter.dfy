/** The URL Filter & Budgeter: include/exclude path rules and the per-site clamp. */
module Filter {
  import opened Urls

  /** `urlparse(url).path or "/"`: an empty path counts as the root. */
  function EffectivePath(path: string): string
  {
    if path == "" then "/" else path
  }

  /** `any(path.startswith(p) for p in prefixes)`. */
  function AnyStartsWith(path: string, prefixes: seq<string>): (r: bool)
    ensures r <==> exists i :: 0 <= i < |prefixes| && StartsWith(path, prefixes[i])
  {
    if prefixes == [] then false
    else StartsWith(path, prefixes[0]) || AnyStartsWith(path, prefixes[1..])
  }

  /** `should_include`, given the path part of the URL: the path must start with some
      include prefix when there are any, and must start with no exclude prefix. */
  function ShouldInclude(path: string, includePaths: seq<string>, excludePaths: seq<string>): (r: bool)
    ensures r <==>
      && (|includePaths| == 0 ||
          exists i :: 0 <= i < |includePaths| && StartsWith(EffectivePath(path), includePaths[i]))
      && (forall i :: 0 <= i < |excludePaths| ==> !StartsWith(EffectivePath(path), excludePaths[i]))
  {
    var p := EffectivePath(path);
    if |includePaths| > 0 && !AnyStartsWith(p, includePaths) then false
    else if |excludePaths| > 0 && AnyStartsWith(p, excludePaths) then false
    else true
  }

  /** The path filter of `main`: the URLs, in order, whose path `should_include`
      accepts, with `pathOf` standing for the parsed URL's path. */
  function InScope(urls: seq<Url>, pathOf: Url -> string, includePaths: seq<string>, excludePaths: seq<string>)
    : (r: seq<Url>)
    ensures forall u :: u in r <==> u in urls && ShouldInclude(pathOf(u), includePaths, excludePaths)
    ensures Distinct(urls) ==> Distinct(r)
  {
    if urls == [] then []
    else
      var rest := InScope(urls[1..], pathOf, includePaths, excludePaths);
      assert forall u :: u in urls <==> u == urls[0] || u in urls[1..];
      if ShouldInclude(pathOf(urls[0]), includePaths, excludePaths) then [urls[0]] + rest else rest
  }

  function Min(a: int, b: int): int
  {
    if a <= b then a else b
  }

  /** `clamp_urls`: `set(list(urls)[:take])` with `take = min(max_urls_per_site,
      remaining_total_budget)`; `urls` lists a set, in its iteration order. */
  function ClampUrls(urls: seq<Url>, maxUrlsPerSite: int, remainingTotal: int): (kept: set<Url>)
    requires Distinct(urls)
    requires Min(maxUrlsPerSite, remainingTotal) >= 0
    ensures kept <= Elems(urls)
    ensures |kept| == Min(|urls|, Min(maxUrlsPerSite, remainingTotal))
    ensures |urls| <= Min(maxUrlsPerSite, remainingTotal) ==> kept == Elems(urls)
  {
    var n := Min(|urls|, Min(maxUrlsPerSite, remainingTotal));
    assert Distinct(urls[..n]);
    DistinctCard(urls[..n]);
    assert |urls| <= n ==> urls[..n] == urls;
    Elems(urls[..n])
  }
}
