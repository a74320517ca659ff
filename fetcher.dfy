/** The Fetcher: one GET with retries, and the first-success walk over candidate URLs. */
module Fetcher {
  import opened Wrappers
  import opened Urls

  /** The network, as an oracle: `net(u, k)` holds when attempt number k (counting
      from 0) of a GET of u returns a 2xx response within the timeout. */
  type Net = (Url, nat) -> bool

  /** One of the `retries + 1` attempts that `fetch` makes on u succeeds. */
  predicate Fetchable(net: Net, retries: nat, u: Url)
  {
    exists k :: 0 <= k <= retries && net(u, k)
  }

  /** `fetch(url, retries=...)`: attempt after attempt until one succeeds or the
      `retries + 1` attempts are used up. `ok` is false where `fetch` re-raises
      the last error; `attempts` is the number of requests made. */
  method Fetch(net: Net, u: Url, retries: nat) returns (ok: bool, attempts: nat)
    ensures 1 <= attempts <= retries + 1
    ensures ok <==> Fetchable(net, retries, u)
    ensures ok ==> net(u, attempts - 1)
    ensures forall k :: 0 <= k < attempts - 1 ==> !net(u, k)
    ensures !ok ==> attempts == retries + 1
  {
    var attempt := 0;
    while attempt <= retries
      invariant 0 <= attempt <= retries + 1
      invariant forall k :: 0 <= k < attempt ==> !net(u, k)
    {
      if net(u, attempt) {
        return true, attempt + 1;
      }
      attempt := attempt + 1;
    }
    return false, retries + 1;
  }

  /** The candidate `try_urls` settles on: the first one that fetches. */
  function FirstFetchable(net: Net, retries: nat, candidates: seq<Url>): Option<Url>
  {
    if candidates == [] then None
    else if Fetchable(net, retries, candidates[0]) then Some(candidates[0])
    else FirstFetchable(net, retries, candidates[1..])
  }

  /** FirstFetchable picks a candidate that fetches and before which every candidate
      fails, and gives None exactly when every candidate fails. */
  lemma {:induction false} FirstFetchableIsFirst(net: Net, retries: nat, candidates: seq<Url>)
    ensures FirstFetchable(net, retries, candidates).None? <==>
              forall i :: 0 <= i < |candidates| ==> !Fetchable(net, retries, candidates[i])
    ensures FirstFetchable(net, retries, candidates).Some? ==>
              exists i :: 0 <= i < |candidates| && candidates[i] == FirstFetchable(net, retries, candidates).value &&
                Fetchable(net, retries, candidates[i]) &&
                forall j :: 0 <= j < i ==> !Fetchable(net, retries, candidates[j])
  {
    if candidates != [] && !Fetchable(net, retries, candidates[0]) {
      var rest := candidates[1..];
      FirstFetchableIsFirst(net, retries, rest);
      assert forall i :: 1 <= i < |candidates| ==> candidates[i] == rest[i - 1];
      if FirstFetchable(net, retries, rest).Some? {
        var i :| 0 <= i < |rest| && rest[i] == FirstFetchable(net, retries, rest).value &&
          Fetchable(net, retries, rest[i]) && forall j :: 0 <= j < i ==> !Fetchable(net, retries, rest[j]);
        assert candidates[i + 1] == rest[i];
        assert forall j :: 0 <= j < i + 1 ==> !Fetchable(net, retries, candidates[j]) by {
          forall j | 0 <= j < i + 1 ensures !Fetchable(net, retries, candidates[j]) {
            if j > 0 { assert candidates[j] == rest[j - 1]; }
          }
        }
      }
    } else if candidates != [] {
      assert candidates[0] == FirstFetchable(net, retries, candidates).value;
    }
  }

  /** Trying a list of candidates is trying the first part, then the rest only if all
      of the first part fails. */
  lemma {:induction false} FirstFetchableAppend(net: Net, retries: nat, first: seq<Url>, rest: seq<Url>)
    ensures FirstFetchable(net, retries, first + rest) ==
              if FirstFetchable(net, retries, first).Some? then FirstFetchable(net, retries, first)
              else FirstFetchable(net, retries, rest)
  {
    if first == [] {
      assert first + rest == rest;
    } else {
      assert (first + rest)[0] == first[0];
      assert (first + rest)[1..] == first[1..] + rest;
      FirstFetchableAppend(net, retries, first[1..], rest);
    }
  }

  /** `try_urls`: the first candidate that fetches, or None when all fail. */
  method TryUrls(net: Net, candidates: seq<Url>, retries: nat) returns (chosen: Option<Url>)
    ensures chosen == FirstFetchable(net, retries, candidates)
  {
    var i := 0;
    while i < |candidates|
      invariant 0 <= i <= |candidates|
      invariant FirstFetchable(net, retries, candidates) == FirstFetchable(net, retries, candidates[i..])
    {
      var ok, _ := Fetch(net, candidates[i], retries);
      assert candidates[i..][1..] == candidates[i + 1..];
      if ok {
        return Some(candidates[i]);
      }
      i := i + 1;
    }
    return None;
  }
}
