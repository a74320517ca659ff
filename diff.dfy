/** The Diff Engine & State Store of one site: classification of the fingerprinted
    URLs as New or Changed against the stored records, the in-place record update,
    and the Gone list. */
module Diff {
  import opened Wrappers
  import opened Urls
  import opened Filter

  /** A stored record: the digest and the length of the normalised text. State files
      written by other versions may lack the length. */
  datatype Record = Record(hash: string, len: Option<int>)

  /** What `content_fingerprint` returns for a page: its digest and length. */
  datatype Fingerprint = Fingerprint(hash: string, len: nat)

  /** `site_state["urls"]`: a dictionary, which keeps its keys in insertion order. */
  datatype Table = Table(records: map<Url, Record>, order: seq<Url>)

  ghost predicate WellFormed(t: Table)
  {
    Distinct(t.order) && forall u :: u in t.records <==> u in t.order
  }

  /** `int(prev.get("len", 0))`. */
  function PrevLen(r: Record): int
  {
    r.len.GetOr(0)
  }

  function Abs(x: int): nat
  {
    if x < 0 then -x else x
  }

  /** The change test of `main`: the digest differs and the length moved by at least
      the threshold. */
  predicate IsChanged(prev: Record, f: Fingerprint, threshold: int)
  {
    prev.hash != f.hash && Abs(f.len - PrevLen(prev)) >= threshold
  }

  /** `table[u] = r`: an existing key keeps its place, a new key goes last. */
  function Put(t: Table, u: Url, r: Record): (t': Table)
    ensures WellFormed(t) ==> WellFormed(t')
    ensures t'.records == t.records[u := r]
  {
    if u in t.records then Table(t.records[u := r], t.order)
    else Table(t.records[u := r], t.order + [u])
  }

  /** The record a successful fingerprint leaves behind: its digest and its length. */
  function Fresh(f: Fingerprint): Record
  {
    Record(f.hash, Some(f.len))
  }

  /** The state of the classification loop: the table and the two lists. */
  datatype Outcome = Outcome(table: Table, newUrls: seq<Url>, changedUrls: seq<Url>)

  /** One iteration of the classification loop of `main` on URL u; `fp(u)` is None where fingerprinting
      raises, and the URL is then skipped. */
  function Visit(o: Outcome, u: Url, fp: Url -> Option<Fingerprint>, threshold: int): Outcome
  {
    match fp(u)
    case None => o
    case Some(f) =>
      var recs := o.table.records;
      Outcome(Put(o.table, u, Fresh(f)),
              if u !in recs then o.newUrls + [u] else o.newUrls,
              if u in recs && IsChanged(recs[u], f, threshold) then o.changedUrls + [u] else o.changedUrls)
  }

  /** The classification loop of `main` over the kept URLs, in iteration order. */
  function Scan(prior: Table, kept: seq<Url>, fp: Url -> Option<Fingerprint>, threshold: int): Outcome
  {
    if kept == [] then Outcome(prior, [], [])
    else Visit(Scan(prior, kept[..|kept| - 1], fp, threshold), kept[|kept| - 1], fp, threshold)
  }

  /** The classification loop of `main`. */
  method DiffSite(prior: Table, kept: seq<Url>, fp: Url -> Option<Fingerprint>, threshold: int)
    returns (table: Table, newUrls: seq<Url>, changedUrls: seq<Url>)
    ensures Outcome(table, newUrls, changedUrls) == Scan(prior, kept, fp, threshold)
  {
    table, newUrls, changedUrls := prior, [], [];
    for i := 0 to |kept|
      invariant Outcome(table, newUrls, changedUrls) == Scan(prior, kept[..i], fp, threshold)
    {
      assert kept[..i + 1][..i] == kept[..i];
      var u := kept[i];
      var r := fp(u);
      if r.Some? {
        var f := r.value;
        if u !in table.records {
          newUrls := newUrls + [u];
        } else if table.records[u].hash != f.hash {
          var prevLen := PrevLen(table.records[u]);
          if Abs(f.len - prevLen) >= threshold {
            changedUrls := changedUrls + [u];
          }
        }
        table := Put(table, u, Fresh(f));
      }
    }
    assert kept[..|kept|] == kept;
  }

  /** The records after the scan: a fingerprinted URL holds exactly its new digest and
      length, every other URL keeps its record (or its absence), and no key is removed. */
  lemma {:induction false} ScanRecords(prior: Table, kept: seq<Url>, fp: Url -> Option<Fingerprint>, threshold: int)
    ensures var recs := Scan(prior, kept, fp, threshold).table.records;
      && prior.records.Keys <= recs.Keys
      && (forall u :: u in kept && fp(u).Some? ==> u in recs && recs[u] == Fresh(fp(u).value))
      && (forall u :: !(u in kept && fp(u).Some?) ==>
            (u in recs <==> u in prior.records) && (u in recs ==> recs[u] == prior.records[u]))
    ensures WellFormed(prior) ==> WellFormed(Scan(prior, kept, fp, threshold).table)
  {
    if kept != [] {
      var init := kept[..|kept| - 1];
      ScanRecords(prior, init, fp, threshold);
      assert forall u :: u in kept <==> u in init || u == kept[|kept| - 1];
    }
  }

  /** Classification: a URL is New exactly when it was fingerprinted and had no record,
      and Changed exactly when it was fingerprinted, had a record, and that record's
      digest differs while the length moved by at least the threshold (a missing
      length counting as 0). A URL whose fingerprint failed is in neither list. */
  lemma {:induction false} ScanClassifies(prior: Table, kept: seq<Url>, fp: Url -> Option<Fingerprint>, threshold: int)
    ensures forall u :: u in Scan(prior, kept, fp, threshold).newUrls <==>
              u in kept && fp(u).Some? && u !in prior.records
    ensures forall u :: u in Scan(prior, kept, fp, threshold).changedUrls <==>
              u in kept && fp(u).Some? && u in prior.records && IsChanged(prior.records[u], fp(u).value, threshold)
  {
    if kept != [] {
      var init, last := kept[..|kept| - 1], kept[|kept| - 1];
      ScanClassifies(prior, init, fp, threshold);
      ScanRecords(prior, init, fp, threshold);
      assert forall u :: u in kept <==> u in init || u == last;
    }
  }

  /** New and Changed never share a URL. */
  lemma NewChangedDisjoint(prior: Table, kept: seq<Url>, fp: Url -> Option<Fingerprint>, threshold: int)
    ensures forall u :: u in Scan(prior, kept, fp, threshold).newUrls ==> u !in Scan(prior, kept, fp, threshold).changedUrls
  {
    ScanClassifies(prior, kept, fp, threshold);
  }

  /** A table that already holds every fingerprint of the scan is a fixed point:
      nothing is reported and nothing changes. */
  lemma {:induction false} ScanFixpoint(t: Table, kept: seq<Url>, fp: Url -> Option<Fingerprint>, threshold: int)
    requires forall u :: u in kept && fp(u).Some? ==> u in t.records && t.records[u] == Fresh(fp(u).value)
    ensures Scan(t, kept, fp, threshold) == Outcome(t, [], [])
  {
    if kept != [] {
      var init, last := kept[..|kept| - 1], kept[|kept| - 1];
      assert forall u :: u in init ==> u in kept;
      ScanFixpoint(t, init, fp, threshold);
      if fp(last).Some? {
        assert t.records[last := Fresh(fp(last).value)] == t.records;
      }
    }
  }

  /** Running the classification again with the same fingerprints reports nothing
      and leaves the table as it is. */
  lemma ScanIdempotent(prior: Table, kept: seq<Url>, fp: Url -> Option<Fingerprint>, threshold: int)
    ensures var t := Scan(prior, kept, fp, threshold).table;
      Scan(t, kept, fp, threshold) == Outcome(t, [], [])
  {
    ScanRecords(prior, kept, fp, threshold);
    ScanFixpoint(Scan(prior, kept, fp, threshold).table, kept, fp, threshold);
  }

  /** The change threshold is inclusive: a new digest whose length moved by exactly
      the threshold is Changed; by one less it is only recorded. */
  lemma ThresholdInclusive(prior: Table, u: Url, fp: Url -> Option<Fingerprint>, threshold: int)
    requires u in prior.records && fp(u).Some? && prior.records[u].hash != fp(u).value.hash
    ensures Abs(fp(u).value.len - PrevLen(prior.records[u])) == threshold ==>
              Scan(prior, [u], fp, threshold).changedUrls == [u]
    ensures Abs(fp(u).value.len - PrevLen(prior.records[u])) == threshold - 1 ==>
              Scan(prior, [u], fp, threshold).changedUrls == [] &&
              Scan(prior, [u], fp, threshold).table.records[u] == Fresh(fp(u).value)
  {
  }

  /** The Gone test of `main`: a stored key is reported Gone when it is not among the kept URLs,
      unless include rules are configured and the key falls outside them. */
  predicate IsGone(u: Url, current: set<Url>, pathOf: Url -> string,
                   includePaths: seq<string>, excludePaths: seq<string>)
  {
    u !in current && (|includePaths| == 0 || ShouldInclude(pathOf(u), includePaths, excludePaths))
  }

  /** The Gone list over the keys in table order. */
  function Gone(keys: seq<Url>, current: set<Url>, pathOf: Url -> string,
                includePaths: seq<string>, excludePaths: seq<string>): (gone: seq<Url>)
    ensures forall u :: u in gone <==> u in keys && IsGone(u, current, pathOf, includePaths, excludePaths)
    ensures Distinct(keys) ==> Distinct(gone)
  {
    if keys == [] then []
    else
      var init, u := keys[..|keys| - 1], keys[|keys| - 1];
      assert forall v :: v in keys <==> v in init || v == u;
      Gone(init, current, pathOf, includePaths, excludePaths) +
        if IsGone(u, current, pathOf, includePaths, excludePaths) then [u] else []
  }

  /** Gone keeps the table's key order. */
  lemma {:induction false} GoneOrder(keys: seq<Url>, current: set<Url>, pathOf: Url -> string,
                                     includePaths: seq<string>, excludePaths: seq<string>)
    requires Distinct(keys)
    ensures forall i, j :: 0 <= i < j < |Gone(keys, current, pathOf, includePaths, excludePaths)| ==>
              IndexOf(keys, Gone(keys, current, pathOf, includePaths, excludePaths)[i]) <
              IndexOf(keys, Gone(keys, current, pathOf, includePaths, excludePaths)[j])
  {
    if keys != [] {
      var init, u := keys[..|keys| - 1], keys[|keys| - 1];
      assert keys == init + [u];
      assert Distinct(init);
      GoneOrder(init, current, pathOf, includePaths, excludePaths);
      var g0 := Gone(init, current, pathOf, includePaths, excludePaths);
      var gone := Gone(keys, current, pathOf, includePaths, excludePaths);
      assert gone == g0 + if IsGone(u, current, pathOf, includePaths, excludePaths) then [u] else [];
      forall i, j | 0 <= i < j < |gone| ensures IndexOf(keys, gone[i]) < IndexOf(keys, gone[j]) {
        assert gone[i] == g0[i] && g0[i] in init;
        IndexOfAppend(init, u, g0[i]);
        if j < |g0| {
          assert gone[j] == g0[j] && g0[j] in init;
          IndexOfAppend(init, u, g0[j]);
          assert IndexOf(init, g0[i]) < IndexOf(init, g0[j]);
        } else {
          assert gone[j] == u;
          IndexOfDistinct(keys, |keys| - 1);
          assert IndexOf(keys, u) == |init|;
          assert IndexOf(init, g0[i]) < |init|;
        }
      }
    }
  }

  /** The pass of `main` over the table's keys that builds the Gone list. */
  method ComputeGone(t: Table, current: set<Url>, pathOf: Url -> string,
                     includePaths: seq<string>, excludePaths: seq<string>) returns (gone: seq<Url>)
    ensures gone == Gone(t.order, current, pathOf, includePaths, excludePaths)
  {
    gone := [];
    var keys := t.order;
    for k := 0 to |keys|
      invariant gone == Gone(keys[..k], current, pathOf, includePaths, excludePaths)
    {
      assert keys[..k + 1][..k] == keys[..k];
      var u := keys[k];
      if |includePaths| > 0 && !ShouldInclude(pathOf(u), includePaths, excludePaths) {
        continue;
      }
      if u !in current {
        gone := gone + [u];
      }
    }
    assert keys[..|keys|] == keys;
  }
}
