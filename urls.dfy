/** URLs, strings and the sequence facts shared by the monitor's components. */
module Urls {
  /** An absolute URL as the monitor handles it: a plain string. */
  type Url = string

  /** Python's `s.startswith(prefix)`. */
  predicate StartsWith(s: string, prefix: string)
  {
    |prefix| <= |s| && s[..|prefix|] == prefix
  }

  /** No element occurs twice: a list built from a Python set. */
  predicate Distinct<T(==)>(xs: seq<T>)
  {
    forall i, j :: 0 <= i < j < |xs| ==> xs[i] != xs[j]
  }

  /** Python's `set(xs)`. */
  function Elems<T(==)>(xs: seq<T>): set<T>
  {
    set x | x in xs
  }

  lemma {:induction false} DistinctCard<T>(xs: seq<T>)
    requires Distinct(xs)
    ensures |Elems(xs)| == |xs|
  {
    if xs != [] {
      var init, last := xs[..|xs| - 1], xs[|xs| - 1];
      assert Distinct(init);
      DistinctCard(init);
      assert xs == init + [last];
      assert Elems(xs) == Elems(init) + {last};
      assert last !in Elems(init) by {
        forall k | 0 <= k < |init| ensures init[k] != last {
          assert init[k] == xs[k];
        }
      }
    }
  }

  /** Position of the first occurrence of x in s (Python's `s.index(x)`). */
  function IndexOf<T(==)>(s: seq<T>, x: T): (k: nat)
    requires x in s
    ensures k < |s| && s[k] == x
    ensures forall j :: 0 <= j < k ==> s[j] != x
  {
    if s[0] == x then 0 else 1 + IndexOf(s[1..], x)
  }

  /** In a duplicate-free sequence the element at position k is first found at k. */
  lemma IndexOfDistinct<T>(s: seq<T>, k: nat)
    requires Distinct(s) && k < |s|
    ensures IndexOf(s, s[k]) == k
  {
  }

  /** Appending to a list does not move the first occurrence of anything already in it. */
  lemma IndexOfAppend<T>(s: seq<T>, x: T, y: T)
    requires y in s
    ensures IndexOf(s + [x], y) == IndexOf(s, y)
  {
    var k := IndexOf(s, y);
    assert (s + [x])[k] == y;
  }

  /** Python's `s.rstrip("/")`: drops every trailing slash. */
  function RStripSlash(s: string): string
  {
    if |s| > 0 && s[|s| - 1] == '/' then RStripSlash(s[..|s| - 1]) else s
  }

  /** The result of `rstrip("/")` is the longest prefix of s that does not end in a
      slash and after which s holds only slashes. */
  lemma {:induction false} RStripSlashSpec(s: string)
    ensures StartsWith(s, RStripSlash(s))
    ensures |RStripSlash(s)| == 0 || RStripSlash(s)[|RStripSlash(s)| - 1] != '/'
    ensures forall i :: |RStripSlash(s)| <= i < |s| ==> s[i] == '/'
  {
    if |s| > 0 && s[|s| - 1] == '/' {
      RStripSlashSpec(s[..|s| - 1]);
      assert s[..|s| - 1][..|RStripSlash(s)|] == s[..|RStripSlash(s)|];
    }
  }

  /** Stripping twice strips nothing more. */
  lemma RStripSlashIdempotent(s: string)
    ensures RStripSlash(RStripSlash(s)) == RStripSlash(s)
  {
    RStripSlashSpec(s);
  }

  /** Iterating over a Python set: the elements of s, each once, in an order the
      model does not fix. */
  method Enumerate(s: set<Url>) returns (xs: seq<Url>)
    ensures Distinct(xs) && Elems(xs) == s
  {
    xs := [];
    var rest := s;
    while rest != {}
      invariant Distinct(xs)
      invariant Elems(xs) + rest == s
      invariant Elems(xs) !! rest
      decreases |rest|
    {
      var x :| x in rest;
      xs := xs + [x];
      rest := rest - {x};
    }
  }
}
