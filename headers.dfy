/**
 * The header projection: from the full catalog of table column headers and an
 * optional tenant configuration, the headers the table shows, in the order the
 * configuration lists their keys.
 *
 * With no configuration the catalog itself is used. With one, the catalog is
 * filtered to the headers whose key is a string listed in `fields`, and the
 * filtered copy is sorted, stably, by the position of each header's key in
 * `fields` (its rank, the first-occurrence index `fields.indexOf(key)`).
 */
module Headers {
  import opened Wrappers
  import opened Types

  /**
   * A column header. Only its key matters here; a key may be absent (or, in the
   * source, not a string), which `key == None` stands for. Title, alignment and
   * the other display metadata are an opaque payload.
   */
  datatype Header<P> = Header(key: Option<string>, payload: P)

  // ---------------------------------------------------------------------------
  // The comparator's ingredients
  // ---------------------------------------------------------------------------

  /** Position of the first occurrence of `k` in `fields`, or -1 when `k` is not listed. */
  function IndexOf(fields: seq<string>, k: string): (r: int)
    ensures -1 <= r < |fields|
    ensures r == -1 <==> k !in fields
    ensures 0 <= r ==> fields[r] == k && forall j :: 0 <= j < r ==> fields[j] != k
  {
    if fields == [] then -1
    else if fields[0] == k then 0
    else
      var r := IndexOf(fields[1..], k);
      if r == -1 then -1 else r + 1
  }

  /** The filter's test: the header has a string key and `fields` lists it. */
  predicate Selected<P(!new)>(h: Header<P>, fields: seq<string>) {
    h.key.Some? && h.key.value in fields
  }

  /**
   * The sort key: the index of the header's key in `fields`. A header without a
   * string key ranks -1, as `indexOf` of a non-string in a list of strings does.
   */
  function Rank<P(!new)>(h: Header<P>, fields: seq<string>): (r: int)
    ensures -1 <= r < |fields|
    ensures 0 <= r <==> Selected(h, fields)
    ensures 0 <= r ==> fields[r] == h.key.value && IndexOf(fields, h.key.value) == r
  {
    if h.key.Some? then IndexOf(fields, h.key.value) else -1
  }

  /** The catalog filtered to the selected headers, in catalog order. */
  function Filter<P(!new)>(s: seq<Header<P>>, fields: seq<string>): (r: seq<Header<P>>)
    ensures |r| <= |s|
    ensures forall k :: 0 <= k < |r| ==> Selected(r[k], fields)
  {
    if s == [] then []
    else
      (if Selected(s[0], fields) then [s[0]] else []) + Filter(s[1..], fields)
  }

  // ---------------------------------------------------------------------------
  // Vocabulary for "sorted", "stable" and the reference projection
  // ---------------------------------------------------------------------------

  /** The subsequence of `s` whose headers carry key `k`. */
  ghost function KeyRun<P(!new)>(s: seq<Header<P>>, k: string): (r: seq<Header<P>>)
    ensures |r| <= |s|
    ensures forall j :: 0 <= j < |r| ==> r[j].key == Some(k)
  {
    if s == [] then []
    else
      (if s[0].key == Some(k) then [s[0]] else []) + KeyRun(s[1..], k)
  }

  /** The subsequence of `s` whose headers have rank `rank`. */
  ghost function RankRun<P(!new)>(s: seq<Header<P>>, fields: seq<string>, rank: int): (r: seq<Header<P>>)
    ensures |r| <= |s|
    ensures forall j :: 0 <= j < |r| ==> Rank(r[j], fields) == rank
  {
    if s == [] then []
    else
      (if Rank(s[0], fields) == rank then [s[0]] else []) + RankRun(s[1..], fields, rank)
  }

  /** Ranks never decrease from left to right. */
  ghost predicate SortedByRank<P(!new)>(s: seq<Header<P>>, fields: seq<string>) {
    forall i, j :: 0 <= i < j < |s| ==> Rank(s[i], fields) <= Rank(s[j], fields)
  }

  /**
   * Stability: for every rank, the headers of that rank appear in the same
   * order (and number) in `s` as in `t`.
   */
  ghost predicate SameRankRuns<P(!new)>(s: seq<Header<P>>, t: seq<Header<P>>, fields: seq<string>) {
    forall rank :: RankRun(s, fields, rank) == RankRun(t, fields, rank)
  }

  /**
   * The reference projection of a configuration, read declaratively: for each
   * entry of `fields` from position `i` on, in order, the catalog headers with
   * that key, in catalog order; a repeated entry of `fields` adds nothing.
   */
  ghost function Buckets<P(!new)>(catalog: seq<Header<P>>, fields: seq<string>, i: nat): seq<Header<P>>
    requires i <= |fields|
    decreases |fields| - i
  {
    if i == |fields| then []
    else
      (if IndexOf(fields, fields[i]) == i then KeyRun(catalog, fields[i]) else [])
      + Buckets(catalog, fields, i + 1)
  }

  /** What the service holds for a catalog and an optional configuration. */
  ghost function Projection<P(!new)>(catalog: seq<Header<P>>, config: Option<HeadersConfig>): seq<Header<P>> {
    match config
    case None => catalog
    case Some(c) => Buckets(catalog, c.fields, 0)
  }

  // ---------------------------------------------------------------------------
  // Facts about runs
  // ---------------------------------------------------------------------------

  lemma {:induction false} RankRunConcat<P(!new)>(a: seq<Header<P>>, b: seq<Header<P>>, fields: seq<string>, rank: int)
    ensures RankRun(a + b, fields, rank) == RankRun(a, fields, rank) + RankRun(b, fields, rank)
  {
    if a != [] {
      var head := if Rank(a[0], fields) == rank then [a[0]] else [];
      assert (a + b)[0] == a[0];
      assert (a + b)[1..] == a[1..] + b;
      assert RankRun(a + b, fields, rank) == head + RankRun(a[1..] + b, fields, rank);
      assert RankRun(a, fields, rank) == head + RankRun(a[1..], fields, rank);
      RankRunConcat(a[1..], b, fields, rank);
      assert head + (RankRun(a[1..], fields, rank) + RankRun(b, fields, rank))
          == (head + RankRun(a[1..], fields, rank)) + RankRun(b, fields, rank);
    } else {
      assert a + b == b;
    }
  }

  /** A run is empty when no header of `s` has that rank. */
  lemma {:induction false} RankRunEmpty<P(!new)>(s: seq<Header<P>>, fields: seq<string>, rank: int)
    requires forall k :: 0 <= k < |s| ==> Rank(s[k], fields) != rank
    ensures RankRun(s, fields, rank) == []
  {
    if s != [] {
      RankRunEmpty(s[1..], fields, rank);
    }
  }

  /** Taking a run of a run keeps it whole or empties it. */
  lemma {:induction false} RankRunOfRun<P(!new)>(s: seq<Header<P>>, fields: seq<string>, i: int, rank: int)
    ensures RankRun(RankRun(s, fields, i), fields, rank) == if i == rank then RankRun(s, fields, i) else []
  {
    if s != [] {
      RankRunOfRun(s[1..], fields, i, rank);
      var head := if Rank(s[0], fields) == i then [s[0]] else [];
      RankRunConcat(head, RankRun(s[1..], fields, i), fields, rank);
    }
  }

  /** For a listed key, the headers with that key are exactly the headers of its rank. */
  lemma {:induction false} KeyRunIsRankRun<P(!new)>(s: seq<Header<P>>, fields: seq<string>, k: string)
    requires k in fields
    ensures KeyRun(s, k) == RankRun(s, fields, IndexOf(fields, k))
  {
    if s != [] {
      KeyRunIsRankRun(s[1..], fields, k);
    }
  }

  /** Filtering changes no run of a non-negative rank and empties the others. */
  lemma {:induction false} RankRunOfFilter<P(!new)>(s: seq<Header<P>>, fields: seq<string>, rank: int)
    ensures RankRun(Filter(s, fields), fields, rank) == if 0 <= rank then RankRun(s, fields, rank) else []
  {
    if s != [] {
      RankRunOfFilter(s[1..], fields, rank);
      var head := if Selected(s[0], fields) then [s[0]] else [];
      RankRunConcat(head, Filter(s[1..], fields), fields, rank);
    }
  }

  /** The block Buckets takes at position `i` of `fields` is the run of rank `i`. */
  lemma BucketBlock<P(!new)>(catalog: seq<Header<P>>, fields: seq<string>, i: nat)
    requires i < |fields|
    ensures (if IndexOf(fields, fields[i]) == i then KeyRun(catalog, fields[i]) else [])
            == RankRun(catalog, fields, i)
  {
    if IndexOf(fields, fields[i]) == i {
      KeyRunIsRankRun(catalog, fields, fields[i]);
    } else {
      RankRunEmpty(catalog, fields, i);
    }
  }

  /** Each run of the reference projection from position `i` on. */
  lemma {:induction false} BucketsRankRun<P(!new)>(catalog: seq<Header<P>>, fields: seq<string>, i: nat, rank: int)
    requires i <= |fields|
    ensures RankRun(Buckets(catalog, fields, i), fields, rank)
            == if i <= rank then RankRun(catalog, fields, rank) else []
    decreases |fields| - i
  {
    if i == |fields| {
      if |fields| <= rank {
        RankRunEmpty(catalog, fields, rank);
      }
    } else {
      BucketBlock(catalog, fields, i);
      BucketsRankRun(catalog, fields, i + 1, rank);
      RankRunConcat(RankRun(catalog, fields, i), Buckets(catalog, fields, i + 1), fields, rank);
      RankRunOfRun(catalog, fields, i, rank);
    }
  }

  /** The ranks the reference projection holds from position `i` on, and their order. */
  lemma {:induction false} BucketsSorted<P(!new)>(catalog: seq<Header<P>>, fields: seq<string>, i: nat)
    requires i <= |fields|
    ensures forall k :: 0 <= k < |Buckets(catalog, fields, i)| ==> i <= Rank(Buckets(catalog, fields, i)[k], fields)
    ensures SortedByRank(Buckets(catalog, fields, i), fields)
    decreases |fields| - i
  {
    if i < |fields| {
      BucketsSorted(catalog, fields, i + 1);
      BucketBlock(catalog, fields, i);
      var block := RankRun(catalog, fields, i);
      var rest := Buckets(catalog, fields, i + 1);
      assert Buckets(catalog, fields, i) == block + rest;
    }
  }

  /** Headers of equal rank are in the same order wherever they sit. */
  lemma {:induction false} RankRunsDetermineSorted<P(!new)>(s: seq<Header<P>>, t: seq<Header<P>>, fields: seq<string>)
    requires SortedByRank(s, fields) && SortedByRank(t, fields)
    requires SameRankRuns(s, t, fields)
    ensures s == t
    decreases |s| + |t|
  {
    if s == [] && t == [] {
    } else if s == [] {
      NonEmptyRun(t, fields);
    } else if t == [] {
      NonEmptyRun(s, fields);
    } else {
      var r := Rank(s[0], fields);
      var r' := Rank(t[0], fields);
      LeadingRank(t, fields, r);
      LeadingRank(s, fields, r');
      assert r == r';
      assert RankRun(s, fields, r)[0] == s[0];
      assert RankRun(t, fields, r)[0] == t[0];
      assert s[0] == t[0];
      forall rank
        ensures RankRun(s[1..], fields, rank) == RankRun(t[1..], fields, rank)
      {
        var rs, rt := RankRun(s[1..], fields, rank), RankRun(t[1..], fields, rank);
        var head := if Rank(s[0], fields) == rank then [s[0]] else [];
        assert RankRun(s, fields, rank) == head + rs;
        assert RankRun(t, fields, rank) == head + rt;
        assert rs == (head + rs)[|head|..];
        assert rt == (head + rt)[|head|..];
      }
      RankRunsDetermineSorted(s[1..], t[1..], fields);
      assert s == [s[0]] + s[1..];
      assert t == [t[0]] + t[1..];
    }
  }

  /** A non-empty sequence has a non-empty run at the rank of its first header. */
  lemma NonEmptyRun<P(!new)>(s: seq<Header<P>>, fields: seq<string>)
    requires s != []
    ensures RankRun(s, fields, Rank(s[0], fields)) != []
  {
  }

  /**
   * In a sequence sorted by rank, the first header's rank is at most any rank
   * whose run is non-empty.
   */
  lemma LeadingRank<P(!new)>(s: seq<Header<P>>, fields: seq<string>, rank: int)
    requires s != [] && SortedByRank(s, fields)
    requires RankRun(s, fields, rank) != []
    ensures Rank(s[0], fields) <= rank
  {
    var k := RunHeadIndex(s, fields, rank);
    if k > 0 {
      assert Rank(s[0], fields) <= Rank(s[k], fields);
    }
  }

  /** A non-empty run starts with a header of `s` of that rank. */
  lemma {:induction false} RunHeadIndex<P(!new)>(s: seq<Header<P>>, fields: seq<string>, rank: int) returns (k: nat)
    requires RankRun(s, fields, rank) != []
    ensures k < |s| && s[k] == RankRun(s, fields, rank)[0] && Rank(s[k], fields) == rank
  {
    if Rank(s[0], fields) == rank {
      k := 0;
    } else {
      k := RunHeadIndex(s[1..], fields, rank);
      k := k + 1;
    }
  }

  // ---------------------------------------------------------------------------
  // The reference projection is the stable sort of the filtered catalog
  // ---------------------------------------------------------------------------

  /** The reference projection has the same runs as the filtered catalog. */
  lemma BucketsSameRunsAsFilter<P(!new)>(catalog: seq<Header<P>>, fields: seq<string>)
    ensures SameRankRuns(Buckets(catalog, fields, 0), Filter(catalog, fields), fields)
  {
    forall rank
      ensures RankRun(Buckets(catalog, fields, 0), fields, rank) == RankRun(Filter(catalog, fields), fields, rank)
    {
      BucketsRankRun(catalog, fields, 0, rank);
      RankRunOfFilter(catalog, fields, rank);
    }
  }

  /**
   * Any stable sort by rank of the filtered catalog is the reference
   * projection: the result does not depend on the sorting algorithm.
   */
  lemma StableSortIsProjection<P(!new)>(catalog: seq<Header<P>>, fields: seq<string>, sorted: seq<Header<P>>)
    requires SortedByRank(sorted, fields)
    requires SameRankRuns(sorted, Filter(catalog, fields), fields)
    ensures sorted == Buckets(catalog, fields, 0)
  {
    BucketsSorted(catalog, fields, 0);
    BucketsSameRunsAsFilter(catalog, fields);
    RankRunsDetermineSorted(sorted, Buckets(catalog, fields, 0), fields);
  }

  // ---------------------------------------------------------------------------
  // What the projection promises
  // ---------------------------------------------------------------------------

  lemma {:induction false} FilterCount<P(!new)>(s: seq<Header<P>>, fields: seq<string>, h: Header<P>)
    ensures multiset(Filter(s, fields))[h] == if Selected(h, fields) then multiset(s)[h] else 0
  {
    if s != [] {
      assert s == [s[0]] + s[1..];
      FilterCount(s[1..], fields, h);
    }
  }

  lemma {:induction false} RankRunCount<P(!new)>(s: seq<Header<P>>, fields: seq<string>, rank: int, h: Header<P>)
    ensures multiset(RankRun(s, fields, rank))[h] == if Rank(h, fields) == rank then multiset(s)[h] else 0
  {
    if s != [] {
      assert s == [s[0]] + s[1..];
      RankRunCount(s[1..], fields, rank, h);
    }
  }

  lemma {:induction false} KeyRunEmpty<P(!new)>(s: seq<Header<P>>, k: string)
    requires forall j :: 0 <= j < |s| ==> s[j].key != Some(k)
    ensures KeyRun(s, k) == []
  {
    if s != [] {
      KeyRunEmpty(s[1..], k);
    }
  }

  /** A key that exactly one header of `s` carries selects that header alone. */
  lemma {:induction false} KeyRunSingle<P(!new)>(s: seq<Header<P>>, k: string, j: nat)
    requires j < |s| && s[j].key == Some(k)
    requires forall i :: 0 <= i < |s| && i != j ==> s[i].key != Some(k)
    ensures KeyRun(s, k) == [s[j]]
  {
    if j == 0 {
      KeyRunEmpty(s[1..], k);
    } else {
      KeyRunSingle(s[1..], k, j - 1);
    }
  }

  /** How often a header occurs in the reference projection from position `i` on. */
  lemma {:induction false} BucketsCount<P(!new)>(catalog: seq<Header<P>>, fields: seq<string>, i: nat, h: Header<P>)
    requires i <= |fields|
    ensures multiset(Buckets(catalog, fields, i))[h] == if i <= Rank(h, fields) then multiset(catalog)[h] else 0
    decreases |fields| - i
  {
    if i < |fields| {
      BucketBlock(catalog, fields, i);
      var block, rest := RankRun(catalog, fields, i), Buckets(catalog, fields, i + 1);
      assert Buckets(catalog, fields, i) == block + rest;
      assert multiset(block + rest)[h] == multiset(block)[h] + multiset(rest)[h];
      RankRunCount(catalog, fields, i, h);
      BucketsCount(catalog, fields, i + 1, h);
    }
  }

  /** Every projected header has a string key that the configuration lists. */
  lemma ProjectionKeysListed<P(!new)>(catalog: seq<Header<P>>, config: HeadersConfig)
    ensures forall k :: 0 <= k < |Projection(catalog, Some(config))| ==>
      Projection(catalog, Some(config))[k].key.Some? &&
      Projection(catalog, Some(config))[k].key.value in config.fields
  {
    BucketsSorted(catalog, config.fields, 0);
  }

  /**
   * A header with a listed string key occurs in the projection exactly as
   * often as in the catalog, any other header not at all; in particular a key
   * listed twice in `fields` does not duplicate its headers.
   */
  lemma ProjectionCounts<P(!new)>(catalog: seq<Header<P>>, config: HeadersConfig, h: Header<P>)
    ensures multiset(Projection(catalog, Some(config)))[h]
            == if h.key.Some? && h.key.value in config.fields then multiset(catalog)[h] else 0
  {
    BucketsCount(catalog, config.fields, 0, h);
  }

  /** The projection is a permutation of the filtered catalog. */
  lemma ProjectionPermutesFilter<P(!new)>(catalog: seq<Header<P>>, config: HeadersConfig)
    ensures multiset(Projection(catalog, Some(config))) == multiset(Filter(catalog, config.fields))
  {
    forall h
      ensures multiset(Projection(catalog, Some(config)))[h] == multiset(Filter(catalog, config.fields))[h]
    {
      ProjectionCounts(catalog, config, h);
      FilterCount(catalog, config.fields, h);
    }
  }

  /** The projection is never longer than the catalog. */
  lemma ProjectionLength<P(!new)>(catalog: seq<Header<P>>, config: HeadersConfig)
    ensures |Projection(catalog, Some(config))| <= |catalog|
  {
    ProjectionPermutesFilter(catalog, config);
    assert |multiset(Projection(catalog, Some(config)))| == |Projection(catalog, Some(config))|;
    assert |multiset(Filter(catalog, config.fields))| == |Filter(catalog, config.fields)|;
  }

  /** Headers come in the order their keys first appear in `fields`. */
  lemma ProjectionOrdered<P(!new)>(catalog: seq<Header<P>>, config: HeadersConfig)
    ensures forall i, j :: 0 <= i < j < |Projection(catalog, Some(config))| ==>
      var out := Projection(catalog, Some(config));
      out[i].key.Some? && out[j].key.Some? &&
      IndexOf(config.fields, out[i].key.value) <= IndexOf(config.fields, out[j].key.value)
  {
    var out := Projection(catalog, Some(config));
    BucketsSorted(catalog, config.fields, 0);
    forall i, j | 0 <= i < j < |out|
      ensures out[i].key.Some? && out[j].key.Some?
      ensures IndexOf(config.fields, out[i].key.value) <= IndexOf(config.fields, out[j].key.value)
    {
      assert Rank(out[i], config.fields) <= Rank(out[j], config.fields);
    }
  }

  /**
   * For each listed key, the projection holds the catalog's headers with that
   * key in catalog order (the sort is stable); for an unlisted key, none.
   */
  lemma ProjectionStable<P(!new)>(catalog: seq<Header<P>>, config: HeadersConfig, k: string)
    ensures KeyRun(Projection(catalog, Some(config)), k) == if k in config.fields then KeyRun(catalog, k) else []
  {
    var fields, out := config.fields, Projection(catalog, Some(config));
    if k in fields {
      KeyRunIsRankRun(out, fields, k);
      BucketsRankRun(catalog, fields, 0, IndexOf(fields, k));
      KeyRunIsRankRun(catalog, fields, k);
    } else {
      ProjectionKeysListed(catalog, config);
      KeyRunEmpty(out, k);
    }
  }

  /**
   * The keys the projection shows are exactly the listed keys that some
   * catalog header carries; a listed key without a catalog header adds nothing.
   */
  lemma ProjectionKeySet<P(!new)>(catalog: seq<Header<P>>, config: HeadersConfig, k: string)
    ensures KeyRun(Projection(catalog, Some(config)), k) != [] <==> k in config.fields && KeyRun(catalog, k) != []
  {
    ProjectionStable(catalog, config, k);
  }

  lemma {:induction false} FilterNone<P(!new)>(s: seq<Header<P>>, fields: seq<string>)
    requires forall j :: 0 <= j < |s| ==> !Selected(s[j], fields)
    ensures Filter(s, fields) == []
  {
    if s != [] {
      FilterNone(s[1..], fields);
    }
  }

  /** When no catalog header has a listed string key, nothing is shown. */
  lemma ProjectionNoMatch<P(!new)>(catalog: seq<Header<P>>, config: HeadersConfig)
    requires forall j :: 0 <= j < |catalog| ==> !Selected(catalog[j], config.fields)
    ensures Projection(catalog, Some(config)) == []
  {
    FilterNone(catalog, config.fields);
    ProjectionPermutesFilter(catalog, config);
    assert |multiset(Projection(catalog, Some(config)))| == |Projection(catalog, Some(config))|;
  }

  // ---------------------------------------------------------------------------
  // The sort, in place on the fresh array the filter produced
  // ---------------------------------------------------------------------------

  /** Two headers of different rank have the same runs in either order. */
  lemma PairRuns<P(!new)>(x: Header<P>, y: Header<P>, fields: seq<string>, rank: int)
    requires Rank(x, fields) != Rank(y, fields)
    ensures RankRun([x, y], fields, rank) == RankRun([y, x], fields, rank)
  {
    assert [x, y][1..] == [y] && [y, x][1..] == [x];
    assert [x][1..] == [] && [y][1..] == [];
  }

  /** Swapping two neighbours of different rank keeps every run and the multiset. */
  lemma SwapKeepsRuns<P(!new)>(s: seq<Header<P>>, j: int, fields: seq<string>)
    requires 0 < j < |s| && Rank(s[j - 1], fields) != Rank(s[j], fields)
    ensures SameRankRuns(s[..j - 1] + [s[j], s[j - 1]] + s[j + 1..], s, fields)
    ensures multiset(s[..j - 1] + [s[j], s[j - 1]] + s[j + 1..]) == multiset(s)
  {
    var pre, x, y, post := s[..j - 1], s[j - 1], s[j], s[j + 1..];
    assert s == pre + ([x, y] + post);
    var t := s[..j - 1] + [s[j], s[j - 1]] + s[j + 1..];
    assert t == pre + ([y, x] + post);
    forall rank
      ensures RankRun(t, fields, rank) == RankRun(s, fields, rank)
    {
      PairRuns(x, y, fields, rank);
      RankRunConcat(pre, [x, y] + post, fields, rank);
      RankRunConcat([x, y], post, fields, rank);
      RankRunConcat(pre, [y, x] + post, fields, rank);
      RankRunConcat([y, x], post, fields, rank);
    }
  }

  /** Appending the same header to two sequences with the same runs keeps them the same. */
  lemma AppendKeepsRuns<P(!new)>(s: seq<Header<P>>, t: seq<Header<P>>, x: Header<P>, fields: seq<string>)
    requires SameRankRuns(s, t, fields)
    ensures SameRankRuns(s + [x], t + [x], fields)
  {
    forall rank
      ensures RankRun(s + [x], fields, rank) == RankRun(t + [x], fields, rank)
    {
      RankRunConcat(s, [x], fields, rank);
      RankRunConcat(t, [x], fields, rank);
    }
  }

  /**
   * The state of insertion: the header being inserted sits at `j`; the headers
   * before it are sorted, so are it and those after it, and everything before
   * `j` ranks at most as high as everything after `j`.
   */
  ghost predicate Inserting<P(!new)>(s: seq<Header<P>>, j: int, fields: seq<string>) {
    && 0 <= j < |s|
    && (forall p, q :: 0 <= p < q < j ==> Rank(s[p], fields) <= Rank(s[q], fields))
    && (forall p, q :: j <= p < q < |s| ==> Rank(s[p], fields) <= Rank(s[q], fields))
    && (forall p, q :: 0 <= p < j < q < |s| ==> Rank(s[p], fields) <= Rank(s[q], fields))
  }

  /** The header at `j` after swapping it with its left neighbour. */
  ghost function SwapLeft<P>(s: seq<Header<P>>, j: int): seq<Header<P>>
    requires 0 < j < |s|
  {
    s[j - 1 := s[j]][j := s[j - 1]]
  }

  lemma InsertingStart<P(!new)>(s: seq<Header<P>>, fields: seq<string>)
    requires s != [] && SortedByRank(s[..|s| - 1], fields)
    ensures Inserting(s, |s| - 1, fields)
  {
    assert forall p :: 0 <= p < |s| - 1 ==> s[..|s| - 1][p] == s[p];
  }

  lemma InsertingStep<P(!new)>(s: seq<Header<P>>, start: seq<Header<P>>, j: int, fields: seq<string>)
    requires Inserting(s, j, fields) && 0 < j && Rank(s[j - 1], fields) > Rank(s[j], fields)
    requires multiset(s) == multiset(start) && SameRankRuns(s, start, fields)
    ensures Inserting(SwapLeft(s, j), j - 1, fields)
    ensures SameRankRuns(SwapLeft(s, j), start, fields)
    ensures multiset(SwapLeft(s, j)) == multiset(start)
  {
    assert SwapLeft(s, j) == s[..j - 1] + [s[j], s[j - 1]] + s[j + 1..];
    SwapKeepsRuns(s, j, fields);
    forall rank ensures RankRun(SwapLeft(s, j), fields, rank) == RankRun(start, fields, rank) {
      assert RankRun(SwapLeft(s, j), fields, rank) == RankRun(s, fields, rank);
    }
  }

  lemma InsertingDone<P(!new)>(s: seq<Header<P>>, j: int, fields: seq<string>)
    requires Inserting(s, j, fields) && (j == 0 || Rank(s[j - 1], fields) <= Rank(s[j], fields))
    ensures SortedByRank(s, fields)
  {
  }

  /**
   * Moves the header at `i` left past the headers of strictly greater rank,
   * into the sorted prefix `a[..i]`.
   */
  method InsertAt<P(!new)>(a: array<Header<P>>, i: int, fields: seq<string>)
    requires 0 <= i < a.Length
    requires SortedByRank(a[..i], fields)
    modifies a
    ensures a[i + 1..] == old(a[i + 1..])
    ensures SortedByRank(a[..i + 1], fields)
    ensures multiset(a[..i + 1]) == multiset(old(a[..i + 1]))
    ensures SameRankRuns(a[..i + 1], old(a[..i + 1]), fields)
  {
    ghost var start := a[..i + 1];
    assert start[..i] == a[..i];
    InsertingStart(start, fields);
    var j := i;
    while j > 0 && Rank(a[j - 1], fields) > Rank(a[j], fields)
      invariant a[i + 1..] == old(a[i + 1..])
      invariant Inserting(a[..i + 1], j, fields)
      invariant multiset(a[..i + 1]) == multiset(start)
      invariant SameRankRuns(a[..i + 1], start, fields)
    {
      ghost var before := a[..i + 1];
      InsertingStep(before, start, j, fields);
      ghost var tail := a[i + 1..];
      a[j - 1], a[j] := a[j], a[j - 1];
      assert a[..i + 1] == SwapLeft(before, j);
      assert a[i + 1..] == tail;
      j := j - 1;
    }
    ghost var done := a[..i + 1];
    assert j == 0 || (done[j - 1] == a[j - 1] && done[j] == a[j]);
    InsertingDone(done, j, fields);
  }

  /**
   * Sorts `a` by rank, stably: insertion sort, moving each header left past
   * the headers of strictly greater rank, as a comparator returning
   * `rank(a) - rank(b)` directs.
   */
  method SortByRank<P(!new)>(a: array<Header<P>>, fields: seq<string>)
    modifies a
    ensures multiset(a[..]) == multiset(old(a[..]))
    ensures SortedByRank(a[..], fields)
    ensures SameRankRuns(a[..], old(a[..]), fields)
  {
    ghost var orig := a[..];
    var i := 0;
    while i < a.Length
      invariant 0 <= i <= a.Length
      invariant forall k :: i <= k < a.Length ==> a[k] == orig[k]
      invariant SortedByRank(a[..i], fields)
      invariant multiset(a[..i]) == multiset(orig[..i])
      invariant SameRankRuns(a[..i], orig[..i], fields)
    {
      ghost var prefix := a[..i];
      assert a[..i + 1] == prefix + [orig[i]];
      assert orig[..i + 1] == orig[..i] + [orig[i]];
      AppendKeepsRuns(prefix, orig[..i], orig[i], fields);
      InsertAt(a, i, fields);
      i := i + 1;
    }
    assert a[..] == a[..a.Length];
    assert orig == orig[..a.Length];
  }

  // ---------------------------------------------------------------------------
  // The service
  // ---------------------------------------------------------------------------

  /**
   * Holds the projected headers. The catalog is an array (a reference, as in
   * the source); without a configuration the service holds that very array,
   * with one it holds a fresh, sorted array and leaves the catalog untouched.
   */
  class HeadersService<P(!new)> {
    var headers: array<Header<P>>
    /** The catalog's contents and the configuration at construction. */
    ghost var catalog: seq<Header<P>>
    ghost var config: Option<HeadersConfig>

    ghost predicate Valid()
      reads this, headers
    {
      headers[..] == Projection(catalog, config)
    }

    constructor (allHeaders: array<Header<P>>, config: Option<HeadersConfig>)
      ensures Valid()
      ensures this.catalog == allHeaders[..] && this.config == config
      ensures config.None? ==> headers == allHeaders
      ensures config.Some? ==> fresh(headers)
      ensures allHeaders[..] == old(allHeaders[..])
    {
      this.catalog := allHeaders[..];
      this.config := config;
      if config.Some? {
        var fields := config.value.fields;
        var filtered := Filter(allHeaders[..], fields);
        var buf := new Header<P>[|filtered|](k requires 0 <= k < |filtered| => filtered[k]);
        assert buf[..] == filtered;
        SortByRank(buf, fields);
        StableSortIsProjection(allHeaders[..], fields, buf[..]);
        headers := buf;
      } else {
        headers := allHeaders;
      }
    }

    /** The projected headers; reading them changes nothing. */
    method GetHeaders() returns (r: array<Header<P>>)
      requires Valid()
      ensures r == headers
      ensures r[..] == Projection(catalog, config)
    {
      r := headers;
    }
  }
}
