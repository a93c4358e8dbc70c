/** Cell resolution during one evaluation: the resolve cache, the in-flight set that
  * detects cycles, and the batch resolver over them. */
module Resolution {
  import opened Wrappers
  import opened Values
  import opened Errors

  /** What the caller of an evaluation supplies. A resolver result of `None` means that the
    * resolver threw; an absent resolver is `None` itself. */
  datatype Context = Context(
    resolveCell: Option<string -> Option<Value>>,
    resolveCellsBatch: Option<seq<string> -> Option<seq<Value>>>)

  /** The per-evaluation resolve cache. */
  type Cache = map<string, Value>

  /** `resolveCell(ref)` given the cache and the refs in flight: the value and the new cache. */
  function ResolveOne(ctx: Context, cache: Cache, inFlight: set<string>, ref: string): (r: (Value, Cache))
    ensures ctx.resolveCell.None? ==> r == (Num(0.0), cache)
    ensures ctx.resolveCell.Some? && ref in inFlight ==> r == (Error(CYCLE), cache)
    ensures ctx.resolveCell.Some? && ref !in inFlight && ref in cache ==> r == (cache[ref], cache)
    ensures ctx.resolveCell.Some? && ref !in inFlight && ref !in cache ==>
      r.1 == cache[ref := r.0] && r.0 != Undef
    ensures ctx.resolveCell.Some? && ref !in inFlight && ref !in cache ==>
      (ctx.resolveCell.value(ref).None? ==> r.0 == Error(REF))
  {
    if ctx.resolveCell.None? then (Num(0.0), cache)
    else if ref in inFlight then (Error(CYCLE), cache)
    else if ref in cache then (cache[ref], cache)
    else
      var v := match ctx.resolveCell.value(ref)
        case None => Error(REF)
        case Some(v) => OrDefault(v, Str(""));
      (v, cache[ref := v])
  }

  /** The refs not yet in the cache, in order (duplicates kept). */
  function Uncached(cache: Cache, refs: seq<string>): (u: seq<string>)
    ensures |u| <= |refs|
    ensures forall j :: 0 <= j < |u| ==> u[j] !in cache && u[j] in refs
  {
    if refs == [] then []
    else
      var init := Uncached(cache, refs[..|refs| - 1]);
      assert forall j :: 0 <= j < |init| ==> init[j] in refs[..|refs| - 1];
      init + (if refs[|refs| - 1] in cache then [] else [refs[|refs| - 1]])
  }

  /** How many refs before position `i` are uncached: the position of `refs[i]` among the
    * fetched refs. */
  function Rank(cache: Cache, refs: seq<string>, i: nat): nat
    requires i <= |refs|
  {
    |Uncached(cache, refs[..i])|
  }

  /** The results array: cached refs from the cache, the others from `got` in order. */
  function Fill(cache: Cache, refs: seq<string>, got: seq<Value>): (r: seq<Value>)
    requires |got| == |Uncached(cache, refs)|
    ensures |r| == |refs|
  {
    if refs == [] then []
    else
      var last := refs[|refs| - 1];
      if last in cache then Fill(cache, refs[..|refs| - 1], got) + [cache[last]]
      else Fill(cache, refs[..|refs| - 1], got[..|got| - 1]) + [got[|got| - 1]]
  }

  /** The cache after storing `vals[j]` under `keys[j]`, left to right. */
  function Store(cache: Cache, keys: seq<string>, vals: seq<Value>): (c: Cache)
    requires |keys| == |vals|
    ensures forall k :: k in cache ==> k in c
    ensures forall j :: 0 <= j < |keys| ==> keys[j] in c
  {
    if keys == [] then cache
    else Store(cache, keys[..|keys| - 1], vals[..|vals| - 1])[keys[|keys| - 1] := vals[|vals| - 1]]
  }

  /** Resolving the fetched refs one by one through `ResolveOne`. */
  function FetchEach(ctx: Context, cache: Cache, inFlight: set<string>, refs: seq<string>): (r: (seq<Value>, Cache))
    ensures |r.0| == |refs|
  {
    if refs == [] then ([], cache)
    else
      var (vals, c1) := FetchEach(ctx, cache, inFlight, refs[..|refs| - 1]);
      var (v, c2) := ResolveOne(ctx, c1, inFlight, refs[|refs| - 1]);
      (vals + [v], c2)
  }

  /** What the batch resolver stores for the j-th fetched ref: `batchVals[j] ?? ''`. */
  function BatchValues(vals: seq<Value>, n: nat): (got: seq<Value>)
    ensures |got| == n
    ensures forall j :: 0 <= j < n ==> got[j] == OrDefault(At(vals, j), Str(""))
  {
    seq(n, j requires 0 <= j < n => OrDefault(At(vals, j), Str("")))
  }

  /** `resolveCellsBatch(refs)`: the values in the order of `refs` and the new cache, or `None`
    * when the context's batch resolver throws. */
  function ResolveBatch(ctx: Context, cache: Cache, inFlight: set<string>, refs: seq<string>): (r: Option<(seq<Value>, Cache)>)
    ensures r.Some? ==> |r.value.0| == |refs|
  {
    var toFetch := Uncached(cache, refs);
    if toFetch == [] then Some((Fill(cache, refs, []), cache))
    else if ctx.resolveCellsBatch.Some? then
      match ctx.resolveCellsBatch.value(toFetch)
      case None => None
      case Some(vals) =>
        var got := BatchValues(vals, |toFetch|);
        Some((Fill(cache, refs, got), Store(cache, toFetch, got)))
    else
      var (got, c) := FetchEach(ctx, cache, inFlight, toFetch);
      Some((Fill(cache, refs, got), c))
  }

  // ---- facts about the batch ----

  lemma UncachedStep(cache: Cache, refs: seq<string>, i: nat)
    requires i < |refs|
    ensures Uncached(cache, refs[..i + 1]) ==
      Uncached(cache, refs[..i]) + (if refs[i] in cache then [] else [refs[i]])
  {
    assert refs[..i + 1][..i] == refs[..i];
  }

  lemma StoreStep(cache: Cache, keys: seq<string>, vals: seq<Value>, j: nat)
    requires |keys| == |vals| && j < |keys|
    ensures Store(cache, keys[..j + 1], vals[..j + 1]) == Store(cache, keys[..j], vals[..j])[keys[j] := vals[j]]
  {
    assert keys[..j + 1][..j] == keys[..j] && vals[..j + 1][..j] == vals[..j];
  }

  lemma {:induction false} RankMonotone(cache: Cache, refs: seq<string>, a: nat, b: nat)
    requires a <= b <= |refs|
    ensures Rank(cache, refs, a) <= Rank(cache, refs, b)
    ensures a < b && refs[a] !in cache ==> Rank(cache, refs, a) < Rank(cache, refs, b)
    decreases b - a
  {
    if a < b {
      UncachedStep(cache, refs, a);
      RankMonotone(cache, refs, a + 1, b);
    }
  }

  /** Two uncached positions with the same rank are the same position. */
  lemma RankInjective(cache: Cache, refs: seq<string>, a: nat, b: nat)
    requires a < |refs| && b < |refs| && refs[a] !in cache && refs[b] !in cache
    requires Rank(cache, refs, a) == Rank(cache, refs, b)
    ensures a == b
  {
    if a < b { RankMonotone(cache, refs, a, b); }
    if b < a { RankMonotone(cache, refs, b, a); }
  }

  /** An uncached position has a rank below the number of fetched refs, and the fetched ref of
    * that rank is its own ref. */
  lemma {:induction false} RankInRange(cache: Cache, refs: seq<string>, i: nat)
    requires i < |refs| && refs[i] !in cache
    ensures Rank(cache, refs, i) < |Uncached(cache, refs)|
    ensures Uncached(cache, refs)[Rank(cache, refs, i)] == refs[i]
  {
    UncachedStep(cache, refs, i);
    assert refs[..|refs|] == refs;
    RankMonotone(cache, refs, i + 1, |refs|);
    UncachedPrefix(cache, refs, i + 1, |refs|);
  }

  /** The uncached refs of a prefix are a prefix of the uncached refs. */
  lemma {:induction false} UncachedPrefix(cache: Cache, refs: seq<string>, a: nat, b: nat)
    requires a <= b <= |refs|
    ensures Uncached(cache, refs[..a]) <= Uncached(cache, refs[..b])
    decreases b - a
  {
    if a < b {
      UncachedStep(cache, refs, a);
      UncachedPrefix(cache, refs, a + 1, b);
    }
  }

  /** Position `i` of the results: the cached value, or the fetched value of its rank. */
  lemma {:induction false} FillAt(cache: Cache, refs: seq<string>, got: seq<Value>, i: nat)
    requires |got| == |Uncached(cache, refs)| && i < |refs|
    ensures refs[i] !in cache ==> Rank(cache, refs, i) < |got|
    ensures Fill(cache, refs, got)[i] ==
      if refs[i] in cache then cache[refs[i]] else got[Rank(cache, refs, i)]
    decreases |refs|
  {
    var n := |refs| - 1;
    var init := refs[..n];
    assert refs[..n + 1] == refs;
    UncachedStep(cache, refs, n);
    if i < n {
      assert init[i] == refs[i];
      assert init[..i] == refs[..i];
      var g := if refs[n] in cache then got else got[..|got| - 1];
      FillAt(cache, init, g, i);
      if refs[i] !in cache {
        assert Rank(cache, init, i) == Rank(cache, refs, i);
        assert g[Rank(cache, init, i)] == got[Rank(cache, refs, i)];
      }
    }
  }

  /** Cached refs are served from the cache, and uncached ones get the fetched value of their
    * position among the uncached refs. */
  lemma BatchServesCache(ctx: Context, cache: Cache, inFlight: set<string>, refs: seq<string>, i: nat)
    requires i < |refs| && refs[i] in cache
    requires ResolveBatch(ctx, cache, inFlight, refs).Some?
    ensures ResolveBatch(ctx, cache, inFlight, refs).value.0[i] == cache[refs[i]]
  {
    var toFetch := Uncached(cache, refs);
    if toFetch == [] {
      FillAt(cache, refs, [], i);
    } else if ctx.resolveCellsBatch.Some? {
      var got := BatchValues(ctx.resolveCellsBatch.value(toFetch).value, |toFetch|);
      FillAt(cache, refs, got, i);
    } else {
      FillAt(cache, refs, FetchEach(ctx, cache, inFlight, toFetch).0, i);
    }
  }

  /** With a batch resolver, the results keep the order of `refs`: the value at an uncached
    * position is what the resolver returned for that ref's place in the request. */
  lemma BatchKeepsOrder(ctx: Context, cache: Cache, inFlight: set<string>, refs: seq<string>, i: nat)
    requires i < |refs| && refs[i] !in cache && ctx.resolveCellsBatch.Some?
    requires ResolveBatch(ctx, cache, inFlight, refs).Some?
    ensures ctx.resolveCellsBatch.value(Uncached(cache, refs)).Some?
    ensures Rank(cache, refs, i) < |Uncached(cache, refs)|
    ensures Uncached(cache, refs)[Rank(cache, refs, i)] == refs[i]
    ensures ResolveBatch(ctx, cache, inFlight, refs).value.0[i] ==
      OrDefault(At(ctx.resolveCellsBatch.value(Uncached(cache, refs)).value, Rank(cache, refs, i)), Str(""))
  {
    RankInRange(cache, refs, i);
    var toFetch := Uncached(cache, refs);
    var got := BatchValues(ctx.resolveCellsBatch.value(toFetch).value, |toFetch|);
    FillAt(cache, refs, got, i);
  }

  /** What the batch resolver fetched is in the new cache, and no other cache entry changes.
    * With repeated refs the last value stored wins. */
  lemma {:induction false} StoreKeeps(cache: Cache, keys: seq<string>, vals: seq<Value>, k: string)
    requires |keys| == |vals| && k !in keys && k in cache
    ensures Store(cache, keys, vals)[k] == cache[k]
  {
    if keys != [] {
      var init := keys[..|keys| - 1];
      assert forall j :: 0 <= j < |init| ==> init[j] != k;
      StoreKeeps(cache, keys[..|keys| - 1], vals[..|vals| - 1], k);
    }
  }

  lemma {:induction false} StoreDistinct(cache: Cache, keys: seq<string>, vals: seq<Value>, j: nat)
    requires |keys| == |vals| && j < |keys|
    requires forall a, b :: 0 <= a < b < |keys| ==> keys[a] != keys[b]
    ensures Store(cache, keys, vals)[keys[j]] == vals[j]
  {
    var n := |keys| - 1;
    if j < n {
      StoreDistinct(cache, keys[..n], vals[..n], j);
    }
  }

  /** With a batch resolver, every fetched ref with a single occurrence is cached with the value
    * returned for it, and every entry cached before is kept. */
  lemma BatchCachesFetched(ctx: Context, cache: Cache, inFlight: set<string>, refs: seq<string>, j: nat, k: string)
    requires ctx.resolveCellsBatch.Some? && j < |Uncached(cache, refs)|
    requires forall a, b :: 0 <= a < b < |refs| ==> refs[a] != refs[b]
    requires k in cache
    requires ResolveBatch(ctx, cache, inFlight, refs).Some?
    ensures ResolveBatch(ctx, cache, inFlight, refs).value.1[Uncached(cache, refs)[j]] ==
      OrDefault(At(ctx.resolveCellsBatch.value(Uncached(cache, refs)).value, j), Str(""))
    ensures ResolveBatch(ctx, cache, inFlight, refs).value.1[k] == cache[k]
  {
    var toFetch := Uncached(cache, refs);
    UncachedDistinct(cache, refs);
    var got := BatchValues(ctx.resolveCellsBatch.value(toFetch).value, |toFetch|);
    StoreDistinct(cache, toFetch, got, j);
    StoreKeeps(cache, toFetch, got, k);
  }

  /** Distinct refs give distinct uncached refs. */
  lemma {:induction false} UncachedDistinct(cache: Cache, refs: seq<string>)
    requires forall a, b :: 0 <= a < b < |refs| ==> refs[a] != refs[b]
    ensures forall a, b :: 0 <= a < b < |Uncached(cache, refs)| ==>
      Uncached(cache, refs)[a] != Uncached(cache, refs)[b]
  {
    if refs != [] {
      var n := |refs| - 1;
      var init := refs[..n];
      UncachedDistinct(cache, init);
      var u := Uncached(cache, init);
      assert forall j :: 0 <= j < |u| ==> u[j] in init;
      assert forall a :: 0 <= a < n ==> init[a] != refs[n];
    }
  }

  /** The context's state for one evaluation: the resolve cache and the refs in flight. */
  class EvalContext {
    const ctx: Context
    var cache: Cache
    var evaluating: set<string>

    constructor (ctx: Context)
      ensures this.ctx == ctx && cache == map[] && evaluating == {}
    {
      this.ctx := ctx;
      cache := map[];
      evaluating := {};
    }

    /** `resolveCell`: the in-flight marker is added around the call and removed on every
      * path, so `evaluating` is the same afterwards. */
    method ResolveCell(ref: string) returns (v: Value)
      modifies this
      ensures (v, cache) == ResolveOne(ctx, old(cache), old(evaluating), ref)
      ensures evaluating == old(evaluating)
    {
      if ctx.resolveCell.None? {
        return Num(0.0);
      }
      if ref in evaluating {
        return Error(CYCLE);
      }
      if ref in cache {
        return cache[ref];
      }
      evaluating := evaluating + {ref};
      var got := ctx.resolveCell.value(ref);
      match got {
        case None =>
          cache := cache[ref := Error(REF)];
          v := Error(REF);
        case Some(x) =>
          v := OrDefault(x, Str(""));
          cache := cache[ref := v];
      }
      evaluating := evaluating - {ref};
    }

    /** `resolveCellsBatch`: `None` when the context's batch resolver throws. */
    method ResolveCellsBatch(refs: seq<string>) returns (r: Option<seq<Value>>)
      modifies this
      ensures r.None? <==> ResolveBatch(ctx, old(cache), old(evaluating), refs).None?
      ensures r.Some? ==> ResolveBatch(ctx, old(cache), old(evaluating), refs) == Some((r.value, cache))
      ensures evaluating == old(evaluating)
    {
      var c0 := cache;
      var results := new Value[|refs|](_ => Undef);
      var toFetch, toFetchIdx := Partition(c0, refs, results);
      if |toFetch| == 0 {
        Fulfilled(c0, refs, [], results[..]);
        return Some(results[..]);
      }
      var got: seq<Value>;
      if ctx.resolveCellsBatch.Some? {
        var batchVals := ctx.resolveCellsBatch.value(toFetch);
        if batchVals.None? {
          return None;
        }
        got := BatchValues(batchVals.value, |toFetch|);
        StoreFetched(c0, refs, toFetch, toFetchIdx, batchVals.value, results);
      } else {
        got := FetchAll(toFetch);
        PlaceFetched(c0, refs, toFetchIdx, got, results);
      }
      Fulfilled(c0, refs, got, results[..]);
      r := Some(results[..]);
    }

    /** The batch resolver's values stored in the cache and in the results, `?? ''` applied. */
    method StoreFetched(c0: Cache, refs: seq<string>, toFetch: seq<string>, toFetchIdx: seq<nat>,
                        batchVals: seq<Value>, results: array<Value>)
      requires cache == c0 && toFetch == Uncached(c0, refs) && |toFetchIdx| == |toFetch|
      requires Indexed(c0, refs, toFetchIdx)
      requires Placed(c0, refs, BatchValues(batchVals, |toFetch|), results[..], 0)
      modifies this, results
      ensures cache == Store(c0, toFetch, BatchValues(batchVals, |toFetch|))
      ensures evaluating == old(evaluating)
      ensures Placed(c0, refs, BatchValues(batchVals, |toFetch|), results[..], |toFetch|)
    {
      ghost var got := BatchValues(batchVals, |toFetch|);
      var j := 0;
      while j < |toFetch|
        invariant 0 <= j <= |toFetch|
        invariant cache == Store(c0, toFetch[..j], got[..j])
        invariant evaluating == old(evaluating)
        invariant Placed(c0, refs, got, results[..], j)
      {
        var val := OrDefault(At(batchVals, j), Str(""));
        assert val == got[j];
        StoreStep(c0, toFetch, got, j);
        cache := cache[toFetch[j] := val];
        Place(c0, refs, got, results[..], toFetchIdx, j);
        results[toFetchIdx[j]] := val;
        j := j + 1;
      }
      assert toFetch[..j] == toFetch && got[..j] == got;
    }

    /** `toFetch.map(resolveCell)`, one ref after the other. */
    method FetchAll(toFetch: seq<string>) returns (vals: seq<Value>)
      modifies this
      ensures (vals, cache) == FetchEach(ctx, old(cache), old(evaluating), toFetch)
      ensures evaluating == old(evaluating)
    {
      vals := [];
      var j := 0;
      while j < |toFetch|
        invariant 0 <= j <= |toFetch|
        invariant (vals, cache) == FetchEach(ctx, old(cache), old(evaluating), toFetch[..j])
        invariant evaluating == old(evaluating)
      {
        assert toFetch[..j + 1][..j] == toFetch[..j];
        var v := ResolveCell(toFetch[j]);
        vals := vals + [v];
        j := j + 1;
      }
      assert toFetch[..j] == toFetch;
    }
  }

  /** The first loop of the batch: cached refs are copied into the results, the others are
    * collected with their positions. */
  method Partition(c0: Cache, refs: seq<string>, results: array<Value>)
    returns (toFetch: seq<string>, toFetchIdx: seq<nat>)
    requires results.Length == |refs|
    modifies results
    ensures toFetch == Uncached(c0, refs) && |toFetchIdx| == |toFetch|
    ensures Indexed(c0, refs, toFetchIdx)
    ensures CachedPlaced(c0, refs, results[..])
  {
    toFetch := [];
    toFetchIdx := [];
    var i := 0;
    while i < |refs|
      invariant 0 <= i <= |refs|
      invariant toFetch == Uncached(c0, refs[..i]) && |toFetchIdx| == |toFetch|
      invariant forall j :: 0 <= j < |toFetchIdx| ==>
        toFetchIdx[j] < i && refs[toFetchIdx[j]] !in c0 && Rank(c0, refs, toFetchIdx[j]) == j
      invariant forall k :: 0 <= k < i && refs[k] in c0 ==> results[k] == c0[refs[k]]
    {
      UncachedStep(c0, refs, i);
      if refs[i] in c0 {
        results[i] := c0[refs[i]];
      } else {
        toFetch := toFetch + [refs[i]];
        toFetchIdx := toFetchIdx + [i];
      }
      i := i + 1;
    }
    assert refs[..|refs|] == refs;
  }

  /** The second loop of the non-batch path: `results[toFetchIdx[j]] = vals[j]`. */
  method PlaceFetched(c0: Cache, refs: seq<string>, toFetchIdx: seq<nat>, vals: seq<Value>, results: array<Value>)
    requires |vals| == |toFetchIdx| && Indexed(c0, refs, toFetchIdx)
    requires Placed(c0, refs, vals, results[..], 0)
    modifies results
    ensures Placed(c0, refs, vals, results[..], |vals|)
  {
    var j := 0;
    while j < |vals|
      invariant 0 <= j <= |vals|
      invariant Placed(c0, refs, vals, results[..], j)
    {
      Place(c0, refs, vals, results[..], toFetchIdx, j);
      results[toFetchIdx[j]] := vals[j];
      j := j + 1;
    }
  }

  /** `toFetchIdx[j]` is the position of an uncached ref of rank `j`. */
  ghost predicate Indexed(c0: Cache, refs: seq<string>, idx: seq<nat>)
  {
    forall j :: 0 <= j < |idx| ==> idx[j] < |refs| && refs[idx[j]] !in c0 && Rank(c0, refs, idx[j]) == j
  }

  /** Every cached position holds its cached value. */
  ghost predicate CachedPlaced(c0: Cache, refs: seq<string>, results: seq<Value>)
  {
    |results| == |refs| &&
    forall k :: 0 <= k < |refs| && refs[k] in c0 ==> results[k] == c0[refs[k]]
  }

  /** The results array once the first `j` fetched values are in place. */
  ghost predicate Placed(c0: Cache, refs: seq<string>, got: seq<Value>, results: seq<Value>, j: nat)
  {
    CachedPlaced(c0, refs, results) && j <= |got| &&
    (forall k :: 0 <= k < |refs| && refs[k] !in c0 && Rank(c0, refs, k) < j ==>
      results[k] == got[Rank(c0, refs, k)])
  }

  /** Writing the j-th fetched value at its position keeps `Placed` for one more value. */
  lemma Place(c0: Cache, refs: seq<string>, got: seq<Value>, results: seq<Value>, idx: seq<nat>, j: nat)
    requires Placed(c0, refs, got, results, j) && j < |got| && j < |idx|
    requires idx[j] < |refs| && refs[idx[j]] !in c0 && Rank(c0, refs, idx[j]) == j
    ensures Placed(c0, refs, got, results[idx[j] := got[j]], j + 1)
  {
    var res := results[idx[j] := got[j]];
    forall k | 0 <= k < |refs| && refs[k] !in c0 && Rank(c0, refs, k) < j + 1
      ensures res[k] == got[Rank(c0, refs, k)]
    {
      if Rank(c0, refs, k) == j {
        RankInjective(c0, refs, k, idx[j]);
      }
    }
  }

  /** All fetched values in place: the results are `Fill`. */
  lemma Fulfilled(c0: Cache, refs: seq<string>, got: seq<Value>, results: seq<Value>)
    requires |got| == |Uncached(c0, refs)|
    requires Placed(c0, refs, got, results, |got|)
    ensures results == Fill(c0, refs, got)
  {
    forall k | 0 <= k < |refs|
      ensures results[k] == Fill(c0, refs, got)[k]
    {
      FillAt(c0, refs, got, k);
    }
  }
}
