/** The recommendation service's request handlers.

    `ListRecommendations` takes the product ids of the catalog, removes the
    ids named in the request, turns the rest into a list through a set (so
    in no particular order), and returns at most five of them picked by
    `random.sample` over the list's indices. `Check` and `Watch` answer with
    fixed health statuses.

    The catalog response is an input sequence. The order of `list(set(...))`
    and the indices `random.sample` draws are nondeterministic choices: the
    methods below commit to nothing beyond their postconditions, so whatever
    is proved about `ListRecommendations` holds for every such choice.
 */
module Recommendation {

  /** `max_responses` */
  const MaxResponses: nat := 5

  predicate Distinct<T(==)>(s: seq<T>) {
    forall i, j :: 0 <= i < j < |s| ==> s[i] != s[j]
  }

  function Elems<T(==)>(s: seq<T>): set<T> {
    set x | x in s
  }

  function Min(a: nat, b: nat): nat {
    if a < b then a else b
  }

  /** `set(product_ids) - set(request.product_ids)` */
  function Candidates(catalog: seq<string>, requested: seq<string>): (c: set<string>)
    ensures forall x :: x in c <==> x in catalog && x !in requested
  {
    Elems(catalog) - Elems(requested)
  }

  /** A duplicate-free list holding exactly the elements of `s`: what
      `list(s)` may return for a set `s`. */
  predicate IsListing<T(==)>(xs: seq<T>, s: set<T>) {
    Distinct(xs) && Elems(xs) == s
  }

  /** `range(n)` as a set */
  function IndexRange(n: nat): (s: set<nat>)
    ensures forall i: nat :: i in s <==> i < n
    ensures |s| == n
  {
    if n == 0 then {} else IndexRange(n - 1) + {n - 1}
  }

  /** A duplicate-free list has as many elements as its set. */
  lemma {:induction false} DistinctCard<T>(xs: seq<T>)
    requires Distinct(xs)
    ensures |Elems(xs)| == |xs|
  {
    if xs != [] {
      var init := xs[..|xs| - 1];
      assert Distinct(init);
      DistinctCard(init);
      assert Elems(xs) == Elems(init) + {xs[|xs| - 1]};
      assert xs[|xs| - 1] !in Elems(init);
    }
  }

  /** `list(s)` for a set `s`: some duplicate-free list of exactly its
      elements, in an order the caller cannot rely on. */
  method SetToList<T(==)>(s: set<T>) returns (xs: seq<T>)
    ensures IsListing(xs, s)
    ensures |xs| == |s|
  {
    xs := [];
    var rest := s;
    while rest != {}
      invariant Distinct(xs)
      invariant Elems(xs) !! rest
      invariant Elems(xs) + rest == s
      decreases rest
    {
      var x :| x in rest;
      assert Elems(xs + [x]) == Elems(xs) + {x};
      xs := xs + [x];
      rest := rest - {x};
    }
    DistinctCard(xs);
  }

  /** `random.sample(range(n), k)`: `k` distinct indices below `n`, chosen
      in no order the caller can rely on. Python rejects `k > n`. */
  method Sample(n: nat, k: nat) returns (indices: seq<nat>)
    requires k <= n
    ensures |indices| == k
    ensures Distinct(indices)
    ensures forall j :: 0 <= j < |indices| ==> indices[j] < n
  {
    indices := [];
    var remaining := IndexRange(n);
    while |indices| < k
      invariant |indices| <= k
      invariant Distinct(indices)
      invariant forall j :: 0 <= j < |indices| ==> indices[j] < n
      invariant remaining == IndexRange(n) - Elems(indices)
      invariant |remaining| == n - |indices|
    {
      var i :| i in remaining;
      assert Elems(indices + [i]) == Elems(indices) + {i};
      indices := indices + [i];
      remaining := remaining - {i};
    }
  }

  /** `[xs[i] for i in indices]` */
  function Pick<T(==)>(xs: seq<T>, indices: seq<nat>): (r: seq<T>)
    requires forall j :: 0 <= j < |indices| ==> indices[j] < |xs|
    ensures |r| == |indices|
    ensures forall j :: 0 <= j < |r| ==> r[j] == xs[indices[j]]
  {
    seq(|indices|, j requires 0 <= j < |indices| => xs[indices[j]])
  }

  /** Distinct positions of a duplicate-free list pick distinct elements of it. */
  lemma PickDistinct<T>(xs: seq<T>, indices: seq<nat>)
    requires forall j :: 0 <= j < |indices| ==> indices[j] < |xs|
    requires Distinct(xs) && Distinct(indices)
    ensures Distinct(Pick(xs, indices))
    ensures Elems(Pick(xs, indices)) <= Elems(xs)
  {
  }

  /** What the handler promises of its response, as `ListRecommendations`
      states it. */
  predicate IsRecommendation(catalog: seq<string>, requested: seq<string>, r: seq<string>) {
    && Distinct(r)
    && (forall j :: 0 <= j < |r| ==> r[j] in catalog && r[j] !in requested)
    && |r| == Min(MaxResponses, |Candidates(catalog, requested)|)
  }

  /** `ListRecommendations`: filter the catalog by the request, list the
      rest, and sample `min(5, n)` of them. */
  method ListRecommendations(catalog: seq<string>, requested: seq<string>) returns (r: seq<string>)
    ensures forall j :: 0 <= j < |r| ==> r[j] in catalog
    ensures forall j :: 0 <= j < |r| ==> r[j] !in requested
    ensures Distinct(r)
    ensures |r| == Min(MaxResponses, |Candidates(catalog, requested)|)
  {
    var filtered := SetToList(Candidates(catalog, requested));
    var numProducts := |filtered|;
    var numReturn := Min(MaxResponses, numProducts);
    var indices := Sample(numProducts, numReturn);
    r := Pick(filtered, indices);
    PickDistinct(filtered, indices);
    forall j | 0 <= j < |r|
      ensures r[j] in catalog && r[j] !in requested
    {
      assert r[j] in Elems(filtered);
    }
  }

  /** Every returned id is a candidate. */
  lemma RecommendationsAreCandidates(catalog: seq<string>, requested: seq<string>, r: seq<string>)
    requires IsRecommendation(catalog, requested, r)
    ensures Elems(r) <= Candidates(catalog, requested)
  {
  }

  /** With five candidates or fewer, every one of them is returned. */
  lemma {:induction false} SmallCandidateSetReturnedWhole(catalog: seq<string>, requested: seq<string>, r: seq<string>)
    requires IsRecommendation(catalog, requested, r)
    requires |Candidates(catalog, requested)| <= MaxResponses
    ensures Elems(r) == Candidates(catalog, requested)
  {
    var c := Candidates(catalog, requested);
    RecommendationsAreCandidates(catalog, requested, r);
    DistinctCard(r);
    var missed := c - Elems(r);
    assert c == Elems(r) + missed;
    assert |c| == |Elems(r)| + |missed|;
    assert missed == {};
  }

  /** When every catalog id was requested (an empty catalog included),
      nothing is recommended. */
  lemma AllRequestedGivesNothing(catalog: seq<string>, requested: seq<string>, r: seq<string>)
    requires IsRecommendation(catalog, requested, r)
    requires forall j :: 0 <= j < |catalog| ==> catalog[j] in requested
    ensures r == []
  {
    assert Candidates(catalog, requested) == {};
  }

  /** The statuses the health service reports. */
  datatype ServingStatus = Serving | Unimplemented

  /** `Check`: serving, whatever the request. */
  function Check(service: string): (status: ServingStatus)
    ensures status == Serving
  {
    Serving
  }

  /** `Watch`: unimplemented, whatever the request. */
  function Watch(service: string): (status: ServingStatus)
    ensures status == Unimplemented
  {
    Unimplemented
  }

  /** Neither handler looks at its request, and the two never agree. */
  lemma HealthIgnoresRequest(a: string, b: string)
    ensures Check(a) == Check(b) && Watch(a) == Watch(b)
    ensures Check(a) != Watch(b)
  {
  }
}
