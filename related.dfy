/**
 * RelatedController::handle, `GET /headlesscart/v1/related/{id}`: the
 * products sharing a tag with the target, newest first, cut to `limit`, and
 * topped up from a random fallback query when short.
 *
 * Products are their ids. The catalogue queries are parameters: `found`
 * says whether wc_get_product finds the id, `tags` is what
 * wp_get_post_terms returns for it, `byTags(tags, id)` is the tag query
 * (published, excluding `id`, newest first). The random fallback query is
 * the separate parameter `fallback(exclude, need)`.
 */
module Related {
  import opened Php
  import Catalog

  datatype Queries = Queries(
    found: int -> bool,
    tags: int -> seq<int>,
    byTags: (seq<int>, int) -> seq<int>)

  datatype Reply =
    | NotFound
    | Listed(productId: int, total: nat, data: seq<int>)
  {
    function Status(): int {
      if NotFound? then 404 else 200
    }
    function Code(): Option<string> {
      if NotFound? then Some("not_found") else None
    }
  }

  /** `(int) $req->get_param('id')`. */
  function TargetId(params: Value): int {
    ToInt(Catalog.Param(params, "id"))
  }

  /** `max(1, (int) $req->get_param('limit'))`. */
  function Limit(params: Value): int {
    Catalog.AtLeastOne(Catalog.Param(params, "limit"))
  }

  /** `array_filter` on term ids: the falsy id 0 is dropped, order is kept. */
  function NonZero(ids: seq<int>): (r: seq<int>)
    ensures forall x :: x in r <==> x in ids && x != 0
    ensures |r| <= |ids|
    ensures Subsequence(r, ids)
  {
    if ids == [] then []
    else if ids[0] == 0 then
      var rest := NonZero(ids[1..]);
      assert rest != [] ==> rest[0] in rest;
      rest
    else [ids[0]] + NonZero(ids[1..])
  }

  /** The tag matches kept: all of them, or the first `limit` when there are more. */
  function Truncated(matches: seq<int>, limit: int): seq<int>
    requires limit >= 1
  {
    if |matches| > limit then matches[..limit] else matches
  }

  /** `$related` after the tag step: `[]` when the product has no (non-zero) tag. */
  function TagPart(id: int, limit: int, q: Queries): seq<int>
    requires limit >= 1
  {
    var tags := NonZero(q.tags(id));
    if |tags| > 0 then Truncated(q.byTags(tags, id), limit) else []
  }

  /** The `exclude` and `limit` arguments of the fallback query, when it runs. */
  function FallbackRequest(id: int, limit: int, related: seq<int>): Option<(seq<int>, int)> {
    if |related| < limit then Some(([id] + related, limit - |related|)) else None
  }

  /** RelatedController::handle without the transient cache. */
  function Answer(params: Value, q: Queries, fallback: (seq<int>, int) -> seq<int>): Reply {
    var id := TargetId(params);
    var limit := Limit(params);
    if !q.found(id) || id == 0 then NotFound
    else
      var related := TagPart(id, limit, q);
      var request := FallbackRequest(id, limit, related);
      var data := if request.Some? then related + fallback(request.value.0, request.value.1) else related;
      Listed(id, |data|, data)
  }

  /** The handler, reassigning `$related` step by step as the controller does. */
  method Handle(params: Value, q: Queries, fallback: (seq<int>, int) -> seq<int>) returns (r: Reply)
    ensures r == Answer(params, q, fallback)
  {
    var id := TargetId(params);
    var limit := Limit(params);
    if !q.found(id) || id == 0 {
      return NotFound;
    }
    var tags := NonZero(q.tags(id));
    var related: seq<int> := [];
    if |tags| > 0 {
      related := q.byTags(tags, id);
      if |related| > limit {
        related := related[..limit];
      }
    }
    assert related == TagPart(id, limit, q);
    ghost var request := FallbackRequest(id, limit, related);
    if |related| < limit {
      var need := limit - |related|;
      var extra := fallback([id] + related, need);
      assert extra == fallback(request.value.0, request.value.1);
      related := related + extra;
    }
    r := Listed(id, |related|, related);
  }

  // ---------------------------------------------------------------------------
  // Properties

  /** The effective limit is at least 1, and a requested limit of 1 or more is taken as given. */
  lemma LimitBounds(params: Value)
    ensures Limit(params) >= 1
    ensures ToInt(Catalog.Param(params, "limit")) >= 1 ==> Limit(params) == ToInt(Catalog.Param(params, "limit"))
  {
  }

  /**
   * An unknown target answers 404 `not_found` whatever the tag and fallback
   * queries would return: no related query decides anything.
   */
  lemma NotFoundBeforeQueries(params: Value, q1: Queries, q2: Queries,
                              f1: (seq<int>, int) -> seq<int>, f2: (seq<int>, int) -> seq<int>)
    requires q1.found == q2.found
    requires !q1.found(TargetId(params)) || TargetId(params) == 0
    ensures Answer(params, q1, f1) == Answer(params, q2, f2) == NotFound
    ensures NotFound.Status() == 404 && NotFound.Code() == Some("not_found")
  {
  }

  /** The tag step keeps the first min(limit, n) matches in query order, and no more. */
  lemma TruncatedPrefix(matches: seq<int>, limit: int)
    requires limit >= 1
    ensures var kept := Truncated(matches, limit);
      && |kept| == (if |matches| < limit then |matches| else limit)
      && kept == matches[..|kept|]
  {
  }

  /**
   * A found product's list starts with its (truncated) tag matches, the
   * fallback items come after them, and `total` is the length of `data`.
   */
  lemma TagMatchesFirst(params: Value, q: Queries, fallback: (seq<int>, int) -> seq<int>)
    requires q.found(TargetId(params)) && TargetId(params) != 0
    ensures var r := Answer(params, q, fallback);
      var id := TargetId(params);
      var limit := Limit(params);
      var tags := NonZero(q.tags(id));
      var related := TagPart(id, limit, q);
      && r.Listed? && r.productId == id && r.total == |r.data|
      && r.data[..|related|] == related
      && (|tags| > 0 ==> related == Truncated(q.byTags(tags, id), limit))
      && (tags == [] ==> related == [])
  {
    var r := Answer(params, q, fallback);
    var related := TagPart(TargetId(params), Limit(params), q);
    assert r.data[..|related|] == related by {
      if |related| < Limit(params) {
        var request := FallbackRequest(TargetId(params), Limit(params), related).value;
        assert r.data == related + fallback(request.0, request.1);
      }
    }
  }

  /**
   * The fallback query runs exactly when the tag step left fewer than
   * `limit` items; it then asks for the `limit - count` missing items and
   * excludes the target and every product already chosen.
   */
  lemma FallbackOnlyWhenShort(id: int, limit: int, related: seq<int>)
    ensures FallbackRequest(id, limit, related).Some? <==> |related| < limit
    ensures FallbackRequest(id, limit, related).Some? ==>
      var (exclude, need) := FallbackRequest(id, limit, related).value;
      && need == limit - |related| && need >= 1
      && id in exclude
      && (forall p :: p in related ==> p in exclude)
  {
  }

  /** With at least `limit` tag matches the fallback is never consulted. */
  lemma FallbackIgnoredWhenFull(params: Value, q: Queries,
                                f1: (seq<int>, int) -> seq<int>, f2: (seq<int>, int) -> seq<int>)
    requires |TagPart(TargetId(params), Limit(params), q)| >= Limit(params)
    ensures Answer(params, q, f1) == Answer(params, q, f2)
  {
  }

  /** Without a non-zero tag, the whole list is the fallback for `limit` items excluding the target. */
  lemma UntaggedUsesFallback(params: Value, q: Queries, fallback: (seq<int>, int) -> seq<int>)
    requires q.found(TargetId(params)) && TargetId(params) != 0
    requires forall t :: t in q.tags(TargetId(params)) ==> t == 0
    ensures Answer(params, q, fallback).data == fallback([TargetId(params)], Limit(params))
  {
    var id := TargetId(params);
    var limit := Limit(params);
    NonZeroOfZeros(q.tags(id));
    assert TagPart(id, limit, q) == [];
    assert FallbackRequest(id, limit, []) == Some(([id], limit)) by {
      assert [id] + [] == [id];
    }
    assert Answer(params, q, fallback).data == [] + fallback([id], limit);
    assert [] + fallback([id], limit) == fallback([id], limit);
  }

  /** Term ids that are all 0 leave no tag to query. */
  lemma {:induction false} NonZeroOfZeros(ids: seq<int>)
    requires forall t :: t in ids ==> t == 0
    ensures NonZero(ids) == []
  {
    if ids != [] {
      assert ids[0] in ids;
      assert forall t :: t in ids[1..] ==> t in ids;
      NonZeroOfZeros(ids[1..]);
    }
  }

  /** If the fallback query honours its `limit`, the list never exceeds `limit`. */
  lemma AtMostLimit(params: Value, q: Queries, fallback: (seq<int>, int) -> seq<int>)
    requires q.found(TargetId(params)) && TargetId(params) != 0
    requires forall ex, n :: n >= 0 ==> |fallback(ex, n)| <= n
    ensures |Answer(params, q, fallback).data| <= Limit(params)
  {
    var id := TargetId(params);
    var limit := Limit(params);
    var related := TagPart(id, limit, q);
    assert |related| <= limit;
    if |related| < limit {
      var request := FallbackRequest(id, limit, related).value;
      assert |fallback(request.0, request.1)| <= request.1;
    }
  }

  /** If the fallback query always finds as many products as asked for, the list has exactly `limit` entries. */
  lemma ExactlyLimit(params: Value, q: Queries, fallback: (seq<int>, int) -> seq<int>)
    requires q.found(TargetId(params)) && TargetId(params) != 0
    requires forall ex, n :: n >= 0 ==> |fallback(ex, n)| == n
    ensures |Answer(params, q, fallback).data| == Limit(params)
  {
    var id := TargetId(params);
    var limit := Limit(params);
    var related := TagPart(id, limit, q);
    assert |related| <= limit;
    if |related| < limit {
      var request := FallbackRequest(id, limit, related).value;
      assert |fallback(request.0, request.1)| == request.1;
    }
  }
}
