/**
 The scoring half of hybrid search: reciprocal-rank fusion of the vector list and the graph list,
 importance boost and filters, sort and truncation.  Scores are exact reals; the importance formula
 is a parameter.
 */
module HybridSearch {
  import opened Wrappers
  import opened MemoryGraph

  datatype Kind = Fact | Decision | Inference | Preference | Observation | Event

  datatype Row = Row(id: Id, content: string, source: string, kind: Kind)

  datatype Metadata = Metadata(kind: Kind, accesses: nat, lastAccess: int)

  datatype Params = Params(limit: nat, kind: Option<Kind>, minImportance: real, depth: nat)

  datatype Scored = Scored(score: real, row: Row)

  /** What the boost stage looks up: metadata, edges, the clock and the importance formula. */
  datatype Context = Context(meta: map<Id, Metadata>, edges: seq<Edge>, now: int, weigh: (Metadata, nat, int) -> real)
  {
    function Importance(id: Id): real
      requires id in meta
    {
      weigh(meta[id], EdgeCount(edges, id), now)
    }

    predicate Admits(params: Params, row: Row) {
      && (row.id in meta ==> params.minImportance <= Importance(row.id))
      && (params.kind.Some? ==> row.kind == params.kind.value)
    }

    function Boost(id: Id, score: real): real {
      if id in meta then score * (1.0 + Importance(id) * 0.1) else score
    }
  }

  function EdgeCount(edges: seq<Edge>, id: Id): nat {
    if edges == [] then 0 else (if edges[0].Touches(id) then 1 else 0) + EdgeCount(edges[1..], id)
  }

  function IdSet(rows: seq<Row>): set<Id> { set row | row in rows :: row.id }

  // --- Fusion ---

  function Share(weight: real, rank: nat): real { weight / (60.0 + rank as real + 1.0) }

  /** The sum of `weight / (60 + rank + 1)` over the positions of `id`. */
  function RankSum(rows: seq<Row>, id: Id, weight: real): real {
    if rows == [] then 0.0
    else
      var last := |rows| - 1;
      RankSum(rows[..last], id, weight) + (if rows[last].id == id then Share(weight, last) else 0.0)
  }

  function FirstRow(rows: seq<Row>, id: Id): (row: Row)
    requires id in IdSet(rows)
    ensures row in rows && row.id == id
  {
    var earlier := rows[..|rows| - 1];
    if id in IdSet(earlier) then FirstRow(earlier, id) else rows[|rows| - 1]
  }

  function FusedScore(hits: seq<Row>, linked: seq<Row>, id: Id): real {
    RankSum(hits, id, 1.0) + RankSum(linked, id, 0.5)
  }

  /** Every id of either list with its fused score and its row, the vector list's row if it has one. */
  function Fusion(hits: seq<Row>, linked: seq<Row>): map<Id, Scored> {
    map id | id in IdSet(hits) + IdSet(linked) ::
      Scored(FusedScore(hits, linked, id), FirstRow(if id in IdSet(hits) then hits else linked, id))
  }

  function AddShare(scores: map<Id, Scored>, row: Row, share: real): map<Id, Scored> {
    scores[row.id := if row.id in scores then scores[row.id].(score := scores[row.id].score + share)
                     else Scored(share, row)]
  }

  function WithShares(scores: map<Id, Scored>, rows: seq<Row>, weight: real): map<Id, Scored> {
    if rows == [] then scores
    else
      var last := |rows| - 1;
      AddShare(WithShares(scores, rows[..last], weight), rows[last], Share(weight, last))
  }

  /** RRF fusion with k = 60: full weight for the vector list, half weight for the graph list. */
  method Fuse(hits: seq<Row>, linked: seq<Row>) returns (scores: map<Id, Scored>)
    ensures scores == Fusion(hits, linked)
  {
    scores := map[];
    for rank := 0 to |hits|
      invariant scores == WithShares(map[], hits[..rank], 1.0)
    {
      var row, rrf := hits[rank], 1.0 / (60.0 + rank as real + 1.0);
      assert hits[..rank + 1][..rank] == hits[..rank];
      if row.id in scores {
        scores := scores[row.id := scores[row.id].(score := scores[row.id].score + rrf)];
      } else {
        scores := scores[row.id := Scored(rrf, row)];
      }
    }
    ghost var byVector := scores;
    assert hits[..|hits|] == hits;
    for rank := 0 to |linked|
      invariant scores == WithShares(byVector, linked[..rank], 0.5)
    {
      var row, rrf := linked[rank], 0.5 / (60.0 + rank as real + 1.0);
      assert linked[..rank + 1][..rank] == linked[..rank];
      if row.id in scores {
        scores := scores[row.id := scores[row.id].(score := scores[row.id].score + rrf)];
      } else {
        scores := scores[row.id := Scored(rrf, row)];
      }
    }
    assert linked[..|linked|] == linked;
    FusionByShares(hits, linked);
  }

  lemma {:induction false} WithSharesAt(scores: map<Id, Scored>, rows: seq<Row>, weight: real, id: Id)
    ensures var after := WithShares(scores, rows, weight);
            && (id in after <==> id in scores || id in IdSet(rows))
            && (id in after ==>
                  && after[id].score == (if id in scores then scores[id].score else 0.0) + RankSum(rows, id, weight)
                  && after[id].row == if id in scores then scores[id].row else FirstRow(rows, id))
  {
    if rows != [] {
      var last := |rows| - 1;
      WithSharesAt(scores, rows[..last], weight, id);
      assert rows == rows[..last] + [rows[last]];
      if id !in IdSet(rows[..last]) { RankSumAbsent(rows[..last], id, weight); }
    }
  }

  /** The two loops together give each id the sum of its shares over both lists. */
  lemma FusionByShares(hits: seq<Row>, linked: seq<Row>)
    ensures WithShares(WithShares(map[], hits, 1.0), linked, 0.5) == Fusion(hits, linked)
  {
    var byVector := WithShares(map[], hits, 1.0);
    var fused := WithShares(byVector, linked, 0.5);
    forall id
      ensures id in fused <==> id in Fusion(hits, linked)
      ensures id in fused ==> fused[id] == Fusion(hits, linked)[id]
    {
      WithSharesAt(map[], hits, 1.0, id);
      WithSharesAt(byVector, linked, 0.5, id);
      if id !in IdSet(hits) { RankSumAbsent(hits, id, 1.0); }
    }
  }

  lemma {:induction false} RankSumAbsent(rows: seq<Row>, id: Id, weight: real)
    requires id !in IdSet(rows)
    ensures RankSum(rows, id, weight) == 0.0
  {
    if rows != [] {
      assert rows[|rows| - 1] in rows;
      RankSumAbsent(rows[..|rows| - 1], id, weight);
    }
  }

  ghost predicate DistinctIds(rows: seq<Row>) {
    forall i, j | 0 <= i < j < |rows| :: rows[i].id != rows[j].id
  }

  lemma {:induction false} RankSumAt(rows: seq<Row>, rank: nat, weight: real)
    requires rank < |rows| && DistinctIds(rows)
    ensures RankSum(rows, rows[rank].id, weight) == Share(weight, rank)
  {
    var last := |rows| - 1;
    if rank == last {
      RankSumAbsent(rows[..last], rows[rank].id, weight);
    } else {
      RankSumAt(rows[..last], rank, weight);
    }
  }

  lemma {:induction false} RankSumNonNegative(rows: seq<Row>, id: Id, weight: real)
    requires weight >= 0.0
    ensures RankSum(rows, id, weight) >= 0.0
  {
    if rows != [] { RankSumNonNegative(rows[..|rows| - 1], id, weight); }
  }

  lemma ShareOrder(r: nat, g: nat)
    ensures Share(1.0, r) > Share(0.5, g) <==> r < 61 + 2 * g
  {
    var a, b := 60.0 + r as real + 1.0, 60.0 + g as real + 1.0;
    FractionOrder(Share(1.0, r), Share(0.5, g), a, b);
  }

  lemma FractionOrder(x: real, y: real, a: real, b: real)
    requires a > 0.0 && b > 0.0 && x == 1.0 / a && y == 0.5 / b
    ensures x > y <==> b > 0.5 * a
  {
    var c := a * b;
    Cleared(x, 1.0, a, b, c);
    Cleared(y, 0.5, b, a, c);
    ScaleOrder(x, y, c);
  }

  lemma ScaleOrder(x: real, y: real, c: real)
    requires c > 0.0
    ensures x > y <==> x * c > y * c
  {
  }

  lemma Cleared(x: real, w: real, a: real, b: real, c: real)
    requires a > 0.0 && x == w / a && c == a * b
    ensures x * c == w * b
  {
    assert x * a == w;
    assert x * (a * b) == x * a * b;
  }

  /** A vector hit outranks a graph-only hit, before the boost, when its rank is below 61 plus twice
      the other's rank; for a hit found by the vector search alone that bound is exact. */
  lemma VectorBeatsGraph(hits: seq<Row>, linked: seq<Row>, r: nat, g: nat)
    requires DistinctIds(hits) && DistinctIds(linked)
    requires r < |hits| && g < |linked| && linked[g].id !in IdSet(hits)
    ensures var above := FusedScore(hits, linked, hits[r].id) > FusedScore(hits, linked, linked[g].id);
            && (r < 61 + 2 * g ==> above)
            && (hits[r].id !in IdSet(linked) ==> (above <==> r < 61 + 2 * g))
  {
    RankSumAt(hits, r, 1.0);
    RankSumAt(linked, g, 0.5);
    RankSumAbsent(hits, linked[g].id, 1.0);
    RankSumNonNegative(linked, hits[r].id, 0.5);
    if hits[r].id !in IdSet(linked) { RankSumAbsent(linked, hits[r].id, 0.5); }
    ShareOrder(r, g);
  }

  // --- Boost, filters, order ---

  /** The candidates that pass the filters, with their final scores. */
  function Pool(scores: map<Id, Scored>, context: Context, params: Params): map<Id, Scored> {
    map id | id in scores && context.Admits(params, scores[id].row) ::
      Scored(context.Boost(id, scores[id].score), scores[id].row)
  }

  ghost predicate Keyed(scores: map<Id, Scored>) {
    forall id | id in scores :: scores[id].row.id == id
  }

  /** An entry stays in the pool exactly if it has the requested kind and, where it has metadata, is
      important enough; metadata raises its score by a tenth of its importance. */
  lemma PoolExactly(scores: map<Id, Scored>, context: Context, params: Params, id: Id)
    requires Keyed(scores)
    ensures var pool := Pool(scores, context, params);
            var meta, importance := context.meta, (m: Metadata) =>
              context.weigh(m, EdgeCount(context.edges, id), context.now);
            && (id in pool <==>
                  && id in scores
                  && (params.kind == None || params.kind == Some(scores[id].row.kind))
                  && (id in meta ==> params.minImportance <= importance(meta[id])))
            && (id in pool ==>
                  && pool[id].row == scores[id].row
                  && pool[id].score == scores[id].score * if id in meta then 1.0 + importance(meta[id]) / 10.0 else 1.0)
  {
  }

  ghost predicate Unique(results: seq<Scored>) {
    forall i, j | 0 <= i < j < |results| :: results[i].row.id != results[j].row.id
  }

  /** `results` lists the values of `pool`, each once, in some order. */
  ghost predicate Lists(results: seq<Scored>, pool: map<Id, Scored>) {
    && Unique(results)
    && (forall r | r in results :: r.row.id in pool && pool[r.row.id] == r)
    && (forall id | id in pool :: pool[id] in results)
  }

  ghost predicate Descending(results: seq<Scored>) {
    forall i, j | 0 <= i < j < |results| :: results[i].score >= results[j].score
  }

  /** The boost loop.  A hash map is walked in no particular order. */
  method BoostAndFilter(scores: map<Id, Scored>, context: Context, params: Params) returns (results: seq<Scored>)
    requires Keyed(scores)
    ensures Lists(results, Pool(scores, context, params))
  {
    results := [];
    var todo := scores.Keys;
    ghost var pool := Pool(scores, context, params);
    while todo != {}
      invariant todo <= scores.Keys
      invariant Unique(results)
      invariant forall r | r in results :: r.row.id in pool && r.row.id !in todo && pool[r.row.id] == r
      invariant forall id | id in pool && id !in todo :: pool[id] in results
      decreases todo
    {
      var id :| id in todo;
      todo := todo - {id};
      var score, row := scores[id].score, scores[id].row;
      if id in context.meta {
        var importance := context.Importance(id);
        if importance < params.minImportance {
          continue;
        }
        score := score * (1.0 + importance * 0.1);
      }
      if params.kind.Some? && row.kind != params.kind.value {
        continue;
      }
      results := results + [Scored(score, row)];
    }
  }

  /** `sort_by` on the scores, largest first. */
  method SortByScore(results: seq<Scored>) returns (sorted: seq<Scored>)
    requires Unique(results)
    ensures Unique(sorted) && Descending(sorted)
    ensures forall r :: r in sorted <==> r in results
  {
    sorted := [];
    for i := 0 to |results|
      invariant Unique(sorted) && Descending(sorted)
      invariant forall r :: r in sorted <==> r in results[..i]
    {
      var at := |sorted|;
      while at > 0 && sorted[at - 1].score < results[i].score
        invariant 0 <= at <= |sorted|
        invariant at < |sorted| ==> sorted[at].score < results[i].score
      {
        at := at - 1;
      }
      NextIsNew(results, i, sorted);
      Inserted(sorted, at, results[i]);
      InsertedMembers(sorted, at, results[i]);
      assert results[..i + 1] == results[..i] + [results[i]];
      sorted := InsertAt(sorted, at, results[i]);
    }
    assert results[..|results|] == results;
  }

  lemma NextIsNew(results: seq<Scored>, i: nat, sorted: seq<Scored>)
    requires Unique(results) && i < |results|
    requires forall r | r in sorted :: r in results[..i]
    ensures forall k | 0 <= k < |sorted| :: sorted[k].row.id != results[i].row.id
  {
    forall k | 0 <= k < |sorted|
      ensures sorted[k].row.id != results[i].row.id
    {
      assert sorted[k] in results[..i];
    }
  }

  ghost predicate FitsAt(sorted: seq<Scored>, at: nat, r: Scored) {
    && at <= |sorted|
    && (at > 0 ==> sorted[at - 1].score >= r.score)
    && (at < |sorted| ==> sorted[at].score < r.score)
    && (forall k | 0 <= k < |sorted| :: sorted[k].row.id != r.row.id)
  }

  function InsertAt(sorted: seq<Scored>, at: nat, r: Scored): (after: seq<Scored>)
    requires at <= |sorted|
    ensures |after| == |sorted| + 1
    ensures forall i | 0 <= i < |after| ::
      after[i] == if i < at then sorted[i] else if i == at then r else sorted[i - 1]
  {
    sorted[..at] + [r] + sorted[at..]
  }

  lemma InsertedPair(sorted: seq<Scored>, at: nat, r: Scored, i: nat, j: nat)
    requires Unique(sorted) && Descending(sorted) && FitsAt(sorted, at, r)
    requires i < j <= |sorted|
    ensures var after := InsertAt(sorted, at, r);
            after[i].row.id != after[j].row.id && after[i].score >= after[j].score
  {
    if i < at == j {
      assert sorted[i].score >= sorted[at - 1].score;
    } else if i == at < j {
      assert sorted[at].score >= sorted[j - 1].score;
    }
  }

  lemma Inserted(sorted: seq<Scored>, at: nat, r: Scored)
    requires Unique(sorted) && Descending(sorted) && FitsAt(sorted, at, r)
    ensures Unique(InsertAt(sorted, at, r)) && Descending(InsertAt(sorted, at, r))
  {
    forall i, j | 0 <= i < j <= |sorted| { InsertedPair(sorted, at, r, i, j); }
  }

  lemma InsertedMembers(sorted: seq<Scored>, at: nat, r: Scored)
    requires at <= |sorted|
    ensures forall s :: s in InsertAt(sorted, at, r) <==> s in sorted || s == r
  {
    assert sorted == sorted[..at] + sorted[at..];
  }

  /** The best `limit` entries of `pool`: distinct, best first, as many as there are, and nothing
      left out scores more than anything returned. */
  ghost predicate TopOf(results: seq<Scored>, pool: map<Id, Scored>, limit: nat) {
    && Unique(results)
    && Descending(results)
    && |results| == (if |pool| < limit then |pool| else limit)
    && (forall r | r in results :: r.row.id in pool && pool[r.row.id] == r)
    && (forall r, id | r in results && id in pool && pool[id] !in results :: r.score >= pool[id].score)
  }

  method SortAndTruncate(results: seq<Scored>, ghost pool: map<Id, Scored>, limit: nat) returns (top: seq<Scored>)
    requires Lists(results, pool) && Keyed(pool)
    ensures TopOf(top, pool, limit)
  {
    var sorted := SortByScore(results);
    UniqueSize(sorted);
    assert pool.Keys == ResultIds(sorted);
    top := if |sorted| <= limit then sorted else sorted[..limit];
    TopOfSorted(sorted, top, pool, limit);
  }

  /** What a descending list keeps scores at least as much as what is cut off. */
  lemma CutIsLower(sorted: seq<Scored>, n: nat, r: Scored, other: Scored)
    requires Descending(sorted) && n <= |sorted|
    requires r in sorted[..n] && other in sorted && other !in sorted[..n]
    ensures r.score >= other.score
  {
    var i :| 0 <= i < n && sorted[..n][i] == r;
    var j :| 0 <= j < |sorted| && sorted[j] == other;
    assert forall k | 0 <= k < n :: sorted[k] == sorted[..n][k];
    assert sorted[i].score >= sorted[j].score;
  }

  lemma CutKeepsOrder(sorted: seq<Scored>, n: nat)
    requires Unique(sorted) && Descending(sorted) && n <= |sorted|
    ensures Unique(sorted[..n]) && Descending(sorted[..n])
    ensures forall r | r in sorted[..n] :: r in sorted
  {
    assert forall i | 0 <= i < n :: sorted[..n][i] == sorted[i];
  }

  lemma TopOfSorted(sorted: seq<Scored>, top: seq<Scored>, pool: map<Id, Scored>, limit: nat)
    requires Lists(sorted, pool) && Descending(sorted) && |sorted| == |pool|
    requires top == if |sorted| <= limit then sorted else sorted[..limit]
    ensures TopOf(top, pool, limit)
  {
    assert top == sorted[..|top|];
    CutKeepsOrder(sorted, |top|);
    forall r, id | r in top && id in pool && pool[id] !in top
      ensures r.score >= pool[id].score
    {
      CutIsLower(sorted, |top|, r, pool[id]);
    }
  }

  function ResultIds(results: seq<Scored>): set<Id> { set r | r in results :: r.row.id }

  lemma {:induction false} UniqueSize(results: seq<Scored>)
    requires Unique(results)
    ensures |ResultIds(results)| == |results|
  {
    if results != [] {
      var rest := results[1..];
      UniqueSize(rest);
      assert results == [results[0]] + rest;
      assert results[0].row.id !in ResultIds(rest);
      assert ResultIds(results) == {results[0].row.id} + ResultIds(rest);
    }
  }
}
