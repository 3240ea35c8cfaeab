/** The knowledge graph's edge table and its bounded-depth expansion. */
module MemoryGraph {
  type Id = string

  datatype Relation = RelatedTo | Supersedes | Contradicts | CausedBy | PartOf

  datatype Edge = Edge(source: Id, target: Id, relation: Relation, weight: real)
  {
    predicate Touches(id: Id) { source == id || target == id }

    /** The other end, seen from `id`; an edge from `id` to itself leads back to `id`. */
    function Other(id: Id): Id { if source == id then target else source }
  }

  /** The rows touching `id`, in table order. */
  function EdgesFor(table: seq<Edge>, id: Id): seq<Edge> {
    if table == [] then []
    else (if table[0].Touches(id) then [table[0]] else []) + EdgesFor(table[1..], id)
  }

  function Others(edges: seq<Edge>, id: Id): seq<Id> {
    seq(|edges|, i requires 0 <= i < |edges| => edges[i].Other(id))
  }

  // --- Expansion as a function ---

  function Neighbours(table: seq<Edge>, frontier: seq<Id>): seq<Id> {
    if frontier == [] then []
    else Neighbours(table, frontier[..|frontier| - 1])
         + Others(EdgesFor(table, frontier[|frontier| - 1]), frontier[|frontier| - 1])
  }

  lemma NeighboursSnoc(table: seq<Edge>, frontier: seq<Id>, id: Id)
    ensures Neighbours(table, frontier + [id]) == Neighbours(table, frontier) + Others(EdgesFor(table, id), id)
  {
    assert (frontier + [id])[..|frontier|] == frontier;
  }

  /** The first occurrences of ids not seen before. */
  function Fresh(ids: seq<Id>, seen: set<Id>): seq<Id> {
    if ids == [] then []
    else
      var x, earlier := ids[|ids| - 1], Fresh(ids[..|ids| - 1], seen);
      if x in seen || x in earlier then earlier else earlier + [x]
  }

  function SetOf(ids: seq<Id>): set<Id> { set x | x in ids }

  function Rounds(table: seq<Edge>, frontier: seq<Id>, seen: set<Id>, depth: nat): seq<Id>
    decreases depth
  {
    if depth == 0 then []
    else
      var next := Fresh(Neighbours(table, frontier), seen);
      next + Rounds(table, next, seen + SetOf(next), depth - 1)
  }

  function Expansion(table: seq<Edge>, seeds: seq<Id>, depth: nat): seq<Id> {
    Rounds(table, seeds, SetOf(seeds), depth)
  }

  /** The expansion loops of `hybrid_search`: `seen`, `frontier` and `graphIds` are updated as
      neighbours turn up. */
  method Expand(table: seq<Edge>, seeds: seq<Id>, depth: nat) returns (graphIds: seq<Id>)
    ensures graphIds == Expansion(table, seeds, depth)
  {
    graphIds := [];
    var seen := SetOf(seeds);
    var frontier := seeds;
    for d := 0 to depth
      invariant graphIds + Rounds(table, frontier, seen, depth - d) == Expansion(table, seeds, depth)
    {
      var nextFrontier, seen' := VisitAll(table, frontier, seen);
      assert graphIds + (nextFrontier + Rounds(table, nextFrontier, seen', depth - d - 1))
          == graphIds + nextFrontier + Rounds(table, nextFrontier, seen', depth - d - 1);
      graphIds := graphIds + nextFrontier;
      frontier, seen := nextFrontier, seen';
    }
  }

  /** One round, over the frontier. */
  method VisitAll(table: seq<Edge>, frontier: seq<Id>, before: set<Id>) returns (next: seq<Id>, seen: set<Id>)
    ensures next == Fresh(Neighbours(table, frontier), before) && seen == before + SetOf(next)
  {
    next, seen := [], before;
    assert frontier[..0] == [];
    for i := 0 to |frontier|
      invariant next == Fresh(Neighbours(table, frontier[..i]), before)
      invariant seen == before + SetOf(next)
    {
      NeighboursSnoc(table, frontier[..i], frontier[i]);
      assert frontier[..i + 1] == frontier[..i] + [frontier[i]];
      seen, next := Visit(table, frontier[i], before, Neighbours(table, frontier[..i]), seen, next);
    }
    assert frontier[..|frontier|] == frontier;
  }

  /** The innermost loop: the edges of one frontier node. */
  method Visit(table: seq<Edge>, id: Id, ghost before: set<Id>, ghost done: seq<Id>, seen: set<Id>, next: seq<Id>)
    returns (seen': set<Id>, next': seq<Id>)
    requires next == Fresh(done, before) && seen == before + SetOf(next)
    ensures next' == Fresh(done + Others(EdgesFor(table, id), id), before)
    ensures seen' == before + SetOf(next')
  {
    var edges := EdgesFor(table, id);
    seen', next' := seen, next;
    ghost var others := Others(edges, id);
    assert done + others[..0] == done;
    for j := 0 to |edges|
      invariant next' == Fresh(done + others[..j], before)
      invariant seen' == before + SetOf(next')
    {
      var neighbour := edges[j].Other(id);
      VisitOne(done, others, j, before, seen', next');
      if neighbour !in seen' {
        seen' := seen' + {neighbour};
        next' := next' + [neighbour];
      }
    }
    assert others[..|edges|] == others;
  }

  /** What one more neighbour does to `next` and `seen`. */
  lemma VisitOne(done: seq<Id>, others: seq<Id>, j: nat, before: set<Id>, seen: set<Id>, next: seq<Id>)
    requires j < |others| && next == Fresh(done + others[..j], before) && seen == before + SetOf(next)
    ensures Fresh(done + others[..j + 1], before) == if others[j] in seen then next else next + [others[j]]
    ensures before + SetOf(next + [others[j]]) == seen + {others[j]}
  {
    assert done + others[..j + 1] == done + others[..j] + [others[j]];
    FreshSnoc(done + others[..j], others[j], before);
  }

  lemma FreshSnoc(ids: seq<Id>, x: Id, seen: set<Id>)
    ensures Fresh(ids + [x], seen)
         == if x in seen + SetOf(Fresh(ids, seen)) then Fresh(ids, seen) else Fresh(ids, seen) + [x]
  {
    assert (ids + [x])[..|ids|] == ids;
  }

  // --- Distance in the undirected graph ---

  ghost predicate Adjacent(table: seq<Edge>, x: Id, y: Id) {
    exists e | e in table :: (e.source == x && e.target == y) || (e.source == y && e.target == x)
  }

  ghost predicate IsWalk(table: seq<Edge>, walk: seq<Id>) {
    forall i | 0 <= i < |walk| - 1 :: Adjacent(table, walk[i], walk[i + 1])
  }

  /** `walk` has `n` edges and leads from a seed to `x`. */
  ghost predicate Leads(table: seq<Edge>, seeds: seq<Id>, x: Id, n: nat, walk: seq<Id>) {
    |walk| == n + 1 && walk[0] in seeds && walk[n] == x && IsWalk(table, walk)
  }

  ghost predicate Reaches(table: seq<Edge>, seeds: seq<Id>, x: Id, n: nat) {
    exists walk :: Leads(table, seeds, x, n, walk)
  }

  ghost predicate AtDistance(table: seq<Edge>, seeds: seq<Id>, x: Id, n: nat) {
    Reaches(table, seeds, x, n) && forall m: nat | m < n :: !Reaches(table, seeds, x, m)
  }

  ghost predicate Within(table: seq<Edge>, seeds: seq<Id>, x: Id, n: nat) {
    exists m: nat | m <= n :: Reaches(table, seeds, x, m)
  }

  ghost predicate Distinct(ids: seq<Id>) {
    forall i, j | 0 <= i < j < |ids| :: ids[i] != ids[j]
  }

  ghost predicate IsLayer(table: seq<Edge>, seeds: seq<Id>, ids: seq<Id>, n: nat) {
    forall x :: x in ids <==> AtDistance(table, seeds, x, n)
  }

  ghost predicate IsBall(table: seq<Edge>, seeds: seq<Id>, ids: set<Id>, n: nat) {
    forall x :: x in ids <==> Within(table, seeds, x, n)
  }

  /** Everything in `ids` is further than `n` edges away and comes nearest first. */
  ghost predicate NearestFirst(table: seq<Edge>, seeds: seq<Id>, ids: seq<Id>, n: nat) {
    && (forall i, a: nat | 0 <= i < |ids| && AtDistance(table, seeds, ids[i], a) :: n < a)
    && (forall i, j, a: nat, b: nat | 0 <= i < j < |ids| && AtDistance(table, seeds, ids[i], a)
          && AtDistance(table, seeds, ids[j], b) :: a <= b)
  }

  lemma {:induction false} EdgesForExact(table: seq<Edge>, id: Id, e: Edge)
    ensures e in EdgesFor(table, id) <==> e in table && e.Touches(id)
  {
    if table != [] { EdgesForExact(table[1..], id, e); }
  }

  lemma {:induction false} NeighboursExact(table: seq<Edge>, frontier: seq<Id>, y: Id)
    ensures y in Neighbours(table, frontier) <==> exists x | x in frontier :: Adjacent(table, x, y)
  {
    if frontier != [] {
      var x := frontier[|frontier| - 1];
      var edges := EdgesFor(table, x);
      NeighboursExact(table, frontier[..|frontier| - 1], y);
      assert y in Others(edges, x) <==> Adjacent(table, x, y) by {
        forall e { EdgesForExact(table, x, e); }
        if e :| e in edges && e.Other(x) == y {
          var k :| 0 <= k < |edges| && edges[k] == e;
          assert Others(edges, x)[k] == y;
        }
      }
    }
  }

  lemma {:induction false} FreshExact(ids: seq<Id>, seen: set<Id>)
    ensures Distinct(Fresh(ids, seen))
    ensures forall x :: x in Fresh(ids, seen) <==> x in ids && x !in seen
  {
    if ids != [] { FreshExact(ids[..|ids| - 1], seen); }
  }

  lemma WalkStep(table: seq<Edge>, seeds: seq<Id>, x: Id, y: Id, n: nat)
    requires Reaches(table, seeds, x, n) && Adjacent(table, x, y)
    ensures Reaches(table, seeds, y, n + 1)
  {
    var walk :| Leads(table, seeds, x, n, walk);
    assert Leads(table, seeds, y, n + 1, walk + [y]);
  }

  /** A shortest walk to `y` passes, one step earlier, a node that is one step nearer. */
  lemma Predecessor(table: seq<Edge>, seeds: seq<Id>, y: Id, n: nat) returns (x: Id)
    requires AtDistance(table, seeds, y, n + 1)
    ensures AtDistance(table, seeds, x, n) && Adjacent(table, x, y)
  {
    var walk :| Leads(table, seeds, y, n + 1, walk);
    x := walk[n];
    assert Leads(table, seeds, x, n, walk[..n + 1]);
    assert Adjacent(table, walk[n], walk[n + 1]);
    forall m: nat | m < n
      ensures !Reaches(table, seeds, x, m)
    {
      if Reaches(table, seeds, x, m) { WalkStep(table, seeds, x, y, m); }
    }
  }

  /** One round takes the layer at distance `n` to the layer at distance `n + 1`. */
  lemma LayerStep(table: seq<Edge>, seeds: seq<Id>, frontier: seq<Id>, seen: set<Id>, n: nat)
    requires IsLayer(table, seeds, frontier, n) && IsBall(table, seeds, seen, n)
    ensures var next := Fresh(Neighbours(table, frontier), seen);
            IsLayer(table, seeds, next, n + 1) && IsBall(table, seeds, seen + SetOf(next), n + 1)
  {
    var next := Fresh(Neighbours(table, frontier), seen);
    FreshExact(Neighbours(table, frontier), seen);
    forall y
      ensures y in next <==> AtDistance(table, seeds, y, n + 1)
    {
      NeighboursExact(table, frontier, y);
      if y in next {
        var x :| x in frontier && Adjacent(table, x, y);
        WalkStep(table, seeds, x, y, n);
      }
      if AtDistance(table, seeds, y, n + 1) {
        var x := Predecessor(table, seeds, y, n);
        assert x in frontier;
      }
    }
  }

  /** `ids` holds what lies at distance `n + 1` to `n + depth`. */
  ghost predicate Between(table: seq<Edge>, seeds: seq<Id>, ids: seq<Id>, n: nat, depth: nat) {
    forall x :: x in ids <==> exists k: nat | n < k <= n + depth :: AtDistance(table, seeds, x, k)
  }

  lemma BetweenAppended(table: seq<Edge>, seeds: seq<Id>, layer: seq<Id>, later: seq<Id>, n: nat, depth: nat)
    requires IsLayer(table, seeds, layer, n + 1) && Between(table, seeds, later, n + 1, depth)
    ensures Between(table, seeds, layer + later, n, depth + 1)
  {
    forall x
      ensures x in layer + later <==> exists k: nat | n < k <= n + depth + 1 :: AtDistance(table, seeds, x, k)
    {
      assert x in layer + later <==> x in layer || x in later;
    }
  }

  lemma {:induction false} RoundsExact(
      table: seq<Edge>, seeds: seq<Id>, frontier: seq<Id>, seen: set<Id>, n: nat, depth: nat)
    requires IsLayer(table, seeds, frontier, n) && IsBall(table, seeds, seen, n)
    ensures var found := Rounds(table, frontier, seen, depth);
            Distinct(found) && NearestFirst(table, seeds, found, n) && Between(table, seeds, found, n, depth)
    decreases depth
  {
    if depth > 0 {
      var next := Fresh(Neighbours(table, frontier), seen);
      var later := Rounds(table, next, seen + SetOf(next), depth - 1);
      FreshExact(Neighbours(table, frontier), seen);
      LayerStep(table, seeds, frontier, seen, n);
      RoundsExact(table, seeds, next, seen + SetOf(next), n + 1, depth - 1);
      Appended(table, seeds, next, later, n);
      BetweenAppended(table, seeds, next, later, n, depth - 1);
    }
  }

  lemma Appended(table: seq<Edge>, seeds: seq<Id>, layer: seq<Id>, later: seq<Id>, n: nat)
    requires Distinct(layer) && IsLayer(table, seeds, layer, n + 1)
    requires Distinct(later) && NearestFirst(table, seeds, later, n + 1)
    requires forall x | x in later :: exists k: nat :: AtDistance(table, seeds, x, k)
    ensures Distinct(layer + later) && NearestFirst(table, seeds, layer + later, n)
  {
    var found := layer + later;
    assert forall i | 0 <= i < |layer| :: found[i] in layer && AtDistance(table, seeds, found[i], n + 1);
    assert forall i | |layer| <= i < |found| :: found[i] == later[i - |layer|];
    forall i, j | 0 <= i < |layer| && |layer| <= j < |found|
      ensures found[i] != found[j]
    {
      assert found[j] in later;
    }
  }

  /** The expansion lists exactly the ids at distance 1 to `depth` from the seeds, each once, none
      of them a seed, nearest first. */
  lemma ExpansionExact(table: seq<Edge>, seeds: seq<Id>, depth: nat)
    ensures var found := Expansion(table, seeds, depth);
            && Distinct(found)
            && NearestFirst(table, seeds, found, 0)
            && (forall x :: x in found <==> exists k: nat | 0 < k <= depth :: AtDistance(table, seeds, x, k))
            && (forall x | x in found :: x !in seeds)
  {
    forall x
      ensures x in seeds <==> Reaches(table, seeds, x, 0)
    {
      if x in seeds { assert Leads(table, seeds, x, 0, [x]); }
    }
    RoundsExact(table, seeds, seeds, SetOf(seeds), 0, depth);
  }

  /** Deeper expansions only append. */
  lemma {:induction false} RoundsPrefix(table: seq<Edge>, frontier: seq<Id>, seen: set<Id>, depth: nat, deeper: nat)
    requires depth <= deeper
    ensures Rounds(table, frontier, seen, depth) <= Rounds(table, frontier, seen, deeper)
    decreases depth
  {
    if depth > 0 {
      var next := Fresh(Neighbours(table, frontier), seen);
      RoundsPrefix(table, next, seen + SetOf(next), depth - 1, deeper - 1);
    }
  }

  lemma ExpansionPrefix(table: seq<Edge>, seeds: seq<Id>, depth: nat, deeper: nat)
    requires depth <= deeper
    ensures Expansion(table, seeds, depth) <= Expansion(table, seeds, deeper)
  {
    RoundsPrefix(table, seeds, SetOf(seeds), depth, deeper);
  }
}
