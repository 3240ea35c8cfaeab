/**
 Long-term memory: vector rows, metadata and graph edges live in three tables that the agent tools
 keep in step, and hybrid search reads all three.  Ids, kinds and the vector engine's answer come
 in as parameters.
 */
module MemoryStores {
  import opened Wrappers
  import opened MemoryGraph
  import opened HybridSearch
  import opened IdFilter

  datatype Stores = Stores(rows: seq<Row>, meta: map<Id, Metadata>, edges: seq<Edge>)

  // --- The tables ---

  function RowsIn(rows: seq<Row>, ids: seq<Id>): seq<Row> {
    if rows == [] then [] else (if rows[0].id in ids then [rows[0]] else []) + RowsIn(rows[1..], ids)
  }

  /** `fetch_by_ids`: the rows the filter names, in table order. */
  function FetchByIds(rows: seq<Row>, ids: seq<Id>): seq<Row> {
    if ids == [] then []
    else match ReadInFilter(InFilter(ids)) case Some(named) => RowsIn(rows, named) case None => []
  }

  function Without(rows: seq<Row>, id: Id): seq<Row> {
    if rows == [] then [] else (if rows[0].id == id then [] else [rows[0]]) + Without(rows[1..], id)
  }

  /** `delete`: the rows the filter names go. */
  function DeleteRows(rows: seq<Row>, id: Id): seq<Row> {
    match ReadEqFilter(EqFilter(id)) case Some(named) => Without(rows, named) case None => rows
  }

  predicate SameTriple(e: Edge, f: Edge) {
    e.source == f.source && e.target == f.target && e.relation == f.relation
  }

  /** Insert, or on a conflict of the triple take over the weight. */
  function UpsertEdge(edges: seq<Edge>, e: Edge): seq<Edge> {
    if edges == [] then [e]
    else if SameTriple(edges[0], e) then [edges[0].(weight := e.weight)] + edges[1..]
    else [edges[0]] + UpsertEdge(edges[1..], e)
  }

  function EdgesAwayFrom(edges: seq<Edge>, id: Id): seq<Edge> {
    if edges == [] then [] else (if edges[0].Touches(id) then [] else [edges[0]]) + EdgesAwayFrom(edges[1..], id)
  }

  function InitMetadata(meta: map<Id, Metadata>, id: Id, kind: Kind, now: int): map<Id, Metadata> {
    if id in meta then meta else meta[id := Metadata(kind, 0, now)]
  }

  function SetKind(meta: map<Id, Metadata>, id: Id, kind: Kind): map<Id, Metadata> {
    if id in meta then meta[id := meta[id].(kind := kind)] else meta
  }

  function RecordAccess(meta: map<Id, Metadata>, id: Id, now: int): map<Id, Metadata> {
    if id in meta then meta[id := meta[id].(accesses := meta[id].accesses + 1, lastAccess := now)] else meta
  }

  function RecordAccesses(meta: map<Id, Metadata>, ids: seq<Id>, now: int): map<Id, Metadata> {
    if ids == [] then meta else RecordAccess(RecordAccesses(meta, ids[..|ids| - 1], now), ids[|ids| - 1], now)
  }

  function RelationFromName(name: string): Option<Relation> {
    match name
    case "related_to" => Some(RelatedTo)
    case "supersedes" => Some(Supersedes)
    case "contradicts" => Some(Contradicts)
    case "caused_by" => Some(CausedBy)
    case "part_of" => Some(PartOf)
    case _ => None
  }

  // --- Operations as a function of the tables ---

  datatype Op =
    | StoreOp(id: Id, content: string, source: Option<string>, kind: Kind, now: int)
    | UpdateOp(id: Id, content: string, kind: Kind)
    | DeleteOp(id: Id)
    | EdgeOp(start: Id, end: Id, relation: string, weight: real)
    | SearchOp(returned: seq<Id>, now: int)

  function NewRow(id: Id, content: string, source: Option<string>, kind: Kind): Row {
    Row(id, content, if source.Some? then source.value else "", kind)
  }

  function Apply(s: Stores, op: Op): Stores {
    match op
    case StoreOp(id, content, source, kind, now) =>
      s.(rows := s.rows + [NewRow(id, content, source, kind)], meta := InitMetadata(s.meta, id, kind, now))
    case UpdateOp(id, content, kind) =>
      s.(rows := DeleteRows(s.rows, id) + [NewRow(id, content, None, kind)], meta := SetKind(s.meta, id, kind))
    case DeleteOp(id) =>
      Stores(DeleteRows(s.rows, id), s.meta - {id}, EdgesAwayFrom(s.edges, id))
    case EdgeOp(source, target, relation, weight) =>
      if RelationFromName(relation).None? then s
      else s.(edges := UpsertEdge(s.edges, Edge(source, target, RelationFromName(relation).value, weight)))
    case SearchOp(returned, now) => s.(meta := RecordAccesses(s.meta, returned, now))
  }

  function Run(s: Stores, ops: seq<Op>): Stores {
    if ops == [] then s else Apply(Run(s, ops[..|ops| - 1]), ops[|ops| - 1])
  }

  /** What a search can return: every vector hit and every row linked to the first `limit` hits,
      fused, boosted and filtered. */
  function SearchPool(s: Stores, hits: seq<Row>, params: Params, context: Context): map<Id, Scored> {
    Pool(Fusion(hits, Linked(s, hits, params)), context, params)
  }

  function Linked(s: Stores, hits: seq<Row>, params: Params): seq<Row> {
    FetchByIds(s.rows, Expansion(s.edges, Seeds(hits, params.limit), params.depth))
  }

  function Seeds(hits: seq<Row>, limit: nat): seq<Id> {
    var first := if |hits| <= limit then hits else hits[..limit];
    seq(|first|, i requires 0 <= i < |first| => first[i].id)
  }

  // --- What a search has to answer, in terms of the tables ---

  type Weigh = (Metadata, nat, int) -> real

  /** The seeds of the expansion are the ids of the first `limit` hits. */
  ghost predicate AreSeeds(seeds: seq<Id>, hits: seq<Row>, limit: nat) {
    && |seeds| == (if |hits| < limit then |hits| else limit)
    && forall i | 0 <= i < |seeds| :: seeds[i] == hits[i].id
  }

  ghost predicate IsLinked(edges: seq<Edge>, seeds: seq<Id>, depth: nat, id: Id) {
    exists k: nat | 0 < k <= depth :: AtDistance(edges, seeds, id, k)
  }

  ghost function EdgesAt(edges: seq<Edge>, id: Id): set<Edge> {
    set e | e in edges && (e.source == id || e.target == id)
  }

  /** A stored row that was hit or is linked, has the requested kind, and is important enough where
      it has metadata. */
  ghost predicate Candidate(
      s: Stores, hits: seq<Row>, seeds: seq<Id>, params: Params, now: int, weigh: Weigh, row: Row)
  {
    && row in s.rows
    && (row in hits || IsLinked(s.edges, seeds, params.depth, row.id))
    && (params.kind.Some? ==> row.kind == params.kind.value)
    && (row.id in s.meta ==> params.minImportance <= weigh(s.meta[row.id], |EdgesAt(s.edges, row.id)|, now))
  }

  ghost function Place(rows: seq<Row>, id: Id): (i: nat)
    requires id in IdSet(rows)
    ensures i < |rows| && rows[i].id == id
  {
    if rows[0].id == id then 0
    else
      assert rows == [rows[0]] + rows[1..];
      1 + Place(rows[1..], id)
  }

  /** The linked rows among the first `n` of the table. */
  ghost function LinkedBefore(s: Stores, seeds: seq<Id>, depth: nat, n: nat): nat
    requires n <= |s.rows|
  {
    if n == 0 then 0
    else LinkedBefore(s, seeds, depth, n - 1) + if IsLinked(s.edges, seeds, depth, s.rows[n - 1].id) then 1 else 0
  }

  /** 1 / (61 + rank) for a hit and half of that for a linked row, each by its rank in its list. */
  ghost function RankScore(s: Stores, hits: seq<Row>, seeds: seq<Id>, depth: nat, id: Id): real
    requires id in IdSet(s.rows)
  {
    (if id in IdSet(hits) then 1.0 / (61.0 + Place(hits, id) as real) else 0.0)
    + if IsLinked(s.edges, seeds, depth, id)
      then 0.5 / (61.0 + LinkedBefore(s, seeds, depth, Place(s.rows, id)) as real) else 0.0
  }

  /** The rank score, raised by a tenth of the importance where there is metadata. */
  ghost function FinalScore(
      s: Stores, hits: seq<Row>, seeds: seq<Id>, params: Params, now: int, weigh: Weigh, id: Id): real
    requires id in IdSet(s.rows)
  {
    Raised(s, now, weigh, id, RankScore(s, hits, seeds, params.depth, id))
  }

  ghost function Raised(s: Stores, now: int, weigh: Weigh, id: Id, score: real): real {
    score * if id in s.meta then 1.0 + weigh(s.meta[id], |EdgesAt(s.edges, id)|, now) / 10.0 else 1.0
  }

  /** At most `limit` candidates with their scores, best first, each once; a candidate that is left
      out found the answer full, and scores no more than anything in it. */
  ghost predicate IsAnswer(
      s: Stores, hits: seq<Row>, seeds: seq<Id>, params: Params, now: int, weigh: Weigh, results: seq<Scored>)
  {
    && |results| <= params.limit
    && (forall r | r in results ::
          && Candidate(s, hits, seeds, params, now, weigh, r.row)
          && r.row.id in IdSet(s.rows)
          && r.score == FinalScore(s, hits, seeds, params, now, weigh, r.row.id))
    && (forall i, j | 0 <= i < j < |results| ::
          results[i].row.id != results[j].row.id && results[i].score >= results[j].score)
    && (forall row | Candidate(s, hits, seeds, params, now, weigh, row) && row.id in IdSet(s.rows) ::
          || (exists r | r in results :: r.row == row)
          || (|results| == params.limit
              && forall r | r in results :: r.score >= FinalScore(s, hits, seeds, params, now, weigh, row.id)))
  }

  /** Hits are stored rows, each once. */
  ghost predicate AreHits(hits: seq<Row>, rows: seq<Row>) {
    DistinctIds(hits) && forall row | row in hits :: row in rows
  }

  /** The three tables, updated in place by the tools. */
  class Memory {
    var rows: seq<Row>
    var meta: map<Id, Metadata>
    var edges: seq<Edge>

    function View(): Stores
      reads this
    {
      Stores(rows, meta, edges)
    }

    constructor ()
      ensures View() == Stores([], map[], [])
    {
      rows, meta, edges := [], map[], [];
    }

    method StoreTool(id: Id, content: string, source: Option<string>, kind: Kind, now: int)
      modifies this
      ensures View() == Apply(old(View()), StoreOp(id, content, source, kind, now))
    {
      rows := rows + [NewRow(id, content, source, kind)];
      if id !in meta { meta := meta[id := Metadata(kind, 0, now)]; }
    }

    method UpdateTool(id: Id, content: string, kind: Kind)
      modifies this
      ensures View() == Apply(old(View()), UpdateOp(id, content, kind))
    {
      rows := DeleteRows(rows, id);
      rows := rows + [NewRow(id, content, None, kind)];
      if id in meta { meta := meta[id := meta[id].(kind := kind)]; }
    }

    method DeleteTool(id: Id)
      modifies this
      ensures View() == Apply(old(View()), DeleteOp(id))
    {
      rows := DeleteRows(rows, id);
      edges := EdgesAwayFrom(edges, id);
      meta := meta - {id};
    }

    method CreateEdgeTool(source: Id, target: Id, relation: string, weight: real) returns (r: Result<(), string>)
      modifies this
      ensures View() == Apply(old(View()), EdgeOp(source, target, relation, weight))
      ensures r.Ok? <==> RelationFromName(relation).Some?
    {
      var kind := RelationFromName(relation);
      if kind.None? { return Err("invalid relation type '" + relation + "'"); }
      edges := UpsertEdge(edges, Edge(source, target, kind.value, weight));
      r := Ok(());
    }

    /** `hybrid_search` on the vector engine's answer `hits`. */
    method Search(hits: seq<Row>, params: Params, now: int, weigh: Weigh) returns (results: seq<Scored>)
      modifies this
      ensures InStep(old(View())) && AreHits(hits, old(rows)) ==>
                exists seeds | AreSeeds(seeds, hits, params.limit) ::
                  IsAnswer(old(View()), hits, seeds, params, now, weigh, results)
      ensures var context := Context(old(meta), old(edges), now, weigh);
              TopOf(results, SearchPool(old(View()), hits, params, context), params.limit)
      ensures View() == Apply(old(View()), SearchOp(ResultIdList(results), now))
    {
      var graphIds := [];
      if params.depth > 0 && hits != [] {
        graphIds := Expand(edges, Seeds(hits, params.limit), params.depth);
      }
      ExpansionOfNothing(edges, Seeds(hits, params.limit), params.depth);
      var linked := FetchByIds(rows, graphIds);
      var scores := Fuse(hits, linked);
      var context := Context(meta, edges, now, weigh);
      results := BoostAndFilter(scores, context, params);
      results := SortAndTruncate(results, Pool(scores, context, params), params.limit);
      SearchAnswers(View(), hits, params, now, weigh, results);
      RecordAll(ResultIdList(results), now);
    }

    method RecordAll(ids: seq<Id>, now: int)
      modifies this`meta
      ensures meta == RecordAccesses(old(meta), ids, now)
    {
      for i := 0 to |ids|
        invariant meta == RecordAccesses(old(meta), ids[..i], now)
      {
        assert ids[..i + 1][..i] == ids[..i];
        meta := RecordAccess(meta, ids[i], now);
      }
      assert ids[..|ids|] == ids;
    }
  }

  function ResultIdList(results: seq<Scored>): seq<Id> {
    seq(|results|, i requires 0 <= i < |results| => results[i].row.id)
  }

  lemma {:induction false} ExpansionOfNothing(edges: seq<Edge>, seeds: seq<Id>, depth: nat)
    ensures depth == 0 || seeds == [] ==> Expansion(edges, seeds, depth) == []
  {
    if depth > 0 && seeds == [] {
      assert Neighbours(edges, []) == [];
      assert Fresh([], {}) == [];
      ExpansionOfNothing(edges, [], depth - 1);
      assert SetOf(seeds) == {} && {} + SetOf([]) == {};
    }
  }

  // --- What every run keeps ---

  ghost predicate InStep(s: Stores) {
    && DistinctIds(s.rows)
    && Described(s.rows, s.meta)
    && UniqueTriples(s.edges)
  }

  /** Store calls bring ids that no row has. */
  ghost predicate FreshIds(s: Stores, ops: seq<Op>) {
    forall i | 0 <= i < |ops| && ops[i].StoreOp? :: ops[i].id !in IdSet(Run(s, ops[..i]).rows)
  }

  lemma {:induction false} WithoutExact(rows: seq<Row>, id: Id)
    ensures forall row :: row in Without(rows, id) <==> row in rows && row.id != id
    ensures DistinctIds(rows) ==> DistinctIds(Without(rows, id))
  {
    if rows != [] {
      WithoutExact(rows[1..], id);
      assert rows == [rows[0]] + rows[1..];
    }
  }

  /** Deleting through the quoted filter removes exactly the rows of that id. */
  lemma DeleteRowsExact(rows: seq<Row>, id: Id)
    ensures forall row :: row in DeleteRows(rows, id) <==> row in rows && row.id != id
    ensures DistinctIds(rows) ==> DistinctIds(DeleteRows(rows, id))
  {
    EqFilterReadsBack(id);
    WithoutExact(rows, id);
  }

  lemma {:induction false} RowsInExact(rows: seq<Row>, ids: seq<Id>)
    ensures forall row :: row in RowsIn(rows, ids) <==> row in rows && row.id in ids
    ensures DistinctIds(rows) ==> DistinctIds(RowsIn(rows, ids))
  {
    if rows != [] {
      RowsInExact(rows[1..], ids);
      assert rows == [rows[0]] + rows[1..];
    }
  }

  /** Fetching through the quoted filter finds exactly the rows of those ids, each row once. */
  lemma FetchByIdsExact(rows: seq<Row>, ids: seq<Id>)
    ensures forall row :: row in FetchByIds(rows, ids) <==> row in rows && row.id in ids
    ensures DistinctIds(rows) ==> DistinctIds(FetchByIds(rows, ids))
  {
    if ids != [] { InFilterReadsBack(ids); }
    RowsInExact(rows, ids);
  }

  lemma {:induction false} EdgesAwayExact(edges: seq<Edge>, id: Id)
    ensures forall e :: e in EdgesAwayFrom(edges, id) <==> e in edges && !e.Touches(id)
    ensures UniqueTriples(edges) ==> UniqueTriples(EdgesAwayFrom(edges, id))
  {
    if edges != [] {
      EdgesAwayExact(edges[1..], id);
      assert edges == [edges[0]] + edges[1..];
      if UniqueTriples(edges) {
        assert UniqueTriples(edges[1..]);
        assert forall e | e in edges[1..] :: !SameTriple(edges[0], e);
      }
    }
  }

  ghost predicate UniqueTriples(edges: seq<Edge>) {
    forall i, j | 0 <= i < j < |edges| :: !SameTriple(edges[i], edges[j])
  }

  lemma {:induction false} UpsertExact(edges: seq<Edge>, e: Edge)
    requires UniqueTriples(edges)
    ensures UniqueTriples(UpsertEdge(edges, e))
    ensures forall f :: f in UpsertEdge(edges, e) <==> f == e || (f in edges && !SameTriple(f, e))
  {
    if edges != [] {
      var first, rest := edges[0], edges[1..];
      assert edges == [first] + rest;
      if SameTriple(first, e) {
        assert first.(weight := e.weight) == e;
        assert forall f | f in rest :: !SameTriple(first, f);
      } else {
        UpsertExact(rest, e);
        assert forall f | f in rest :: !SameTriple(first, f);
      }
    }
  }

  /** Exactly the listed ids that have metadata gain one access; nothing else changes. */
  lemma {:induction false} RecordAccessesExact(meta: map<Id, Metadata>, ids: seq<Id>, now: int)
    requires Distinct(ids)
    ensures RecordAccesses(meta, ids, now)
         == map id | id in meta ::
              if id in ids then Metadata(meta[id].kind, meta[id].accesses + 1, now) else meta[id]
  {
    if ids != [] {
      var last := |ids| - 1;
      RecordAccessesExact(meta, ids[..last], now);
      assert ids == ids[..last] + [ids[last]];
      assert ids[last] !in ids[..last];
    }
  }

  /** A search counts one access for each memory it returns, and none for any other. */
  lemma SearchCountsOnce(meta: map<Id, Metadata>, results: seq<Scored>, now: int)
    requires Unique(results)
    ensures RecordAccesses(meta, ResultIdList(results), now)
         == map id | id in meta ::
              if id in ResultIds(results) then Metadata(meta[id].kind, meta[id].accesses + 1, now) else meta[id]
  {
    var ids := ResultIdList(results);
    assert forall i | 0 <= i < |results| :: ids[i] == results[i].row.id;
    assert forall id :: id in ids <==> id in ResultIds(results);
    RecordAccessesExact(meta, ids, now);
  }

  lemma {:induction false} AccessesKeepKinds(meta: map<Id, Metadata>, ids: seq<Id>, now: int)
    ensures var after := RecordAccesses(meta, ids, now);
            after.Keys == meta.Keys && forall id | id in meta :: after[id].kind == meta[id].kind
  {
    if ids != [] { AccessesKeepKinds(meta, ids[..|ids| - 1], now); }
  }

  /** An update leaves one row for the id, the new one, and its counters as they were; rows, metadata
      and edges of other memories are untouched. */
  lemma UpdateIsExact(s: Stores, id: Id, content: string, kind: Kind)
    ensures var after := Apply(s, UpdateOp(id, content, kind));
            && (forall row: Row :: row in after.rows <==>
                  row == Row(id, content, "", kind) || (row in s.rows && row.id != id))
            && after.meta == (map other | other in s.meta ::
                                if other == id then s.meta[other].(kind := kind) else s.meta[other])
            && after.edges == s.edges
  {
    DeleteRowsExact(s.rows, id);
  }

  /** A store adds one row with the given source, and counters that start at 0 with the time of the
      store; where the id already has metadata that stays. */
  lemma StoreIsExact(s: Stores, id: Id, content: string, source: Option<string>, kind: Kind, now: int)
    ensures var after := Apply(s, StoreOp(id, content, source, kind, now));
            && after.rows == s.rows + [Row(id, content, match source case Some(text) => text case None => "", kind)]
            && after.meta.Keys == s.meta.Keys + {id}
            && (forall other | other in s.meta :: after.meta[other] == s.meta[other])
            && (id !in s.meta ==> after.meta[id] == Metadata(kind, 0, now))
            && after.edges == s.edges
  {
  }

  /** A delete leaves every other memory's row, metadata and edges. */
  lemma DeleteIsExact(s: Stores, id: Id)
    ensures var after := Apply(s, DeleteOp(id));
            && (forall row :: row in after.rows <==> row in s.rows && row.id != id)
            && after.meta == (map other | other in s.meta && other != id :: s.meta[other])
            && (forall e :: e in after.edges <==> e in s.edges && e.source != id && e.target != id)
  {
    DeleteRowsExact(s.rows, id);
    EdgesAwayExact(s.edges, id);
  }

  /** The name of a relation in tool calls and in the table. */
  function RelationName(relation: Relation): string {
    match relation
    case RelatedTo => "related_to"
    case Supersedes => "supersedes"
    case Contradicts => "contradicts"
    case CausedBy => "caused_by"
    case PartOf => "part_of"
  }

  /** Reading a name gives exactly the relation of that name. */
  lemma RelationReadsBack(name: string, relation: Relation)
    ensures RelationFromName(name) == Some(relation) <==> name == RelationName(relation)
  {
  }

  /** An edge call with the name of a relation leaves that edge with the given weight, in place of any
      other edge of the same source, target and relation; any other name changes nothing. */
  lemma EdgeIsExact(s: Stores, source: Id, target: Id, name: string, weight: real)
    requires UniqueTriples(s.edges)
    ensures var after := Apply(s, EdgeOp(source, target, name, weight));
            && after.rows == s.rows && after.meta == s.meta
            && ((forall relation :: name != RelationName(relation)) ==> after.edges == s.edges)
            && (forall relation | name == RelationName(relation) ::
                  forall e :: e in after.edges <==>
                    || e == Edge(source, target, relation, weight)
                    || (e in s.edges && !(e.source == source && e.target == target && e.relation == relation)))
  {
    forall relation { RelationReadsBack(name, relation); }
    if relation :| name == RelationName(relation) {
      UpsertExact(s.edges, Edge(source, target, relation, weight));
    }
  }

  /** What a search leaves behind: one access more, at its time, for each returned memory with metadata. */
  lemma SearchLeaves(s: Stores, returned: seq<Id>, now: int)
    requires Distinct(returned)
    ensures var after := Apply(s, SearchOp(returned, now));
            && after.rows == s.rows && after.edges == s.edges
            && after.meta == map id | id in s.meta ::
                 if id in returned then Metadata(s.meta[id].kind, s.meta[id].accesses + 1, now) else s.meta[id]
  {
    RecordAccessesExact(s.meta, returned, now);
  }

  /** Metadata agrees with the rows. */
  ghost predicate Described(rows: seq<Row>, meta: map<Id, Metadata>) {
    forall id | id in meta :: exists row | row in rows :: row.id == id && row.kind == meta[id].kind
  }

  lemma StoreKeepsInStep(s: Stores, row: Row, now: int)
    requires InStep(s) && row.id !in IdSet(s.rows)
    ensures InStep(s.(rows := s.rows + [row], meta := InitMetadata(s.meta, row.id, row.kind, now)))
  {
    var rows, meta := s.rows + [row], InitMetadata(s.meta, row.id, row.kind, now);
    assert forall r | r in s.rows :: r in rows && r.id in IdSet(s.rows);
    assert row in rows;
  }

  lemma UpdateKeepsInStep(s: Stores, row: Row)
    requires InStep(s)
    ensures InStep(s.(rows := DeleteRows(s.rows, row.id) + [row], meta := SetKind(s.meta, row.id, row.kind)))
  {
    DeleteRowsExact(s.rows, row.id);
    var kept, meta := DeleteRows(s.rows, row.id), SetKind(s.meta, row.id, row.kind);
    assert forall i | 0 <= i < |kept| :: kept[i] in kept;
    forall id | id in meta
      ensures exists r | r in kept + [row] :: r.id == id && r.kind == meta[id].kind
    {
      if id == row.id {
        assert row in kept + [row];
      } else {
        var r :| r in s.rows && r.id == id && r.kind == s.meta[id].kind;
        assert r in kept + [row];
      }
    }
  }

  lemma DeleteKeepsInStep(s: Stores, id: Id)
    requires InStep(s)
    ensures InStep(Apply(s, DeleteOp(id)))
  {
    DeleteRowsExact(s.rows, id);
    EdgesAwayExact(s.edges, id);
    forall other | other in s.meta - {id}
      ensures exists r | r in DeleteRows(s.rows, id) :: r.id == other && r.kind == s.meta[other].kind
    {
      var r :| r in s.rows && r.id == other && r.kind == s.meta[other].kind;
      assert r in DeleteRows(s.rows, id);
    }
  }

  lemma StepKeepsInStep(s: Stores, op: Op)
    requires InStep(s)
    requires op.StoreOp? ==> op.id !in IdSet(s.rows)
    ensures InStep(Apply(s, op))
  {
    match op
    case StoreOp(id, content, source, kind, now) => StoreKeepsInStep(s, NewRow(id, content, source, kind), now);
    case UpdateOp(id, content, kind) => UpdateKeepsInStep(s, NewRow(id, content, None, kind));
    case DeleteOp(id) => DeleteKeepsInStep(s, id);
    case EdgeOp(start, end, relation, weight) =>
      if RelationFromName(relation).Some? {
        UpsertExact(s.edges, Edge(start, end, RelationFromName(relation).value, weight));
      }
    case SearchOp(returned, now) => AccessesKeepKinds(s.meta, returned, now);
  }

  /** In every reachable state there is one row per id, metadata agrees with its row, and edge
      triples are unique. */
  lemma {:induction false} RunKeepsInStep(s: Stores, ops: seq<Op>)
    requires InStep(s) && FreshIds(s, ops)
    ensures InStep(Run(s, ops))
  {
    if ops != [] {
      var last := |ops| - 1;
      forall i | 0 <= i < last && ops[..last][i].StoreOp?
        ensures ops[..last][i].id !in IdSet(Run(s, ops[..last][..i]).rows)
      {
        assert ops[..last][..i] == ops[..i];
      }
      RunKeepsInStep(s, ops[..last]);
      StepKeepsInStep(Run(s, ops[..last]), ops[last]);
    }
  }

  lemma {:induction false} EdgeCountExact(edges: seq<Edge>, id: Id)
    ensures EdgeCount(edges, id) == |EdgesFor(edges, id)|
  {
    if edges != [] { EdgeCountExact(edges[1..], id); }
  }

  predicate Writes(op: Op, id: Id) {
    match op
    case StoreOp(written, _, _, _, _) => written == id
    case UpdateOp(written, _, _) => written == id
    case _ => false
  }

  /** Deleting an id takes its row, its metadata and its edges. */
  lemma DeleteIsComplete(s: Stores, id: Id)
    ensures var after := Apply(s, DeleteOp(id));
            id !in IdSet(after.rows) && id !in after.meta && EdgesFor(after.edges, id) == []
  {
    var after := Apply(s, DeleteOp(id));
    DeleteRowsExact(s.rows, id);
    EdgesAwayExact(s.edges, id);
    NoEdges(after.edges, id);
  }

  lemma {:induction false} NoEdges(edges: seq<Edge>, id: Id)
    requires forall e | e in edges :: !e.Touches(id)
    ensures EdgesFor(edges, id) == []
  {
    if edges != [] { NoEdges(edges[1..], id); }
  }

  /** A deleted id stays out of the row and metadata tables until it is written again. */
  lemma {:induction false} DeletedStaysOut(s: Stores, id: Id, ops: seq<Op>)
    requires forall op | op in ops :: !Writes(op, id)
    ensures var after := Run(Apply(s, DeleteOp(id)), ops);
            id !in IdSet(after.rows) && id !in after.meta
  {
    if ops == [] {
      DeleteIsComplete(s, id);
    } else {
      var before, op := Run(Apply(s, DeleteOp(id)), ops[..|ops| - 1]), ops[|ops| - 1];
      DeletedStaysOut(s, id, ops[..|ops| - 1]);
      assert op in ops;
      match op
      case StoreOp(_, _, _, _, _) =>
      case UpdateOp(other, _, _) => DeleteRowsExact(before.rows, other);
      case DeleteOp(other) => DeleteRowsExact(before.rows, other);
      case EdgeOp(_, _, _, _) =>
      case SearchOp(returned, now) => AccessesKeepKinds(before.meta, returned, now);
    }
  }

  lemma EdgesAtCons(first: Edge, rest: seq<Edge>, id: Id)
    ensures EdgesAt([first] + rest, id) == (if first.Touches(id) then {first} else {}) + EdgesAt(rest, id)
  {
  }

  lemma {:induction false} EdgesForSet(edges: seq<Edge>, id: Id)
    requires UniqueTriples(edges)
    ensures |EdgesFor(edges, id)| == |EdgesAt(edges, id)|
  {
    if edges != [] {
      var first, rest := edges[0], edges[1..];
      EdgesForSet(rest, id);
      assert edges == [first] + rest;
      EdgesAtCons(first, rest, id);
      assert first !in EdgesAt(rest, id);
    }
  }

  /** The importance that the boost stage looks up. */
  lemma ImportanceExact(s: Stores, now: int, weigh: Weigh, id: Id)
    requires UniqueTriples(s.edges) && id in s.meta
    ensures Context(s.meta, s.edges, now, weigh).Importance(id)
         == weigh(s.meta[id], |EdgesAt(s.edges, id)|, now)
  {
    EdgeCountExact(s.edges, id);
    EdgesForSet(s.edges, id);
  }

  lemma AdmitsExact(s: Stores, params: Params, now: int, weigh: Weigh, row: Row)
    requires UniqueTriples(s.edges)
    ensures Context(s.meta, s.edges, now, weigh).Admits(params, row)
       <==> && (params.kind.Some? ==> row.kind == params.kind.value)
            && (row.id in s.meta ==>
                  params.minImportance <= weigh(s.meta[row.id], |EdgesAt(s.edges, row.id)|, now))
  {
    if row.id in s.meta { ImportanceExact(s, now, weigh, row.id); }
  }

  lemma SeedsExact(seeds: seq<Id>, hits: seq<Row>, limit: nat)
    requires AreSeeds(seeds, hits, limit)
    ensures seeds == Seeds(hits, limit)
  {
  }

  /** The rows linked to the seeds are fetched, in table order. */
  lemma LinkedExact(s: Stores, hits: seq<Row>, seeds: seq<Id>, params: Params)
    requires AreSeeds(seeds, hits, params.limit)
    ensures var found := Expansion(s.edges, seeds, params.depth);
            && Linked(s, hits, params) == RowsIn(s.rows, found)
            && forall id :: id in found <==> IsLinked(s.edges, seeds, params.depth, id)
  {
    SeedsExact(seeds, hits, params.limit);
    ExpansionExact(s.edges, seeds, params.depth);
    var found := Expansion(s.edges, seeds, params.depth);
    if found != [] { InFilterReadsBack(found); } else { NoneIn(s.rows); }
  }

  lemma {:induction false} NoneIn(rows: seq<Row>)
    ensures RowsIn(rows, []) == []
  {
    if rows != [] { NoneIn(rows[1..]); }
  }

  lemma {:induction false} RowsInAppend(rows: seq<Row>, more: seq<Row>, ids: seq<Id>)
    ensures RowsIn(rows + more, ids) == RowsIn(rows, ids) + RowsIn(more, ids)
  {
    if rows == [] {
      assert rows + more == more;
    } else {
      var first := if rows[0].id in ids then [rows[0]] else [];
      assert (rows + more)[1..] == rows[1..] + more && (rows + more)[0] == rows[0];
      RowsInAppend(rows[1..], more, ids);
      assert first + (RowsIn(rows[1..], ids) + RowsIn(more, ids)) == first + RowsIn(rows[1..], ids) + RowsIn(more, ids);
    }
  }

  lemma {:induction false} LinkedBeforeExact(s: Stores, seeds: seq<Id>, depth: nat, ids: seq<Id>, n: nat)
    requires n <= |s.rows| && forall id :: id in ids <==> IsLinked(s.edges, seeds, depth, id)
    ensures LinkedBefore(s, seeds, depth, n) == |RowsIn(s.rows[..n], ids)|
  {
    if n > 0 {
      LinkedBeforeExact(s, seeds, depth, ids, n - 1);
      assert s.rows[..n] == s.rows[..n - 1] + [s.rows[n - 1]];
      RowsInAppend(s.rows[..n - 1], [s.rows[n - 1]], ids);
    }
  }

  /** A linked row stands in the list of linked rows behind those before it in the table. */
  lemma LinkedRank(s: Stores, seeds: seq<Id>, depth: nat, ids: seq<Id>, i: nat)
    requires i < |s.rows| && s.rows[i].id in ids
    requires forall id :: id in ids <==> IsLinked(s.edges, seeds, depth, id)
    ensures var rank := LinkedBefore(s, seeds, depth, i);
            rank < |RowsIn(s.rows, ids)| && RowsIn(s.rows, ids)[rank] == s.rows[i]
  {
    LinkedBeforeExact(s, seeds, depth, ids, i);
    RowsInAppend(s.rows[..i], s.rows[i..], ids);
    assert s.rows == s.rows[..i] + s.rows[i..];
    assert RowsIn(s.rows[i..], ids)[0] == s.rows[i];
  }

  lemma HitShare(hits: seq<Row>, id: Id)
    requires DistinctIds(hits)
    ensures RankSum(hits, id, 1.0) == if id in IdSet(hits) then 1.0 / (61.0 + Place(hits, id) as real) else 0.0
  {
    if id in IdSet(hits) { RankSumAt(hits, Place(hits, id), 1.0); } else { RankSumAbsent(hits, id, 1.0); }
  }

  lemma LinkedShare(s: Stores, seeds: seq<Id>, depth: nat, ids: seq<Id>, id: Id)
    requires DistinctIds(s.rows) && id in IdSet(s.rows)
    requires forall other :: other in ids <==> IsLinked(s.edges, seeds, depth, other)
    ensures RankSum(RowsIn(s.rows, ids), id, 0.5)
         == if IsLinked(s.edges, seeds, depth, id)
            then 0.5 / (61.0 + LinkedBefore(s, seeds, depth, Place(s.rows, id)) as real) else 0.0
  {
    RowsInExact(s.rows, ids);
    var linked, i := RowsIn(s.rows, ids), Place(s.rows, id);
    if id in ids {
      LinkedRank(s, seeds, depth, ids, i);
      RankSumAt(linked, LinkedBefore(s, seeds, depth, i), 0.5);
    } else {
      assert forall row | row in linked :: row.id in ids;
      RankSumAbsent(linked, id, 0.5);
    }
  }

  /** A stored row takes part in the fusion if it is in either list. */
  lemma FusionOfRows(rows: seq<Row>, hits: seq<Row>, linked: seq<Row>, row: Row)
    requires DistinctIds(rows) && row in rows
    requires forall other | other in hits || other in linked :: other in rows
    ensures var fused := Fusion(hits, linked);
            && (row.id in fused <==> row in hits || row in linked)
            && (row.id in fused ==>
                  fused[row.id] == Scored(RankSum(hits, row.id, 1.0) + RankSum(linked, row.id, 0.5), row))
  {
    OneRowEach(rows, row);
    assert row.id in IdSet(hits) <==> row in hits;
    assert row.id in IdSet(linked) <==> row in linked;
  }

  lemma FusionExact(s: Stores, hits: seq<Row>, seeds: seq<Id>, params: Params, row: Row)
    requires InStep(s) && AreHits(hits, s.rows) && AreSeeds(seeds, hits, params.limit) && row in s.rows
    ensures var fused := Fusion(hits, Linked(s, hits, params));
            && row.id in IdSet(s.rows)
            && (row.id in fused <==> row in hits || IsLinked(s.edges, seeds, params.depth, row.id))
            && (row.id in fused ==> fused[row.id] == Scored(RankScore(s, hits, seeds, params.depth, row.id), row))
  {
    var linked := LinkedRows(s, hits, seeds, params, row);
    FusionOfRows(s.rows, hits, linked, row);
    RankScoreExact(s, hits, seeds, params, row, linked);
  }

  lemma RankScoreExact(s: Stores, hits: seq<Row>, seeds: seq<Id>, params: Params, row: Row, linked: seq<Row>)
    requires DistinctIds(hits) && row.id in IdSet(s.rows)
    requires RankSum(linked, row.id, 0.5)
          == if IsLinked(s.edges, seeds, params.depth, row.id)
             then 0.5 / (61.0 + LinkedBefore(s, seeds, params.depth, Place(s.rows, row.id)) as real) else 0.0
    ensures RankSum(hits, row.id, 1.0) + RankSum(linked, row.id, 0.5)
         == RankScore(s, hits, seeds, params.depth, row.id)
  {
    HitShare(hits, row.id);
  }

  /** The linked rows, and what one stored row has to do with them. */
  lemma LinkedRows(s: Stores, hits: seq<Row>, seeds: seq<Id>, params: Params, row: Row) returns (linked: seq<Row>)
    requires DistinctIds(s.rows) && AreSeeds(seeds, hits, params.limit) && row in s.rows
    ensures linked == Linked(s, hits, params) && row.id in IdSet(s.rows)
    ensures forall other | other in linked :: other in s.rows
    ensures row in linked <==> IsLinked(s.edges, seeds, params.depth, row.id)
    ensures RankSum(linked, row.id, 0.5)
         == if IsLinked(s.edges, seeds, params.depth, row.id)
            then 0.5 / (61.0 + LinkedBefore(s, seeds, params.depth, Place(s.rows, row.id)) as real) else 0.0
  {
    var found := Expansion(s.edges, seeds, params.depth);
    LinkedExact(s, hits, seeds, params);
    linked := RowsIn(s.rows, found);
    LinkedMembers(s, seeds, params.depth, found, row);
    LinkedShare(s, seeds, params.depth, found, row.id);
  }

  lemma LinkedMembers(s: Stores, seeds: seq<Id>, depth: nat, ids: seq<Id>, row: Row)
    requires row in s.rows && forall id :: id in ids <==> IsLinked(s.edges, seeds, depth, id)
    ensures row.id in IdSet(s.rows)
    ensures forall other | other in RowsIn(s.rows, ids) :: other in s.rows
    ensures row in RowsIn(s.rows, ids) <==> IsLinked(s.edges, seeds, depth, row.id)
  {
    RowsInExact(s.rows, ids);
  }

  lemma FusedIsStored(s: Stores, hits: seq<Row>, seeds: seq<Id>, params: Params, id: Id) returns (row: Row)
    requires AreHits(hits, s.rows) && AreSeeds(seeds, hits, params.limit)
    requires id in Fusion(hits, Linked(s, hits, params))
    ensures row in s.rows && row.id == id
  {
    LinkedExact(s, hits, seeds, params);
    RowsInExact(s.rows, Expansion(s.edges, seeds, params.depth));
    row := FirstRow(if id in IdSet(hits) then hits else Linked(s, hits, params), id);
  }

  lemma PoolOfScores(scores: map<Id, Scored>, context: Context, params: Params, row: Row)
    requires row.id in scores ==> scores[row.id].row == row
    ensures var pool := Pool(scores, context, params);
            && (row.id in pool <==> row.id in scores && context.Admits(params, row))
            && (row.id in pool ==> pool[row.id] == Scored(context.Boost(row.id, scores[row.id].score), row))
  {
  }

  lemma PoolExact(s: Stores, hits: seq<Row>, seeds: seq<Id>, params: Params, now: int, weigh: Weigh, row: Row)
    requires InStep(s) && AreHits(hits, s.rows) && AreSeeds(seeds, hits, params.limit) && row in s.rows
    ensures var pool := SearchPool(s, hits, params, Context(s.meta, s.edges, now, weigh));
            && row.id in IdSet(s.rows)
            && (row.id in pool <==> Candidate(s, hits, seeds, params, now, weigh, row))
            && (row.id in pool ==>
                  pool[row.id] == Scored(FinalScore(s, hits, seeds, params, now, weigh, row.id), row))
  {
    FusionExact(s, hits, seeds, params, row);
    AdmitsExact(s, params, now, weigh, row);
    var context, score := Context(s.meta, s.edges, now, weigh), RankScore(s, hits, seeds, params.depth, row.id);
    PoolOfScores(Fusion(hits, Linked(s, hits, params)), context, params, row);
    BoostExact(s, now, weigh, row.id, score);
  }

  /** What a search can return, and with which score: exactly the candidates. */
  lemma SearchPoolExact(
      s: Stores, hits: seq<Row>, seeds: seq<Id>, params: Params, now: int, weigh: Weigh, id: Id)
    requires InStep(s) && AreHits(hits, s.rows) && AreSeeds(seeds, hits, params.limit)
    ensures SearchedRight(s, hits, seeds, params, now, weigh,
                          SearchPool(s, hits, params, Context(s.meta, s.edges, now, weigh)), id)
  {
    forall row | row in s.rows && row.id == id {
      PoolExact(s, hits, seeds, params, now, weigh, row);
    }
    if id in Fusion(hits, Linked(s, hits, params)) {
      var row := FusedIsStored(s, hits, seeds, params, id);
    }
  }

  lemma OneRowEach(rows: seq<Row>, row: Row)
    requires DistinctIds(rows) && row in rows
    ensures forall other | other in rows && other.id == row.id :: other == row
  {
  }

  lemma BoostExact(s: Stores, now: int, weigh: Weigh, id: Id, score: real)
    requires UniqueTriples(s.edges)
    ensures Context(s.meta, s.edges, now, weigh).Boost(id, score) == Raised(s, now, weigh, id, score)
  {
    if id in s.meta { ImportanceExact(s, now, weigh, id); }
  }

  /** The answer of a search is right: candidates with their scores, best first, none passed over. */
  lemma SearchIsExact(s: Stores, hits: seq<Row>, seeds: seq<Id>, params: Params, now: int, weigh: Weigh,
                      results: seq<Scored>)
    requires InStep(s) && AreHits(hits, s.rows) && AreSeeds(seeds, hits, params.limit)
    requires TopOf(results, SearchPool(s, hits, params, Context(s.meta, s.edges, now, weigh)), params.limit)
    ensures IsAnswer(s, hits, seeds, params, now, weigh, results)
  {
    var pool := SearchPool(s, hits, params, Context(s.meta, s.edges, now, weigh));
    forall id ensures SearchedRight(s, hits, seeds, params, now, weigh, pool, id) {
      SearchPoolExact(s, hits, seeds, params, now, weigh, id);
    }
    forall r | r in results
      ensures Candidate(s, hits, seeds, params, now, weigh, r.row) && r.row.id in IdSet(s.rows)
      ensures r.score == FinalScore(s, hits, seeds, params, now, weigh, r.row.id)
    {
      assert SearchedRight(s, hits, seeds, params, now, weigh, pool, r.row.id);
    }
    forall row | Candidate(s, hits, seeds, params, now, weigh, row) && row.id in IdSet(s.rows)
      ensures (exists r | r in results :: r.row == row)
           || (|results| == params.limit
               && forall r | r in results :: r.score >= FinalScore(s, hits, seeds, params, now, weigh, row.id))
    {
      assert SearchedRight(s, hits, seeds, params, now, weigh, pool, row.id);
      OneRowEach(s.rows, row);
      NoneLeftOut(results, pool, params.limit, row.id);
    }
  }

  lemma SearchAnswers(s: Stores, hits: seq<Row>, params: Params, now: int, weigh: Weigh, results: seq<Scored>)
    requires TopOf(results, SearchPool(s, hits, params, Context(s.meta, s.edges, now, weigh)), params.limit)
    ensures InStep(s) && AreHits(hits, s.rows) ==>
              exists seeds | AreSeeds(seeds, hits, params.limit) ::
                IsAnswer(s, hits, seeds, params, now, weigh, results)
  {
    if InStep(s) && AreHits(hits, s.rows) {
      var seeds := Seeds(hits, params.limit);
      assert AreSeeds(seeds, hits, params.limit);
      SearchIsExact(s, hits, seeds, params, now, weigh, results);
    }
  }

  /** `id` can be returned exactly if it is a candidate's, and then with that row and its score. */
  ghost predicate SearchedRight(s: Stores, hits: seq<Row>, seeds: seq<Id>, params: Params, now: int, weigh: Weigh,
                                pool: map<Id, Scored>, id: Id)
  {
    && (id in pool <==> exists row | Candidate(s, hits, seeds, params, now, weigh, row) :: row.id == id)
    && (id in pool ==>
          && pool[id].row.id == id && id in IdSet(s.rows)
          && Candidate(s, hits, seeds, params, now, weigh, pool[id].row)
          && pool[id].score == FinalScore(s, hits, seeds, params, now, weigh, id))
  }

  /** Where the whole pool fits, all of it is returned. */
  lemma NoneLeftOut(results: seq<Scored>, pool: map<Id, Scored>, limit: nat, id: Id)
    requires TopOf(results, pool, limit) && id in pool
    ensures pool[id] in results
         || (|results| == limit && forall r | r in results :: r.score >= pool[id].score)
  {
    if pool[id] !in results && |results| < limit {
      UniqueSize(results);
      assert ResultIds(results) <= pool.Keys - {id};
      SubsetSize(ResultIds(results), pool.Keys - {id});
    }
  }

  lemma SubsetSize<T>(a: set<T>, b: set<T>)
    requires a <= b
    ensures |a| <= |b|
  {
    assert b == a + (b - a);
  }

  /** So no search returns a deleted id until it is written again. */
  lemma DeletedIsNotFound(s: Stores, id: Id, ops: seq<Op>, hits: seq<Row>, params: Params, context: Context)
    requires forall op | op in ops :: !Writes(op, id)
    requires forall row | row in hits :: row in Run(Apply(s, DeleteOp(id)), ops).rows
    ensures id !in SearchPool(Run(Apply(s, DeleteOp(id)), ops), hits, params, context)
  {
    var after := Run(Apply(s, DeleteOp(id)), ops);
    DeletedStaysOut(s, id, ops);
    FetchByIdsExact(after.rows, Expansion(after.edges, Seeds(hits, params.limit), params.depth));
    assert forall row | row in hits :: row.id in IdSet(after.rows);
    assert forall row | row in Linked(after, hits, params) :: row.id in IdSet(after.rows);
  }
}
