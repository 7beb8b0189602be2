/** Where a block sits below the root pages: the reverse embed map and the breadth-first walk up it. */
module Lineage {
  import opened Prelude
  import opened Wiki

  type Parents = map<BlockId, seq<BlockId>>

  // ---------- the reverse map ----------

  /** The blocks that embed `id`, sorted. */
  function TranscludedBy(v: Vault, id: BlockId): seq<BlockId> {
    SortedIds(set b | b in v.blocks && id in v.Children(b))
  }

  function Get(m: Parents, id: BlockId): seq<BlockId> {
    if id in m then m[id] else []
  }

  /** `m` has `p` listed under `c` exactly for the pairs in `rows`. */
  ghost predicate Rows(m: Parents, rows: set<(BlockId, BlockId)>) {
    forall c, p :: p in Get(m, c) <==> (c, p) in rows
  }

  lemma AddRow(m: Parents, rows: set<(BlockId, BlockId)>, c: BlockId, p: BlockId)
    requires Rows(m, rows)
    ensures Rows(m[c := Get(m, c) + [p]], rows + {(c, p)})
  {}

  ghost predicate Listed(v: Vault, done: seq<BlockId>, rows: set<(BlockId, BlockId)>) {
    forall c, p :: (c, p) in rows <==> p in done && c in v.Children(p)
  }

  lemma AddBlock(v: Vault, done: seq<BlockId>, rows: set<(BlockId, BlockId)>, parent: BlockId, children: seq<BlockId>,
                 more: set<(BlockId, BlockId)>)
    requires Listed(v, done, rows) && children == v.Children(parent)
    requires forall x :: x in more <==> x in rows || (x.1 == parent && x.0 in children)
    ensures Listed(v, done + [parent], more)
  {
    hide Vault.Children;
    forall c, p ensures (c, p) in more <==> p in done + [parent] && c in v.Children(p) {
      assert (c, p) in more <==> (c, p) in rows || (p == parent && c in children);
    }
  }

  /** One entry per embedded block; it lists the same blocks as `TranscludedBy`, a parent once per embed. */
  method EmbedParentMap(v: Vault) returns (m: Parents)
    ensures forall c :: Elems(Get(m, c)) == Elems(TranscludedBy(v, c))
    ensures forall c | c in m :: m[c] != []
  {
    hide Rows, Listed, Vault.Children;
    m := map[];
    var ids := SortedIds(v.blocks.Keys);
    ghost var rows: set<(BlockId, BlockId)> := {};
    NoRows(v);
    for i := 0 to |ids|
      invariant Rows(m, rows) && Listed(v, ids[..i], rows)
      invariant forall c | c in m :: m[c] != []
    {
      var children := v.Children(ids[i]);
      ghost var rows0 := rows;
      for j := 0 to |children|
        invariant Rows(m, rows)
        invariant forall x :: x in rows <==> x in rows0 || (x.1 == ids[i] && x.0 in children[..j])
        invariant forall c | c in m :: m[c] != []
      {
        AddRow(m, rows, children[j], ids[i]);
        m := m[children[j] := Get(m, children[j]) + [ids[i]]];
        rows := rows + {(children[j], ids[i])};
      }
      assert children[..|children|] == children && ids[..i + 1] == ids[..i] + [ids[i]];
      AddBlock(v, ids[..i], rows0, ids[i], children, rows);
    }
    assert ids[..|ids|] == ids;
    forall c ensures Elems(Get(m, c)) == Elems(TranscludedBy(v, c)) {
      SameParents(v, m, ids, rows, c);
    }
  }

  lemma NoRows(v: Vault)
    ensures Rows(map[], {}) && Listed(v, [], {})
  {}

  lemma SameParents(v: Vault, m: Parents, ids: seq<BlockId>, rows: set<(BlockId, BlockId)>, c: BlockId)
    requires Rows(m, rows) && Listed(v, ids, rows) && forall x :: x in ids <==> x in v.blocks
    ensures Elems(Get(m, c)) == Elems(TranscludedBy(v, c))
  {
    hide Vault.Children, Get;
    forall p ensures p in Elems(Get(m, c)) <==> p in Elems(TranscludedBy(v, c)) {
      assert p in Elems(Get(m, c)) <==> p in Get(m, c);
      assert p in Elems(TranscludedBy(v, c)) <==> p in TranscludedBy(v, c);
      assert (c, p) in rows <==> p in ids && c in v.Children(p);
    }
  }

  // ---------- paths up ----------

  ghost predicate Up(m: Parents, x: BlockId, p: BlockId) { p in Get(m, x) }

  ghost predicate UpPath(m: Parents, p: seq<BlockId>) {
    |p| >= 1 && forall i | 0 <= i < |p| - 1 :: Up(m, p[i], p[i + 1])
  }

  ghost predicate Climbs(m: Parents, p: seq<BlockId>, a: BlockId, b: BlockId) {
    UpPath(m, p) && p[0] == a && p[|p| - 1] == b
  }

  /** `b` is `a` or lies above it in `n` steps. */
  ghost predicate AboveBy(m: Parents, a: BlockId, b: BlockId, n: nat) {
    exists p :: Climbs(m, p, a, b) && |p| == n + 1
  }

  ghost predicate IsAbove(m: Parents, a: BlockId, b: BlockId) {
    exists n: nat :: AboveBy(m, a, b, n)
  }

  predicate IsTop(m: Parents, x: BlockId) { Get(m, x) == [] }

  lemma AboveSelf(m: Parents, a: BlockId)
    ensures AboveBy(m, a, a, 0)
  {
    assert Climbs(m, [a], a, a);
  }

  lemma AboveStep(m: Parents, a: BlockId, b: BlockId, c: BlockId, n: nat)
    requires AboveBy(m, a, b, n) && Up(m, b, c)
    ensures AboveBy(m, a, c, n + 1)
  {
    var p :| Climbs(m, p, a, b) && |p| == n + 1;
    assert Climbs(m, p + [c], a, c);
  }

  /** Every block ever listed as a parent, and the start: what the walk can visit. */
  ghost function Universe(m: Parents, id: BlockId): set<BlockId> {
    {id} + set c, p | c in m && p in m[c] :: p
  }

  // ---------- breadth first ----------

  type Queue = seq<(BlockId, nat)>

  type Distances = map<BlockId, nat>

  ghost predicate Waits(queue: Queue, x: BlockId) {
    exists i | 0 <= i < |queue| :: queue[i].0 == x
  }

  lemma WaitsFirst(queue: Queue, x: BlockId)
    requires queue != []
    ensures Waits(queue, x) <==> queue[0].0 == x || Waits(queue[1..], x)
  {
    if Waits(queue, x) {
      var k :| 0 <= k < |queue| && queue[k].0 == x;
      if k > 0 { assert queue[1..][k - 1].0 == x; }
    }
    if k :| 0 <= k < |queue[1..]| && queue[1..][k].0 == x { assert queue[k + 1].0 == x; }
  }

  lemma WaitsLast(queue: Queue, e: (BlockId, nat), x: BlockId)
    ensures Waits(queue + [e], x) <==> Waits(queue, x) || e.0 == x
  {
    if k :| 0 <= k < |queue| && queue[k].0 == x { assert (queue + [e])[k].0 == x; }
    assert (queue + [e])[|queue|] == e;
  }

  /** Recorded distances are lengths of real paths. */
  ghost predicate Witnessed(m: Parents, id: BlockId, dist: Distances) {
    forall x | x in dist :: AboveBy(m, id, x, dist[x])
  }

  /** Every step up from a finished block was taken, at most one further than the block itself. */
  ghost predicate Relaxed(m: Parents, dist: Distances, queue: Queue) {
    forall x, p | x in dist && !Waits(queue, x) && Up(m, x, p) :: p in dist && dist[p] <= dist[x] + 1
  }

  /** The queue carries recorded distances, in order, spread over at most two levels; nothing recorded lies further. */
  ghost predicate Levelled(dist: Distances, queue: Queue) {
    && (forall i | 0 <= i < |queue| :: queue[i].0 in dist && dist[queue[i].0] == queue[i].1)
    && (forall i, j | 0 <= i < j < |queue| :: queue[i].1 <= queue[j].1)
    && (queue != [] ==> forall x | x in dist :: dist[x] <= queue[0].1 + 1)
  }

  /** The tops found so far, and the least distance among them. */
  ghost predicate Found(m: Parents, dist: Distances, queue: Queue, roots: set<BlockId>, depth: Option<nat>) {
    && (forall x | x in roots :: x in dist && IsTop(m, x))
    && (forall x | x in dist && IsTop(m, x) && !Waits(queue, x) :: x in roots)
    && (depth.None? <==> roots == {})
    && (depth.Some? ==> exists x | x in roots :: dist[x] == depth.value)
    && (depth.Some? ==> forall x | x in roots :: depth.value <= dist[x])
  }

  ghost predicate Walking(m: Parents, id: BlockId, dist: Distances, queue: Queue, roots: set<BlockId>,
                          depth: Option<nat>) {
    && id in dist && dist[id] == 0
    && Witnessed(m, id, dist) && Relaxed(m, dist, queue) && Levelled(dist, queue) && Found(m, dist, queue, roots, depth)
  }

  // Queueing a parent met for the first time, one level above the block at the head of the queue.

  lemma PushWitnessed(m: Parents, id: BlockId, dist: Distances, node: BlockId, p: BlockId)
    requires Witnessed(m, id, dist) && node in dist && Up(m, node, p)
    ensures Witnessed(m, id, dist[p := dist[node] + 1])
  {
    hide AboveBy, Up;
    AboveStep(m, id, node, p, dist[node]);
  }

  lemma PushRelaxed(m: Parents, dist: Distances, queue: Queue, p: BlockId, n: nat)
    requires Relaxed(m, dist, queue) && p !in dist
    ensures Relaxed(m, dist[p := n], queue + [(p, n)])
  {
    hide Waits, Up;
    forall x ensures Waits(queue + [(p, n)], x) <==> Waits(queue, x) || p == x { WaitsLast(queue, (p, n), x); }
  }

  lemma PushLevelled(dist: Distances, queue: Queue, p: BlockId)
    requires queue != [] && Levelled(dist, queue) && p !in dist
    ensures Levelled(dist[p := queue[0].1 + 1], queue + [(p, queue[0].1 + 1)])
  {
    forall i | 0 <= i < |queue| ensures queue[i].1 <= queue[0].1 + 1 {
      assert dist[queue[i].0] <= queue[0].1 + 1;
    }
  }

  lemma PushFound(m: Parents, dist: Distances, queue: Queue, p: BlockId, n: nat, roots: set<BlockId>,
                  depth: Option<nat>)
    requires Found(m, dist, queue, roots, depth) && p !in dist
    ensures Found(m, dist[p := n], queue + [(p, n)], roots, depth)
  {
    hide Waits, IsTop;
    forall x ensures Waits(queue + [(p, n)], x) <==> Waits(queue, x) || p == x { WaitsLast(queue, (p, n), x); }
    if depth.Some? {
      var x :| x in roots && dist[x] == depth.value;
      assert dist[p := n][x] == depth.value;
    }
  }

  lemma HeadRecorded(dist: Distances, queue: Queue)
    requires queue != [] && Levelled(dist, queue)
    ensures queue[0].0 in dist && dist[queue[0].0] == queue[0].1
  {}

  lemma Push(m: Parents, id: BlockId, dist: Distances, queue: Queue, p: BlockId, roots: set<BlockId>,
             depth: Option<nat>)
    requires Walking(m, id, dist, queue, roots, depth) && queue != [] && Up(m, queue[0].0, p) && p !in dist
    ensures queue[0].0 in dist && dist[queue[0].0] == queue[0].1
    ensures Walking(m, id, dist[p := queue[0].1 + 1], queue + [(p, queue[0].1 + 1)], roots, depth)
  {
    hide Witnessed, Relaxed, Levelled, Found, Up;
    HeadRecorded(dist, queue);
    var n := queue[0].1 + 1;
    PushWitnessed(m, id, dist, queue[0].0, p);
    PushRelaxed(m, dist, queue, p, n);
    PushLevelled(dist, queue, p);
    PushFound(m, dist, queue, p, n, roots, depth);
  }

  // Taking the head off the queue once all its parents are recorded.

  lemma PopRelaxed(m: Parents, dist: Distances, queue: Queue)
    requires queue != [] && Relaxed(m, dist, queue) && Levelled(dist, queue)
    requires forall p | Up(m, queue[0].0, p) :: p in dist
    ensures Relaxed(m, dist, queue[1..]) && Levelled(dist, queue[1..])
  {
    assert forall i | 0 <= i < |queue[1..]| :: queue[1..][i] == queue[i + 1];
    hide Waits, Up;
    forall x ensures Waits(queue, x) <==> queue[0].0 == x || Waits(queue[1..], x) { WaitsFirst(queue, x); }
  }

  /** The roots and the depth after the block `head` has been dealt with. */
  ghost predicate Counted(m: Parents, head: (BlockId, nat), roots0: set<BlockId>, depth0: Option<nat>,
                          roots: set<BlockId>, depth: Option<nat>) {
    if IsTop(m, head.0) then
      && roots == roots0 + {head.0}
      && depth == Some(if depth0.None? || head.1 < depth0.value then head.1 else depth0.value)
    else
      roots == roots0 && depth == depth0
  }

  lemma PopFound(m: Parents, dist: Distances, queue: Queue, roots0: set<BlockId>, depth0: Option<nat>,
                 roots: set<BlockId>, depth: Option<nat>)
    requires queue != [] && Found(m, dist, queue, roots0, depth0) && Counted(m, queue[0], roots0, depth0, roots, depth)
    requires queue[0].0 in dist && dist[queue[0].0] == queue[0].1
    ensures Found(m, dist, queue[1..], roots, depth)
  {
    hide Waits, IsTop;
    forall x ensures Waits(queue, x) <==> queue[0].0 == x || Waits(queue[1..], x) { WaitsFirst(queue, x); }
    if depth0.Some? {
      var x :| x in roots0 && dist[x] == depth0.value;
      assert x in roots;
    }
    assert IsTop(m, queue[0].0) ==> queue[0].0 in roots;
  }

  lemma Pop(m: Parents, id: BlockId, dist: Distances, queue: Queue, roots0: set<BlockId>, depth0: Option<nat>,
            roots: set<BlockId>, depth: Option<nat>)
    requires Walking(m, id, dist, queue, roots0, depth0) && queue != []
    requires Counted(m, queue[0], roots0, depth0, roots, depth)
    requires forall p | Up(m, queue[0].0, p) :: p in dist
    ensures Walking(m, id, dist, queue[1..], roots, depth)
  {
    hide Witnessed, Relaxed, Levelled, Found, Up, Counted;
    HeadRecorded(dist, queue);
    PopRelaxed(m, dist, queue);
    PopFound(m, dist, queue, roots0, depth0, roots, depth);
  }

  lemma {:induction false} DistancesBound(m: Parents, id: BlockId, dist: Distances, p: seq<BlockId>)
    requires id in dist && dist[id] == 0 && Relaxed(m, dist, []) && UpPath(m, p) && p[0] == id
    ensures p[|p| - 1] in dist && dist[p[|p| - 1]] <= |p| - 1
    decreases |p|
  {
    if |p| > 1 {
      var n := |p| - 1;
      DistancesBound(m, id, dist, p[..n]);
      assert Up(m, p[n - 1], p[n]);
      assert !Waits([], p[n - 1]);
    }
  }

  datatype Placed = Placed(isRoot: bool, depth: nat, parents: seq<BlockId>, roots: seq<BlockId>)

  /** `roots` are the tops that lie above `id`. */
  ghost predicate AreRoots(m: Parents, id: BlockId, roots: seq<BlockId>) {
    forall x :: x in roots <==> IsTop(m, x) && IsAbove(m, id, x)
  }

  /** `depth` is the length of a shortest way up from `id` to any of `roots`. */
  ghost predicate Nearest(m: Parents, id: BlockId, roots: seq<BlockId>, depth: nat) {
    && (exists x | x in roots :: AboveBy(m, id, x, depth))
    && (forall x, n: nat | x in roots && AboveBy(m, id, x, n) :: depth <= n)
  }

  /** Exactly the tops above a block, and the length of a shortest way up to any of them. */
  ghost predicate IsLineage(m: Parents, id: BlockId, l: Placed) {
    && (l.isRoot <==> IsTop(m, id))
    && l.parents == Get(m, id)
    && AreRoots(m, id, l.roots)
    && (forall i, j | 0 <= i < j < |l.roots| :: l.roots[i] != l.roots[j] && Le(l.roots[i], l.roots[j]))
    && (if l.roots == [] then l.depth == 0 else Nearest(m, id, l.roots, l.depth))
  }

  lemma Start(m: Parents, id: BlockId)
    ensures Walking(m, id, map[id := 0], [(id, 0)], {}, None)
  {
    AboveSelf(m, id);
    var queue: Queue := [(id, 0)];
    assert queue[0].0 == id;
    assert Waits(queue, id);
  }

  /** The walk meets each block once, and so ends on every graph, cyclic or not. */
  method LineageWith(m: Parents, id: BlockId) returns (l: Placed)
    ensures IsLineage(m, id, l)
  {
    hide Walking, Up, IsLineage, Universe;
    var visited: set<BlockId> := {id};
    var queue: Queue := [(id, 0)];
    var roots: set<BlockId> := {};
    var depth: Option<nat> := None;
    ghost var dist: Distances := map[id := 0];
    Start(m, id);
    UniverseHas(m, id);
    while queue != []
      invariant visited == dist.Keys && visited <= Universe(m, id)
      invariant Walking(m, id, dist, queue, roots, depth)
      decreases Universe(m, id) - visited, |queue|
    {
      var (node, d) := queue[0];
      ghost var full, roots0, depth0, visited0 := queue, roots, depth, visited;
      queue := queue[1..];
      ghost var rest := queue;
      var ps := Get(m, node);
      if ps == [] {
        roots := roots + {node};
        depth := Some(if depth.None? then d else if d < depth.value then d else depth.value);
      } else {
        for i := 0 to |ps|
          invariant visited0 <= visited == dist.Keys <= Universe(m, id)
          invariant visited == visited0 ==> queue == rest
          invariant full != [] && full[0] == (node, d) && full[1..] == queue
          invariant Walking(m, id, dist, full, roots, depth)
          invariant forall p | p in ps[..i] :: p in dist
        {
          ParentsUp(m, node, ps[i]);
          if ps[i] !in visited {
            UniverseHas(m, id);
            Push(m, id, dist, full, ps[i], roots, depth);
            visited := visited + {ps[i]};
            queue := queue + [(ps[i], d + 1)];
            dist, full := dist[ps[i] := d + 1], full + [(ps[i], d + 1)];
          }
        }
        assert ps[..|ps|] == ps;
      }
      forall p | Up(m, node, p) ensures p in dist { ParentsUp(m, node, p); }
      Pop(m, id, dist, full, roots0, depth0, roots, depth);
    }
    l := Placed(Get(m, id) == [], if depth.None? then 0 else depth.value, Get(m, id), SortedIds(roots));
    Report(m, id, dist, roots, depth, l);
  }

  lemma ParentsUp(m: Parents, node: BlockId, p: BlockId)
    ensures Up(m, node, p) <==> p in Get(m, node)
  {}

  lemma UniverseHas(m: Parents, id: BlockId)
    ensures id in Universe(m, id)
    ensures forall x, p | Up(m, x, p) :: p in Universe(m, id)
  {}

  lemma Report(m: Parents, id: BlockId, dist: Distances, roots: set<BlockId>, depth: Option<nat>, l: Placed)
    requires Walking(m, id, dist, [], roots, depth)
    requires l == Placed(IsTop(m, id), if depth.None? then 0 else depth.value, Get(m, id), SortedIds(roots))
    ensures IsLineage(m, id, l)
  {
    LineageFound(m, id, dist, roots, depth, l.roots);
  }

  lemma LineageFound(m: Parents, id: BlockId, dist: Distances, roots: set<BlockId>, depth: Option<nat>,
                     sorted: seq<BlockId>)
    requires Walking(m, id, dist, [], roots, depth) && forall x :: x in sorted <==> x in roots
    ensures AreRoots(m, id, sorted)
    ensures depth.Some? ==> Nearest(m, id, sorted, depth.value)
    ensures depth.None? <==> sorted == []
  {
    forall x, n: nat | AboveBy(m, id, x, n) ensures x in dist && dist[x] <= n {
      var p :| Climbs(m, p, id, x) && |p| == n + 1;
      DistancesBound(m, id, dist, p);
    }
    SomeElement(sorted);
    hide AboveBy, Relaxed, Levelled, IsTop;
    forall x ensures !Waits([], x) {}
    forall x ensures x in sorted <==> IsTop(m, x) && IsAbove(m, id, x) {
      if x in roots { assert AboveBy(m, id, x, dist[x]); }
    }
    if depth.Some? {
      var x :| x in roots && dist[x] == depth.value;
      assert AboveBy(m, id, x, depth.value);
    }
  }

  // ---------- in terms of the vault ----------

  /**
   With the vault's own reverse map, going up is being embedded, so the tops above are the root pages that reach the
   block.
   */
  lemma AboveIsReach(v: Vault, m: Parents, a: BlockId, b: BlockId)
    requires forall c :: Elems(Get(m, c)) == Elems(TranscludedBy(v, c))
    ensures IsAbove(m, a, b) <==> v.Reaches(b, a)
    ensures IsTop(m, b) <==> TranscludedBy(v, b) == []
  {
    forall x, p ensures Up(m, x, p) <==> v.Edge(p, x) {
      assert p in Elems(Get(m, x)) <==> p in Elems(TranscludedBy(v, x));
    }
    if n: nat :| AboveBy(m, a, b, n) {
      var p :| Climbs(m, p, a, b) && |p| == n + 1;
      ClimbReaches(v, m, p);
    }
    if p :| v.PathFromTo(p, b, a) { ReachClimbs(v, m, p); }
    SameEmptiness(Get(m, b), TranscludedBy(v, b));
  }

  lemma SameEmptiness(a: seq<BlockId>, b: seq<BlockId>)
    requires Elems(a) == Elems(b)
    ensures a == [] <==> b == []
  {
    if a != [] { assert a[0] in Elems(a); }
    if b != [] { assert b[0] in Elems(b); }
  }

  lemma {:induction false} ClimbReaches(v: Vault, m: Parents, p: seq<BlockId>)
    requires UpPath(m, p) && forall x, q :: Up(m, x, q) <==> v.Edge(q, x)
    ensures v.Reaches(p[|p| - 1], p[0])
    decreases |p|
  {
    v.ReachesSelf(p[0]);
    if |p| > 1 {
      ClimbReaches(v, m, p[1..]);
      assert Up(m, p[0], p[1]);
      v.ReachesSnoc(p[|p| - 1], p[1], p[0]);
    }
  }

  lemma {:induction false} ReachClimbs(v: Vault, m: Parents, p: seq<BlockId>)
    requires v.IsPath(p) && forall x, q :: Up(m, x, q) <==> v.Edge(q, x)
    ensures IsAbove(m, p[|p| - 1], p[0])
    decreases |p|
  {
    if |p| == 1 {
      AboveSelf(m, p[0]);
    } else {
      ReachClimbs(v, m, p[1..]);
      var n: nat :| AboveBy(m, p[|p| - 1], p[1], n);
      assert v.Edge(p[0], p[1]);
      AboveStep(m, p[|p| - 1], p[1], p[0], n);
    }
  }
}
