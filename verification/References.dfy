/**
 The references a flat rendering emits. Rendering keeps a visited set per path, the collector one for the
 whole walk; both see exactly the references of the blocks reachable by embeds.
 */
module References {
  import opened Prelude
  import opened Wiki
  import opened Layout
  import opened Render

  // ---------- what rendering emits ----------

  /** The blocks an expanded document links to, at any depth. */
  ghost function Emitted(doc: seq<Node>): set<BlockId>
    decreases doc, 1
  {
    if doc == [] then {} else EmittedBy(doc[0]) + Emitted(doc[1..])
  }

  ghost function EmittedBy(n: Node): set<BlockId>
    decreases n, 0
  {
    match n
    case Link(id, _) => {id}
    case Embedded(_, _, doc) => Emitted(doc)
    case _ => {}
  }

  /** What `render_flat` of a block links to. */
  ghost function FlatRefs(v: Vault, id: BlockId): set<BlockId> {
    if id in v.blocks then Emitted(Expand(v, v.blocks[id].body, {id})) else {}
  }

  /** Some block `b` at or below `a` references `t` in its own body. */
  ghost predicate Surfaces(v: Vault, a: BlockId, t: BlockId) {
    exists b :: SurfacesAt(v, a, b, t)
  }

  ghost predicate SurfacesAt(v: Vault, a: BlockId, b: BlockId, t: BlockId) {
    b in v.blocks && v.Reaches(a, b) && v.Mentions(v.blocks[b].body, t)
  }

  lemma AtomEmits(v: Vault, a: Atom, open: set<BlockId>, t: BlockId)
    ensures t in EmittedBy(ExpandAtom(v, a, open)) <==>
            || v.MentionsAt([a], 0, t)
            || (a.Ref? && a.embed && v.Resolve(a.target).Some? && v.Resolve(a.target).value !in open
                && var id := v.Resolve(a.target).value; t in Emitted(Expand(v, v.blocks[id].body, open + {id})))
  {
  }

  lemma {:induction false} EmittedAt(v: Vault, body: Body, open: set<BlockId>, k: nat)
    requires k < |body|
    ensures EmittedBy(ExpandAtom(v, body[k], open)) <= Emitted(Expand(v, body, open))
  {
    hide Expand, ExpandAtom, Emitted, EmittedBy;
    EmittedCons(v, body, open);
    if k > 0 { EmittedAt(v, body[1..], open, k - 1); }
  }

  /** Whatever is emitted comes from the body itself or from a block below it. */
  lemma {:induction false} EmittedSound(v: Vault, body: Body, open: set<BlockId>, t: BlockId)
    requires t in Emitted(Expand(v, body, open))
    ensures v.Mentions(body, t) || exists x :: v.Embeds(body, x) && Surfaces(v, x, t)
    decreases v.blocks.Keys - open, |body|
  {
    hide Expand, ExpandAtom, Emitted, EmittedBy;
    EmittedCons(v, body, open);
    v.MentionsTail(body, t);
    if t in EmittedBy(ExpandAtom(v, body[0], open)) {
      AtomEmits(v, body[0], open, t);
      if v.MentionsAt([body[0]], 0, t) {
        assert v.MentionsAt(body, 0, t);
      } else {
        var id := v.Resolve(body[0].target).value;
        assert id in v.blocks.Keys - open;
        EmittedSound(v, v.blocks[id].body, open + {id}, t);
        SurfacesHere(v, id, t);
        assert v.EmbedsAt(body, 0, id);
      }
    } else {
      EmittedSound(v, body[1..], open, t);
      if x :| v.Embeds(body[1..], x) && Surfaces(v, x, t) { v.EmbedsTail(body, x); }
    }
  }

  lemma EmittedCons(v: Vault, body: Body, open: set<BlockId>)
    ensures body == [] ==> Emitted(Expand(v, body, open)) == {}
    ensures body != [] ==>
              Emitted(Expand(v, body, open))
                == EmittedBy(ExpandAtom(v, body[0], open)) + Emitted(Expand(v, body[1..], open))
  {
    if body != [] { ExpandCons(v, body, open); }
  }

  lemma SurfacesHere(v: Vault, id: BlockId, t: BlockId)
    requires id in v.blocks
    requires v.Mentions(v.blocks[id].body, t) || exists x :: v.Embeds(v.blocks[id].body, x) && Surfaces(v, x, t)
    ensures Surfaces(v, id, t)
  {
    if v.Mentions(v.blocks[id].body, t) {
      v.ReachesSelf(id);
      assert SurfacesAt(v, id, id, t);
    } else {
      var x :| v.Embeds(v.blocks[id].body, x) && Surfaces(v, x, t);
      var b :| SurfacesAt(v, x, b, t);
      assert v.Edge(id, x);
      v.ReachesStep(id, x, b);
      assert SurfacesAt(v, id, b, t);
    }
  }

  /**
   A path of embeds that avoids what is open leads rendering to its end, even if the path meets itself: from
   the last visit of its first block on, nothing on it is open.
   */
  lemma {:induction false} EmittedAlong(v: Vault, p: seq<BlockId>, open: set<BlockId>, t: BlockId)
    requires v.IsPath(p) && (forall i | 0 <= i < |p| :: p[i] !in open && p[i] in v.blocks)
    requires v.Mentions(v.blocks[p[|p| - 1]].body, t)
    ensures t in Emitted(Expand(v, v.blocks[p[0]].body, open + {p[0]}))
    decreases |p|
  {
    hide Expand, ExpandAtom, Emitted, EmittedBy;
    var body := v.blocks[p[0]].body;
    if |p| == 1 {
      var k :| v.MentionsAt(body, k, t);
      EmittedAt(v, body, open + {p[0]}, k);
      assert v.MentionsAt([body[k]], 0, t);
      AtomEmits(v, body[k], open + {p[0]}, t);
    } else if k :| 1 <= k < |p| && p[k] == p[0] {
      EmittedAlong(v, p[k..], open, t);
    } else {
      EmittedAlong(v, p[1..], open + {p[0]}, t);
      assert v.Edge(p[0], p[1]);
      var k :| v.EmbedsAt(body, k, p[1]);
      EmittedAt(v, body, open + {p[0]}, k);
      AtomEmits(v, body[k], open + {p[0]}, t);
    }
  }

  lemma {:induction false} PathInVault(v: Vault, p: seq<BlockId>)
    requires v.IsPath(p) && p[0] in v.blocks
    ensures forall i | 0 <= i < |p| :: p[i] in v.blocks
  {
    if |p| > 1 {
      assert v.Edge(p[0], p[1]);
      assert p[1] in v.ChildrenOf(v.blocks[p[0]].body);
      PathInVault(v, p[1..]);
      forall i | 0 <= i < |p| ensures p[i] in v.blocks { if i > 0 { assert p[i] == p[1..][i - 1]; } }
    }
  }

  /** Flat rendering emits exactly the references of the blocks reachable by embeds, cyclic vaults included. */
  lemma FlatRefsAreSurfaced(v: Vault, id: BlockId, t: BlockId)
    requires id in v.blocks
    ensures t in FlatRefs(v, id) <==> Surfaces(v, id, t)
  {
    if t in FlatRefs(v, id) {
      EmittedSound(v, v.blocks[id].body, {id}, t);
      SurfacesHere(v, id, t);
    }
    if Surfaces(v, id, t) {
      var b :| SurfacesAt(v, id, b, t);
      var p :| v.PathFromTo(p, id, b);
      PathInVault(v, p);
      EmittedAlong(v, p, {}, t);
      assert {} + {id} == {id};
    }
  }

  // ---------- the collector ----------

  /** `t` is referenced by a block entered during this walk. */
  ghost predicate MetIn(v: Vault, walked: set<BlockId>, t: BlockId) {
    exists b :: b in walked && b in v.blocks && v.Mentions(v.blocks[b].body, t)
  }

  /** Everything embedded by a block of `from` is in `into`. */
  ghost predicate ChildrenIn(v: Vault, from: set<BlockId>, into: set<BlockId>) {
    forall b, c | b in from && v.Edge(b, c) :: c in into
  }

  method CollectFlatRefTargets(v: Vault, id: BlockId, seen0: set<BlockId>, out0: seq<BlockId>)
    returns (seen: set<BlockId>, out: seq<BlockId>)
    ensures seen0 <= seen && id in seen
    ensures forall b | b in seen - seen0 :: v.Reaches(id, b)
    ensures ChildrenIn(v, seen - seen0, seen)
    ensures out0 <= out && (NoDup(out0) ==> NoDup(out))
    ensures forall t :: t in out <==> t in out0 || MetIn(v, seen - seen0, t)
    decreases v.blocks.Keys - seen0
  {
    if id in seen0 {
      assert seen0 - seen0 == {};
      return seen0, out0;
    }
    seen, out := seen0 + {id}, out0;
    v.ReachesSelf(id);
    if id !in v.blocks { return; }
    ghost var start := seen;
    var body := v.blocks[id].body;
    assert v.blocks.Keys - start < v.blocks.Keys - seen0 by { assert id in v.blocks.Keys - seen0; }
    for i := 0 to |body|
      invariant start <= seen
      invariant forall b | b in seen - seen0 :: v.Reaches(id, b)
      invariant ChildrenIn(v, seen - start, seen)
      invariant forall c | v.Embeds(body[..i], c) :: c in seen
      invariant out0 <= out && (NoDup(out0) ==> NoDup(out))
      invariant forall t :: t in out <==> t in out0 || MetIn(v, seen - start, t) || v.Mentions(body[..i], t)
    {
      var a := body[i];
      PrefixSnoc(v, body, i);
      if a.Ref? {
        var target := v.Resolve(a.target);
        if target.Some? {
          if a.embed {
            ghost var before := seen;
            assert v.EmbedsAt(body, i, target.value) && v.Edge(id, target.value);
            seen, out := CollectFlatRefTargets(v, target.value, seen, out);
            CollectedMore(v, id, target.value, start, before, seen);
          } else if target.value !in out {
            out := out + [target.value];
          }
        }
      }
    }
    assert body[..|body|] == body;
    assert ChildrenIn(v, seen - seen0, seen) by {
      forall b, c | b in seen - seen0 && v.Edge(b, c) ensures c in seen { if b != id { assert b in seen - start; } }
    }
    forall t ensures MetIn(v, seen - seen0, t) <==> MetIn(v, seen - start, t) || v.Mentions(body, t) {
      assert seen - seen0 == (seen - start) + {id};
    }
  }

  /** One more atom: what the prefix embeds and mentions. */
  lemma PrefixSnoc(v: Vault, body: Body, i: nat)
    requires i < |body|
    ensures forall c :: v.Embeds(body[..i + 1], c) <==> v.Embeds(body[..i], c) || v.EmbedsAt(body, i, c)
    ensures forall t :: v.Mentions(body[..i + 1], t) <==> v.Mentions(body[..i], t) || v.MentionsAt(body, i, t)
  {
    var pre, upTo := body[..i], body[..i + 1];
    forall c ensures v.Embeds(upTo, c) <==> v.Embeds(pre, c) || v.EmbedsAt(body, i, c) {
      if k :| v.EmbedsAt(upTo, k, c) && k < i { assert v.EmbedsAt(pre, k, c); }
      if k :| v.EmbedsAt(pre, k, c) { assert v.EmbedsAt(upTo, k, c); }
      if v.EmbedsAt(body, i, c) { assert v.EmbedsAt(upTo, i, c); }
    }
    forall t ensures v.Mentions(upTo, t) <==> v.Mentions(pre, t) || v.MentionsAt(body, i, t) {
      if k :| v.MentionsAt(upTo, k, t) && k < i { assert v.MentionsAt(pre, k, t); }
      if k :| v.MentionsAt(pre, k, t) { assert v.MentionsAt(upTo, k, t); }
      if v.MentionsAt(body, i, t) { assert v.MentionsAt(upTo, i, t); }
    }
  }

  lemma CollectedMore(v: Vault, id: BlockId, child: BlockId, start: set<BlockId>, before: set<BlockId>,
                      seen: set<BlockId>)
    requires start <= before <= seen && v.Edge(id, child)
    requires ChildrenIn(v, before - start, before) && ChildrenIn(v, seen - before, seen)
    requires forall b | b in seen - before :: v.Reaches(child, b)
    ensures ChildrenIn(v, seen - start, seen)
    ensures forall b | b in seen - before :: v.Reaches(id, b)
    ensures forall t :: MetIn(v, seen - start, t) <==> MetIn(v, before - start, t) || MetIn(v, seen - before, t)
  {
    assert seen - start == (before - start) + (seen - before);
    forall b | b in seen - before ensures v.Reaches(id, b) { v.ReachesStep(id, child, b); }
    forall t ensures MetIn(v, seen - start, t) <==> MetIn(v, before - start, t) || MetIn(v, seen - before, t) {
    }
  }

  /** The collector lists exactly what rendering emits, each target once. */
  method FlatReferenceTargets(v: Vault, id: BlockId) returns (out: seq<BlockId>)
    ensures NoDup(out)
    ensures forall t :: t in out <==> t in FlatRefs(v, id)
  {
    var seen;
    seen, out := CollectFlatRefTargets(v, id, {}, []);
    assert seen - {} == seen;
    forall t ensures t in out <==> t in FlatRefs(v, id) {
      if id in v.blocks {
        FlatRefsAreSurfaced(v, id, t);
        if b :| SurfacesAt(v, id, b, t) {
          var p :| v.PathFromTo(p, id, b);
          v.ClosedReach(seen, p);
        }
        if MetIn(v, seen, t) {
          var b :| b in seen && b in v.blocks && v.Mentions(v.blocks[b].body, t);
          assert SurfacesAt(v, id, b, t);
        }
      } else {
        NothingBelow(v, id, seen, t);
      }
    }
  }

  lemma NothingBelow(v: Vault, id: BlockId, seen: set<BlockId>, t: BlockId)
    requires id !in v.blocks && forall b | b in seen :: v.Reaches(id, b)
    ensures !MetIn(v, seen, t)
  {
    if b :| b in seen && b in v.blocks && v.Mentions(v.blocks[b].body, t) {
      var x := v.ReachesFirst(id, b);
      assert false;
    }
  }
}
