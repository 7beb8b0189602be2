/**
 Which links, unlinks, carves, flattens and deletes keep the transclusion graph acyclic, and that runs of them do. What
 an operation writes is read back, so an embed can come out of code; the conditions are exact.
 */
module Acyclic {
  import opened Prelude
  import opened Text
  import opened Wiki
  import opened Layout
  import opened Render
  import opened Extraction
  import opened Reading
  import opened Seams
  import opened Edits
  import opened Outside
  import opened InlineCode
  import opened Extract
  import opened Refactor
  import opened Linking
  import opened Placing
  import opened Unlinking

  // ---------- ranks ----------

  /** Every embed goes strictly down. */
  ghost predicate Ranked(v: Vault, rank: map<BlockId, nat>) {
    && v.blocks.Keys <= rank.Keys
    && forall a, b | v.Edge(a, b) :: b in v.blocks && rank[b] < rank[a]
  }

  lemma SmallerCard<T>(a: set<T>, b: set<T>)
    requires a < b
    ensures |a| < |b|
  {
    assert b == a + (b - a) && b - a != {};
  }

  lemma AcyclicRanks(v: Vault) returns (rank: map<BlockId, nat>)
    requires v.Acyclic()
    ensures Ranked(v, rank) && rank.Keys == v.blocks.Keys && forall id | id in v.blocks :: rank[id] <= |v.blocks|
  {
    rank := map id | id in v.blocks :: |Below(v, id)|;
    forall id | id in v.blocks ensures rank[id] <= |v.blocks| {
      assert Below(v, id) < v.blocks.Keys by { assert id !in Below(v, id); }
      SmallerCard(Below(v, id), v.blocks.Keys);
      KeysCard(v);
    }
    forall a, b | v.Edge(a, b) ensures b in v.blocks && rank[b] < rank[a] {
      BelowShrinks(v, a, b);
      SmallerCard(Below(v, b), Below(v, a));
    }
  }

  lemma KeysCard(v: Vault)
    ensures |v.blocks.Keys| == |v.blocks|
  {}

  lemma {:induction false} PathGoesDown(v: Vault, rank: map<BlockId, nat>, p: seq<BlockId>)
    requires Ranked(v, rank) && v.IsPath(p) && p[0] in v.blocks
    ensures p[|p| - 1] in v.blocks && rank[p[|p| - 1]] <= rank[p[0]]
  {
    if |p| > 1 {
      assert v.Edge(p[0], p[1]);
      PathGoesDown(v, rank, p[1..]);
    }
  }

  lemma RankedAcyclic(v: Vault, rank: map<BlockId, nat>)
    requires Ranked(v, rank)
    ensures v.Acyclic()
  {
    forall a, b | v.Edge(a, b) ensures !v.Reaches(b, a) {
      if p :| v.PathFromTo(p, b, a) { PathGoesDown(v, rank, p); }
    }
  }

  // ---------- the law of one rewritten body ----------

  /** The graph of `w` has the edges of `v`, but for those that leave `id`, and loses none of its blocks but `gone`. */
  ghost predicate DiffersAt(v: Vault, w: Vault, id: BlockId, gone: set<BlockId>) {
    && id in v.blocks && id in w.blocks && w.blocks.Keys == v.blocks.Keys - gone
    && forall a, b | a != id && a !in gone :: w.Edge(a, b) <==> v.Edge(a, b)
  }

  /** Up to the first visit of `id` a path runs through blocks that embed what they did. */
  lemma {:induction false} PathStays(v: Vault, w: Vault, id: BlockId, gone: set<BlockId>, p: seq<BlockId>)
    requires DiffersAt(v, w, id, gone) && v.IsPath(p) && p[|p| - 1] == id && p[0] !in gone
    ensures w.Reaches(p[0], id)
  {
    if p[0] == id {
      w.ReachesSelf(id);
    } else {
      assert v.Edge(p[0], p[1]) && w.Edge(p[0], p[1]);
      EdgeTo(w, p[0], p[1]);
      assert p[1..][|p| - 2] == id;
      PathStays(v, w, id, gone, p[1..]);
      w.ReachesStep(p[0], p[1], id);
    }
  }

  lemma EdgeTo(v: Vault, a: BlockId, b: BlockId)
    requires v.Edge(a, b)
    ensures b in v.blocks
  {
    var k :| v.EmbedsAt(v.blocks[a].body, k, b);
  }

  /** A graph changed at one block stays acyclic if and only if nothing the block now embeds reached it before. */
  lemma ChangedIff(v: Vault, w: Vault, id: BlockId, gone: set<BlockId>)
    requires v.Acyclic() && DiffersAt(v, w, id, gone)
    ensures w.Acyclic() <==> forall x | w.Edge(id, x) :: !v.Reaches(x, id)
  {
    if forall x | w.Edge(id, x) :: !v.Reaches(x, id) {
      ChangedAcyclic(v, w, id, gone);
    } else {
      var x :| w.Edge(id, x) && v.Reaches(x, id);
      var p :| v.PathFromTo(p, x, id);
      EdgeTo(w, id, x);
      PathStays(v, w, id, gone, p);
    }
  }

  lemma ChangedAcyclic(v: Vault, w: Vault, id: BlockId, gone: set<BlockId>)
    requires v.Acyclic() && DiffersAt(v, w, id, gone) && forall x | w.Edge(id, x) :: !v.Reaches(x, id)
    ensures w.Acyclic()
  {
    var rank0 := AcyclicRanks(v);
    var high := |v.blocks| + 1;
    var rank := map x | x in v.blocks :: rank0[x] + if v.Reaches(x, id) then high else 0;
    v.ReachesSelf(id);
    forall a, b | w.Edge(a, b) ensures b in w.blocks && rank[b] < rank[a] {
      EdgeTo(w, a, b);
      if a != id {
        assert v.Edge(a, b);
        if v.Reaches(b, id) { v.ReachesStep(a, b, id); }
      }
    }
    RankedAcyclic(w, rank);
  }

  lemma PutResolves(v: Vault, id: BlockId, text: string, now: string, target: string)
    requires id in v.blocks
    ensures PutBody(v, id, text, now).Resolve(target) == v.Resolve(target)
  {
    RewrittenTitle(v, id, text, now);
    SameTitlesResolve(v, PutBody(v, id, text, now), target);
  }

  lemma SameEmbeds(v: Vault, w: Vault, body: Body, x: BlockId)
    requires Agree(v, w, body)
    ensures w.Embeds(body, x) <==> v.Embeds(body, x)
  {
    if k :| v.EmbedsAt(body, k, x) { assert w.EmbedsAt(body, k, x); }
    if k :| w.EmbedsAt(body, k, x) { assert v.EmbedsAt(body, k, x); }
  }

  lemma PutDiffers(v: Vault, id: BlockId, text: string, now: string)
    requires id in v.blocks
    ensures DiffersAt(v, PutBody(v, id, text, now), id, {})
    ensures forall x :: PutBody(v, id, text, now).Edge(id, x) <==> v.Embeds(Stored(text), x)
  {
    var w := PutBody(v, id, text, now);
    forall body: Body ensures Agree(v, w, body) {
      forall k | 0 <= k < |body| && body[k].Ref? ensures w.Resolve(body[k].target) == v.Resolve(body[k].target) {
        PutResolves(v, id, text, now, body[k].target);
      }
    }
    forall a, b | a != id ensures w.Edge(a, b) <==> v.Edge(a, b) {
      if a in v.blocks { SameEmbeds(v, w, v.blocks[a].body, b); }
    }
    forall x ensures w.Edge(id, x) <==> v.Embeds(Stored(text), x) { SameEmbeds(v, w, Stored(text), x); }
  }

  /** Nothing a body embeds reaches the block it is to be the body of. */
  ghost predicate ClosesNothing(v: Vault, id: BlockId, body: Body) {
    forall x | v.Embeds(body, x) :: !v.Reaches(x, id)
  }

  /**
   Rewriting one block of an acyclic vault, whatever the targets are, leaves it acyclic if and only if nothing that the
   text, once read, embeds reaches that block.
   */
  lemma RewriteAcyclicIff(v: Vault, id: BlockId, text: string, now: string)
    requires v.Acyclic() && id in v.blocks
    ensures PutBody(v, id, text, now).Acyclic() <==> ClosesNothing(v, id, Stored(text))
  {
    hide Stored, PutBody;
    PutDiffers(v, id, text, now);
    ChangedIff(v, PutBody(v, id, text, now), id, {});
  }

  // ---------- the operations ----------

  datatype GraphOp =
    | PutLink(source: BlockId, target: BlockId, embed: bool, place: Placement)
    | Unlink(from: BlockId, gone: BlockId)
    | CarveOut(parent: BlockId, i: nat, j: nat, newId: BlockId)
    | FlattenIn(into: BlockId, child: BlockId)
    | Delete(id: BlockId)

  /** The directive a link writes: an embed only where it closes no cycle by itself. */
  ghost function LinkDirective(v: Vault, source: BlockId, target: BlockId, embed: bool): Atom {
    if embed && !v.Reaches(target, source) then EmbedOf(target) else ReferenceTo(target)
  }

  ghost function LinkedText(v: Vault, source: BlockId, target: BlockId, embed: bool, place: Placement): string
    requires source in v.blocks
  {
    Raw(Placed(v, v.blocks[source].body, LinkDirective(v, source, target, embed), place))
  }

  /** What an operation leaves; one that fails leaves the vault alone. */
  ghost function Step(v: Vault, op: GraphOp, now: string): Vault {
    match op
    case PutLink(source, target, embed, place) =>
      if source !in v.blocks || target !in v.blocks then v else
      PutBody(v, source, LinkedText(v, source, target, embed, place), now)
    case Unlink(source, target) =>
      if source !in v.blocks then v else
      var r := Unlinked(v, v.blocks[source].body, target);
      if r.Ok? && r.value.Some? then PutBody(v, source, r.value.value, now) else v
    case CarveOut(parent, i, j, child) =>
      var r := Carve(v, parent, i, j, child, now);
      if r.Ok? then r.value else v
    case FlattenIn(parent, child) =>
      var r := Flatten(v, parent, child, now);
      if r.Ok? then r.value else v
    case Delete(id) => Remove(v, id)
  }

  /** The vault between the two writes of a carve. */
  function Created(v: Vault, child: BlockId, text: string, now: string): Vault {
    v.(blocks := v.blocks[child := NewBlock(text, now)])
  }

  /** The new child does not embed itself, and nothing the parent then embeds reaches it. */
  ghost predicate CarveCloses(v: Vault, parent: BlockId, child: BlockId, selected: string, left: string, now: string) {
    var created := Created(v, child, selected, now);
    !created.Embeds(Stored(selected), child) && ClosesNothing(created, parent, Stored(left))
  }

  /** No embed of the block is taken over by another one that has its title. */
  ghost predicate PassesNoEmbed(v: Vault, id: BlockId) {
    var w := Remove(v, id);
    forall b, k | b in w.blocks && v.EmbedsAt(w.blocks[b].body, k, id) :: w.Resolve(w.blocks[b].body[k].target) == None
  }

  /**
   The texts written close no cycle once they are read. A carve draws a fresh id, and a delete passes no embed on.
   */
  ghost predicate Allowed(v: Vault, op: GraphOp, now: string) {
    match op
    case PutLink(source, target, embed, place) =>
      source in v.blocks && target in v.blocks ==>
        ClosesNothing(v, source, Stored(LinkedText(v, source, target, embed, place)))
    case Unlink(source, target) =>
      source in v.blocks ==>
        var r := Unlinked(v, v.blocks[source].body, target);
        r.Ok? && r.value.Some? ==> ClosesNothing(v, source, Stored(r.value.value))
    case CarveOut(parent, i, j, child) =>
      && Unmentioned(v, child)
      && (Carve(v, parent, i, j, child, now).Ok? ==>
            var body := v.blocks[parent].body;
            CarveCloses(v, parent, child, Raw(TrimBody(body[i..j])), Raw(CarvedBody(body, i, j, child)), now))
    case FlattenIn(parent, child) =>
      Flatten(v, parent, child, now).Ok? ==> FlattenCloses(v, parent, Raw(FlattenedBody(v, parent, child)), child)
    case Delete(id) => PassesNoEmbed(v, id)
  }

  /** Nothing that the inlined text embeds, now that the child is gone, reached the parent before. */
  ghost predicate FlattenCloses(v: Vault, parent: BlockId, text: string, child: BlockId) {
    forall x | Remove(v, child).Embeds(Stored(text), x) :: !v.Reaches(x, parent)
  }

  ghost function Run(v: Vault, ops: seq<GraphOp>, now: string): Vault
    decreases |ops|
  {
    if ops == [] then v else Step(Run(v, ops[..|ops| - 1], now), ops[|ops| - 1], now)
  }

  ghost predicate AllAllowed(v: Vault, ops: seq<GraphOp>, now: string)
    decreases |ops|
  {
    ops == [] || (AllAllowed(v, ops[..|ops| - 1], now) && Allowed(Run(v, ops[..|ops| - 1], now), ops[|ops| - 1], now))
  }

  // ---------- carving ----------

  lemma CreatedAgrees(v: Vault, child: BlockId, text: string, now: string)
    requires Unmentioned(v, child)
    ensures forall a | a in v.blocks :: Agree(v, Created(v, child, text, now), v.blocks[a].body)
    ensures forall a, b | a != child :: Created(v, child, text, now).Edge(a, b) <==> v.Edge(a, b)
    ensures forall a | a in v.blocks :: !Created(v, child, text, now).Edge(a, child)
  {
    hide Stored;
    var w := Created(v, child, text, now);
    assert SameTitles(v, w);
    forall a | a in v.blocks ensures Agree(v, w, v.blocks[a].body) {
      var body := v.blocks[a].body;
      assert NotSpelled(body, child);
      forall k | 0 <= k < |body| && body[k].Ref? ensures w.Resolve(body[k].target) == v.Resolve(body[k].target) {
        SameTitlesResolve(v, w, body[k].target);
      }
    }
    forall a, b | a != child ensures w.Edge(a, b) <==> v.Edge(a, b) {
      if a in v.blocks { SameEmbeds(v, w, v.blocks[a].body, b); }
    }
    forall a | a in v.blocks ensures !w.Edge(a, child) {
      if w.Edge(a, child) { EdgeTo(v, a, child); }
    }
  }

  lemma CreatedIff(v: Vault, child: BlockId, text: string, now: string)
    requires v.Acyclic() && Unmentioned(v, child)
    ensures var w := Created(v, child, text, now); w.Acyclic() <==> !w.Embeds(Stored(text), child)
  {
    hide Stored;
    var w := Created(v, child, text, now);
    CreatedAgrees(v, child, text, now);
    if w.Embeds(Stored(text), child) {
      assert w.Edge(child, child);
      w.ReachesSelf(child);
    } else {
      var rank0 := AcyclicRanks(v);
      var rank := rank0[child := |v.blocks| + 1];
      forall a, b | w.Edge(a, b) ensures b in w.blocks && rank[b] < rank[a] {
        EdgeTo(w, a, b);
        if a != child { assert v.Edge(a, b) && b != child; }
      }
      RankedAcyclic(w, rank);
    }
  }

  lemma CarveIs(v: Vault, parent: BlockId, i: nat, j: nat, child: BlockId, now: string, w: Vault)
    requires Carve(v, parent, i, j, child, now) == Ok(w)
    ensures parent in v.blocks && parent != child && i < j <= |v.blocks[parent].body|
    ensures var body := v.blocks[parent].body;
            w == PutBody(Created(v, child, Raw(TrimBody(body[i..j])), now), parent,
              Raw(CarvedBody(body, i, j, child)), now)
  {
  }

  lemma CarveAcyclicIff(v: Vault, parent: BlockId, i: nat, j: nat, child: BlockId, now: string, w: Vault)
    requires v.Acyclic() && Unmentioned(v, child) && Carve(v, parent, i, j, child, now) == Ok(w)
    ensures parent in v.blocks && i < j <= |v.blocks[parent].body|
    ensures var body := v.blocks[parent].body;
            w.Acyclic() <==>
              CarveCloses(v, parent, child, Raw(TrimBody(body[i..j])), Raw(CarvedBody(body, i, j, child)), now)
  {
    hide Stored, Carve, Raw, Unmentioned, TrimBody, PutBody;
    CarveIs(v, parent, i, j, child, now, w);
    var body := v.blocks[parent].body;
    var selected, left := Raw(TrimBody(body[i..j])), Raw(CarvedBody(body, i, j, child));
    var created := Created(v, child, selected, now);
    CreatedIff(v, child, selected, now);
    if created.Acyclic() {
      RewriteAcyclicIff(created, parent, left, now);
    } else {
      PutDiffers(created, parent, left, now);
      assert created.Edge(child, child);
      assert w.Edge(child, child);
      w.ReachesSelf(child);
    }
  }

  // ---------- flattening ----------

  lemma FlattenIs(v: Vault, parent: BlockId, child: BlockId, now: string, u: Vault)
    requires v.Acyclic() && Flatten(v, parent, child, now) == Ok(u)
    ensures parent in v.blocks && child in v.blocks && parent != child
    ensures LastRef(v, v.blocks[parent].body, child).Some? && CountAll(v, child) == 1
    ensures v.Edge(parent, child)
    ensures u == Remove(PutBody(v, parent, Raw(FlattenedBody(v, parent, child)), now), child)
  {
    hide Raw, Inlined, CountAll, Stored;
    var k := LastRef(v, v.blocks[parent].body, child).value;
    assert v.EmbedsAt(v.blocks[parent].body, k, child);
    v.ReachesSelf(parent);
  }

  lemma FlattenAcyclicIff(v: Vault, parent: BlockId, child: BlockId, now: string, u: Vault)
    requires v.Acyclic() && Flatten(v, parent, child, now) == Ok(u)
    ensures parent in v.blocks && child in v.blocks && LastRef(v, v.blocks[parent].body, child).Some?
    ensures u.Acyclic() <==> FlattenCloses(v, parent, Raw(FlattenedBody(v, parent, child)), child)
  {
    hide Stored, Raw, Flatten, FlattenedBody, CountAll;
    FlattenIs(v, parent, child, now, u);
    var text := Raw(FlattenedBody(v, parent, child));
    FlattenDiffers(v, parent, child, now, u);
    ChangedIff(v, u, parent, {child});
    forall x ensures u.Edge(parent, x) <==> Remove(v, child).Embeds(Stored(text), x) {
      FlattenShows(v, parent, child, text, now, x);
    }
  }

  lemma FlattenShows(v: Vault, parent: BlockId, child: BlockId, text: string, now: string, x: BlockId)
    requires parent in v.blocks && parent != child
    ensures Remove(PutBody(v, parent, text, now), child).Edge(parent, x) <==> Remove(v, child).Embeds(Stored(text), x)
  {
    hide Stored;
    var r, u := Remove(v, child), Remove(PutBody(v, parent, text, now), child);
    assert u == PutBody(r, parent, text, now);
    PutDiffers(r, parent, text, now);
  }

  /** Nothing but the parent refers to the child, so removing it changes what no other block embeds. */
  lemma FlattenDiffers(v: Vault, parent: BlockId, child: BlockId, now: string, u: Vault)
    requires v.Acyclic() && Flatten(v, parent, child, now) == Ok(u)
    ensures DiffersAt(v, u, parent, {child})
  {
    hide Stored, Raw, Flatten, FlattenedBody, CountAll;
    FlattenIs(v, parent, child, now, u);
    var text := Raw(FlattenedBody(v, parent, child));
    FlattenKeepsResolution(v, parent, child, now, u);
    forall a, b | a != parent && a !in {child} ensures u.Edge(a, b) <==> v.Edge(a, b) {
      if a in v.blocks {
        assert u.blocks[a] == v.blocks[a] && Agree(v, u, u.blocks[a].body);
        SameEmbeds(v, u, v.blocks[a].body, b);
      }
    }
  }

  // ---------- deleting ----------

  lemma DeleteStep(v: Vault, id: BlockId)
    requires v.Acyclic() && PassesNoEmbed(v, id)
    ensures Remove(v, id).Acyclic()
  {
    var w := Remove(v, id);
    var rank := AcyclicRanks(v);
    forall a, b | w.Edge(a, b) ensures b in w.blocks && rank[b] < rank[a] {
      EdgeTo(w, a, b);
      var body := w.blocks[a].body;
      var k :| w.EmbedsAt(body, k, b);
      assert v.Resolve(body[k].target) == Some(id) ==> v.EmbedsAt(body, k, id);
      RemoveKeepsResolve(v, w, id, body[k].target);
      assert v.EmbedsAt(body, k, b) && v.Edge(a, b);
    }
    RankedAcyclic(w, rank);
  }

  // ---------- steps and runs ----------

  /** For every operation but a delete the condition is exact, on every acyclic vault. */
  lemma StepAcyclicIff(v: Vault, op: GraphOp, now: string)
    requires v.Acyclic() && !op.Delete? && (op.CarveOut? ==> Unmentioned(v, op.newId))
    ensures Step(v, op, now).Acyclic() <==> Allowed(v, op, now)
  {
    hide Carve, Flatten, Unlinked, Stored, Raw, LinkedText, CarveCloses, FlattenCloses, ClosesNothing, Unmentioned;
    match op
    case PutLink(source, target, embed, place) =>
      if source in v.blocks { RewriteAcyclicIff(v, source, LinkedText(v, source, target, embed, place), now); }
    case Unlink(source, target) =>
      if source in v.blocks {
        var r := Unlinked(v, v.blocks[source].body, target);
        if r.Ok? && r.value.Some? { RewriteAcyclicIff(v, source, r.value.value, now); }
      }
    case CarveOut(parent, i, j, child) =>
      var r := Carve(v, parent, i, j, child, now);
      if r.Ok? { CarveAcyclicIff(v, parent, i, j, child, now, r.value); }
    case FlattenIn(parent, child) =>
      var r := Flatten(v, parent, child, now);
      if r.Ok? { FlattenAcyclicIff(v, parent, child, now, r.value); }
  }

  lemma StepStaysAcyclic(v: Vault, op: GraphOp, now: string)
    requires v.Acyclic() && Allowed(v, op, now)
    ensures Step(v, op, now).Acyclic()
  {
    if op.Delete? { DeleteStep(v, op.id); } else { StepAcyclicIff(v, op, now); }
  }

  /** No run of allowed operations ever closes a transclusion cycle. */
  lemma {:induction false} RunStaysAcyclic(v: Vault, ops: seq<GraphOp>, now: string)
    requires v.Acyclic() && AllAllowed(v, ops, now)
    ensures Run(v, ops, now).Acyclic()
    decreases |ops|
  {
    hide Allowed, Step;
    if ops != [] {
      RunStaysAcyclic(v, ops[..|ops| - 1], now);
      StepStaysAcyclic(Run(v, ops[..|ops| - 1], now), ops[|ops| - 1], now);
    }
  }

  // ---------- guards on the text ----------

  lemma EmbedsMember(v: Vault, body: Body, x: BlockId) returns (a: Atom)
    requires v.Embeds(body, x)
    ensures a in body && a.Ref? && a.embed && v.Resolve(a.target) == Some(x)
  {
    var k :| v.EmbedsAt(body, k, x);
    a := body[k];
  }

  lemma MemberEmbeds(v: Vault, body: Body, a: Atom, x: BlockId)
    requires a in body && a.Ref? && a.embed && v.Resolve(a.target) == Some(x)
    ensures v.Embeds(body, x)
  {
    var k :| 0 <= k < |body| && body[k] == a;
    assert v.EmbedsAt(body, k, x);
  }

  /** A body that shows no embed but those of the block, and one that leads nowhere near it, closes nothing. */
  lemma OldEmbedsClose(v: Vault, id: BlockId, body: Body, d: Atom)
    requires v.Acyclic() && id in v.blocks
    requires forall a | a in body && a.Ref? :: a in v.blocks[id].body || a == d
    requires d.Ref? && d.embed && v.Resolve(d.target).Some? ==> !v.Reaches(v.Resolve(d.target).value, id)
    ensures ClosesNothing(v, id, body)
  {
    forall x | v.Embeds(body, x) ensures !v.Reaches(x, id) {
      var a := EmbedsMember(v, body, x);
      if a in v.blocks[id].body {
        MemberEmbeds(v, v.blocks[id].body, a, x);
        assert v.Edge(id, x);
      }
    }
  }

  lemma {:induction false} DropNlMember(body: Body, a: Atom)
    requires a in DropNl(body)
    ensures a in body
  {
    if body != [] && body[0] == Ch('\n') { DropNlMember(body[1..], a); }
  }

  lemma LinkAllowed(v: Vault, source: BlockId, target: BlockId, embed: bool, place: Placement, now: string)
    requires v.Acyclic() && source in v.blocks && target in v.blocks
    requires Readable(v.blocks[source].body, false) && PlaceIsText(v, v.blocks[source].body, place)
    ensures Allowed(v, PutLink(source, target, embed, place), now)
  {
    hide Readable, PlaceIsText, OwnDirective, Stored, Raw, Placed, ClosesNothing, ReadsBack;
    var body := v.blocks[source].body;
    var d := LinkDirective(v, source, target, embed);
    var placed := Placed(v, body, d, place);
    OwnById(target);
    ResolveId(v, target);
    PlacedReads(v, body, d, place);
    StoredReads(placed);
    BackIs(placed);
    forall a | a in DropNl(placed) && a.Ref? ensures a in body || a == d {
      DropNlMember(placed, a);
      PlacedMember(v, body, d, place, a);
    }
    OldEmbedsClose(v, source, DropNl(placed), d);
  }

  lemma BackIs(body: Body)
    requires ReadsBack(body)
    ensures Stored(Raw(body)) == DropNl(body)
  {
  }

  /** An unlink that meets its directives on different lines is allowed: it leaves the other lines. */
  lemma UnlinkAllowed(v: Vault, source: BlockId, target: BlockId, now: string)
    requires v.Acyclic() && source in v.blocks
    requires Readable(v.blocks[source].body, false) && NoLineTwice(v, v.blocks[source].body, target)
    ensures var body := v.blocks[source].body;
            && Allowed(v, Unlink(source, target), now)
            && Step(v, Unlink(source, target), now)
               == if NoHits(v, body, target) then v else PutBody(v, source, Raw(Left(v, body, target)), now)
    ensures ReadsBack(Left(v, v.blocks[source].body, target))
  {
    hide Unlinked, Raw, Left, NoHits, NoLineTwice, Bracketed, Readable, Stored, ClosesNothing, ReadsBack;
    var body := v.blocks[source].body;
    var left := Left(v, body, target);
    ReadableBracketed(body, false);
    UnlinkRemovesAll(v, body, target);
    UnlinkReads(v, body, target);
    StoredReads(left);
    BackIs(left);
    UnlinkKeepsOtherLines(v, body, target);
    forall a | a in DropNl(left) && a.Ref? ensures a in body {
      DropNlMember(left, a);
      RefsMember(left, a);
      RefsMember(body, a);
    }
    OldEmbedsClose(v, source, DropNl(left), Ch(' '));
  }

  lemma CarveAllowed(v: Vault, parent: BlockId, i: nat, j: nat, child: BlockId, now: string)
    requires v.Acyclic() && Unmentioned(v, child) && parent in v.blocks && i <= j <= |v.blocks[parent].body|
    requires ReadsBack(TrimBody(v.blocks[parent].body[i..j]))
    requires ReadsBack(CarvedBody(v.blocks[parent].body, i, j, child))
    ensures Allowed(v, CarveOut(parent, i, j, child), now)
  {
    hide Raw, Stored, ReadsBack, Carve, Unmentioned, ClosesNothing, TrimBody, Created;
    var body := v.blocks[parent].body;
    var selected, left := TrimBody(body[i..j]), CarvedBody(body, i, j, child);
    BackIs(selected);
    BackIs(left);
    var created := Created(v, child, Raw(selected), now);
    CarvedEmbeds(v, parent, i, j, child, now);
  }

  /** Everything in a selection and around it was the parent's; only the child's embed is new. */
  lemma CarvedEmbeds(v: Vault, parent: BlockId, i: nat, j: nat, child: BlockId, now: string)
    requires v.Acyclic() && Unmentioned(v, child) && parent in v.blocks && i <= j <= |v.blocks[parent].body|
    requires ReadsBack(TrimBody(v.blocks[parent].body[i..j]))
    ensures var body := v.blocks[parent].body;
            var selected := TrimBody(body[i..j]);
            var created := Created(v, child, Raw(selected), now);
            && !created.Embeds(DropNl(selected), child)
            && ClosesNothing(created, parent, DropNl(CarvedBody(body, i, j, child)))
  {
    hide Raw, Stored, ReadsBack, ClosesNothing, TrimBody, EmbedOf, Vault.Embeds;
    var body := v.blocks[parent].body;
    var selected, left := TrimBody(body[i..j]), CarvedBody(body, i, j, child);
    var created := Created(v, child, Raw(selected), now);
    BackIs(selected);
    CreatedAgrees(v, child, Raw(selected), now);
    CreatedBody(v, child, Raw(selected), now);
    forall a | a in DropNl(selected) && a.Ref? ensures a in body { SelectedMember(body, i, j, a); }
    forall x | created.Embeds(DropNl(selected), x) ensures created.Edge(parent, x) {
      var a := EmbedsMember(created, DropNl(selected), x);
      MemberEmbeds(created, body, a, x);
    }
    CreatedIff(v, child, Raw(selected), now);
    forall a | a in DropNl(left) && a.Ref? ensures a in body || a == EmbedOf(child) { DropNlMember(left, a); }
    ChildReachesNotParent(v, created, parent, child);
    ResolveId(created, child);
    EmbedTarget(child);
    OldEmbedsClose(created, parent, DropNl(left), EmbedOf(child));
  }

  lemma EmbedTarget(id: BlockId)
    ensures EmbedOf(id).Ref? && EmbedOf(id).target == id
  {}

  lemma CreatedBody(v: Vault, child: BlockId, text: string, now: string)
    requires Unmentioned(v, child)
    ensures var w := Created(v, child, text, now);
            && child in w.blocks && w.blocks[child].body == Stored(text)
            && forall a | a in v.blocks :: a in w.blocks && w.blocks[a] == v.blocks[a] && a != child
    ensures forall x ::
              Created(v, child, text, now).Edge(child, x) <==> Created(v, child, text, now).Embeds(Stored(text), x)
  {}

  lemma SelectedMember(body: Body, i: nat, j: nat, a: Atom)
    requires i <= j <= |body| && a in DropNl(TrimBody(body[i..j])) && a.Ref?
    ensures a in body
  {
    DropNlMember(TrimBody(body[i..j]), a);
    RefsTrimStart(body[i..j]);
    RefsTrimEnd(TrimBodyStart(body[i..j]));
    RefsMember(TrimBody(body[i..j]), a);
    RefsMember(body[i..j], a);
  }

  /** A child that embeds only what its parent does is no way back to the parent. */
  lemma ChildReachesNotParent(v: Vault, w: Vault, parent: BlockId, child: BlockId)
    requires parent in v.blocks && parent != child && w.Acyclic()
    requires forall x | w.Edge(child, x) :: w.Edge(parent, x)
    ensures !w.Reaches(child, parent)
  {
    if w.Reaches(child, parent) { var x := w.ReachesFirst(child, parent); }
  }

  lemma FlattenAllowed(v: Vault, parent: BlockId, child: BlockId, now: string)
    requires v.Acyclic()
    requires Flatten(v, parent, child, now).Ok? ==> ReadsBack(FlattenedBody(v, parent, child))
    ensures Allowed(v, FlattenIn(parent, child), now)
  {
    hide Raw, Stored, Flatten, ReadsBack, FlattenedBody, FlattenCloses;
    var r := Flatten(v, parent, child, now);
    if r.Ok? {
      FlattenIs(v, parent, child, now, r.value);
      FlattenedCloses(v, parent, child, now, r.value);
    }
  }

  lemma FlattenedCloses(v: Vault, parent: BlockId, child: BlockId, now: string, u: Vault)
    requires v.Acyclic() && Flatten(v, parent, child, now) == Ok(u)
    requires parent in v.blocks && child in v.blocks && LastRef(v, v.blocks[parent].body, child).Some?
    requires ReadsBack(FlattenedBody(v, parent, child))
    ensures FlattenCloses(v, parent, Raw(FlattenedBody(v, parent, child)), child)
  {
    hide Raw, Stored, Flatten, ReadsBack, FlattenedBody;
    BackIs(FlattenedBody(v, parent, child));
    FlattenedEmbeds(v, parent, child, now, u);
  }

  lemma FlattenedEmbeds(v: Vault, parent: BlockId, child: BlockId, now: string, u: Vault)
    requires v.Acyclic() && Flatten(v, parent, child, now) == Ok(u)
    requires parent in v.blocks && child in v.blocks && LastRef(v, v.blocks[parent].body, child).Some?
    requires ReadsBack(FlattenedBody(v, parent, child))
    ensures forall x | Remove(v, child).Embeds(DropNl(FlattenedBody(v, parent, child)), x) :: !v.Reaches(x, parent)
  {
    hide Raw, Stored, Flatten, ReadsBack, CountAll;
    FlattenIs(v, parent, child, now, u);
    var body := v.blocks[parent].body;
    var k := LastRef(v, body, child).value;
    OnlyReference(v, parent, k, child);
    var inlined, w := DropNl(FlattenedBody(v, parent, child)), Remove(v, child);
    forall x | w.Embeds(inlined, x) ensures !v.Reaches(x, parent) {
      var a := EmbedsMember(w, inlined, x);
      InlinedAtoms(body, k, v.blocks[child].body, a);
      assert !RefersTo(v, a, child);
      RemoveKeepsResolve(v, w, child, a.target);
      if a in v.blocks[child].body {
        MemberEmbeds(v, v.blocks[child].body, a, x);
        assert v.Edge(child, x);
        if v.Reaches(x, parent) { v.ReachesStep(child, x, parent); }
      } else {
        MemberEmbeds(v, body, a, x);
        assert v.Edge(parent, x);
      }
    }
  }

  /** Every body is what its text is read as, as it is in a vault read from files. */
  ghost predicate AllReadable(v: Vault) {
    forall id | id in v.blocks :: Readable(v.blocks[id].body, false)
  }

  /**
   Checked on the texts: a directive is placed between whole lines outside fences, an unlink meets its directives on
   different lines, a carve and a flatten touch no line with code marks, a delete passes no embed on.
   */
  ghost predicate OnText(v: Vault, op: GraphOp) {
    match op
    case PutLink(source, _, _, place) => source in v.blocks ==> PlaceIsText(v, v.blocks[source].body, place)
    case Unlink(source, target) => source in v.blocks ==> NoLineTwice(v, v.blocks[source].body, target)
    case CarveOut(parent, i, j, child) =>
      && Unmentioned(v, child)
      && (parent in v.blocks && i <= j <= |v.blocks[parent].body| ==> OutsideCode(v.blocks[parent].body, i, j, child))
    case FlattenIn(parent, child) =>
      parent in v.blocks && child in v.blocks ==>
        var k := LastRef(v, v.blocks[parent].body, child);
        k.Some? ==> InlinesText(v.blocks[parent].body, k.value, v.blocks[child].body)
    case Delete(id) => PassesNoEmbed(v, id)
  }

  /** The guards on the texts are enough. */
  lemma OnTextAllowed(v: Vault, op: GraphOp, now: string)
    requires v.Acyclic() && AllReadable(v) && OnText(v, op)
    ensures Allowed(v, op, now)
  {
    hide Readable, PlaceIsText, NoLineTwice, OutsideCode, InlinesText, Stored, Raw, ReadsBack, LinkedText, Unlinked,
      ClosesNothing, FlattenCloses, CarveCloses, Unmentioned, FlattenedBody, Inlined, TrimBody;
    match op
    case PutLink(source, target, embed, place) =>
      if source in v.blocks && target in v.blocks { LinkAllowed(v, source, target, embed, place, now); }
    case Unlink(source, target) => if source in v.blocks { UnlinkAllowed(v, source, target, now); }
    case CarveOut(parent, i, j, child) =>
      if parent in v.blocks && i <= j <= |v.blocks[parent].body| {
        CarveReads(v.blocks[parent].body, i, j, child);
        CarveAllowed(v, parent, i, j, child, now);
      } else {
        NoCarve(v, parent, i, j, child, now);
      }
    case FlattenIn(parent, child) =>
      if Flatten(v, parent, child, now).Ok? { FlattenTextReads(v, parent, child, now); }
      FlattenAllowed(v, parent, child, now);
    case Delete(id) =>
  }

  lemma NoCarve(v: Vault, parent: BlockId, i: nat, j: nat, child: BlockId, now: string)
    requires !(parent in v.blocks && i <= j <= |v.blocks[parent].body|)
    ensures Carve(v, parent, i, j, child, now).Err?
  {}

  lemma FlattenTextReads(v: Vault, parent: BlockId, child: BlockId, now: string)
    requires v.Acyclic() && AllReadable(v) && Flatten(v, parent, child, now).Ok? && OnText(v, FlattenIn(parent, child))
    ensures parent in v.blocks && child in v.blocks && LastRef(v, v.blocks[parent].body, child).Some?
    ensures ReadsBack(FlattenedBody(v, parent, child))
  {
    hide *;
    FlattenIs(v, parent, child, now, Flatten(v, parent, child, now).value);
    LastIsRef(v, v.blocks[parent].body, child);
    InlinedOnText(v, parent, child);
    FlattenReads(v.blocks[parent].body, LastRef(v, v.blocks[parent].body, child).value, v.blocks[child].body);
    FlattenedIs(v, parent, child);
  }

  lemma LastIsRef(v: Vault, body: Body, child: BlockId)
    requires LastRef(v, body, child).Some?
    ensures LastRef(v, body, child).value < |body| && body[LastRef(v, body, child).value].Ref?
  {}

  lemma InlinedOnText(v: Vault, parent: BlockId, child: BlockId)
    requires AllReadable(v) && OnText(v, FlattenIn(parent, child))
    requires parent in v.blocks && child in v.blocks && LastRef(v, v.blocks[parent].body, child).Some?
    ensures Readable(v.blocks[parent].body, false)
    ensures InlinesText(v.blocks[parent].body, LastRef(v, v.blocks[parent].body, child).value, v.blocks[child].body)
  {
    hide Readable, InlinesText;
  }

  lemma FlattenedIs(v: Vault, parent: BlockId, child: BlockId)
    requires parent in v.blocks && child in v.blocks && LastRef(v, v.blocks[parent].body, child).Some?
    ensures FlattenedBody(v, parent, child)
            == Inlined(v.blocks[parent].body, LastRef(v, v.blocks[parent].body, child).value, v.blocks[child].body)
  {}

  lemma StoredReadable(text: string)
    ensures Readable(Stored(text), false)
  {
    ReadRaw(TrimNlStart(text), false);
  }

  /** What comes back from a file is a body again, whatever was written. */
  lemma StepReadable(v: Vault, op: GraphOp, now: string)
    requires AllReadable(v)
    ensures AllReadable(Step(v, op, now))
  {
    hide Readable, Raw, Stored, Unlinked, CountAll, TrimBody;
    forall text: string ensures Readable(Stored(text), false) { StoredReadable(text); }
  }

  ghost predicate AllOnText(v: Vault, ops: seq<GraphOp>, now: string)
    decreases |ops|
  {
    ops == [] || (AllOnText(v, ops[..|ops| - 1], now) && OnText(Run(v, ops[..|ops| - 1], now), ops[|ops| - 1]))
  }

  /** So runs that keep to the guards close no cycle. */
  lemma {:induction false} RunOnTextAcyclic(v: Vault, ops: seq<GraphOp>, now: string)
    requires v.Acyclic() && AllReadable(v) && AllOnText(v, ops, now)
    ensures Run(v, ops, now).Acyclic() && AllReadable(Run(v, ops, now)) && AllAllowed(v, ops, now)
    decreases |ops|
  {
    hide Allowed, Step, OnText, AllReadable;
    if ops != [] {
      var before := Run(v, ops[..|ops| - 1], now);
      RunOnTextAcyclic(v, ops[..|ops| - 1], now);
      OnTextAllowed(before, ops[|ops| - 1], now);
      StepStaysAcyclic(before, ops[|ops| - 1], now);
      StepReadable(before, ops[|ops| - 1], now);
    }
  }

  // ---------- without the guards ----------

  lemma SelfEmbedCycles(v: Vault, a: BlockId)
    requires v.Edge(a, a)
    ensures !v.Acyclic()
  {
    v.ReachesSelf(a);
  }

  /** A body with a doubled embed of `t`, and an embed of its own block `a` shown as code behind it. */
  function Trap(a: BlockId, t: BlockId): Body {
    Doubled(t) + [Ch('\n')] + (Chars(Dashes() + "`") + Chars(EmbedOf(a).src + "`"))
  }

  function Dashes(): string { seq(61, _ => '-') }

  lemma TrapReads(a: BlockId, t: BlockId)
    ensures Readable(Trap(a, t), false)
  {
    hide Raw, EmbedOf, NoFence, Readable, Open;
    SourceStart(a);
    var line, code := Doubled(t) + [Ch('\n')], Chars(Dashes() + "`") + Chars(EmbedOf(a).src + "`");
    TrapLine(t);
    var text := Dashes() + "`" + EmbedOf(a).src + ("`" + "");
    TicksAround(Dashes(), a, "");
    CharsConcat(Dashes() + "`", EmbedOf(a).src + "`");
    assert text == Dashes() + "`" + (EmbedOf(a).src + "`");
    assert code == Chars(text);
    RawChars(text);
    ReadBackIs(code, text);
    Together(line, code, false);
  }

  lemma ReadBackIs(body: Body, text: string)
    requires Raw(body) == text && Read(text) == body
    ensures Readable(body, false)
  {}

  lemma TrapLine(t: BlockId)
    ensures var line := Doubled(t) + [Ch('\n')]; Readable(line, false) && !Open(line, false) && FullLines(line)
  {
    hide Raw, NoFence, EmbedOf, QuietAtom, Readable, Open;
    OwnEmbed(t);
    var one := EmbedOf(t);
    QuietAround([], one, []);
    assert [] + [one] + [] == [one];
    QuietAround([one], one, []);
    assert [one] + [one] + [] == Doubled(t);
    EmbedPlain(t);
    RawConcat([one], [one]);
    assert [one] + [one] == Doubled(t);
    PlainNoFence(Raw(Doubled(t)));
    QuietSealed(Doubled(t));
    SealedIs(Doubled(t));
  }

  lemma SealedIs(lines: Body)
    requires Sealed(lines)
    ensures Readable(lines + [Ch('\n')], false) && !Open(lines + [Ch('\n')], false)
  {}

  /**
   Two directives on one line: an unlink can close a cycle. The second cut eats the backtick that made the embed of `a`
   in `a` code; what is left of the line shows it, for a backtick that nothing closes hides nothing.
   */
  lemma UnlinkTwiceCanCycle(v: Vault, a: BlockId, t: BlockId, meta: Meta, now: string)
    requires a != t && v.blocks == map[a := Block(None, meta, Trap(a, t)), t := Block(None, meta, [])]
    ensures AllReadable(v) && v.Acyclic() && !Step(v, Unlink(a, t), now).Acyclic()
  {
    hide Unlinked, Raw, EmbedOf, Readable, Stored;
    SourceStart(a);
    var text := EmbedOf(a).src + "`" + "\n";
    TrapReads(a, t);
    EmptyReads();
    TrapCut(v, a, t);
    TrapLeft(a);
    TrapEmbeds(v, a, t);
    RankedAcyclic(v, map[a := 1, t := 0]);
    var w := Step(v, Unlink(a, t), now);
    assert w == PutBody(v, a, text, now) && w.blocks[a].body == [EmbedOf(a), Ch('`'), Ch('\n')];
    ResolveId(w, a);
    EmbedTarget(a);
    EmbedFlag(a);
    assert w.EmbedsAt(w.blocks[a].body, 0, a) && w.Edge(a, a);
    SelfEmbedCycles(w, a);
  }

  lemma TrapEmbeds(v: Vault, a: BlockId, t: BlockId)
    requires a != t && v.blocks.Keys == {a, t} && v.blocks[a].body == Trap(a, t) && v.blocks[t].body == []
    ensures Ranked(v, map[a := 1, t := 0])
  {
    ResolveId(v, t);
    forall x, y | v.Edge(x, y) ensures x == a && y == t {
      var k :| v.EmbedsAt(v.blocks[x].body, k, y);
      assert x == a ==> Trap(a, t)[k] == EmbedOf(t);
    }
  }

  lemma TrapCut(v: Vault, a: BlockId, t: BlockId)
    requires t in v.blocks
    ensures Unlinked(v, Trap(a, t), t) == Ok(Some(EmbedOf(a).src + "`" + "\n"))
  {
    hide Unlinked, Raw, EmbedOf;
    SourceStart(a);
    var shown := EmbedOf(a).src + "`";
    assert Bracketed(Chars(shown)) && NoHits(v, Chars(shown), t);
    UnlinkTwiceEatsText(v, t, Dashes() + "`", Chars(shown));
    RawChars(shown);
    assert Behind(shown, 0) == shown && shown[|shown| - 1] == '`' && TrimEnd(shown) == shown;
  }

  lemma TrapLeft(a: BlockId)
    ensures Stored(EmbedOf(a).src + "`" + "\n") == [EmbedOf(a), Ch('`'), Ch('\n')]
  {
    hide EmbedOf, Read;
    SourceStart(a);
    var text := EmbedOf(a).src + ("`" + "");
    TickAfter(a, "");
    ReadLine(text);
    assert text + "\n" == EmbedOf(a).src + "`" + "\n";
    assert [EmbedOf(a)] + Chars("`" + "") + [Ch('\n')] == [EmbedOf(a), Ch('`'), Ch('\n')];
  }

  lemma ReadLine(text: string)
    requires text != "" && text[0] != '\n'
    ensures Stored(text + "\n") == Read(text) + [Ch('\n')]
  {
    hide ReadFrom;
    ReadSpace(text, '\n', false);
    assert text + ['\n'] == text + "\n" && TrimNlStart(text + "\n") == text + "\n";
  }

  /**
   A carve that cuts a code span in two closes a cycle: the child starts with a backtick that nothing closes, so its
   embed of the parent shows.
   */
  lemma CarveCanCycle(v: Vault, p: BlockId, meta: Meta, child: BlockId, now: string)
    requires child != p && v.blocks == map[p := Block(None, meta, Chars("`" + EmbedOf(p).src + "` tail"))]
    ensures AllReadable(v) && v.Acyclic() && Unmentioned(v, child)
    ensures Carve(v, p, 0, 32, child, now).Ok? && !Step(v, CarveOut(p, 0, 32, child), now).Acyclic()
  {
    hide Raw, EmbedOf, Readable, Stored;
    SourceStart(p);
    SpanReads(p);
    var body := v.blocks[p].body;
    forall x, y ensures !v.Edge(x, y) { assert v.Edge(x, y) ==> x == p; }
    SpanCut(p, child);
    var w := Step(v, CarveOut(p, 0, 32, child), now);
    assert w.blocks[child].body == [Ch('`'), EmbedOf(p)] && w.blocks[p].body == [EmbedOf(child)] + Chars("` tail");
    ResolveId(w, p);
    ResolveId(w, child);
    EmbedTarget(p);
    EmbedTarget(child);
    SourceStart(child);
    EmbedFlag(p);
    EmbedFlag(child);
    assert w.EmbedsAt(w.blocks[child].body, 1, p) && w.EmbedsAt(w.blocks[p].body, 0, child);
    assert w.Edge(child, p) && w.Edge(p, child);
    w.ReachesSelf(p);
    w.ReachesStep(child, p, p);
  }

  lemma EmbedFlag(id: BlockId)
    ensures EmbedOf(id).Ref? && EmbedOf(id).embed
  {}

  lemma SpanReads(p: BlockId)
    ensures EmbedOf(p).Ref? && Readable(Chars("`" + EmbedOf(p).src + "` tail"), false)
  {
    hide Raw, EmbedOf, Readable, Read;
    SourceStart(p);
    TicksAround("", p, " tail");
    var text := "" + "`" + EmbedOf(p).src + ("`" + " tail");
    assert text == "`" + EmbedOf(p).src + "` tail";
    RawChars(text);
    ReadBackIs(Chars(text), text);
  }

  lemma SpanCut(p: BlockId, child: BlockId)
    ensures EmbedOf(p).Ref?
    ensures var body := Chars("`" + EmbedOf(p).src + "` tail");
            && |body| >= 32 && TrimBody(body[0..32]) != []
            && Stored(Raw(TrimBody(body[0..32]))) == [Ch('`'), EmbedOf(p)]
            && Stored(Raw(CarvedBody(body, 0, 32, child))) == [EmbedOf(child)] + Chars("` tail")
  {
    hide Raw, EmbedOf, Read;
    SourceStart(p);
    SourceStart(child);
    var body := Chars("`" + EmbedOf(p).src + "` tail");
    var selected := "`" + EmbedOf(p).src;
    assert body[0..32] == Chars(selected) && body[32..] == Chars("` tail") && body[..0] == [];
    SourceEnd(p);
    assert TrimBody(Chars(selected)) == Chars(selected);
    RawChars(selected);
    TickBefore(p);
    assert TrimNlStart(selected) == selected;
    var left := EmbedOf(child).src + ("`" + " tail");
    RawConcat([EmbedOf(child)], Chars("` tail"));
    RawChars("` tail");
    EmbedPlain(child);
    assert CarvedBody(body, 0, 32, child) == [EmbedOf(child)] + Chars("` tail");
    assert Raw(CarvedBody(body, 0, 32, child)) == left && TrimNlStart(left) == left;
    TickAfter(child, " tail");
  }

  lemma SourceEnd(id: BlockId)
    ensures EmbedOf(id).Ref? && |EmbedOf(id).src| == 31 && EmbedOf(id).src[30] == ']'
  {}

  // ---------- deletes ----------

  /** Every embed names an id, and no title could stand in for one. */
  ghost predicate IdTargeted(v: Vault) {
    && (forall b, k | b in v.blocks && 0 <= k < |v.blocks[b].body| && v.blocks[b].body[k].Ref?
      && v.blocks[b].body[k].embed ::
          IsBlockId(Trim(v.blocks[b].body[k].target)))
    && (forall b, t: BlockId | b in v.blocks :: v.TitleKey(b) != Some(v.lower(t)))
  }

  /** Then a delete passes no embed on. */
  lemma DeleteAllowed(v: Vault, id: BlockId)
    requires IdTargeted(v)
    ensures PassesNoEmbed(v, id)
  {
    var w := Remove(v, id);
    forall b, k | b in w.blocks && v.EmbedsAt(w.blocks[b].body, k, id)
      ensures w.Resolve(w.blocks[b].body[k].target) == None {
      var a := v.blocks[b].body[k];
      assert a.Ref? && a.embed && IsBlockId(Trim(a.target));
      var t: BlockId := Trim(a.target);
      NoHolder(v, t);
      assert w.Holders(w.lower(t)) == {} by {
        forall x | x in w.blocks ensures w.TitleKey(x) != Some(w.lower(t)) { assert w.TitleKey(x) == v.TitleKey(x); }
      }
    }
  }

  lemma NoHolder(v: Vault, t: BlockId)
    requires IdTargeted(v)
    ensures v.Holders(v.lower(t)) == {}
  {}

  /** Title targets are left out for a reason: deleting the owner of a shared title can make a block embed itself. */
  lemma TitleTargetsCanCycle(v: Vault, a: BlockId, b: BlockId, meta: Meta)
    requires Le(a, b) && a != b && v.lower("t") != "" && !IsBlockId("t")
    requires v.blocks == map[a := Block(Some("t"), meta, []),
            b := Block(Some("t"), meta, [Ref(true, "t", None, "![[t]]")])]
    ensures v.Acyclic() && !Remove(v, a).Acyclic()
  {
    TitleOwnedByFirst(v, a, b, meta);
    forall x, y | v.Edge(x, y) ensures x == b && y == a { assert v.EmbedsAt(v.blocks[b].body, 0, a); }
    RankedAcyclic(v, map[a := 0, b := 1]);
    var w := Remove(v, a);
    assert w.blocks == map[b := v.blocks[b]];
    TitleOwnedAlone(w, b, meta);
    assert w.EmbedsAt(w.blocks[b].body, 0, b) && w.Edge(b, b);
    w.ReachesSelf(b);
  }

  lemma TitleOwnedByFirst(v: Vault, a: BlockId, b: BlockId, meta: Meta)
    requires Le(a, b) && a != b && v.lower("t") != "" && !IsBlockId("t")
    requires v.blocks == map[a := Block(Some("t"), meta, []),
            b := Block(Some("t"), meta, [Ref(true, "t", None, "![[t]]")])]
    ensures v.Resolve("t") == Some(a)
  {
    TrimEnds("t");
    LeTotal(a, a);
    assert v.Holders(v.lower("t")) == {a, b};
    assert IsLeast(a, {a, b});
    LeastUnique(a, v.TitleOwner(v.lower("t")).value, {a, b});
  }

  lemma TitleOwnedAlone(w: Vault, b: BlockId, meta: Meta)
    requires w.lower("t") != "" && !IsBlockId("t")
    requires w.blocks == map[b := Block(Some("t"), meta, [Ref(true, "t", None, "![[t]]")])]
    ensures w.Resolve("t") == Some(b)
  {
    TrimEnds("t");
    assert w.Holders(w.lower("t")) == {b};
  }
}
