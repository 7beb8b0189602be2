/** Rendering a block: expanding its embeds over a graph that may be cyclic, and laying the result out. */
module Render {
  import opened Prelude
  import opened Text
  import opened Wiki
  import opened Layout

  /** The author's alias, or the title of the block when the bare target was written. */
  function RefText(v: Vault, id: BlockId, r: Atom): string
    requires r.Ref? && id in v.blocks
  {
    if r.Label() == r.target then v.blocks[id].DisplayTitle(id) else r.Label()
  }

  /**
   What a body expands to when the blocks of `visited` are open above it. Defined on every vault: either a
   block not yet visited is entered, or the body gets shorter.
   */
  function Expand(v: Vault, body: Body, visited: set<BlockId>): (doc: seq<Node>)
    ensures |doc| == |body|
    decreases v.blocks.Keys - visited, |body|
  {
    if body == [] then [] else [ExpandAtom(v, body[0], visited)] + Expand(v, body[1..], visited)
  }

  function ExpandAtom(v: Vault, a: Atom, visited: set<BlockId>): Node
    decreases v.blocks.Keys - visited, 0
  {
    if a.Ch? then Lit(a.c) else
    var target := v.Resolve(a.target);
    if !a.embed then
      if target.None? then Dangling(a.Label()) else Link(target.value, RefText(v, target.value, a))
    else if target.None? then Missing(a.target, a.Label())
    else if target.value in visited then Cycle(target.value, a.Label())
    else
      var id := target.value;
      assert v.blocks.Keys - (visited + {id}) < v.blocks.Keys - visited by {
        assert id in v.blocks.Keys - visited;
      }
      Embedded(id, v.blocks[id].DisplayTitle(id), Expand(v, v.blocks[id].body, visited + {id}))
  }

  lemma {:induction false} ExpandConcat(v: Vault, a: Body, b: Body, visited: set<BlockId>)
    ensures Expand(v, a + b, visited) == Expand(v, a, visited) + Expand(v, b, visited)
    decreases |a|
  {
    if a == [] {
      assert a + b == b;
    } else {
      assert (a + b)[1..] == a[1..] + b;
      ExpandConcat(v, a[1..], b, visited);
    }
  }

  lemma ExpandCons(v: Vault, body: Body, visited: set<BlockId>)
    requires body != []
    ensures Expand(v, body, visited) != []
    ensures Expand(v, body, visited)[0] == ExpandAtom(v, body[0], visited)
    ensures Expand(v, body, visited)[1..] == Expand(v, body[1..], visited)
  {
  }

  lemma ExpandOne(v: Vault, a: Atom, visited: set<BlockId>)
    ensures Expand(v, [a], visited) == [ExpandAtom(v, a, visited)]
  {
    assert [a][1..] == [];
  }

  /** The body of a block as `render_flat` and `render_flat_in_set` write it. */
  function FlatBlock(v: Vault, id: BlockId, links: Option<FlatSet>): string
    requires id in v.blocks
  {
    Flat(Expand(v, v.blocks[id].body, {id}), links, 0)
  }

  // ---------- the program's loops ----------

  lemma FlatNothing(v: Vault, body: Body, visited: set<BlockId>, links: Option<FlatSet>)
    requires body == []
    ensures Flat(Expand(v, body, visited), links, 0) == ""
  {
  }

  lemma FlatSnoc(v: Vault, body: Body, i: nat, visited: set<BlockId>, links: Option<FlatSet>)
    requires i < |body|
    ensures var before := Flat(Expand(v, body[..i], visited), links, 0);
            Flat(Expand(v, body[..i + 1], visited), links, 0)
            == before + FlatNode(ExpandAtom(v, body[i], visited), links, Width(before))
  {
    assert body[..i + 1] == body[..i] + [body[i]];
    ExpandConcat(v, body[..i], [body[i]], visited);
    ExpandOne(v, body[i], visited);
    var before := Expand(v, body[..i], visited);
    FlatConcat(before, [ExpandAtom(v, body[i], visited)], links, 0);
    FlatOne(ExpandAtom(v, body[i], visited), links, Advance(0, Flat(before, links, 0)));
  }

  lemma FlatNodeKind(v: Vault, a: Atom, visited: set<BlockId>, links: Option<FlatSet>, col: nat)
    ensures a.Ch? ==> FlatNode(ExpandAtom(v, a, visited), links, col) == [a.c]
    ensures a.Ref? && a.embed ==>
              var n := ExpandAtom(v, a, visited);
              (n.Cycle? || n.Missing? || n.Embedded?) && FlatNode(n, links, col) == Reindent(Dissolved(n, links), col)
  {
  }

  lemma CardsSnoc(v: Vault, body: Body, i: nat, visited: set<BlockId>)
    requires i < |body|
    ensures Cards(Expand(v, body[..i + 1], visited))
            == Cards(Expand(v, body[..i], visited)) + CardNode(ExpandAtom(v, body[i], visited))
  {
    assert body[..i + 1] == body[..i] + [body[i]];
    ExpandConcat(v, body[..i], [body[i]], visited);
    ExpandOne(v, body[i], visited);
    CardsConcat(Expand(v, body[..i], visited), [ExpandAtom(v, body[i], visited)]);
    assert [ExpandAtom(v, body[i], visited)][1..] == [];
  }

  /** `visited` is handed back as it came: every block entered is left again. */
  method RenderFlatBody(v: Vault, body: Body, visited0: set<BlockId>, links: Option<FlatSet>)
    returns (out: string, visited: set<BlockId>)
    ensures out == Flat(Expand(v, body, visited0), links, 0)
    ensures visited == visited0
    decreases v.blocks.Keys - visited0, 1
  {
    hide Flat, Expand, FlatNode, ExpandAtom, Dissolved, Reindent, Width;
    out, visited := "", visited0;
    FlatNothing(v, body[..0], visited0, links);
    for i := 0 to |body|
      invariant out == Flat(Expand(v, body[..i], visited0), links, 0)
      invariant visited == visited0
    {
      var a := body[i];
      FlatSnoc(v, body, i, visited0, links);
      FlatNodeKind(v, a, visited0, links, Width(out));
      if a.Ch? {
        out := out + [a.c];
      } else if a.embed {
        var col := Width(out);
        var dissolved;
        dissolved, visited := DissolveEmbed(v, a, visited, links);
        var piece := ReindentContinuation(dissolved, col);
        out := out + piece;
      } else {
        out := out + FlatReference(v, a, links);
      }
    }
    assert body[..|body|] == body;
  }

  function FlatReference(v: Vault, a: Atom, links: Option<FlatSet>): (r: string)
    requires a.Ref? && !a.embed
    ensures forall visited, col :: r == FlatNode(ExpandAtom(v, a, visited), links, col)
  {
    var target := v.Resolve(a.target);
    if target.None? then a.Label() else LinkText(target.value, RefText(v, target.value, a), links)
  }

  method DissolveEmbed(v: Vault, a: Atom, visited0: set<BlockId>, links: Option<FlatSet>)
    returns (out: string, visited: set<BlockId>)
    requires a.Ref? && a.embed
    ensures out == Dissolved(ExpandAtom(v, a, visited0), links)
    ensures visited == visited0
    decreases v.blocks.Keys - visited0, 0
  {
    ghost var node := ExpandAtom(v, a, visited0);
    visited := visited0;
    var target := v.Resolve(a.target);
    if target.None? {
      assert node == Missing(a.target, a.Label());
      out := MissingMark(a.target);
    } else if target.value in visited {
      assert node == Cycle(target.value, a.Label());
      out := CycleMark(a.Label());
    } else {
      var id := target.value;
      visited := visited + {id};
      assert v.blocks.Keys - visited < v.blocks.Keys - visited0 by { assert id in v.blocks.Keys - visited0; }
      var body;
      body, visited := RenderFlatBody(v, v.blocks[id].body, visited, links);
      visited := visited - {id};
      assert node.Embedded? && node.doc == Expand(v, v.blocks[id].body, visited0 + {id});
      out := TrimNl(body);
    }
  }

  method RenderFlat(v: Vault, id: BlockId, links: Option<FlatSet>) returns (out: Option<string>)
    ensures out.Some? <==> id in v.blocks
    ensures out.Some? ==> out.value == FlatBlock(v, id, links)
  {
    if id !in v.blocks { return None; }
    var text, _ := RenderFlatBody(v, v.blocks[id].body, {id}, links);
    return Some(text);
  }

  method RenderBody(v: Vault, body: Body, visited0: set<BlockId>) returns (out: string, visited: set<BlockId>)
    ensures out == Cards(Expand(v, body, visited0))
    ensures visited == visited0
    decreases v.blocks.Keys - visited0, 1
  {
    out, visited := "", visited0;
    for i := 0 to |body|
      invariant out == Cards(Expand(v, body[..i], visited0))
      invariant visited == visited0
    {
      var a := body[i];
      if a.Ch? {
        out := out + [a.c];
      } else if a.embed {
        var card;
        card, visited := ResolveEmbed(v, a, visited);
        out := out + card;
      } else {
        out := out + CardNode(ExpandAtom(v, a, {}));
      }
      CardsSnoc(v, body, i, visited0);
    }
    assert body[..|body|] == body;
  }

  method ResolveEmbed(v: Vault, a: Atom, visited0: set<BlockId>) returns (out: string, visited: set<BlockId>)
    requires a.Ref? && a.embed
    ensures out == CardNode(ExpandAtom(v, a, visited0))
    ensures visited == visited0
    decreases v.blocks.Keys - visited0, 0
  {
    hide Quote, Lines, EscapeLinkText, CycleCard, MissingCard, CardHeader, Cards;
    ghost var node := ExpandAtom(v, a, visited0);
    visited := visited0;
    var target := v.Resolve(a.target);
    if target.None? {
      assert node == Missing(a.target, a.Label());
      out := MissingCard(a.Label());
    } else if target.value in visited {
      assert node == Cycle(target.value, a.Label());
      out := CycleCard(target.value, a.Label());
    } else {
      var id := target.value;
      visited := visited + {id};
      assert v.blocks.Keys - visited < v.blocks.Keys - visited0 by { assert id in v.blocks.Keys - visited0; }
      ghost var doc := Expand(v, v.blocks[id].body, visited);
      var title := v.blocks[id].DisplayTitle(id);
      assert node == Embedded(id, title, doc);
      var body, quoted;
      body, visited := RenderBody(v, v.blocks[id].body, visited);
      visited := visited - {id};
      quoted := QuoteLines(Lines(body));
      out := CardHeader(id, title) + quoted;
    }
  }

  method QuoteLines(lines: seq<string>) returns (out: string)
    ensures out == Quote(lines)
  {
    out := "";
    for i := 0 to |lines|
      invariant out == Quote(lines[..i])
    {
      assert lines[..i + 1] == lines[..i] + [lines[i]];
      QuoteConcat(lines[..i], [lines[i]]);
      assert [lines[i]][1..] == [];
      if lines[i] == "" {
        out := out + ">";
      } else {
        out := out + "> ";
        out := out + lines[i];
      }
      out := out + "\n";
    }
    assert lines[..|lines|] == lines;
  }

  // ---------- acyclic vaults need no visited set ----------

  /** No block open above a body can be met again below it. */
  ghost predicate ClearBelow(v: Vault, body: Body, visited: set<BlockId>) {
    forall x, y | v.Embeds(body, x) && v.Reaches(x, y) :: y !in visited
  }

  /** On an acyclic vault, entering a child keeps the open blocks out of what lies below. */
  lemma ClearBelowChild(v: Vault, body: Body, visited: set<BlockId>, id: BlockId)
    requires v.Acyclic() && ClearBelow(v, body, visited) && v.Embeds(body, id)
    ensures id !in visited
    ensures id in v.blocks ==> ClearBelow(v, v.blocks[id].body, visited + {id})
  {
    v.ReachesSelf(id);
    if id in v.blocks {
      forall x, y | v.Embeds(v.blocks[id].body, x) && v.Reaches(x, y) ensures y !in visited + {id} {
        assert v.Edge(id, x);
        v.ReachesStep(id, x, y);
      }
    }
  }

  lemma ClearBelowRest(v: Vault, body: Body, visited: set<BlockId>)
    requires body != [] && ClearBelow(v, body, visited)
    ensures ClearBelow(v, body[1..], visited)
  {
    forall x | v.Embeds(body[1..], x) ensures v.Embeds(body, x) { v.EmbedsTail(body, x); }
  }

  /** How far below a block the vault goes: a measure for walking it without a visited set. */
  ghost function Below(v: Vault, id: BlockId): set<BlockId> {
    set x | x in v.blocks && x != id && v.Reaches(id, x)
  }

  lemma BelowShrinks(v: Vault, a: BlockId, b: BlockId)
    requires v.Acyclic() && v.Edge(a, b) && b in v.blocks
    ensures Below(v, b) < Below(v, a)
  {
    v.ReachesSelf(b);
    forall x | x in Below(v, b) ensures x in Below(v, a) {
      v.ReachesStep(a, b, x);
      if x == a { assert false; }
    }
    v.ReachesStep(a, b, b);
    if a == b { assert false; }
    assert b in Below(v, a) && b !in Below(v, b);
  }

  /** The plain unfolding of a body, with no visited set; `under` bounds the blocks still below. */
  ghost function Unfold(v: Vault, body: Body, under: set<BlockId>): seq<Node>
    requires v.Acyclic() && forall x | v.Embeds(body, x) :: Below(v, x) < under
    decreases under, |body|
  {
    if body == [] then [] else
    assert forall x | v.Embeds(body[1..], x) :: v.Embeds(body, x) by {
      forall x | v.Embeds(body[1..], x) ensures v.Embeds(body, x) { v.EmbedsTail(body, x); }
    }
    [UnfoldAtom(v, body, under)] + Unfold(v, body[1..], under)
  }

  ghost function UnfoldAtom(v: Vault, body: Body, under: set<BlockId>): Node
    requires v.Acyclic() && forall x | v.Embeds(body, x) :: Below(v, x) < under
    requires body != []
    decreases under, 0
  {
    var a := body[0];
    if a.Ch? then Lit(a.c) else
    var target := v.Resolve(a.target);
    if !a.embed then
      if target.None? then Dangling(a.Label()) else Link(target.value, RefText(v, target.value, a))
    else if target.None? then Missing(a.target, a.Label())
    else
      var id := target.value;
      assert v.EmbedsAt(body, 0, id);
      assert forall x | v.Embeds(v.blocks[id].body, x) :: Below(v, x) < Below(v, id) by {
        forall x | v.Embeds(v.blocks[id].body, x) ensures Below(v, x) < Below(v, id) {
          assert x in v.ChildrenOf(v.blocks[id].body);
          BelowShrinks(v, id, x);
        }
      }
      assert v.Embeds(body, id) && Below(v, id) < under;
      Embedded(id, v.blocks[id].DisplayTitle(id), Unfold(v, v.blocks[id].body, Below(v, id)))
  }

  /** No cycle marker anywhere in a document. */
  predicate NoCycle(doc: seq<Node>) {
    forall i | 0 <= i < |doc| :: !doc[i].Cycle? && (doc[i].Embedded? ==> NoCycle(doc[i].doc))
  }

  /**
   On an acyclic vault the visited set changes nothing: rendering is the plain unfolding, whatever is open
   above, and shows no cycle marker.
   */
  lemma {:induction false} ExpandIsUnfold(v: Vault, body: Body, visited: set<BlockId>, under: set<BlockId>)
    requires v.Acyclic() && ClearBelow(v, body, visited)
    requires forall x | v.Embeds(body, x) :: Below(v, x) < under
    ensures Expand(v, body, visited) == Unfold(v, body, under)
    ensures NoCycle(Expand(v, body, visited))
    decreases v.blocks.Keys - visited, |body|
  {
    if body != [] {
      ClearBelowRest(v, body, visited);
      forall x | v.Embeds(body[1..], x) ensures v.Embeds(body, x) { v.EmbedsTail(body, x); }
      ExpandIsUnfold(v, body[1..], visited, under);
      var a := body[0];
      if a.Ref? && a.embed && v.Resolve(a.target).Some? {
        var id := v.Resolve(a.target).value;
        assert v.EmbedsAt(body, 0, id);
        ClearBelowChild(v, body, visited, id);
        assert id in v.blocks.Keys - visited;
        forall x | v.Embeds(v.blocks[id].body, x) ensures Below(v, x) < Below(v, id) {
          assert x in v.ChildrenOf(v.blocks[id].body);
          BelowShrinks(v, id, x);
        }
        ExpandIsUnfold(v, v.blocks[id].body, visited + {id}, Below(v, id));
      }
    }
  }

  /** A block of an acyclic vault renders as its unfolding, which does not mention what is open above it. */
  lemma RenderAcyclic(v: Vault, id: BlockId)
    requires v.Acyclic() && id in v.blocks
    ensures forall x | v.Embeds(v.blocks[id].body, x) :: Below(v, x) < Below(v, id)
    ensures Expand(v, v.blocks[id].body, {id}) == Unfold(v, v.blocks[id].body, Below(v, id))
    ensures NoCycle(Expand(v, v.blocks[id].body, {id}))
  {
    var body := v.blocks[id].body;
    forall x | v.Embeds(body, x) ensures Below(v, x) < Below(v, id) {
      assert x in v.ChildrenOf(body);
      BelowShrinks(v, id, x);
    }
    forall x, y | v.Embeds(body, x) && v.Reaches(x, y) ensures y !in {id} { assert v.Edge(id, x); }
    ExpandIsUnfold(v, body, {id}, Below(v, id));
  }
}
