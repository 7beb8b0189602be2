/** What the link rows of the index say about the transclusion graph. */
module LinkRows {
  import opened Prelude
  import opened Wiki
  import opened Store
  import opened Linking

  ghost predicate HasRow(links: seq<LinkRow>, embed: bool, x: BlockId) {
    exists i | 0 <= i < |links| :: links[i].embed == embed && links[i].targetId == Some(x)
  }

  /** Embeds among the rows that lead to a block. */
  function ChildRows(links: seq<LinkRow>): nat {
    if links == [] then 0 else (if links[0].embed && links[0].targetId.Some? then 1 else 0) + ChildRows(links[1..])
  }

  /** One row for each directive of the block, in order, with its target as written; `None` where that finds nothing. */
  ghost predicate RowPerDirective(v: Vault, id: BlockId, links: seq<LinkRow>, refs: seq<Atom>) {
    && |links| == |refs|
    && forall i | 0 <= i < |links| && refs[i].Ref? ::
         && links[i].source == id && links[i].target == refs[i].target && links[i].embed == refs[i].embed
         && (links[i].targetId.None? <==> v.Resolve(refs[i].target).None?)
  }

  /** The rows of a block say what the graph says: which blocks it transcludes, which it references, and how many. */
  ghost predicate TellsGraph(v: Vault, id: BlockId, slot: Slot)
    requires id in v.blocks
  {
    && RowPerDirective(v, id, slot.links, Refs(v.blocks[id].body))
    && (forall x :: HasRow(slot.links, true, x) <==> v.Edge(id, x))
    && (forall x :: HasRow(slot.links, false, x) <==> v.Mentions(v.blocks[id].body, x))
    && slot.rec.Some? && slot.rec.value.childCount == ChildRows(slot.links)
  }

  lemma HasRowCons(row: LinkRow, rest: seq<LinkRow>, embed: bool, x: BlockId)
    ensures HasRow([row] + rest, embed, x)
            <==> (row.embed == embed && row.targetId == Some(x)) || HasRow(rest, embed, x)
  {
    var links := [row] + rest;
    if i :| 0 <= i < |rest| && rest[i].embed == embed && rest[i].targetId == Some(x) { assert links[i + 1] == rest[i]; }
    assert links[0] == row;
  }

  lemma {:induction false} RowsPerDirective(v: Vault, id: BlockId, body: Body)
    ensures RowPerDirective(v, id, BlockLinks(v, id, body), Refs(body))
    ensures ChildRows(BlockLinks(v, id, body)) == |v.ChildrenOf(body)|
  {
    hide Vault.Resolve;
    if body != [] {
      RowsPerDirective(v, id, body[1..]);
      var rest := BlockLinks(v, id, body[1..]);
      if body[0].Ref? {
        var row := LinkRow(id, v.Resolve(body[0].target), body[0].target, body[0].embed);
        assert ([row] + rest)[1..] == rest && ([body[0]] + Refs(body[1..]))[1..] == Refs(body[1..]);
      } else {
        assert [] + rest == rest && [] + Refs(body[1..]) == Refs(body[1..]);
      }
    }
  }

  lemma {:induction false} RowsTell(v: Vault, id: BlockId, body: Body, x: BlockId)
    ensures HasRow(BlockLinks(v, id, body), true, x) <==> v.Embeds(body, x)
    ensures HasRow(BlockLinks(v, id, body), false, x) <==> v.Mentions(body, x)
  {
    hide Vault.Resolve, HasRow;
    if body == [] {
      NoRows(x);
    } else {
      RowsTell(v, id, body[1..], x);
      v.EmbedsTail(body, x);
      v.MentionsTail(body, x);
      var rest := BlockLinks(v, id, body[1..]);
      if body[0].Ref? {
        var row := LinkRow(id, v.Resolve(body[0].target), body[0].target, body[0].embed);
        HasRowCons(row, rest, true, x);
        HasRowCons(row, rest, false, x);
      } else {
        assert [] + rest == rest;
      }
    }
  }

  lemma NoRows(x: BlockId)
    ensures !HasRow([], true, x) && !HasRow([], false, x)
  {
  }

  /** Rows that are up to date tell the graph. */
  lemma LinkedTells(v: Vault, slot: Slot, id: BlockId)
    requires id in v.blocks && Linked(v, slot, id)
    ensures TellsGraph(v, id, slot)
  {
    var body := v.blocks[id].body;
    hide HasRow, RowPerDirective, Vault.Embeds, Vault.Mentions, BlockLinks;
    RowsPerDirective(v, id, body);
    forall x ensures HasRow(slot.links, true, x) <==> v.Edge(id, x) { RowsTell(v, id, body, x); }
    forall x ensures HasRow(slot.links, false, x) <==> v.Mentions(body, x) { RowsTell(v, id, body, x); }
  }

  /** So an index in step tells the graph of its files, and has no row for anything else. */
  lemma SyncedTells(e: Env, files: map<BlockId, string>, w: World)
    requires Synced(e, files, w)
    ensures forall id | id in files :: TellsGraph(VaultOf(e, files), id, w.At(id))
    ensures forall id | id !in files :: w.At(id).links == [] && w.At(id).rec == None
  {
    hide TellsGraph;
    var v := VaultOf(e, files);
    forall id | id in files ensures TellsGraph(v, id, w.At(id)) {
      assert Readable(e, w.At(id)) == Expected(e, files, id);
      ExpectedLinked(e, files, w.At(id), id);
      LinkedTells(v, w.At(id), id);
    }
    forall id | id !in files ensures w.At(id).links == [] && w.At(id).rec == None {
      assert Readable(e, w.At(id)) == Expected(e, files, id);
    }
  }

  lemma ExpectedLinked(e: Env, files: map<BlockId, string>, slot: Slot, id: BlockId)
    requires id in files && Readable(e, slot) == Expected(e, files, id)
    ensures Linked(VaultOf(e, files), slot, id)
  {
    hide BlockLinks, Vault.Children;
  }
}
