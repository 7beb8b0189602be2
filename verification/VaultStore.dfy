/** The vault as the daemon holds it: two maps, the second an index from lower-cased titles to ids. */
module VaultStore {
  import opened Prelude
  import opened Text
  import opened Wiki

  class Store {
    const lower: string -> string
    var blocks: map<BlockId, Block>
    var byTitle: map<string, BlockId>

    ghost function View(): Vault
      reads this
    {
      Vault(lower, blocks)
    }

    /** The title index says who owns each title. */
    ghost predicate Valid()
      reads this
    {
      lower("") == "" && forall key :: Owner(byTitle, key) == View().TitleOwner(key)
    }

    constructor (lower: string -> string)
      requires lower("") == ""
      ensures Valid() && View() == Vault(lower, map[])
    {
      this.lower, blocks, byTitle := lower, map[], map[];
      new;
    }

    /** Insert or replace. */
    method Insert(id: BlockId, b: Block)
      requires Valid()
      modifies this
      ensures Valid() && View() == old(View()).(blocks := old(blocks)[id := b])
    {
      blocks := blocks[id := b];
      ReindexTitles();
    }

    /** Whether the block existed. */
    method Remove(id: BlockId) returns (existed: bool)
      requires Valid()
      modifies this
      ensures Valid() && View() == old(View()).(blocks := old(blocks) - {id})
      ensures existed <==> id in old(blocks)
    {
      existed := id in blocks;
      if existed {
        blocks := blocks - {id};
        ReindexTitles();
      } else {
        assert blocks - {id} == blocks;
      }
    }

    /** By id, else by title: one lookup in each map. */
    method Resolve(target: string) returns (r: Option<BlockId>)
      requires Valid()
      ensures r == View().Resolve(target)
    {
      hide Trim;
      var t := Trim(target);
      if IsBlockId(t) && t in blocks { return Some(t); }
      r := Owner(byTitle, lower(t));
    }

    /** Titles are handed out in id order and the first keeps one. */
    method ReindexTitles()
      requires lower("") == ""
      modifies this`byTitle
      ensures Valid()
    {
      hide Vault.TitleOwner, Vault.TitleKey, Le, Indexed;
      byTitle := map[];
      var ids := SortedIds(blocks.Keys);
      NothingIndexed(View(), ids);
      for i := 0 to |ids|
        invariant Indexed(View(), ids, i, byTitle)
      {
        var id := ids[i];
        assert id in blocks;
        ghost var before := byTitle;
        if blocks[id].title.Some? {
          var key := lower(Trim(blocks[id].title.value));
          if key != "" && key !in byTitle { byTitle := byTitle[key := id]; }
        }
        IndexStep(View(), ids, i, before, byTitle);
      }
      IndexDone(View(), ids, byTitle);
    }
  }

  function Owner(byTitle: map<string, BlockId>, key: string): Option<BlockId> {
    if key in byTitle then Some(byTitle[key]) else None
  }

  /** After the first `n` ids every title seen is mapped to its first holder. */
  ghost predicate Indexed(v: Vault, ids: seq<BlockId>, n: int, byTitle: map<string, BlockId>)
    requires 0 <= n <= |ids|
  {
    && (forall key | key in byTitle :: exists j | 0 <= j < n :: ids[j] == byTitle[key] && FirstWith(v, ids, j, key))
    && (forall j, key | 0 <= j < n && KeyIs(v, ids[j], key) :: key in byTitle)
  }

  /** `ids[j]` is the first to have this key. */
  ghost predicate FirstWith(v: Vault, ids: seq<BlockId>, j: int, key: string)
    requires 0 <= j < |ids|
  {
    KeyIs(v, ids[j], key) && forall k | 0 <= k < j :: !KeyIs(v, ids[k], key)
  }

  ghost predicate KeyIs(v: Vault, id: BlockId, key: string) {
    id in v.blocks && v.TitleKey(id) == Some(key)
  }

  lemma NothingIndexed(v: Vault, ids: seq<BlockId>)
    ensures Indexed(v, ids, 0, map[])
  {}

  lemma IndexStep(v: Vault, ids: seq<BlockId>, n: nat, before: map<string, BlockId>, after: map<string, BlockId>)
    requires n < |ids| && Indexed(v, ids, n, before) && ids[n] in v.blocks && v.lower("") == ""
    requires
      var t := v.blocks[ids[n]].title;
      after == if t.Some? && v.lower(Trim(t.value)) != "" && v.lower(Trim(t.value)) !in before
               then before[v.lower(Trim(t.value)) := ids[n]] else before
    ensures Indexed(v, ids, n + 1, after)
  {
    var t := v.blocks[ids[n]].title;
    hide KeyIs, Trim;
    forall key | key in after
      ensures exists j | 0 <= j < n + 1 :: ids[j] == after[key] && FirstWith(v, ids, j, key)
    {
      if key in before {
        var j :| 0 <= j < n && ids[j] == before[key] && FirstWith(v, ids, j, key);
      } else {
        assert ids[n] == after[key] && KeyIs(v, ids[n], key);
      }
    }
    forall j, key | 0 <= j < n + 1 && KeyIs(v, ids[j], key) ensures key in after {}
  }

  /** The first holder in sorted order is the least one. */
  lemma IndexDone(v: Vault, ids: seq<BlockId>, byTitle: map<string, BlockId>)
    requires Indexed(v, ids, |ids|, byTitle)
    requires forall x :: x in ids <==> x in v.blocks
    requires forall i, j | 0 <= i < j < |ids| :: Le(ids[i], ids[j])
    ensures forall key :: Owner(byTitle, key) == v.TitleOwner(key)
  {
    hide Vault.TitleKey, Le;
    forall key ensures Owner(byTitle, key) == v.TitleOwner(key) {
      if key in byTitle {
        var j :| 0 <= j < |ids| && ids[j] == byTitle[key] && FirstWith(v, ids, j, key);
        FirstIsLeast(v, ids, key, j);
      } else {
      }
    }
  }

  lemma FirstIsLeast(v: Vault, ids: seq<BlockId>, key: string, j: nat)
    requires j < |ids| && FirstWith(v, ids, j, key)
    requires forall x :: x in ids <==> x in v.blocks
    requires forall i, j | 0 <= i < j < |ids| :: Le(ids[i], ids[j])
    ensures v.TitleOwner(key) == Some(ids[j])
  {
    hide Vault.TitleKey;
    var holders := v.Holders(key);
    LeTotal(ids[j], ids[j]);
    hide Le;
    assert ids[j] in holders;
    forall y | y in holders ensures Le(ids[j], y) {
      var k :| 0 <= k < |ids| && ids[k] == y;
      assert KeyIs(v, y, key);
    }
    HolderLeast(v, key, ids[j]);
  }

  lemma HolderLeast(v: Vault, key: string, x: BlockId)
    requires x in v.Holders(key) && forall y | y in v.Holders(key) :: Le(x, y)
    ensures v.TitleOwner(key) == Some(x)
  {
    hide Le, Vault.TitleKey;
    var s: set<string> := v.Holders(key);
    LeastUnique(x, Least(s), s);
  }

}
