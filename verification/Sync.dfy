/**
 The engine that keeps vault, index and hash map in step with the block files. A log, which only the model keeps,
 holds the state of the disk and the index after each persisted call: the places where a crash can leave them.
 */
module Sync {
  import opened Prelude
  import opened Wiki
  import opened Store
  import opened Text
  import opened Fields

  ghost predicate SafeLog(e: Env, log: seq<World>) {
    forall k | 0 <= k < |log| :: Survivable(e, log[k])
  }

  /** `src` is ghost knowledge: the source each block of the vault was last read from or written as. */
  datatype State = State(world: World, vault: Vault, hashes: map<BlockId, Hash>, src: map<BlockId, string>,
    log: seq<World>)

  function Get<T>(m: map<BlockId, T>, id: BlockId): Option<T> {
    if id in m then Some(m[id]) else None
  }

  ghost predicate TracksAt(e: Env, s: State, id: BlockId) {
    id in s.src ==>
      Get(s.vault.blocks, id) == Some(e.parse(id, s.src[id])) && Get(s.hashes, id) == Some(e.hash(s.src[id]))
  }

  /** Vault and in-memory hashes are those of the engine's sources. */
  ghost predicate Tracks(e: Env, s: State) {
    s.vault.lower == e.lower && s.vault.blocks.Keys == s.src.Keys && forall id :: TracksAt(e, s, id)
  }

  ghost predicate RemembersAt(e: Env, s: State, id: BlockId) {
    id in s.hashes ==> s.world.At(id).hash == Some((e.Version(), s.hashes[id]))
  }

  /** A hash in memory is also in the index. */
  ghost predicate Remembers(e: Env, s: State) {
    forall id :: RemembersAt(e, s, id)
  }

  ghost predicate Inv(e: Env, s: State) {
    Tracks(e, s) && Remembers(e, s) && Sound(e, s.world) && SafeLog(e, s.log)
  }

  /** Vault, sources and hashes agree, whatever else the index holds. */
  ghost predicate Consistent(e: Env, s: State) {
    Tracks(e, s) && Remembers(e, s)
  }

  /** A crash is survived, now and at every point of the log. */
  ghost predicate Safe(e: Env, s: State) {
    Survivable(e, s.world) && SafeLog(e, s.log)
  }

  /** What a restart finds: sources and hashes still to be read. */
  ghost predicate Restartable(e: Env, s: State) {
    Consistent(e, s) && Safe(e, s)
  }

  /** The slot with record and links of the block as `v` has it. */
  function Relinked(e: Env, v: Vault, slot: Slot, id: BlockId): Slot
    requires id in v.blocks
  {
    slot.(rec := Some(RecordOf(e, v, id)), links := BlockLinks(v, id, v.blocks[id].body))
  }

  /** Every record has the content of its block. */
  ghost predicate Owned(e: Env, v: Vault, w: World) {
    forall x | x in v.blocks :: OwnIs(e, w.At(x), x, v.blocks[x])
  }

  ghost predicate AllLinked(v: Vault, w: World) {
    forall id | id in v.blocks :: Linked(v, w.At(id), id)
  }

  /** Nothing readable is kept for ids without a source. */
  ghost predicate Clean(e: Env, s: State) {
    forall id | id !in s.src :: Readable(e, s.world.At(id)) == BLANK
  }

  /** Vault, hash, record and embedding of `id` are those of the source `s`. */
  ghost predicate Caught(e: Env, st: State, id: BlockId, s: string) {
    && Get(st.vault.blocks, id) == Some(e.parse(id, s)) && Get(st.hashes, id) == Some(e.hash(s))
    && Hashed(e, st.world.At(id), s) && Good(e, st.world.At(id), id, s)
  }

  ghost predicate SameAt(a: State, b: State, id: BlockId) {
    && a.world.At(id) == b.world.At(id)
    && Get(a.hashes, id) == Get(b.hashes, id)
    && Get(a.vault.blocks, id) == Get(b.vault.blocks, id)
    && Get(a.src, id) == Get(b.src, id)
  }

  /** Since `a`, `id` was read as `source`: ingested, or skipped because its hash was known. */
  ghost predicate ReadAt(e: Env, a: State, b: State, id: BlockId, source: string, safe: bool) {
    && Get(b.src, id) == Some(source)
    && (if Get(a.hashes, id) == Some(e.hash(source)) then b.world.At(id) == a.world.At(id)
        else Good(e, b.world.At(id), id, source) && Hashed(e, b.world.At(id), source))
    && (safe ==> SoundSlot(e, b.world.At(id), id))
  }

  ghost predicate GoneAt(s: State, id: BlockId) {
    s.world.At(id) == BLANK && id !in s.src
  }

  // ---------- one persisted call at a time ----------

  lemma LogMore(e: Env, log: seq<World>, w: World)
    requires SafeLog(e, log) && Survivable(e, w)
    ensures SafeLog(e, log + [w])
  {
    hide Survivable;
  }

  lemma ReindexSurvives(e: Env, w: World, id: BlockId, rec: Record, links: seq<LinkRow>)
    requires Survivable(e, w) && id in w.disk && rec.own == e.own(id, e.parse(id, w.disk[id]))
    ensures Survivable(e, Apply(w, ReindexBlock(id, rec, links)))
  {
    var w' := Apply(w, ReindexBlock(id, rec, links));
    forall x ensures SurvivesAt(e, w', x) { assert SurvivesAt(e, w, x); }
  }

  lemma EmbedSurvives(e: Env, w: World, id: BlockId, own: Own)
    requires Survivable(e, w) && id in w.disk && e.model.Some? && own == e.own(id, e.parse(id, w.disk[id]))
    requires OwnIs(e, w.At(id), id, e.parse(id, w.disk[id]))
    ensures Survivable(e, Apply(w, SetEmbedding(id, e.model.value, e.embed(own.context))))
  {
    var w' := Apply(w, SetEmbedding(id, e.model.value, e.embed(own.context)));
    forall x ensures SurvivesAt(e, w', x) { assert SurvivesAt(e, w, x); }
  }

  lemma HashSurvives(e: Env, w: World, id: BlockId)
    requires e.Injective() && Survivable(e, w) && id in w.disk && Good(e, w.At(id), id, w.disk[id])
    ensures Survivable(e, Apply(w, SetContentHash(id, e.Version(), e.hash(w.disk[id]))))
  {
    var w' := Apply(w, SetContentHash(id, e.Version(), e.hash(w.disk[id])));
    forall x ensures SurvivesAt(e, w', x) { assert SurvivesAt(e, w, x); }
  }

  lemma HashSound(e: Env, w: World, id: BlockId)
    requires e.Injective() && id in w.disk && Good(e, w.At(id), id, w.disk[id])
    ensures var slot := Apply(w, SetContentHash(id, e.Version(), e.hash(w.disk[id]))).At(id);
            SoundSlot(e, slot, id) && Good(e, slot, id, w.disk[id]) && Hashed(e, slot, w.disk[id])
  {
  }

  lemma RelinkSurvives(e: Env, w: World, id: BlockId, rec: Record, links: seq<LinkRow>)
    requires Survivable(e, w) && w.At(id).rec.Some? && rec.own == w.At(id).rec.value.own
    ensures Survivable(e, Apply(w, ReindexBlock(id, rec, links)))
  {
    var w' := Apply(w, ReindexBlock(id, rec, links));
    forall x ensures SurvivesAt(e, w', x) {
      assert SurvivesAt(e, w, x);
      SameContentSame(e, w.At(x), w'.At(x), x);
    }
  }

  lemma RemoveSurvives(e: Env, w: World, id: BlockId)
    requires Survivable(e, w)
    ensures Survivable(e, Apply(w, RemoveBlock(id)))
    ensures Apply(w, RemoveBlock(id)).At(id) == BLANK
  {
    var w' := Apply(w, RemoveBlock(id));
    forall x ensures SurvivesAt(e, w', x) { assert SurvivesAt(e, w, x); }
  }

  // ---------- what the invariant gives ----------

  lemma InvCaught(e: Env, s: State, id: BlockId)
    requires Tracks(e, s) && Remembers(e, s) && Sound(e, s.world) && id in s.src
    ensures Caught(e, s, id, s.src[id])
  {
    assert TracksAt(e, s, id) && RemembersAt(e, s, id) && SoundSlot(e, s.world.At(id), id);
  }

  lemma InvSynced(e: Env, s: State)
    requires Inv(e, s) && AllLinked(s.vault, s.world) && Clean(e, s)
    ensures Synced(e, s.src, s.world)
  {
    TracksVault(e, s);
    forall id ensures Readable(e, s.world.At(id)) == Expected(e, s.src, id) {
      hide Readable, Expected, Linked, Sound, Caught, Hashed, Good;
      SyncedAt(e, s, id);
    }
  }

  lemma SyncedAt(e: Env, s: State, id: BlockId)
    requires Inv(e, s) && AllLinked(s.vault, s.world) && Clean(e, s) && s.vault == VaultOf(e, s.src)
    ensures Readable(e, s.world.At(id)) == Expected(e, s.src, id)
  {
    if id in s.src {
      InvCaught(e, s, id);
      hide Linked, Good, Hashed, Sound, SafeLog;
      SlotSynced(e, s.src, s.world.At(id), id);
    }
  }

  lemma TracksVault(e: Env, s: State)
    requires Tracks(e, s)
    ensures s.vault == VaultOf(e, s.src)
  {
    forall id | id in s.src ensures s.vault.blocks[id] == e.parse(id, s.src[id]) { assert TracksAt(e, s, id); }
    assert s.vault.blocks == VaultOf(e, s.src).blocks;
  }

  /** Every source the engine holds still has its file. */
  ghost predicate FilesThere(s: State) { s.src.Keys <= s.world.disk.Keys }

  /** A finished write: the sources are `src`, every link is recomputed, and nothing is left of ids that lost theirs. */
  ghost predicate Settled(e: Env, a: State, b: State, src: map<BlockId, string>) {
    && Inv(e, b) && b.src == src && AllLinked(b.vault, b.world) && (FilesThere(a) ==> FilesThere(b))
    && forall id | id !in src :: b.world.At(id) == BLANK || (id !in a.src && b.world.At(id) == a.world.At(id))
  }

  lemma SettledSynced(e: Env, a: State, b: State, src: map<BlockId, string>)
    requires Settled(e, a, b, src) && Clean(e, a)
    ensures Clean(e, b) && Synced(e, src, b.world)
  {
    hide Inv, AllLinked, Synced;
    assert Clean(e, b);
    InvSynced(e, b);
  }

  lemma InvOwn(e: Env, s: State, id: BlockId)
    requires Tracks(e, s) && Remembers(e, s) && Sound(e, s.world) && id in s.vault.blocks
    ensures OwnIs(e, s.world.At(id), id, s.vault.blocks[id])
  {
    InvCaught(e, s, id);
  }

  /** One block's source replaced, its slot brought up to date, the rest as it was. */
  lemma ReplacedInv(e: Env, a: State, b: State, id: BlockId, source: string)
    requires Inv(e, a) && SafeLog(e, b.log) && b.src == a.src[id := source]
    requires b.vault == a.vault.(blocks := a.vault.blocks[id := e.parse(id, source)])
    requires b.hashes == a.hashes[id := e.hash(source)]
    requires forall x | x != id :: b.world.At(x) == a.world.At(x)
    requires Hashed(e, b.world.At(id), source) && SoundSlot(e, b.world.At(id), id)
    ensures Inv(e, b)
  {
    hide SoundSlot, SafeLog;
    forall x ensures TracksAt(e, b, x) { assert TracksAt(e, a, x); }
    forall x ensures RemembersAt(e, b, x) { assert RemembersAt(e, a, x); }
    forall x ensures SoundSlot(e, b.world.At(x), x) { assert SoundSlot(e, a.world.At(x), x); }
  }

  /** Refreshing links changes nothing but links and child counts where the records are those of the vault. */
  lemma RelinkedInv(e: Env, a: State, b: State)
    requires Consistent(e, a) && Sound(e, a.world) && Owned(e, a.vault, a.world) && SafeLog(e, b.log)
    requires b.src == a.src && b.vault == a.vault && b.hashes == a.hashes
    requires forall x | x in a.vault.blocks :: b.world.At(x) == Relinked(e, a.vault, a.world.At(x), x)
    requires forall x | x !in a.vault.blocks :: b.world.At(x) == a.world.At(x)
    ensures Inv(e, b) && AllLinked(b.vault, b.world)
  {
    hide SoundSlot, SafeLog, OwnIs, SameContent, Relinked, Linked;
    forall x ensures SameContent(a.world.At(x), b.world.At(x)) { RelinkedSame(e, a.vault, a.world.At(x), x); }
    forall x | x in b.vault.blocks ensures Linked(b.vault, b.world.At(x), x) {
      RelinkedSame(e, a.vault, a.world.At(x), x);
    }
    forall x ensures TracksAt(e, b, x) { assert TracksAt(e, a, x); }
    forall x ensures RemembersAt(e, b, x) { assert RemembersAt(e, a, x); SameHash(a.world.At(x), b.world.At(x)); }
    forall x ensures SoundSlot(e, b.world.At(x), x) {
      assert SoundSlot(e, a.world.At(x), x);
      SameContentSame(e, a.world.At(x), b.world.At(x), x);
    }
  }

  lemma OwnedAt(e: Env, v: Vault, w: World, x: BlockId)
    requires Owned(e, v, w) && x in v.blocks
    ensures OwnIs(e, w.At(x), x, v.blocks[x])
  {}

  lemma RelinkedSame(e: Env, v: Vault, slot: Slot, id: BlockId)
    ensures SameContent(slot, slot)
    ensures id in v.blocks ==>
              Linked(v, Relinked(e, v, slot, id), id) && OwnIs(e, Relinked(e, v, slot, id), id, v.blocks[id])
    ensures id in v.blocks && OwnIs(e, slot, id, v.blocks[id]) ==> SameContent(slot, Relinked(e, v, slot, id))
  {
    hide Vault.Children, BlockLinks;
  }

  lemma SameHash(a: Slot, b: Slot)
    requires SameContent(a, b)
    ensures a.hash == b.hash
  {}

  /** One block dropped everywhere. */
  lemma DroppedInv(e: Env, a: State, b: State, id: BlockId)
    requires Consistent(e, a) && b.src == a.src - {id}
    requires b.vault == a.vault.(blocks := a.vault.blocks - {id}) && b.hashes == a.hashes - {id}
    requires forall x | x != id :: b.world.At(x) == a.world.At(x)
    ensures Consistent(e, b)
    ensures Sound(e, a.world) && b.world.At(id) == BLANK ==> Sound(e, b.world)
  {
    hide SoundSlot, SafeLog;
    forall x ensures TracksAt(e, b, x) { assert TracksAt(e, a, x); }
    forall x ensures RemembersAt(e, b, x) { assert RemembersAt(e, a, x); }
    BlankSound(e, id);
    if Sound(e, a.world) && b.world.At(id) == BLANK {
      forall x ensures SoundSlot(e, b.world.At(x), x) { assert SoundSlot(e, a.world.At(x), x); }
    }
  }

  lemma BlankSound(e: Env, id: BlockId)
    ensures SoundSlot(e, BLANK, id)
  {}

  ghost predicate Wrote(e: Env, a: State, b: State, id: BlockId, source: string) {
    && Settled(e, a, b, a.src[id := source])
    && b.world.disk == a.world.disk[id := source] && b.hashes == a.hashes[id := e.hash(source)]
  }

  ghost predicate Deleted(e: Env, a: State, b: State, id: BlockId) {
    && Settled(e, a, b, a.src - {id})
    && b.world.disk == a.world.disk - {id} && b.hashes == a.hashes - {id}
  }

  /** No title leaves the old one, a blank title clears it. */
  function NewTitle(old_: Option<string>, title: Option<string>): Option<string> {
    if title.None? then old_ else if Trim(title.value) == "" then None else title
  }

  /** Whatever is stored under it: a title given replaces the old one, a blank one clears it, none keeps it. */
  lemma TitleStored(old_: Option<string>, title: Option<string>)
    ensures StoredTitle(NewTitle(old_, title)) == StoredTitle(if title.Some? then title else old_)
    ensures title.Some? && Trim(title.value) == "" ==> StoredTitle(NewTitle(old_, title)) == None
  {}

  // What the writers write.

  function NewSource(e: Env, title: Option<string>, body: string, now: string): string {
    e.write(title, Meta([], false, Some(now), []), body)
  }

  function BodySource(e: Env, s: State, id: BlockId, title: Option<string>, body: string, now: string): string
    requires id in s.vault.blocks
  {
    var b := s.vault.blocks[id];
    e.write(NewTitle(b.title, title), b.meta.(updated := Some(now)), body)
  }

  function WithMeta(e: Env, b: Block, meta: Meta, now: string): string {
    e.write(b.title, meta.(updated := Some(now)), Raw(b.body))
  }

  function TagSource(e: Env, s: State, id: BlockId, tags: seq<string>, now: string): string
    requires id in s.vault.blocks
  {
    WithMeta(e, s.vault.blocks[id], s.vault.blocks[id].meta.(tags := tags), now)
  }

  function PropSource(e: Env, s: State, id: BlockId, props: Props, now: string): string
    requires id in s.vault.blocks
  {
    WithMeta(e, s.vault.blocks[id], s.vault.blocks[id].meta.(props := props), now)
  }

  function LockSource(e: Env, s: State, id: BlockId, locked: bool, now: string): string
    requires id in s.vault.blocks
  {
    WithMeta(e, s.vault.blocks[id], s.vault.blocks[id].meta.(locked := locked), now)
  }

  function Reparsed(e: Env, v: Vault, id: BlockId, source: string): Vault {
    v.(blocks := v.blocks[id := e.parse(id, source)])
  }

  // ---------- the engine ----------

  datatype Report = Report(changed: seq<BlockId>, removed: seq<BlockId>) {
    predicate IsEmpty() { changed == [] && removed == [] }
  }

  class SyncEngine {
    const env: Env
    var world: World
    var vault: Vault
    var hashes: map<BlockId, Hash>
    var seeded: bool
    ghost var src: map<BlockId, string>
    /** The persisted state after each call: where a crash can leave things. */
    var log: seq<World>
    /** The states between the statements of a `clear`. */
    var gaps: seq<World>

    ghost function Now(): State
      reads this
    {
      State(world, vault, hashes, src, log)
    }

    /** A daemon starting on whatever disk and index it finds. */
    constructor (e: Env, w: World)
      ensures env == e && world == w && vault == Vault(e.lower, map[]) && hashes == map[] && !seeded
      ensures src == map[] && log == []
    {
      env, world, vault, hashes, seeded, src, log, gaps := e, w, Vault(e.lower, map[]), map[], false, map[], [], [];
    }

    method Do(c: Call)
      modifies this`world, this`log
      ensures world == Apply(old(world), c) && log == old(log) + [world]
    {
      world := Apply(world, c);
      log := log + [world];
    }

    /** Parse, index and embed one source. */
    method Ingest(id: BlockId, source: string)
      requires Get(world.disk, id) == Some(source) && vault.lower == env.lower
      modifies this`world, this`vault, this`log
      ensures vault == old(vault).(blocks := old(vault).blocks[id := env.parse(id, source)])
      ensures world.disk == old(world).disk && (Safe(env, old(Now())) ==> Safe(env, Now()))
      ensures forall x | x != id :: world.At(x) == old(world).At(x)
      ensures Good(env, world.At(id), id, source) && world.At(id).hash == old(world).At(id).hash
    {
      hide Survivable, SafeLog, Vault.Children, BlockLinks;
      ghost var safe := Safe(env, Now());
      vault := vault.(blocks := vault.blocks[id := env.parse(id, source)]);
      var rec := RecordOf(env, vault, id);
      var links := BlockLinks(vault, id, vault.blocks[id].body);
      if safe {
        ReindexSurvives(env, world, id, rec, links);
        LogMore(env, log, Apply(world, ReindexBlock(id, rec, links)));
      }
      Do(ReindexBlock(id, rec, links));
      if env.model.Some? {
        var call := SetEmbedding(id, env.model.value, env.embed(rec.own.context));
        if safe {
          EmbedSurvives(env, world, id, rec.own);
          LogMore(env, log, Apply(world, call));
        }
        Do(call);
      }
    }

    /** The hash goes in last, in the index and in memory. */
    method RecordHash(id: BlockId, h: Hash)
      requires env.Injective() && id in world.disk && h == env.hash(world.disk[id])
      requires Good(env, world.At(id), id, world.disk[id])
      modifies this`world, this`hashes, this`log
      ensures hashes == old(hashes)[id := h]
      ensures world.disk == old(world).disk && (Safe(env, old(Now())) ==> Safe(env, Now()))
      ensures forall x | x != id :: world.At(x) == old(world).At(x)
      ensures world.At(id) == old(world).At(id).(hash := Some((env.Version(), h))) && SoundSlot(env, world.At(id), id)
      ensures Good(env, world.At(id), id, world.disk[id]) && Hashed(env, world.At(id), world.disk[id])
    {
      hide Survivable, SafeLog, Good, SoundSlot;
      var call := SetContentHash(id, env.Version(), h);
      HashSound(env, world, id);
      if Survivable(env, world) && SafeLog(env, log) {
        HashSurvives(env, world, id);
        LogMore(env, log, Apply(world, call));
      }
      Do(call);
      hashes := hashes[id := h];
    }

    /** Every block's record and links are rewritten under the present vault; nothing else changes. */
    method RefreshLinks()
      modifies this`world, this`log
      ensures world.disk == old(world).disk
      ensures forall x | x in vault.blocks :: world.At(x) == Relinked(env, vault, old(world).At(x), x)
      ensures forall x | x !in vault.blocks :: world.At(x) == old(world).At(x)
      ensures Owned(env, vault, old(world)) && Safe(env, old(Now())) ==> Safe(env, Now())
    {
      hide Safe, Relinked, OwnIs, Owned, Le, IsBlockId;
      var ids := SortedIds(vault.blocks.Keys);
      ghost var a := Now();
      ghost var safe := Owned(env, vault, world) && Safe(env, a);
      ghost var done: set<BlockId> := {};
      for i := 0 to |ids|
        invariant world.disk == a.world.disk && (safe ==> Safe(env, Now()))
        invariant forall j | 0 <= j < |ids| :: ids[j] in done <==> j < i
        invariant forall x | x in done :: x in vault.blocks && world.At(x) == Relinked(env, vault, a.world.At(x), x)
        invariant forall x | x !in done :: world.At(x) == a.world.At(x)
      {
        var id := ids[i];
        assert id in vault.blocks && id !in done;
        if safe { OwnedAt(env, vault, a.world, id); }
        Relink(id);
        done := done + {id};
      }
      forall x | x in vault.blocks ensures x in done { assert x in ids; }
    }

    method Relink(id: BlockId)
      requires id in vault.blocks
      modifies this`world, this`log
      ensures world.disk == old(world).disk && world.At(id) == Relinked(env, vault, old(world).At(id), id)
      ensures forall x | x != id :: world.At(x) == old(world).At(x)
      ensures OwnIs(env, old(world).At(id), id, vault.blocks[id]) && Safe(env, old(Now())) ==> Safe(env, Now())
    {
      hide Survivable, SafeLog, Vault.Children, BlockLinks;
      var rec := RecordOf(env, vault, id);
      var links := BlockLinks(vault, id, vault.blocks[id].body);
      if OwnIs(env, world.At(id), id, vault.blocks[id]) && Safe(env, Now()) {
        RelinkSurvives(env, world, id, rec, links);
        LogMore(env, log, Apply(world, ReindexBlock(id, rec, links)));
      }
      Do(ReindexBlock(id, rec, links));
    }

    // ---------- writes ----------

    /** What every writer ends with: the file, the index, the hash, then all links. */
    method Persist(id: BlockId, source: string)
      requires env.Injective() && Inv(env, Now())
      modifies this`world, this`vault, this`hashes, this`seeded, this`src, this`log
      ensures seeded == old(seeded)
      ensures vault == Reparsed(env, old(vault), id, source)
      ensures Wrote(env, old(Now()), Now(), id, source) && Settled(env, old(Now()), Now(), src)
    {
      hide Tracks, Remembers, Sound, Inv, Survivable, SafeLog, Good, SoundSlot, AllLinked, Owned, Relinked, Consistent;
      ghost var a := Now();
      WriteSafe(env, a, id, source);
      Do(WriteFile(id, source));
      Ingest(id, source);
      RecordHash(id, env.hash(source));
      src := src[id := source];
      ghost var b := Now();
      ReplacedInv(env, a, b, id, source);
      InvParts(env, b);
      RefreshLinks();
      RelinkedInv(env, b, Now());
    }

    method CreateBlock(id: BlockId, title: Option<string>, body: string, now: string)
      requires env.Injective() && Inv(env, Now())
      modifies this`world, this`vault, this`hashes, this`seeded, this`src, this`log
      ensures seeded == old(seeded)
      ensures vault == Reparsed(env, old(vault), id, NewSource(env, title, body, now))
      ensures Wrote(env, old(Now()), Now(), id, NewSource(env, title, body, now))
      ensures Settled(env, old(Now()), Now(), src)
    {
      Persist(id, NewSource(env, title, body, now));
    }

    /** Replaces the body and optionally the title; tags, lock flag and properties are kept. */
    method UpdateBlock(id: BlockId, title: Option<string>, body: string, now: string) returns (r: Result<()>)
      requires env.Injective() && Inv(env, Now())
      modifies this`world, this`vault, this`hashes, this`seeded, this`src, this`log
      ensures seeded == old(seeded)
      ensures r.Ok? <==> id in old(vault).blocks
      ensures if r.Ok? then Settled(env, old(Now()), Now(), src) else Now() == old(Now())
      ensures r.Ok? ==> Wrote(env, old(Now()), Now(), id, BodySource(env, old(Now()), id, title, body, now))
      ensures r.Ok? ==> vault == Reparsed(env, old(vault), id, BodySource(env, old(Now()), id, title, body, now))
    {
      hide Inv, Settled, Wrote;
      if id !in vault.blocks { return Err("unknown block"); }
      var b := vault.blocks[id];
      Persist(id, env.write(NewTitle(b.title, title), b.meta.(updated := Some(now)), body));
      r := Ok(());
    }

    method SetTags(id: BlockId, tags: seq<string>, now: string) returns (r: Result<()>)
      requires env.Injective() && Inv(env, Now())
      modifies this`world, this`vault, this`hashes, this`seeded, this`src, this`log
      ensures seeded == old(seeded)
      ensures r.Ok? <==> id in old(vault).blocks
      ensures if r.Ok? then Settled(env, old(Now()), Now(), src) else Now() == old(Now())
      ensures r.Ok? ==> Wrote(env, old(Now()), Now(), id, TagSource(env, old(Now()), id, Cleaned(tags, |tags|), now))
    {
      hide Inv, Settled, Wrote, SameTags, Cleaned;
      if id !in vault.blocks { return Err("unknown block"); }
      var b := vault.blocks[id];
      var clean := CleanTags(tags);
      Persist(id, WithMeta(env, b, b.meta.(tags := clean), now));
      r := Ok(());
    }

    method SetLock(id: BlockId, locked: bool, now: string) returns (r: Result<()>)
      requires env.Injective() && Inv(env, Now())
      modifies this`world, this`vault, this`hashes, this`seeded, this`src, this`log
      ensures seeded == old(seeded)
      ensures r.Ok? <==> id in old(vault).blocks
      ensures if r.Ok? then Settled(env, old(Now()), Now(), src) else Now() == old(Now())
      ensures r.Ok? ==> Wrote(env, old(Now()), Now(), id, LockSource(env, old(Now()), id, locked, now))
    {
      hide Inv, Settled, Wrote;
      if id !in vault.blocks { return Err("unknown block"); }
      var b := vault.blocks[id];
      Persist(id, WithMeta(env, b, b.meta.(locked := locked), now));
      r := Ok(());
    }

    /** Adds or updates the given properties; one that is refused stops the call before anything is written. */
    method SetProps(id: BlockId, props: Props, now: string) returns (r: Result<()>)
      requires env.Injective() && Inv(env, Now())
      modifies this`world, this`vault, this`hashes, this`seeded, this`src, this`log
      ensures seeded == old(seeded)
      ensures r.Ok? <==> id in old(vault).blocks && MergedProps(old(vault).blocks[id].meta.props, props).Ok?
      ensures if r.Ok? then Settled(env, old(Now()), Now(), src) else Now() == old(Now())
      ensures r.Ok? ==>
                var merged := MergedProps(old(vault).blocks[id].meta.props, props).value;
                Wrote(env, old(Now()), Now(), id, PropSource(env, old(Now()), id, merged, now))
    {
      hide Inv, Settled, Wrote, MergedProps;
      if id !in vault.blocks { return Err("unknown block"); }
      var b := vault.blocks[id];
      var merged := MergeProps(b.meta.props, props);
      if merged.Err? { return Err(merged.error); }
      Persist(id, WithMeta(env, b, b.meta.(props := merged.value), now));
      r := Ok(());
    }

    method UnsetProps(id: BlockId, keys: seq<string>, now: string) returns (r: Result<()>)
      requires env.Injective() && Inv(env, Now())
      modifies this`world, this`vault, this`hashes, this`seeded, this`src, this`log
      ensures seeded == old(seeded)
      ensures r.Ok? <==> id in old(vault).blocks
      ensures if r.Ok? then Settled(env, old(Now()), Now(), src) else Now() == old(Now())
      ensures r.Ok? ==>
                var kept := KeepProps(old(vault).blocks[id].meta.props, keys);
                Wrote(env, old(Now()), Now(), id, PropSource(env, old(Now()), id, kept, now))
    {
      hide Inv, Settled, Wrote, KeepProps;
      if id !in vault.blocks { return Err("unknown block"); }
      var b := vault.blocks[id];
      Persist(id, WithMeta(env, b, b.meta.(props := KeepProps(b.meta.props, keys)), now));
      r := Ok(());
    }

    /** The file goes first, then vault, index and hash; asking for an unknown id is no error. */
    method DeleteBlock(id: BlockId)
      requires env.Injective() && Inv(env, Now())
      modifies this`world, this`vault, this`hashes, this`seeded, this`src, this`log
      ensures seeded == old(seeded) && vault == old(vault).(blocks := old(vault).blocks - {id})
      ensures Deleted(env, old(Now()), Now(), id) && Settled(env, old(Now()), Now(), src)
    {
      hide Tracks, Remembers, Sound, Inv, Survivable, SafeLog, Good, SoundSlot, AllLinked, Owned, Relinked, Consistent;
      ghost var a := Now();
      DeleteSafe(env, a, id);
      InvParts(env, a);
      if id in world.disk { Do(DeleteFile(id)); }
      assert world.disk == a.world.disk - {id};
      vault := vault.(blocks := vault.blocks - {id});
      RemoveSurvives(env, world, id);
      LogMore(env, log, Apply(world, RemoveBlock(id)));
      Do(RemoveBlock(id));
      hashes := hashes - {id};
      src := src - {id};
      ghost var b := Now();
      DroppedInv(env, a, b, id);
      DroppedOwn(env, a, b, id);
      RefreshLinks();
      RelinkedInv(env, b, Now());
    }

    // ---------- reconcile ----------

    /** One file of the pass: skipped when its hash is known, else ingested. */
    method ReconcileFile(id: BlockId, source: string) returns (changed: bool)
      requires env.Injective() && Consistent(env, Now()) && Get(world.disk, id) == Some(source)
      modifies this`world, this`vault, this`hashes, this`src, this`log
      ensures Consistent(env, Now()) && world.disk == old(world).disk
      ensures Safe(env, old(Now())) ==> Safe(env, Now())
      ensures forall x | x != id :: SameAt(old(Now()), Now(), x)
      ensures ReadAt(env, old(Now()), Now(), id, source, Safe(env, old(Now())))
      ensures changed <==> old(Get(hashes, id)) != Some(env.hash(source))
      ensures !changed ==> world == old(world) && hashes == old(hashes)
    {
      hide Safe, Good, SoundSlot, Tracks, Remembers;
      ghost var a := Now();
      ConsistentParts(env, a);
      var h := env.hash(source);
      if id in hashes && hashes[id] == h {
        if id !in vault.blocks { vault := vault.(blocks := vault.blocks[id := env.parse(id, source)]); }
        src := src[id := source];
        SkippedFile(env, a, id, source, Now());
        return false;
      }
      Ingest(id, source);
      RecordHash(id, h);
      ghost var b := Now();
      src := src[id := source];
      CaughtUp(env, a, id, source, Now());
      SafeAlike(env, b, Now());
      return true;
    }

    /** A block whose file disappeared. */
    method RemoveGone(id: BlockId)
      requires env.Injective() && Consistent(env, Now()) && id !in world.disk
      modifies this`world, this`vault, this`hashes, this`src, this`log
      ensures Consistent(env, Now()) && world.disk == old(world).disk
      ensures Safe(env, old(Now())) ==> Safe(env, Now())
      ensures forall x | x != id :: SameAt(old(Now()), Now(), x)
      ensures GoneAt(Now(), id)
    {
      hide Survivable, SafeLog, SoundSlot, Tracks, Remembers, Sound;
      ghost var a := Now();
      vault := vault.(blocks := vault.blocks - {id});
      assert Apply(world, RemoveBlock(id)).At(id) == BLANK;
      if Safe(env, a) {
        RemoveSurvives(env, world, id);
        LogMore(env, log, Apply(world, RemoveBlock(id)));
      }
      Do(RemoveBlock(id));
      hashes := hashes - {id};
      src := src - {id};
      DroppedInv(env, a, Now(), id);
    }

    /** The pass over the files, in id order. */
    method ReadFiles() returns (changed: seq<BlockId>)
      requires env.Injective() && Consistent(env, Now())
      modifies this`world, this`vault, this`hashes, this`src, this`log
      ensures Consistent(env, Now()) && world.disk == old(world).disk
      ensures Safe(env, old(Now())) ==> Safe(env, Now())
      ensures forall x | x in world.disk :: ReadAt(env, old(Now()), Now(), x, world.disk[x], Safe(env, old(Now())))
      ensures forall x | x !in world.disk :: SameAt(old(Now()), Now(), x)
      ensures forall x :: x in changed <==> x in world.disk && old(Get(hashes, x)) != Some(env.hash(world.disk[x]))
      ensures changed == [] ==> world == old(world) && hashes == old(hashes)
    {
      hide Safe, Consistent, ReadAt, SameAt, Get, Le, IsBlockId;
      var files := world.disk;
      var ids := SortedIds(files.Keys);
      ghost var a := Now();
      ghost var safe := Safe(env, a);
      changed := [];
      ghost var done: set<BlockId> := {};
      forall x ensures SameAt(a, a, x) { SameAtSelf(a, x); }
      for i := 0 to |ids|
        invariant Consistent(env, Now()) && world.disk == files && (safe ==> Safe(env, Now()))
        invariant forall j | 0 <= j < |ids| :: ids[j] in done <==> j < i
        invariant forall x | x in done :: x in files && ReadAt(env, a, Now(), x, files[x], safe)
        invariant forall x | x !in done :: SameAt(a, Now(), x)
        invariant forall x :: x in changed <==> x in done && Get(a.hashes, x) != Some(env.hash(files[x]))
        invariant changed == [] ==> world == a.world && hashes == a.hashes
      {
        ghost var b := Now();
        var id := ids[i];
        assert id in files;
        GetIs(files, id);
        var now := ReconcileFile(id, files[id]);
        if now { changed := changed + [id]; }
        FileFrame(env, a, b, Now(), done, id, files, safe);
        done := done + {id};
      }
      forall x | x in files ensures x in done { assert x in ids; }
    }

    /** Drop the blocks whose files are gone. */
    method DropGone() returns (removed: seq<BlockId>)
      requires env.Injective() && Consistent(env, Now())
      modifies this`world, this`vault, this`hashes, this`src, this`log
      ensures Consistent(env, Now()) && world.disk == old(world).disk
      ensures Safe(env, old(Now())) ==> Safe(env, Now())
      ensures forall x :: x in removed <==> x in old(vault).blocks && x !in world.disk
      ensures forall x | x !in removed :: SameAt(old(Now()), Now(), x)
      ensures forall x | x in removed :: GoneAt(Now(), x)
      ensures removed == [] ==> world == old(world) && hashes == old(hashes)
    {
      hide Safe, Consistent, SameAt, GoneAt;
      removed := SortedIds(vault.blocks.Keys - world.disk.Keys);
      ghost var a := Now();
      forall x ensures SameAt(a, a, x) { SameAtSelf(a, x); }
      for i := 0 to |removed|
        invariant Consistent(env, Now()) && world.disk == a.world.disk && (Safe(env, a) ==> Safe(env, Now()))
        invariant forall x | x !in removed[..i] :: SameAt(a, Now(), x)
        invariant forall x | x in removed[..i] :: GoneAt(Now(), x)
        invariant removed == [] ==> world == a.world && hashes == a.hashes
      {
        ghost var b := Now();
        assert removed[i] in removed;
        RemoveGone(removed[i]);
        GoneFrame(a, b, Now(), removed, i);
      }
      assert removed[..|removed|] == removed;
    }

    /**
     Ingest new and changed files, drop blocks without a file. Only blocks the vault holds are looked at for
     removal, and links are recomputed only when the report says something. From an index whose hashes can be trusted
     the invariant is established; `Passed` says what happens to the slots in any case.
     */
    method Reconcile() returns (report: Report)
      requires env.Injective() && Consistent(env, Now())
      modifies this`world, this`vault, this`hashes, this`seeded, this`src, this`log
      ensures seeded && world.disk == old(world).disk
      ensures Passed(env, old(Now()), Known(env, old(Now()), old(seeded)), Now(), report)
      ensures Restartable(env, old(Now())) ==>
                Reconciled(env, old(Now()), Known(env, old(Now()), old(seeded)), Now(), report)
    {
      hide Safe, Consistent, Inv, ReadAt, SameAt, GoneAt, AllLinked, Owned, Relinked, Sound;
      ghost var start := Now();
      Seeded(env, start, seeded);
      if !seeded {
        hashes := Persisted(env, world) + hashes;
        seeded := true;
      }
      ghost var a := Now();
      var changed := ReadFiles();
      ghost var b := Now();
      var removed := DropGone();
      ghost var c := Now();
      report := Report(changed, removed);
      PassedSlots(env, a, b, c, removed);
      if Safe(env, a) { PassDone(env, a, c); }
      if !report.IsEmpty() {
        if Safe(env, a) { InvParts(env, c); }
        RefreshLinks();
        if Safe(env, a) { SafeParts(env, Now()); RelinkedInv(env, c, Now()); }
      }
      PassedNow(env, start, a, c, Now(), report);
    }

    /** Clear the index, one table after the other, and take everything in again. */
    method Rebuild() returns (report: Report)
      requires env.Injective() && SafeLog(env, log)
      modifies this
      ensures Inv(env, Now()) && src == world.disk == old(world).disk
      ensures Synced(env, world.disk, world)
      ensures gaps == old(gaps) + ClearGaps(old(world))
    {
      hide Reconciled, Inv, Restartable, Synced, SafeLog;
      ghost var log0 := log;
      gaps := gaps + ClearGaps(world);
      world := Apply(Apply(Apply(world, ClearRecords), ClearLinks), ClearVectors);
      Do(ClearHashes);
      vault := Vault(env.lower, map[]);
      hashes := map[];
      src := map[];
      ghost var a := Now();
      Cleared(env, old(world), log0, a);
      report := Reconcile();
      FromNothing(env, a, Known(env, a, old(seeded)), Now(), report);
    }

    /** Someone else writes or deletes a block file. */
    method EditFile(id: BlockId, content: Option<string>)
      modifies this`world
      ensures world == old(world).(disk := if content.Some? then old(world).disk[id := content.value]
              else old(world).disk - {id})
    {
      world := world.(disk := if content.Some? then world.disk[id := content.value] else world.disk - {id});
    }
  }

  /** What a pass leaves where hashes can be trusted: `known` are the hashes it went by. */
  ghost predicate Reconciled(e: Env, a: State, known: map<BlockId, Hash>, b: State, report: Report) {
    && Inv(e, b) && Passed(e, a, known, b, report)
    && (!report.IsEmpty() ==> AllLinked(b.vault, b.world))
    && (report.IsEmpty() ==> b.world == a.world && b.hashes == known)
  }

  lemma Cleared(e: Env, w: World, log: seq<World>, s: State)
    requires SafeLog(e, log)
    requires s.world == Apply(Apply(Apply(Apply(w, ClearRecords), ClearLinks), ClearVectors), ClearHashes)
    requires s.vault == Vault(e.lower, map[]) && s.hashes == map[] && s.src == map[]
    requires s.log == log + [s.world]
    ensures Restartable(e, s) && s.world.disk == w.disk
    ensures forall x :: s.world.At(x) == BLANK
    ensures Persisted(e, s.world) == map[]
  {
    forall x ensures s.world.At(x) == BLANK {}
    hide SafeLog, Persisted;
    assert Survivable(e, s.world);
    LogMore(e, log, s.world);
    assert Persisted(e, s.world) == map[] by { NonePersisted(e, s.world); }
  }

  lemma NonePersisted(e: Env, w: World)
    requires forall x :: w.At(x) == BLANK
    ensures Persisted(e, w) == map[]
  {
    forall x | x in w.slots ensures w.slots[x].hash.None? { assert w.At(x) == BLANK; }
  }

  /** With an empty vault and a blank index every file is taken in, and the index is what the files call for. */
  lemma FromNothing(e: Env, a: State, known: map<BlockId, Hash>, b: State, report: Report)
    requires Reconciled(e, a, known, b, report) && known == map[] && a.vault.blocks == map[]
    requires forall x :: a.world.At(x) == BLANK
    ensures Inv(e, b) && b.src == b.world.disk == a.world.disk && Synced(e, b.world.disk, b.world)
  {
    hide Synced, Inv, AllLinked;
    assert Clean(e, b);
    forall x | x in b.world.disk ensures x in report.changed {}
    assert AllLinked(b.vault, b.world) by { LinkedIfAny(e, b, report); }
    InvSynced(e, b);
  }

  lemma LinkedIfAny(e: Env, b: State, report: Report)
    requires Inv(e, b) && b.src == b.world.disk && forall x | x in b.world.disk :: x in report.changed
    requires !report.IsEmpty() ==> AllLinked(b.vault, b.world)
    ensures AllLinked(b.vault, b.world)
  {}

  /** The hashes an engine goes by: its own, and until it is seeded the persisted ones of its version behind them. */
  function Persisted(e: Env, w: World): map<BlockId, Hash> {
    map id | id in w.slots && w.slots[id].hash.Some? && w.slots[id].hash.value.0 == e.Version() ::
      w.slots[id].hash.value.1
  }

  function Known(e: Env, s: State, seeded: bool): map<BlockId, Hash> {
    if seeded then s.hashes else Persisted(e, s.world) + s.hashes
  }

  lemma Seeded(e: Env, s: State, seeded: bool)
    requires Consistent(e, s)
    ensures Consistent(e, s.(hashes := Known(e, s, seeded)))
    ensures Safe(e, s) ==> Safe(e, s.(hashes := Known(e, s, seeded)))
  {
    hide Survivable, SafeLog;
    var t := s.(hashes := Known(e, s, seeded));
    forall x ensures TracksAt(e, t, x) { assert TracksAt(e, s, x); }
    forall x ensures RemembersAt(e, t, x) { assert RemembersAt(e, s, x); }
  }

  lemma SameAtSelf(a: State, x: BlockId)
    ensures SameAt(a, a, x)
  {}

  lemma SameAtChain(a: State, b: State, c: State, x: BlockId)
    requires SameAt(a, b, x) && SameAt(b, c, x)
    ensures SameAt(a, c, x)
  {}

  lemma FileFrame(e: Env, a: State, b: State, c: State, done: set<BlockId>, id: BlockId, files: map<BlockId, string>,
                  safe: bool)
    requires id in files && id !in done
    requires forall x | x in done :: x in files && ReadAt(e, a, b, x, files[x], safe)
    requires forall x | x !in done :: SameAt(a, b, x)
    requires forall x | x != id :: SameAt(b, c, x)
    requires ReadAt(e, b, c, id, files[id], Safe(e, b)) && (safe ==> Safe(e, b))
    ensures forall x | x in done + {id} :: ReadAt(e, a, c, x, files[x], safe)
    ensures forall x | x !in done + {id} :: SameAt(a, c, x)
    ensures Get(a.hashes, id) == Get(b.hashes, id)
  {
    hide Safe, ReadAt, SameAt;
    assert SameAt(a, b, id);
    ReadFrom(e, a, b, c, id, files[id], Safe(e, b), safe);
    forall x | x in done + {id} ensures ReadAt(e, a, c, x, files[x], safe) {
      if x != id { ReadMoves(e, a, b, c, x, files[x], safe); }
    }
    forall x | x !in done + {id} ensures SameAt(a, c, x) { SameAtChain(a, b, c, x); }
  }

  lemma ReadFrom(e: Env, a: State, b: State, c: State, x: BlockId, source: string, was: bool, safe: bool)
    requires ReadAt(e, b, c, x, source, was) && SameAt(a, b, x) && (safe ==> was)
    ensures ReadAt(e, a, c, x, source, safe) && Get(a.hashes, x) == Get(b.hashes, x)
  {
    hide Good, Hashed, SoundSlot;
  }

  lemma ReadMoves(e: Env, a: State, b: State, c: State, x: BlockId, source: string, safe: bool)
    requires ReadAt(e, a, b, x, source, safe) && SameAt(b, c, x)
    ensures ReadAt(e, a, c, x, source, safe)
  {
    hide Good, Hashed, SoundSlot;
  }

  lemma GoneFrame(a: State, b: State, c: State, removed: seq<BlockId>, i: nat)
    requires i < |removed|
    requires forall x | x !in removed[..i] :: SameAt(a, b, x)
    requires forall x | x in removed[..i] :: GoneAt(b, x)
    requires forall x | x != removed[i] :: SameAt(b, c, x)
    requires GoneAt(c, removed[i])
    ensures forall x | x !in removed[..i + 1] :: SameAt(a, c, x)
    ensures forall x | x in removed[..i + 1] :: GoneAt(c, x)
  {
    assert removed[..i + 1] == removed[..i] + [removed[i]];
    hide SameAt, GoneAt;
    forall x | x in removed[..i + 1] ensures GoneAt(c, x) {
      if x != removed[i] { GoneMoves(b, c, x); }
    }
    forall x | x !in removed[..i + 1] ensures SameAt(a, c, x) { SameAtChain(a, b, c, x); }
  }

  lemma GoneMoves(b: State, c: State, x: BlockId)
    requires GoneAt(b, x) && SameAt(b, c, x)
    ensures GoneAt(c, x)
  {
    assert Get(b.src, x) == Get(c.src, x);
  }

  /** What a pass makes of each slot, and of vault and sources, from any index. */
  ghost predicate Passed(e: Env, a: State, known: map<BlockId, Hash>, b: State, report: Report) {
    && b.src == b.world.disk == a.world.disk && Consistent(e, b)
    && (forall x :: x in report.changed <==> x in b.world.disk && Get(known, x) != Some(e.hash(b.world.disk[x])))
    && (forall x :: x in report.removed <==> x in a.vault.blocks && x !in b.world.disk)
    && (forall x | x in b.world.disk :: PassedAt(e, a, b, report, x))
    && (forall x | x !in b.world.disk :: b.world.At(x) == if x in a.vault.blocks then BLANK else a.world.At(x))
  }

  /** Ingested, or skipped with at most its record and links rewritten: the latter if there was anything to report. */
  ghost predicate PassedAt(e: Env, a: State, b: State, report: Report, id: BlockId)
    requires id in b.world.disk && id in b.vault.blocks
  {
    if id in report.changed then Good(e, b.world.At(id), id, b.world.disk[id])
    else b.world.At(id) == if report.IsEmpty() then a.world.At(id) else Relinked(e, b.vault, a.world.At(id), id)
  }

  /** After both loops every file was read, and nothing else is held. */
  lemma PassedSlots(e: Env, a: State, b: State, c: State, removed: seq<BlockId>)
    requires Consistent(e, a) && Consistent(e, c) && a.world.disk == b.world.disk == c.world.disk
    requires forall x | x in b.world.disk :: ReadAt(e, a, b, x, b.world.disk[x], Safe(e, a))
    requires forall x | x !in b.world.disk :: SameAt(a, b, x)
    requires forall x :: x in removed <==> x in b.vault.blocks && x !in b.world.disk
    requires forall x | x !in removed :: SameAt(b, c, x)
    requires forall x | x in removed :: GoneAt(c, x)
    ensures c.src == c.world.disk && c.vault.blocks.Keys == c.src.Keys
    ensures forall x | x in c.world.disk :: ReadAt(e, a, c, x, c.world.disk[x], Safe(e, a))
    ensures forall x :: x in removed <==> x in a.vault.blocks && x !in c.world.disk
    ensures forall x | x !in c.world.disk :: c.world.At(x) == if x in a.vault.blocks then BLANK else a.world.At(x)
  {
    hide Safe;
    forall x ensures Get(c.src, x) == Get(c.world.disk, x) {
      hide Good, Hashed, SoundSlot;
      assert x in c.vault.blocks <==> x in c.src;
    }
    assert c.src == c.world.disk by { GetEqual(c.src, c.world.disk); }
    forall x | x in c.world.disk ensures ReadAt(e, a, c, x, c.world.disk[x], Safe(e, a)) {
      ReadMoves(e, a, b, c, x, c.world.disk[x], Safe(e, a));
    }
    forall x ensures x in removed <==> x in a.vault.blocks && x !in c.world.disk {
      if x !in b.world.disk { assert SameAt(a, b, x); }
    }
  }

  lemma PassedNow(e: Env, s: State, a: State, c: State, d: State, report: Report)
    requires s.world == a.world && s.vault == a.vault && a.world.disk == c.world.disk == d.world.disk
    requires Consistent(e, c) && c.src == c.world.disk && c.vault.blocks.Keys == c.src.Keys
    requires forall x | x in c.world.disk :: ReadAt(e, a, c, x, c.world.disk[x], Safe(e, a))
    requires forall x :: x in report.changed <==> x in c.world.disk && Get(a.hashes, x) != Some(e.hash(c.world.disk[x]))
    requires forall x :: x in report.removed <==> x in a.vault.blocks && x !in c.world.disk
    requires forall x | x !in c.world.disk :: c.world.At(x) == if x in a.vault.blocks then BLANK else a.world.At(x)
    requires report.IsEmpty() ==> d == c
    requires d.src == c.src && d.vault == c.vault && d.hashes == c.hashes
    requires !report.IsEmpty() ==>
               && (forall x | x in c.vault.blocks :: d.world.At(x) == Relinked(e, c.vault, c.world.At(x), x))
               && (forall x | x !in c.vault.blocks :: d.world.At(x) == c.world.At(x))
    ensures Passed(e, s, a.hashes, d, report)
  {
    hide Safe, Good, Hashed, SoundSlot, Relinked;
    forall x ensures TracksAt(e, d, x) { assert TracksAt(e, c, x); }
    forall x ensures RemembersAt(e, d, x) {
      assert RemembersAt(e, c, x);
      RelinkedHash(e, c.vault, c.world.At(x), x);
    }
    forall x | x in d.world.disk ensures PassedAt(e, s, d, report, x) {
      assert ReadAt(e, a, c, x, c.world.disk[x], Safe(e, a));
      RelinkedGood(e, c, x);
    }
  }

  lemma RelinkedHash(e: Env, v: Vault, slot: Slot, id: BlockId)
    ensures id in v.blocks ==> Relinked(e, v, slot, id).hash == slot.hash
  {}

  lemma RelinkedGood(e: Env, c: State, x: BlockId)
    requires Consistent(e, c) && x in c.src
    ensures x in c.vault.blocks
    ensures Good(e, c.world.At(x), x, c.src[x]) ==> Good(e, Relinked(e, c.vault, c.world.At(x), x), x, c.src[x])
  {
    assert TracksAt(e, c, x);
  }

  /** From trusted hashes, every slot is then sound. */
  lemma PassDone(e: Env, a: State, c: State)
    requires Consistent(e, c) && Safe(e, c) && c.src == c.world.disk
    requires forall x | x in c.world.disk :: ReadAt(e, a, c, x, c.world.disk[x], true)
    ensures Inv(e, c)
  {
    hide SoundSlot, SafeLog;
    forall x ensures SoundSlot(e, c.world.At(x), x) {
      if x in c.world.disk {
        assert ReadAt(e, a, c, x, c.world.disk[x], true);
      } else {
        assert SurvivesAt(e, c.world, x);
      }
    }
  }

  lemma GetIs<T>(m: map<BlockId, T>, id: BlockId)
    requires id in m
    ensures Get(m, id) == Some(m[id])
  {}

  lemma GetEqual<T>(m: map<BlockId, T>, n: map<BlockId, T>)
    requires forall x :: Get(m, x) == Get(n, x)
    ensures m == n
  {
    forall x ensures x in m <==> x in n { assert Get(m, x) == Get(n, x); }
    forall x | x in m ensures m[x] == n[x] { assert Get(m, x) == Get(n, x); }
  }

  lemma ConsistentParts(e: Env, s: State)
    requires Consistent(e, s)
    ensures s.vault.lower == e.lower && s.vault.blocks.Keys == s.src.Keys
  {}

  lemma SafeParts(e: Env, s: State)
    requires Safe(e, s)
    ensures SafeLog(e, s.log)
  {}

  /** A known hash means, if hashes can be trusted, that the slot is right about the file. */
  lemma SkippedFile(e: Env, a: State, id: BlockId, source: string, b: State)
    requires e.Injective() && Consistent(e, a) && Get(a.world.disk, id) == Some(source)
    requires Get(a.hashes, id) == Some(e.hash(source))
    requires b.world == a.world && b.hashes == a.hashes && b.log == a.log && b.src == a.src[id := source]
    requires b.vault == if id in a.vault.blocks then a.vault
            else a.vault.(blocks := a.vault.blocks[id := e.parse(id, source)])
    ensures Consistent(e, b)
    ensures Safe(e, a) ==> Safe(e, b) && SoundSlot(e, b.world.At(id), id)
  {
    hide SafeLog;
    assert TracksAt(e, a, id) && RemembersAt(e, a, id);
    if Safe(e, a) { assert SurvivesAt(e, a.world, id); }
    forall x ensures TracksAt(e, b, x) { assert TracksAt(e, a, x); }
    forall x ensures RemembersAt(e, b, x) { assert RemembersAt(e, a, x); }
  }

  lemma CaughtUp(e: Env, a: State, id: BlockId, source: string, b: State)
    requires e.Injective() && Consistent(e, a)
    requires forall x | x != id :: b.world.At(x) == a.world.At(x)
    requires b.hashes == a.hashes[id := e.hash(source)] && b.src == a.src[id := source]
    requires b.vault == a.vault.(blocks := a.vault.blocks[id := e.parse(id, source)])
    requires Hashed(e, b.world.At(id), source)
    ensures Consistent(e, b)
  {
    forall x ensures TracksAt(e, b, x) { assert TracksAt(e, a, x); }
    forall x ensures RemembersAt(e, b, x) { assert RemembersAt(e, a, x); }
  }

  lemma DeleteSafe(e: Env, a: State, id: BlockId)
    requires Inv(e, a)
    ensures Survivable(e, a.world) && Survivable(e, Apply(a.world, DeleteFile(id)))
    ensures SafeLog(e, a.log) && SafeLog(e, a.log + [Apply(a.world, DeleteFile(id))])
  {
    SoundSurvives(e, a.world, a.world.disk - {id});
    SoundSurvives(e, a.world, a.world.disk);
    LogMore(e, a.log, Apply(a.world, DeleteFile(id)));
  }

  lemma DroppedOwn(e: Env, a: State, b: State, id: BlockId)
    requires Consistent(e, a) && Sound(e, a.world)
    requires b.vault == a.vault.(blocks := a.vault.blocks - {id})
    requires forall x | x != id :: b.world.At(x) == a.world.At(x)
    ensures Owned(e, b.vault, b.world)
  {
    hide OwnIs, Sound, Tracks, Remembers;
    forall x | x in b.vault.blocks ensures OwnIs(e, b.world.At(x), x, b.vault.blocks[x]) { InvOwn(e, a, x); }
  }

  lemma SafeAlike(e: Env, s: State, t: State)
    requires s.world == t.world && s.log == t.log
    ensures Safe(e, s) <==> Safe(e, t)
  {}

  lemma InvParts(e: Env, s: State)
    requires Inv(e, s)
    ensures Tracks(e, s) && Remembers(e, s) && Consistent(e, s) && Sound(e, s.world) && Safe(e, s)
    ensures s.vault.blocks.Keys == s.src.Keys && s.vault.lower == e.lower
    ensures Owned(e, s.vault, s.world)
  {
    SoundSurvives(e, s.world, s.world.disk);
    hide Survivable, SafeLog, OwnIs, Sound;
    forall x | x in s.vault.blocks ensures OwnIs(e, s.world.At(x), x, s.vault.blocks[x]) { InvOwn(e, s, x); }
  }

  lemma WriteSafe(e: Env, a: State, id: BlockId, source: string)
    requires Inv(e, a)
    ensures a.vault.lower == e.lower
    ensures Survivable(e, Apply(a.world, WriteFile(id, source)))
    ensures SafeLog(e, a.log + [Apply(a.world, WriteFile(id, source))])
  {
    SoundSurvives(e, a.world, a.world.disk[id := source]);
    LogMore(e, a.log, Apply(a.world, WriteFile(id, source)));
  }
}
