/**
 What outlives the daemon: the block files and the rows of the index, changed one persisted call at a time.
 Parsing, writing, hashing and embedding are parameters; the 64-bit content hash is taken to be injective.
 */
module Store {
  import opened Prelude
  import opened Wiki

  type Hash = nat

  type Vector = seq<real>

  /** The fields an index record copies out of its block. */
  datatype Own = Own(title: Option<string>, tags: seq<string>, langs: seq<string>, content: string, context: string)

  datatype Record = Record(own: Own, childCount: nat)

  datatype LinkRow = LinkRow(source: BlockId, targetId: Option<BlockId>, target: string, embed: bool)

  /** Everything the index keeps for one id; `vec` is tagged with its model and `hash` with its version. */
  datatype Slot = Slot(rec: Option<Record>, links: seq<LinkRow>, vec: Option<(string, Vector)>,
    hash: Option<(string, Hash)>)

  const BLANK := Slot(None, [], None, None)

  datatype Env = Env(lower: string -> string,
                     parse: (BlockId, string) -> Block,
                     write: (Option<string>, Meta, string) -> string,
                     own: (BlockId, Block) -> Own,
                     hash: string -> Hash,
                     model: Option<string>,
                     embed: string -> Vector) {
    function Version(): string {
      if model.Some? then model.value else "noembed"
    }

    ghost predicate Injective() {
      forall s, t :: hash(s) == hash(t) ==> s == t
    }
  }

  datatype World = World(disk: map<BlockId, string>, slots: map<BlockId, Slot>) {
    function At(id: BlockId): Slot {
      if id in slots then slots[id] else BLANK
    }
  }

  /**
   The calls that change a file or commit a transaction. The last four are the statements of `clear`, those on a
   record's tables taken as one.
   */
  datatype Call =
    | WriteFile(id: BlockId, source: string)
    | DeleteFile(id: BlockId)
    | ReindexBlock(id: BlockId, rec: Record, links: seq<LinkRow>)
    | SetEmbedding(id: BlockId, model: string, vec: Vector)
    | SetContentHash(id: BlockId, version: string, hash: Hash)
    | RemoveBlock(id: BlockId)
    | ClearRecords
    | ClearLinks
    | ClearVectors
    | ClearHashes

  function Apply(w: World, c: Call): World {
    match c
    case WriteFile(id, source) => w.(disk := w.disk[id := source])
    case DeleteFile(id) => w.(disk := w.disk - {id})
    case ReindexBlock(id, rec, links) => w.(slots := w.slots[id := w.At(id).(rec := Some(rec), links := links)])
    case SetEmbedding(id, model, vec) => w.(slots := w.slots[id := w.At(id).(vec := Some((model, vec)))])
    case SetContentHash(id, version, hash) => w.(slots := w.slots[id := w.At(id).(hash := Some((version, hash)))])
    case RemoveBlock(id) => w.(slots := w.slots - {id})
    case ClearRecords => w.(slots := map id | id in w.slots :: w.slots[id].(rec := None))
    case ClearLinks => w.(slots := map id | id in w.slots :: w.slots[id].(links := []))
    case ClearVectors => w.(slots := map id | id in w.slots :: w.slots[id].(vec := None))
    case ClearHashes => w.(slots := map id | id in w.slots :: w.slots[id].(hash := None))
  }

  function BlockLinks(v: Vault, id: BlockId, body: Body): seq<LinkRow> {
    if body == [] then [] else
    (if body[0].Ref? then [LinkRow(id, v.Resolve(body[0].target), body[0].target, body[0].embed)] else [])
    + BlockLinks(v, id, body[1..])
  }

  function RecordOf(e: Env, v: Vault, id: BlockId): Record
    requires id in v.blocks
  {
    Record(e.own(id, v.blocks[id]), |v.Children(id)|)
  }

  // ---------- what a slot says about a file ----------

  ghost predicate Hashed(e: Env, slot: Slot, s: string) {
    slot.hash == Some((e.Version(), e.hash(s)))
  }

  ghost predicate OwnIs(e: Env, slot: Slot, id: BlockId, b: Block) {
    slot.rec.Some? && slot.rec.value.own == e.own(id, b)
  }

  ghost predicate VecIs(e: Env, slot: Slot, id: BlockId, b: Block) {
    e.model.Some? ==> slot.vec == Some((e.model.value, e.embed(e.own(id, b).context)))
  }

  /** Record and embedding are those of source `s`. */
  ghost predicate Good(e: Env, slot: Slot, id: BlockId, s: string) {
    OwnIs(e, slot, id, e.parse(id, s)) && VecIs(e, slot, id, e.parse(id, s))
  }

  /** A recorded hash vouches for record and embedding, whichever source it is the hash of. */
  ghost predicate SoundSlot(e: Env, slot: Slot, id: BlockId) {
    forall s :: Hashed(e, slot, s) ==> Good(e, slot, id, s)
  }

  ghost predicate Sound(e: Env, w: World) {
    forall id :: SoundSlot(e, w.At(id), id)
  }

  /** All that a restart needs: for a block with a file, the hash need only be right about that file. */
  ghost predicate SurvivesAt(e: Env, w: World, id: BlockId) {
    if id in w.disk then Hashed(e, w.At(id), w.disk[id]) ==> Good(e, w.At(id), id, w.disk[id])
      else SoundSlot(e, w.At(id), id)
  }

  ghost predicate Survivable(e: Env, w: World) {
    forall id :: SurvivesAt(e, w, id)
  }

  ghost predicate Linked(v: Vault, slot: Slot, id: BlockId)
    requires id in v.blocks
  {
    slot.rec.Some? && slot.rec.value.childCount == |v.Children(id)|
      && slot.links == BlockLinks(v, id, v.blocks[id].body)
  }

  /** Equal but for links and child count. */
  ghost predicate SameContent(a: Slot, b: Slot) {
    && a.vec == b.vec && a.hash == b.hash
    && (a.rec.Some? <==> b.rec.Some?)
    && (a.rec.Some? ==> a.rec.value.own == b.rec.value.own)
  }

  // ---------- agreement with a set of files ----------

  function VaultOf(e: Env, files: map<BlockId, string>): Vault {
    Vault(e.lower, map id | id in files :: e.parse(id, files[id]))
  }

  /** What can be read back under the current model and version. */
  function Readable(e: Env, slot: Slot): Slot {
    slot.(vec := if slot.vec.Some? && e.model == Some(slot.vec.value.0) then slot.vec else None,
    hash := if slot.hash.Some? && slot.hash.value.0 == e.Version() then slot.hash else None)
  }

  function Expected(e: Env, files: map<BlockId, string>, id: BlockId): Slot {
    if id !in files then BLANK else
    var v := VaultOf(e, files);
    var rec := RecordOf(e, v, id);
    Slot(Some(rec), BlockLinks(v, id, v.blocks[id].body),
         if e.model.Some? then Some((e.model.value, e.embed(rec.own.context))) else None,
         Some((e.Version(), e.hash(files[id]))))
  }

  /** The index is exactly what `files` call for. */
  ghost predicate Synced(e: Env, files: map<BlockId, string>, w: World) {
    forall id :: Readable(e, w.At(id)) == Expected(e, files, id)
  }

  lemma SoundSurvives(e: Env, w: World, disk: map<BlockId, string>)
    requires Sound(e, w)
    ensures Survivable(e, w.(disk := disk))
  {
    var w' := w.(disk := disk);
    forall id ensures SurvivesAt(e, w', id) {
      assert w'.At(id) == w.At(id) && SoundSlot(e, w.At(id), id);
    }
  }

  lemma SameContentSame(e: Env, a: Slot, b: Slot, id: BlockId)
    requires SameContent(a, b)
    ensures forall s :: Hashed(e, a, s) <==> Hashed(e, b, s)
    ensures forall s :: Good(e, a, id, s) <==> Good(e, b, id, s)
    ensures SoundSlot(e, a, id) <==> SoundSlot(e, b, id)
  {}

  lemma SyncedIsSound(e: Env, files: map<BlockId, string>, w: World)
    requires e.Injective() && Synced(e, files, w)
    ensures Sound(e, w)
  {
    forall id ensures SoundSlot(e, w.At(id), id) {
      assert Readable(e, w.At(id)) == Expected(e, files, id);
      SyncedSlot(e, files, w.At(id), id);
    }
  }

  lemma SyncedSlot(e: Env, files: map<BlockId, string>, slot: Slot, id: BlockId)
    requires e.Injective() && Readable(e, slot) == Expected(e, files, id)
    ensures SoundSlot(e, slot, id)
    ensures id in files ==>
              Hashed(e, slot, files[id]) && Good(e, slot, id, files[id]) && Linked(VaultOf(e, files), slot, id)
  {
    hide BlockLinks, Vault.Children;
    forall s | Hashed(e, slot, s) ensures Good(e, slot, id, s) {}
  }

  lemma SlotSynced(e: Env, files: map<BlockId, string>, slot: Slot, id: BlockId)
    requires id in files && Hashed(e, slot, files[id]) && Good(e, slot, id, files[id])
    requires Linked(VaultOf(e, files), slot, id)
    ensures Readable(e, slot) == Expected(e, files, id)
  {
    hide BlockLinks, Vault.Children;
  }

  // ---------- from any index ----------

  /** Every file's hash is in the index. */
  ghost predicate AllHashed(e: Env, w: World) {
    forall x | x in w.disk :: Hashed(e, w.At(x), w.disk[x])
  }

  /**
   What decides whether a start and a pass leave the slot of a file right, from any index: its hash does not match,
   so that it is ingested; or its embedding is right already, and its record too unless some other file is ingested,
   which makes the pass rewrite all records.
   */
  ghost predicate Recovers(e: Env, w: World, id: BlockId)
    requires id in w.disk
  {
    var b := e.parse(id, w.disk[id]);
    || !Hashed(e, w.At(id), w.disk[id])
    || (VecIs(e, w.At(id), id, b) && (OwnIs(e, w.At(id), id, b) || !AllHashed(e, w)))
  }

  /** The tables are emptied by separate transactions, the hashes last: the states in between. */
  function ClearGaps(w: World): seq<World> {
    var w1 := Apply(w, ClearRecords);
    var w2 := Apply(w1, ClearLinks);
    [w1, w2, Apply(w2, ClearVectors)]
  }

  /** Of an index whose hashes can be trusted, a `clear` stopped part way recovers in these cases only. */
  lemma GapRecovers(e: Env, w: World, k: nat, id: BlockId)
    requires Survivable(e, w) && k < 3 && id in w.disk
    ensures Recovers(e, ClearGaps(w)[k], id)
            <==> if k == 2 && e.model.Some? then !Hashed(e, w.At(id), w.disk[id]) else !AllHashed(e, w)
  {
    var w' := ClearGaps(w)[k];
    forall x
      ensures w'.At(x).rec == None && w'.At(x).hash == w.At(x).hash
      ensures w'.At(x).vec == if k == 2 then None else w.At(x).vec
    {
    }
    assert w'.disk == w.disk && SurvivesAt(e, w, id);
    assert AllHashed(e, w') <==> AllHashed(e, w) by {
      forall x | x in w.disk ensures Hashed(e, w'.At(x), w.disk[x]) <==> Hashed(e, w.At(x), w.disk[x]) {}
    }
  }
}
