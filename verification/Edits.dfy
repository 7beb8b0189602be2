/**
 What the write operations do to a vault, as functions on vault values. They write texts; a block reads back from its
 file with its title trimmed and, as body, what is extracted from the text without its leading newlines (`BlockFile`
 shows the trimming for the codec).
 */
module Edits {
  import opened Prelude
  import opened Text
  import opened Wiki
  import opened Layout
  import opened Extraction

  function DropNl(body: Body): Body {
    if body != [] && body[0] == Ch('\n') then DropNl(body[1..]) else body
  }

  function DropNlEnd(body: Body): Body
    decreases |body|
  {
    if body != [] && body[|body| - 1] == Ch('\n') then DropNlEnd(body[..|body| - 1]) else body
  }

  predicate IsBlank(a: Atom) { a.Ch? && IsSpace(a.c) }

  function TrimBodyStart(body: Body): Body {
    if body != [] && IsBlank(body[0]) then TrimBodyStart(body[1..]) else body
  }

  function TrimBodyEnd(body: Body): Body
    decreases |body|
  {
    if body != [] && IsBlank(body[|body| - 1]) then TrimBodyEnd(body[..|body| - 1]) else body
  }

  function TrimBody(body: Body): Body { TrimBodyEnd(TrimBodyStart(body)) }

  /** The body a text is read as when it comes back from its file. */
  function Stored(text: string): Body { Read(TrimNlStart(text)) }

  /** Written out, a body comes back as it was, up to leading newlines: no directive is lost and none appears. */
  predicate ReadsBack(body: Body) { Stored(Raw(body)) == DropNl(body) }

  /** A block after its text was replaced and it went through its file. */
  function Rewritten(b: Block, text: string, now: string): Block {
    Block(StoredTitle(b.title), b.meta.(updated := Some(now)), Stored(text))
  }

  function NewBlock(text: string, now: string): Block {
    Block(None, Meta([], false, Some(now), []), Stored(text))
  }

  function PutBody(v: Vault, id: BlockId, text: string, now: string): Vault
    requires id in v.blocks
  {
    v.(blocks := v.blocks[id := Rewritten(v.blocks[id], text, now)])
  }

  function Remove(v: Vault, id: BlockId): Vault {
    v.(blocks := v.blocks - {id})
  }

  // ---------- carve ----------

  /** What a carve leaves of its parent's body. */
  function CarvedBody(body: Body, i: nat, j: nat, child: BlockId): Body
    requires i <= j <= |body|
  {
    body[..i] + [EmbedOf(child)] + body[j..]
  }

  /** Move `body[i..j]` of `parent` into the new block `child` and leave an embed of it behind. */
  function Carve(v: Vault, parent: BlockId, i: nat, j: nat, child: BlockId, now: string): Result<Vault> {
    if parent !in v.blocks then Err("unknown block") else
    var body := v.blocks[parent].body;
    if i >= j || j > |body| then Err("invalid carve selection range") else
    var selected := TrimBody(body[i..j]);
    if selected == [] then Err("carve selection is empty") else
    var created := v.(blocks := v.blocks[child := NewBlock(Raw(selected), now)]);
    if parent == child then Err("the new id is taken") else
    Ok(PutBody(created, parent, Raw(CarvedBody(body, i, j, child)), now))
  }

  // ---------- flatten ----------

  predicate RefersTo(v: Vault, a: Atom, target: BlockId) {
    a.Ref? && v.Resolve(a.target) == Some(target)
  }

  /** How many directives of a body resolve to `target`. */
  function Count(v: Vault, body: Body, target: BlockId): nat {
    if body == [] then 0 else (if RefersTo(v, body[0], target) then 1 else 0) + Count(v, body[1..], target)
  }

  function CountIn(v: Vault, ids: seq<BlockId>, target: BlockId): nat {
    if ids == [] then 0 else
    (if ids[0] in v.blocks then Count(v, v.blocks[ids[0]].body, target) else 0) + CountIn(v, ids[1..], target)
  }

  function CountAll(v: Vault, target: BlockId): nat { CountIn(v, SortedIds(v.blocks.Keys), target) }

  /** The last directive of a body that resolves to `target`. */
  function LastRef(v: Vault, body: Body, target: BlockId): (k: Option<nat>)
    ensures k.Some? ==> k.value < |body| && RefersTo(v, body[k.value], target)
    decreases |body|
  {
    if body == [] then None
    else if RefersTo(v, body[|body| - 1], target) then Some(|body| - 1)
    else LastRef(v, body[..|body| - 1], target)
  }

  /** Indent every non-blank line of a body after the first. */
  function ReindentBody(body: Body, col: nat): Body {
    if body == [] then [] else
    (if body[0] == Ch('\n') && |body| > 1 && body[1] != Ch('\n') then [body[0]] + Chars(Spaces(col)) else [body[0]])
    + ReindentBody(body[1..], col)
  }

  function TrimNlBody(body: Body): Body { DropNlEnd(DropNl(body)) }

  /** The parent's body with the embed at `k` replaced by the child's text, indented to the embed's column. */
  function Inlined(parentBody: Body, k: nat, childBody: Body): Body
    requires k < |parentBody|
  {
    var col := Width(Raw(parentBody[..k]));
    parentBody[..k] + ReindentBody(TrimNlBody(childBody), col) + parentBody[k + 1..]
  }

  /** What a flatten leaves of its parent's body. */
  function FlattenedBody(v: Vault, parent: BlockId, child: BlockId): Body
    requires parent in v.blocks && child in v.blocks && LastRef(v, v.blocks[parent].body, child).Some?
  {
    Inlined(v.blocks[parent].body, LastRef(v, v.blocks[parent].body, child).value, v.blocks[child].body)
  }

  /** Inline the single embed of `child` into `parent` and delete `child`. */
  function Flatten(v: Vault, parent: BlockId, child: BlockId, now: string): Result<Vault> {
    if parent !in v.blocks then Err("unknown block") else
    if child !in v.blocks then Err("unknown block") else
    if CountAll(v, child) != 1 then Err("flatten requires exactly one reference") else
    var body := v.blocks[parent].body;
    var here := LastRef(v, body, child);
    if here.None? then Err("its only reference is not in the parent") else
    if !body[here.value].embed then Err("its single reference is not an embed") else
    Ok(Remove(PutBody(v, parent, Raw(FlattenedBody(v, parent, child)), now), child))
  }

  // ---------- titles and resolution ----------

  /** Rewriting a block through its file keeps its title, up to outer white space. */
  lemma RewrittenTitle(v: Vault, id: BlockId, text: string, now: string)
    requires id in v.blocks
    ensures PutBody(v, id, text, now).TitleKey(id) == v.TitleKey(id)
    ensures v.blocks[id].HasTitle() ==>
              Rewritten(v.blocks[id], text, now).DisplayTitle(id) == v.blocks[id].DisplayTitle(id)
  {
    var b := v.blocks[id];
    if b.title.Some? { TrimEnds(b.title.value); TrimEnds(Trim(b.title.value)); }
  }

  /** Every block of `v` is in `w` under the same title key, and the others of `w` are untitled. */
  ghost predicate SameTitles(v: Vault, w: Vault) {
    && v.lower == w.lower
    && v.blocks.Keys <= w.blocks.Keys
    && forall id | id in w.blocks :: w.TitleKey(id) == if id in v.blocks then v.TitleKey(id) else None
  }

  /** Then a target that is not the id of a new block resolves as before. */
  lemma SameTitlesResolve(v: Vault, w: Vault, target: string)
    requires SameTitles(v, w)
    requires IsBlockId(Trim(target)) && Trim(target) in w.blocks ==> Trim(target) in v.blocks
    ensures w.Resolve(target) == v.Resolve(target)
  {
    var key := v.lower(Trim(target));
    assert w.Holders(key) == v.Holders(key);
  }
}
