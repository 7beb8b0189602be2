/**
 Blocks, their bodies and the vault that holds them, as values. A body is a sequence of atoms: single
 characters and directives, so that every cut between atoms is a cut outside the directives.
 */
module Wiki {
  import opened Prelude
  import opened Text

  /** The shape `BlockId::parse` accepts: 26 ASCII letters or digits. */
  predicate IsBlockId(s: string) {
    |s| == 26 && forall i | 0 <= i < |s| :: IsAsciiAlnum(s[i])
  }

  type BlockId = s: string | IsBlockId(s) witness "00000000000000000000000000"

  /** A character, or a `[[target|alias]]` (`![[…]]` when `embed`) together with its source text. */
  datatype Atom = Ch(c: char) | Ref(embed: bool, target: string, alias: Option<string>, src: string) {
    function Label(): string
      requires Ref?
    {
      if alias.Some? then alias.value else target
    }

    function Raw(): string {
      if Ch? then [c] else src
    }
  }

  type Body = seq<Atom>

  function Raw(body: Body): string {
    if body == [] then "" else body[0].Raw() + Raw(body[1..])
  }

  lemma {:induction false} RawConcat(a: Body, b: Body)
    ensures Raw(a + b) == Raw(a) + Raw(b)
  {
    if a == [] {
      assert a + b == b;
    } else {
      assert (a + b)[1..] == a[1..] + b;
      RawConcat(a[1..], b);
    }
  }

  function Chars(s: string): Body {
    seq(|s|, i requires 0 <= i < |s| => Ch(s[i]))
  }

  /** The directive text the engine itself writes. */
  function EmbedOf(id: BlockId): Atom { Ref(true, id, None, "![[" + id + "]]") }

  function ReferenceTo(id: BlockId): Atom { Ref(false, id, None, "[[" + id + "]]") }

  /** Frontmatter other than the title: managed tags, lock flag, modification stamp, properties. */
  datatype Meta = Meta(tags: seq<string>, locked: bool, updated: Option<string>, props: seq<(string, string)>)

  datatype Block = Block(title: Option<string>, meta: Meta, body: Body) {
    /** The title, else the first line of the body that says something, else the id. */
    function DisplayTitle(id: BlockId): string {
      if HasTitle() then Trim(title.value) else Heading(Lines(Raw(body)), id)
    }

    predicate HasTitle() { title.Some? && Trim(title.value) != "" }
  }

  function TrimHashes(s: string): string {
    if s != "" && s[0] == '#' then TrimHashes(s[1..]) else s
  }

  function StripMarkup(s: string): string {
    if s == "" then "" else (if s[0] in "*_`" then "" else [s[0]]) + StripMarkup(s[1..])
  }

  function Truncate(s: string, n: nat): string {
    if |s| > n then s[..n] + "\U{2026}" else s
  }

  function Heading(lines: seq<string>, id: BlockId): string {
    if lines == [] then id else
    var t := Trim(TrimHashes(Trim(lines[0])));
    if t != "" then Truncate(StripMarkup(t), 80) else Heading(lines[1..], id)
  }

  /** `lower` stands for `str::to_lowercase`; nothing is assumed about it. */
  datatype Vault = Vault(lower: string -> string, blocks: map<BlockId, Block>) {

    /** The key under which a block's title is indexed, if it has a usable one. */
    function TitleKey(id: BlockId): Option<string>
      requires id in blocks
    {
      if !blocks[id].HasTitle() then None else
      var key := lower(Trim(blocks[id].title.value));
      if key == "" then None else Some(key)
    }

    function Holders(key: string): set<BlockId> {
      set id | id in blocks && TitleKey(id) == Some(key)
    }

    /** A title shared by several blocks belongs to the one with the least id. */
    function TitleOwner(key: string): (r: Option<BlockId>)
      ensures r.Some? ==> r.value in Holders(key)
      ensures r.Some? <==> Holders(key) != {}
    {
      if Holders(key) == {} then None else Some(Least(Holders(key)))
    }

    /** A directive's target: by id first, then by title. */
    function Resolve(target: string): (r: Option<BlockId>)
      ensures r.Some? ==> r.value in blocks
    {
      var t := Trim(target);
      if IsBlockId(t) && t in blocks then Some(t) else TitleOwner(lower(t))
    }

    /** The resolved embeds of a body, in document order. */
    function ChildrenOf(body: Body): (r: seq<BlockId>)
      ensures forall x :: x in r <==> Embeds(body, x)
      ensures forall x | x in r :: x in blocks
    {
      if body == [] then [] else
      var rest := ChildrenOf(body[1..]);
      assert forall x :: Embeds(body, x) <==> EmbedsAt(body, 0, x) || Embeds(body[1..], x) by {
        forall x ensures Embeds(body, x) <==> EmbedsAt(body, 0, x) || Embeds(body[1..], x) { EmbedsTail(body, x); }
      }
      if body[0].Ref? && body[0].embed && Resolve(body[0].target).Some?
      then [Resolve(body[0].target).value] + rest
      else rest
    }

    function Children(id: BlockId): seq<BlockId> {
      if id in blocks then ChildrenOf(blocks[id].body) else []
    }

    ghost predicate EmbedsAt(body: Body, k: int, x: BlockId) {
      0 <= k < |body| && body[k].Ref? && body[k].embed && Resolve(body[k].target) == Some(x)
    }

    /** Some directive of `body` transcludes `x`. */
    ghost predicate Embeds(body: Body, x: BlockId) {
      exists k :: EmbedsAt(body, k, x)
    }

    lemma EmbedsTail(body: Body, x: BlockId)
      requires body != []
      ensures Embeds(body, x) <==> EmbedsAt(body, 0, x) || Embeds(body[1..], x)
    {
      if k :| EmbedsAt(body, k, x) && k > 0 { assert EmbedsAt(body[1..], k - 1, x); }
      if k :| EmbedsAt(body[1..], k, x) { assert EmbedsAt(body, k + 1, x); }
    }

    lemma EmbedsConcat(a: Body, b: Body, x: BlockId)
      ensures Embeds(a + b, x) <==> Embeds(a, x) || Embeds(b, x)
    {
      if k :| EmbedsAt(a + b, k, x) {
        if k < |a| { assert EmbedsAt(a, k, x); } else { assert EmbedsAt(b, k - |a|, x); }
      }
      if k :| EmbedsAt(a, k, x) { assert EmbedsAt(a + b, k, x); }
      if k :| EmbedsAt(b, k, x) { assert EmbedsAt(a + b, |a| + k, x); }
    }

    ghost predicate MentionsAt(body: Body, k: int, x: BlockId) {
      0 <= k < |body| && body[k].Ref? && !body[k].embed && Resolve(body[k].target) == Some(x)
    }

    /** Some directive of `body` references `x` without embedding it. */
    ghost predicate Mentions(body: Body, x: BlockId) {
      exists k :: MentionsAt(body, k, x)
    }

    lemma MentionsTail(body: Body, x: BlockId)
      requires body != []
      ensures Mentions(body, x) <==> MentionsAt(body, 0, x) || Mentions(body[1..], x)
    {
      if k :| MentionsAt(body, k, x) && k > 0 { assert MentionsAt(body[1..], k - 1, x); }
      if k :| MentionsAt(body[1..], k, x) { assert MentionsAt(body, k + 1, x); }
    }

    // ---------- the transclusion graph ----------

    ghost predicate Edge(a: BlockId, b: BlockId) {
      a in blocks && Embeds(blocks[a].body, b)
    }

    ghost predicate IsPath(p: seq<BlockId>) {
      |p| >= 1 && forall i | 0 <= i < |p| - 1 :: Edge(p[i], p[i + 1])
    }

    ghost predicate PathFromTo(p: seq<BlockId>, a: BlockId, b: BlockId) {
      IsPath(p) && p[0] == a && p[|p| - 1] == b
    }

    /** `b` is `a`, or is transcluded by it directly or through others. */
    ghost predicate Reaches(a: BlockId, b: BlockId) {
      exists p :: PathFromTo(p, a, b)
    }

    lemma ReachesSelf(a: BlockId)
      ensures Reaches(a, a)
    {
      assert PathFromTo([a], a, a);
    }

    lemma ReachesStep(a: BlockId, b: BlockId, c: BlockId)
      requires Edge(a, b) && Reaches(b, c)
      ensures Reaches(a, c)
    {
      var p :| PathFromTo(p, b, c);
      assert PathFromTo([a] + p, a, c);
    }

    lemma ReachesSnoc(a: BlockId, b: BlockId, c: BlockId)
      requires Reaches(a, b) && Edge(b, c)
      ensures Reaches(a, c)
    {
      var p :| PathFromTo(p, a, b);
      assert PathFromTo(p + [c], a, c);
    }

    /** Reaching something else goes through a child. */
    lemma ReachesFirst(a: BlockId, c: BlockId) returns (b: BlockId)
      requires Reaches(a, c) && a != c
      ensures Edge(a, b) && Reaches(b, c)
    {
      var p :| PathFromTo(p, a, c);
      b := p[1];
      assert PathFromTo(p[1..], b, c);
    }

    /** A set closed under children contains whatever its members reach. */
    lemma {:induction false} ClosedReach(s: set<BlockId>, p: seq<BlockId>)
      requires IsPath(p) && p[0] in s
      requires forall a, b | a in s && Edge(a, b) :: b in s
      ensures p[|p| - 1] in s
    {
      if |p| > 1 { ClosedReach(s, p[1..]); }
    }

    ghost predicate Acyclic() {
      forall a, b | Edge(a, b) :: !Reaches(b, a)
    }
  }

  /** Ids in the order every listing and every loop over the vault uses. */
  function SortedIds(ids: set<BlockId>): (r: seq<BlockId>)
    ensures forall x :: x in r <==> x in ids
    ensures forall i, j | 0 <= i < j < |r| :: r[i] != r[j] && Le(r[i], r[j])
  {
    var r := Sorted(ids);
    assert forall i | 0 <= i < |r| :: r[i] in ids;
    r
  }

  lemma TrimId(id: BlockId)
    ensures Trim(id) == id
  {
    assert IsAsciiAlnum(id[0]) && IsAsciiAlnum(id[|id| - 1]);
    TrimEnds(id);
  }

  /** An id names its block whatever the titles are. */
  lemma ResolveId(v: Vault, id: BlockId)
    requires id in v.blocks
    ensures v.Resolve(id) == Some(id)
  {
    TrimId(id);
  }
}
