/** Exporting blocks as linked flat documents, and growing the exported set along references. */
module Export {
  import opened Prelude
  import opened Text
  import opened Wiki
  import opened Layout
  import opened Render
  import opened References
  import opened Addresses

  ghost predicate ClosedUnderRefs(v: Vault, s: set<BlockId>) {
    forall x, t | x in s && t in FlatRefs(v, x) :: t in s
  }

  /** `s` is the least set that holds the selection and everything its members' renderings refer to. */
  ghost predicate LeastClosed(v: Vault, selection: set<BlockId>, s: set<BlockId>) {
    && selection <= s
    && ClosedUnderRefs(v, s)
    && forall other: set<BlockId> | selection <= other && ClosedUnderRefs(v, other) :: s <= other
  }

  /** Members already closed: those not waiting in the queue. */
  ghost predicate ClosedBut(v: Vault, s: set<BlockId>, waiting: seq<BlockId>) {
    forall x, t | x in s && x !in waiting && t in FlatRefs(v, x) :: t in s
  }

  method ExpandFollowLinks(v: Vault, ids0: seq<BlockId>) returns (ids: seq<BlockId>)
    ensures ids0 <= ids && (NoDup(ids0) ==> NoDup(ids))
    ensures LeastClosed(v, Elems(ids0), Elems(ids))
    ensures forall x | x in ids :: x in ids0 || x in v.blocks
  {
    ids := ids0;
    var inSet := set x | x in ids0;
    var queue := ids0;
    while queue != []
      invariant ids0 <= ids && (NoDup(ids0) ==> NoDup(ids))
      invariant inSet == Elems(ids) && Elems(queue) <= inSet
      invariant ClosedBut(v, inSet, queue)
      invariant forall other: set<BlockId> | Elems(ids0) <= other && ClosedUnderRefs(v, other) :: inSet <= other
      invariant forall x | x in ids :: x in ids0 || x in v.blocks
      decreases v.blocks.Keys - inSet, |queue|
    {
      var n := |queue| - 1;
      var id := queue[n];
      var rest := queue[..n];
      assert queue == rest + [id];
      var targets := FlatReferenceTargets(v, id);
      ghost var inSet0 := inSet;
      queue := rest;
      for i := 0 to |targets|
        invariant ids0 <= ids && (NoDup(ids0) ==> NoDup(ids))
        invariant inSet0 <= inSet == Elems(ids) && Elems(queue) <= inSet
        invariant forall t | t in targets[..i] :: t in inSet
        invariant forall x | x in inSet && x !in queue && x != id :: x in inSet0 && x !in rest
        invariant forall x | x in rest :: x in queue
        invariant forall other: set<BlockId> | Elems(ids0) <= other && ClosedUnderRefs(v, other) :: inSet <= other
        invariant forall x | x in ids :: x in ids0 || x in v.blocks
        invariant inSet == inSet0 ==> queue == rest
        invariant inSet != inSet0 ==> v.blocks.Keys - inSet < v.blocks.Keys - inSet0
      {
        var t := targets[i];
        assert t in FlatRefs(v, id);
        RefsInVault(v, id, t);
        if t !in inSet {
          assert t in v.blocks.Keys - inSet;
          inSet := inSet + {t};
          ids := ids + [t];
          queue := queue + [t];
        }
      }
      assert targets[..|targets|] == targets;
    }
  }

  lemma RefsInVault(v: Vault, id: BlockId, t: BlockId)
    requires t in FlatRefs(v, id)
    ensures t in v.blocks
  {
    FlatRefsAreSurfaced(v, id, t);
    var b :| SurfacesAt(v, id, b, t);
    var k :| v.MentionsAt(v.blocks[b].body, k, t);
  }

  // ---------- manifests ----------

  datatype Entry = Entry(path: string, block: string, raw: bool)

  function SlugFrom(s: string, prevDash: bool): string {
    if s == "" then ""
    else if IsAsciiAlnum(s[0]) then [AsciiLower(s[0])] + SlugFrom(s[1..], false)
    else if !prevDash then "-" + SlugFrom(s[1..], true)
    else SlugFrom(s[1..], true)
  }

  function TrimDashesStart(s: string): string {
    if s != "" && s[0] == '-' then TrimDashesStart(s[1..]) else s
  }

  function TrimDashesEnd(s: string): string
    decreases |s|
  {
    if s != "" && s[|s| - 1] == '-' then TrimDashesEnd(s[..|s| - 1]) else s
  }

  function Slug(title: string): string {
    TrimDashesEnd(TrimDashesStart(SlugFrom(Trim(title), false)))
  }

  function SlugFor(v: Vault, id: BlockId): string {
    var s := if id in v.blocks then Slug(v.blocks[id].DisplayTitle(id)) else "";
    if s == "" then id else s
  }

  // ---------- what names look like ----------

  predicate NameChar(c: char) { IsAsciiAlnum(c) || c == '-' || c == '.' }

  predicate NameLike(s: string) { forall k | 0 <= k < |s| :: NameChar(s[k]) }

  lemma {:induction false} SlugFromNames(s: string, prevDash: bool)
    ensures NameLike(SlugFrom(s, prevDash))
  {
    if s != "" {
      SlugFromNames(s[1..], true);
      SlugFromNames(s[1..], false);
    }
  }

  lemma {:induction false} DashesTrimmedStart(s: string)
    requires NameLike(s)
    ensures NameLike(TrimDashesStart(s))
  {
    if s != "" && s[0] == '-' { DashesTrimmedStart(s[1..]); }
  }

  lemma {:induction false} DashesTrimmedEnd(s: string)
    requires NameLike(s)
    ensures NameLike(TrimDashesEnd(s))
    decreases |s|
  {
    if s != "" && s[|s| - 1] == '-' { DashesTrimmedEnd(s[..|s| - 1]); }
  }

  /** Whatever a block is called, its document has a plain file name. */
  lemma EntryNames(v: Vault, ids: seq<BlockId>, id: BlockId, raw: bool)
    ensures ProperPath(EntryFor(v, ids, id, raw).path)
  {
    hide SlugFrom, TrimDashesStart, TrimDashesEnd, Trim;
    if id in v.blocks {
      var shown := Trim(v.blocks[id].DisplayTitle(id));
      SlugFromNames(shown, false);
      DashesTrimmedStart(SlugFrom(shown, false));
      DashesTrimmedEnd(TrimDashesStart(SlugFrom(shown, false)));
    }
    NameIsProper(EntryFor(v, ids, id, raw).path);
  }

  lemma NameIsProper(path: string)
    requires NameLike(path) && |path| > 2
    ensures ProperPath(path)
  {
    SplitNone(path);
  }

  function Sharing(v: Vault, ids: seq<BlockId>, slug: string): nat {
    if ids == [] then 0 else (if SlugFor(v, ids[0]) == slug then 1 else 0) + Sharing(v, ids[1..], slug)
  }

  function EntryFor(v: Vault, ids: seq<BlockId>, id: BlockId, raw: bool): Entry {
    var base := SlugFor(v, id);
    var name := if Sharing(v, ids, base) > 1 then base + "-" + id[..8] else base;
    Entry(name + ".md", id, raw)
  }

  function EntriesFor(v: Vault, ids: seq<BlockId>, raw: bool): (entries: seq<Entry>)
    ensures |entries| == |ids| && forall i | 0 <= i < |ids| :: entries[i] == EntryFor(v, ids, ids[i], raw)
  {
    seq(|ids|, i requires 0 <= i < |ids| => EntryFor(v, ids, ids[i], raw))
  }

  /** One entry per id, in path order. */
  method ManifestFromIds(v: Vault, ids: seq<BlockId>, raw: bool) returns (entries: seq<Entry>)
    ensures |entries| == |ids| && multiset(entries) == multiset(EntriesFor(v, ids, raw))
    ensures forall i, j | 0 <= i < j < |entries| :: Le(entries[i].path, entries[j].path)
  {
    hide EntryFor, Le;
    entries := [];
    ghost var all := EntriesFor(v, ids, raw);
    for n := 0 to |ids|
      invariant |entries| == n && multiset(entries) == multiset(all[..n])
      invariant forall i, j | 0 <= i < j < |entries| :: Le(entries[i].path, entries[j].path)
    {
      var e := EntryFor(v, ids, ids[n], raw);
      var at := |entries|;
      while at > 0 && !Le(entries[at - 1].path, e.path)
        invariant 0 <= at <= |entries|
        invariant forall i | at <= i < |entries| :: !Le(entries[i].path, e.path)
      {
        at := at - 1;
      }
      ghost var before := entries;
      entries := entries[..at] + [e] + entries[at..];
      InsertedSorted(before, at, e);
      InsertedMembers(before, at, e);
      assert all[..n + 1] == all[..n] + [e];
    }
    assert all[..|ids|] == all;
  }

  lemma InsertedMembers(es: seq<Entry>, at: nat, e: Entry)
    requires at <= |es|
    ensures multiset(es[..at] + [e] + es[at..]) == multiset(es) + multiset{e}
  {
    assert es == es[..at] + es[at..];
  }

  lemma InsertedSorted(es: seq<Entry>, at: nat, e: Entry)
    requires at <= |es| && forall i, j | 0 <= i < j < |es| :: Le(es[i].path, es[j].path)
    requires at > 0 ==> Le(es[at - 1].path, e.path)
    requires forall i | at <= i < |es| :: !Le(es[i].path, e.path)
    ensures var r := es[..at] + [e] + es[at..];
            forall i, j | 0 <= i < j < |r| :: Le(r[i].path, r[j].path)
  {
    var r := es[..at] + [e] + es[at..];
    forall i, j | 0 <= i < j < |r| ensures Le(r[i].path, r[j].path) {
      if i == at {
        LeTotal(es[j - 1].path, e.path);
      } else if j == at && i < at - 1 {
        LeTransitive(es[i].path, es[at - 1].path, e.path);
      }
    }
  }

  // ---------- two blocks, one file ----------

  /** The suffixed name of `x` is the plain name of `y`. */
  predicate SuffixedIs(v: Vault, ids: seq<BlockId>, x: BlockId, y: BlockId) {
    && Sharing(v, ids, SlugFor(v, x)) > 1 && Sharing(v, ids, SlugFor(v, y)) <= 1
    && SlugFor(v, y) == SlugFor(v, x) + "-" + x[..8]
  }

  lemma {:induction false} SharedBy(v: Vault, ids: seq<BlockId>, x: BlockId)
    requires x in ids
    ensures Sharing(v, ids, SlugFor(v, x)) >= 1
  {
    if x != ids[0] { SharedBy(v, ids[1..], x); }
  }

  lemma {:induction false} SharedByTwo(v: Vault, ids: seq<BlockId>, x: BlockId, y: BlockId)
    requires x in ids && y in ids && x != y && SlugFor(v, x) == SlugFor(v, y)
    ensures Sharing(v, ids, SlugFor(v, x)) > 1
  {
    hide SlugFor;
    if x == ids[0] { SharedBy(v, ids[1..], y); }
    else if y == ids[0] { SharedBy(v, ids[1..], x); }
    else { SharedByTwo(v, ids[1..], x, y); }
  }

  /**
   The id suffix does not always keep documents apart: two blocks get one file exactly when they share a slug and
   the first eight characters of their ids, or the suffixed name of one is the name of the other.
   */
  lemma SamePathIff(v: Vault, ids: seq<BlockId>, x: BlockId, y: BlockId, raw: bool)
    requires x in ids && y in ids && x != y
    ensures EntryFor(v, ids, x, raw).path == EntryFor(v, ids, y, raw).path <==>
            || (SlugFor(v, x) == SlugFor(v, y) && x[..8] == y[..8])
            || SuffixedIs(v, ids, x, y) || SuffixedIs(v, ids, y, x)
  {
    hide SlugFor, Sharing;
    var a, b := SlugFor(v, x), SlugFor(v, y);
    if a == b { SharedByTwo(v, ids, x, y); }
    var p := if Sharing(v, ids, a) > 1 then a + "-" + x[..8] else a;
    var q := if Sharing(v, ids, b) > 1 then b + "-" + y[..8] else b;
    SameSuffix(p, q, ".md");
    if Sharing(v, ids, a) > 1 && Sharing(v, ids, b) > 1 { SuffixedApart(a, x[..8], b, y[..8]); }
  }

  lemma SameSuffix(p: string, q: string, end: string)
    ensures p + end == q + end <==> p == q
  {
    assert (p + end)[..|p + end| - |end|] == p && (q + end)[..|q + end| - |end|] == q;
  }

  lemma SuffixedApart(a: string, m: string, b: string, n: string)
    requires |m| == |n|
    ensures a + "-" + m == b + "-" + n <==> a == b && m == n
  {
    var p, q := a + "-" + m, b + "-" + n;
    assert p[..|p| - |m| - 1] == a && p[|p| - |m|..] == m && q[..|q| - |n| - 1] == b && q[|q| - |n|..] == n;
  }

  /** Ids start with the time of making: two blocks of one title made in about the same second share a file. */
  lemma SameSecondSamePath(v: Vault, ids: seq<BlockId>, x: BlockId, y: BlockId, raw: bool)
    requires x in ids && y in ids && x in v.blocks && y in v.blocks && x != y && x[..8] == y[..8]
    requires v.blocks[x].HasTitle() && v.blocks[y].HasTitle() && v.blocks[x].title == v.blocks[y].title
    requires Slug(Trim(v.blocks[x].title.value)) != ""
    ensures EntryFor(v, ids, x, raw).path == EntryFor(v, ids, y, raw).path
  {
    hide Slug, Sharing;
    SamePathIff(v, ids, x, y, raw);
  }

  /** Two blocks called A, made one after the other. */
  lemma TwoPagesOneFile(lower: string -> string, x: BlockId, y: BlockId)
    requires x == "01ARZ3NDEKTSV4RRFFQ69G5FAV" && y == "01ARZ3NDEKTSV4RRFFQ69G5FAW"
    ensures var page := Block(Some("A"), Meta([], false, None, []), []);
            var v := Vault(lower, map[x := page, y := page]);
            EntryFor(v, [x, y], x, true).path == EntryFor(v, [x, y], y, true).path
  {
    hide *;
    TwoIds(x, y);
    TwoPages(lower, x, y);
  }

  lemma TwoIds(x: string, y: string)
    requires x == "01ARZ3NDEKTSV4RRFFQ69G5FAV" && y == "01ARZ3NDEKTSV4RRFFQ69G5FAW"
    ensures x != y && |x| == 26 && |y| == 26 && x[..8] == y[..8]
  {
    assert x[25] != y[25];
  }

  lemma TwoPages(lower: string -> string, x: BlockId, y: BlockId)
    requires x != y && x[..8] == y[..8]
    ensures var page := Block(Some("A"), Meta([], false, None, []), []);
            var v := Vault(lower, map[x := page, y := page]);
            EntryFor(v, [x, y], x, true).path == EntryFor(v, [x, y], y, true).path
  {
    hide EntryFor, Slug, Trim;
    var page := Block(Some("A"), Meta([], false, None, []), []);
    SlugOfOneLetter();
    SameSecondSamePath(Vault(lower, map[x := page, y := page]), [x, y], x, y, true);
  }

  lemma SlugOfOneLetter()
    ensures Trim("A") == "A" && Slug("A") != ""
  {
    TrimEnds("A");
    assert "A"[1..] == "";
    assert SlugFrom("A", false) == "a";
  }

  // ---------- planning ----------

  datatype PlannedDoc = PlannedDoc(path: string, id: BlockId, text: string, warnings: seq<BlockId>)

  /** The output path of each exported block: the last entry that names it wins. */
  function PathsOf(v: Vault, entries: seq<Entry>): map<BlockId, string>
    decreases |entries|
  {
    if entries == [] then map[] else
    var n := |entries| - 1;
    var paths := PathsOf(v, entries[..n]);
    var id := v.Resolve(entries[n].block);
    if id.Some? then paths[id.value := entries[n].path] else paths
  }

  /** A document is its block rendered with links into the set; warned about is what it refers to outside. */
  ghost predicate Planned(v: Vault, e: Entry, paths: map<BlockId, string>, doc: PlannedDoc) {
    && v.Resolve(e.block) == Some(doc.id) && doc.path == e.path
    && doc.text == FlatBlock(v, doc.id, Some(FlatSet(paths, e.path)))
    && NoDup(doc.warnings)
    && forall t :: t in doc.warnings <==> t in FlatRefs(v, doc.id) && t !in paths
  }

  /** The document has a link that takes its reader to the file `path`. */
  ghost predicate LeadsTo(doc: PlannedDoc, path: string) {
    exists address :: ShowsLink(doc.text, address) && Follow(doc.path, address) == path
  }

  lemma PlannedLeads(v: Vault, e: Entry, paths: map<BlockId, string>, doc: PlannedDoc, t: BlockId)
    requires Planned(v, e, paths, doc) && t in FlatRefs(v, doc.id) && t in paths && ProperPath(paths[t])
    ensures LeadsTo(doc, paths[t])
  {
    hide ShowsLink, Follow, RelativeLink, Flat, Expand;
    LinkShown(Expand(v, v.blocks[doc.id].body, {doc.id}), FlatSet(paths, e.path), t, 0);
    RelativeLinkLeads(e.path, paths[t]);
  }

  /** Every reference to a document of the set is a link that leads there. */
  ghost predicate Leads(v: Vault, doc: PlannedDoc, paths: map<BlockId, string>) {
    forall t | t in FlatRefs(v, doc.id) && t in paths && ProperPath(paths[t]) :: LeadsTo(doc, paths[t])
  }

  method PlanDoc(v: Vault, e: Entry, paths: map<BlockId, string>) returns (r: Result<PlannedDoc>)
    ensures r.Ok? <==> v.Resolve(e.block).Some?
    ensures r.Ok? ==> Planned(v, e, paths, r.value)
    ensures r.Ok? ==> Leads(v, r.value, paths)
  {
    hide FlatRefs, ProperPath, LeadsTo, FlatBlock;
    var id := v.Resolve(e.block);
    if id.None? { return Err("export target not found"); }
    var text := RenderFlat(v, id.value, Some(FlatSet(paths, e.path)));
    var targets := FlatReferenceTargets(v, id.value);
    var warnings := [];
    for i := 0 to |targets|
      invariant NoDup(warnings)
      invariant forall t :: t in warnings <==> t in targets[..i] && t !in paths
    {
      if targets[i] !in paths { warnings := warnings + [targets[i]]; }
    }
    assert targets[..|targets|] == targets;
    r := Ok(PlannedDoc(e.path, id.value, text.value, warnings));
    forall t | t in FlatRefs(v, id.value) && t in paths && ProperPath(paths[t])
      ensures LeadsTo(r.value, paths[t])
    {
      PlannedLeads(v, e, paths, r.value, t);
    }
  }

  method CollectPaths(v: Vault, entries: seq<Entry>) returns (paths: map<BlockId, string>)
    ensures paths == PathsOf(v, entries)
  {
    paths := map[];
    for i := 0 to |entries|
      invariant paths == PathsOf(v, entries[..i])
    {
      assert entries[..i + 1][..i] == entries[..i];
      var id := v.Resolve(entries[i].block);
      if id.Some? { paths := paths[id.value := entries[i].path]; }
    }
    assert entries[..|entries|] == entries;
  }

  /** All entries planned against the set they form; the first entry that cannot be found fails the whole plan. */
  method PlanExports(v: Vault, entries: seq<Entry>) returns (r: Result<seq<PlannedDoc>>)
    ensures r.Ok? <==> forall i | 0 <= i < |entries| :: v.Resolve(entries[i].block).Some?
    ensures r.Ok? ==> |r.value| == |entries|
    ensures r.Ok? ==> forall i | 0 <= i < |entries| :: Planned(v, entries[i], PathsOf(v, entries), r.value[i])
    ensures r.Ok? ==> forall i | 0 <= i < |entries| :: Leads(v, r.value[i], PathsOf(v, entries))
  {
    hide *;
    var paths := CollectPaths(v, entries);
    var docs: seq<PlannedDoc> := [];
    for i := 0 to |entries|
      invariant |docs| == i
      invariant forall j | 0 <= j < i :: v.Resolve(entries[j].block).Some?
      invariant forall j | 0 <= j < i :: Planned(v, entries[j], paths, docs[j])
      invariant forall j | 0 <= j < i :: Leads(v, docs[j], paths)
    {
      var doc := PlanDoc(v, entries[i], paths);
      if doc.Err? { return Err(doc.error); }
      docs := docs + [doc.value];
    }
    return Ok(docs);
  }

  ghost predicate Named(v: Vault, entries: seq<Entry>, id: BlockId) {
    exists i :: NamedAt(v, entries, id, i)
  }

  ghost predicate NamedAt(v: Vault, entries: seq<Entry>, id: BlockId, i: int) {
    0 <= i < |entries| && v.Resolve(entries[i].block) == Some(id)
  }

  lemma {:induction false} PathsCover(v: Vault, entries: seq<Entry>, id: BlockId)
    ensures id in PathsOf(v, entries) <==> Named(v, entries, id)
    decreases |entries|
  {
    if entries != [] {
      var n := |entries| - 1;
      PathsCover(v, entries[..n], id);
      NamedInit(v, entries, id);
    }
  }

  lemma NamedInit(v: Vault, entries: seq<Entry>, id: BlockId)
    requires entries != []
    ensures var n := |entries| - 1;
            Named(v, entries, id) <==> Named(v, entries[..n], id) || v.Resolve(entries[n].block) == Some(id)
  {
    var n := |entries| - 1;
    if i :| NamedAt(v, entries, id, i) && i < n { assert NamedAt(v, entries[..n], id, i); }
    if i :| NamedAt(v, entries[..n], id, i) { assert NamedAt(v, entries, id, i); }
    if v.Resolve(entries[n].block) == Some(id) { assert NamedAt(v, entries, id, n); }
  }

  lemma {:induction false} PathNamed(v: Vault, entries: seq<Entry>, id: BlockId) returns (j: nat)
    requires id in PathsOf(v, entries)
    ensures NamedAt(v, entries, id, j) && entries[j].path == PathsOf(v, entries)[id]
    decreases |entries|
  {
    var n := |entries| - 1;
    if v.Resolve(entries[n].block) == Some(id) {
      j := n;
    } else {
      j := PathNamed(v, entries[..n], id);
    }
  }

  // ---------- the whole request ----------

  /** The document has a link that takes its reader to a document of block `t`. */
  ghost predicate LinkedTo(doc: PlannedDoc, docs: seq<PlannedDoc>, t: BlockId) {
    exists j | 0 <= j < |docs| :: docs[j].id == t && LeadsTo(doc, docs[j].path)
  }

  lemma LeadsAcross(v: Vault, entries: seq<Entry>, docs: seq<PlannedDoc>, i: nat, t: BlockId)
    requires |docs| == |entries| && forall j | 0 <= j < |docs| :: Planned(v, entries[j], PathsOf(v, entries), docs[j])
    requires forall j | 0 <= j < |entries| :: ProperPath(entries[j].path)
    requires i < |docs| && t in FlatRefs(v, docs[i].id) && t in PathsOf(v, entries)
    ensures LinkedTo(docs[i], docs, t)
  {
    hide PathsOf, FlatRefs, FlatBlock, ProperPath, LeadsTo;
    var j := PathNamed(v, entries, t);
    PlannedLeads(v, entries[i], PathsOf(v, entries), docs[i], t);
    assert docs[j].id == t;
  }

  /** Every reference of a document that resolves became a link to another document of the set. */
  ghost predicate FullyLinked(v: Vault, paths: map<BlockId, string>, doc: PlannedDoc) {
    && doc.warnings == []
    && forall t | t in FlatRefs(v, doc.id) :: t in paths
  }

  /**
   An export of selected blocks. With `followLinks` the documents are exactly the least set closed under
   references, none warns of a dropped link and every reference that resolves is a link into the set. A link
   to a block of the set leads to that block's document.
   */
  method ExportSlugs(v: Vault, selection: seq<BlockId>, followLinks: bool, raw: bool)
    returns (ids: seq<BlockId>, entries: seq<Entry>, docs: seq<PlannedDoc>)
    requires forall x | x in selection :: x in v.blocks
    ensures followLinks ==> LeastClosed(v, Elems(selection), Elems(ids))
    ensures !followLinks ==> ids == selection
    ensures PathsOf(v, entries).Keys == Elems(ids)
    ensures |docs| == |entries|
    ensures forall i | 0 <= i < |docs| :: Planned(v, entries[i], PathsOf(v, entries), docs[i])
    ensures followLinks ==> forall i | 0 <= i < |docs| :: FullyLinked(v, PathsOf(v, entries), docs[i])
    ensures forall i, t | 0 <= i < |docs| && t in FlatRefs(v, docs[i].id) && t in ids :: LinkedTo(docs[i], docs, t)
    ensures followLinks ==> forall i, t | 0 <= i < |docs| && t in FlatRefs(v, docs[i].id) :: LinkedTo(docs[i], docs, t)
  {
    hide Planned, FullyLinked, Named, FlatRefs, EntryFor, LinkedTo, ProperPath, Leads, LeastClosed;
    ids := selection;
    if followLinks { ids := ExpandFollowLinks(v, selection); }
    entries := ManifestFromIds(v, ids, raw);
    EntriesResolve(v, ids, entries, raw);
    var r := PlanExports(v, entries);
    docs := r.value;
    ghost var paths := PathsOf(v, entries);
    forall id ensures id in paths <==> id in ids { PathsCover(v, entries, id); }
    assert paths.Keys == Elems(ids);
    forall i | followLinks && 0 <= i < |docs| ensures FullyLinked(v, paths, docs[i]) {
      LinkedFully(v, ids, paths, entries[i], docs[i]);
    }
    forall i, t | 0 <= i < |docs| && t in FlatRefs(v, docs[i].id) && t in ids ensures LinkedTo(docs[i], docs, t) {
      LeadsAcross(v, entries, docs, i, t);
    }
    forall i, t | followLinks && 0 <= i < |docs| && t in FlatRefs(v, docs[i].id) ensures LinkedTo(docs[i], docs, t) {
      FullyLinkedAt(v, paths, docs[i], t);
      assert t in Elems(ids);
      LeadsAcross(v, entries, docs, i, t);
    }
  }

  lemma FullyLinkedAt(v: Vault, paths: map<BlockId, string>, doc: PlannedDoc, t: BlockId)
    requires FullyLinked(v, paths, doc) && t in FlatRefs(v, doc.id)
    ensures t in paths
  {}

  lemma LinkedFully(v: Vault, ids: seq<BlockId>, paths: map<BlockId, string>, e: Entry, doc: PlannedDoc)
    requires Planned(v, e, paths, doc) && ClosedUnderRefs(v, Elems(ids)) && paths.Keys == Elems(ids)
    requires v.Resolve(e.block).Some? && v.Resolve(e.block).value in ids
    ensures FullyLinked(v, paths, doc)
  {
    forall t | t in FlatRefs(v, doc.id) ensures t in paths { assert doc.id in Elems(ids) && t in Elems(ids); }
    SomeElement(doc.warnings);
  }

  /** The entries name exactly the chosen blocks, each by its id. */
  lemma EntriesResolve(v: Vault, ids: seq<BlockId>, entries: seq<Entry>, raw: bool)
    requires forall x | x in ids :: x in v.blocks
    requires multiset(entries) == multiset(EntriesFor(v, ids, raw))
    ensures forall i | 0 <= i < |entries| ::
            v.Resolve(entries[i].block).Some? && v.Resolve(entries[i].block).value in ids
    ensures forall id :: Named(v, entries, id) <==> id in ids
    ensures forall i | 0 <= i < |entries| :: ProperPath(entries[i].path)
  {
    hide ProperPath;
    var all := EntriesFor(v, ids, raw);
    assert forall e :: e in entries <==> e in all by {
      forall e ensures e in entries <==> e in all { assert e in multiset(entries) <==> e in multiset(all); }
    }
    forall i | 0 <= i < |entries|
      ensures v.Resolve(entries[i].block).Some? && v.Resolve(entries[i].block).value in ids
      ensures ProperPath(entries[i].path)
    {
      assert entries[i] in entries && entries[i] in all;
      var k :| 0 <= k < |ids| && entries[i] == EntryFor(v, ids, ids[k], raw);
      EntryNames(v, ids, ids[k], raw);
      ResolveId(v, ids[k]);
    }
    forall id ensures Named(v, entries, id) <==> id in ids {
      if id in ids {
        var k :| 0 <= k < |ids| && ids[k] == id;
        var e := EntryFor(v, ids, id, raw);
        assert all[k] == e && e in entries;
        var i :| 0 <= i < |entries| && entries[i] == e;
        ResolveId(v, id);
        assert NamedAt(v, entries, id, i);
      }
      if i :| NamedAt(v, entries, id, i) { assert v.Resolve(entries[i].block).value in ids; }
    }
  }
}
