/**
 Carving and flattening: when they keep every rendering, that flattening re-targets nothing, and that it undoes
 carving.
 */
module Refactor {
  import opened Prelude
  import opened Text
  import opened Wiki
  import opened Layout
  import opened Indent
  import opened Render
  import opened Extract
  import opened Edits
  import opened Realign
  import opened Extraction
  import opened Reading
  import opened Seams
  import opened Outside

  /** A new id: not in the vault, and no directive of the vault happens to spell it. */
  ghost predicate Unmentioned(v: Vault, id: BlockId) {
    && id !in v.blocks
    && forall b | b in v.blocks :: NotSpelled(v.blocks[b].body, id)
  }

  ghost predicate NotSpelled(body: Body, id: BlockId) {
    forall k | 0 <= k < |body| && body[k].Ref? :: Trim(body[k].target) != id
  }

  predicate StartsInText(body: Body) { body == [] || body[0] != Ch('\n') }

  // ---------- carving ----------

  function CarveCut(v: Vault, parent: BlockId, i: nat, j: nat, child: BlockId): Cut
    requires parent in v.blocks && i <= j <= |v.blocks[parent].body|
  {
    var body := v.blocks[parent].body;
    Cut(parent, child, body[..i], body[i..j], 0, body[j..], [], [])
  }

  /**
   The selection is already trimmed, and neither text written hides a directive in code or brings one out of it: both
   are read back as the bodies they were written from.
   */
  ghost predicate CleanSelection(v: Vault, parent: BlockId, i: nat, j: nat, child: BlockId) {
    && parent in v.blocks && i < j <= |v.blocks[parent].body|
    && StartsInText(v.blocks[parent].body)
    && TrimBody(v.blocks[parent].body[i..j]) == v.blocks[parent].body[i..j]
    && ReadsBack(v.blocks[parent].body[i..j]) && ReadsBack(CarvedBody(v.blocks[parent].body, i, j, child))
  }

  /** A guard on the text for that: the lines touched hold no code marks. */
  lemma SelectionIsClean(v: Vault, parent: BlockId, i: nat, j: nat, child: BlockId)
    requires parent in v.blocks && i < j <= |v.blocks[parent].body|
    requires Readable(v.blocks[parent].body, false) && StartsInText(v.blocks[parent].body)
    requires TrimBody(v.blocks[parent].body[i..j]) == v.blocks[parent].body[i..j]
    requires OutsideCode(v.blocks[parent].body, i, j, child)
    ensures CleanSelection(v, parent, i, j, child)
  {
    hide Readable, StartsInText, OutsideCode, ReadsBack, TrimBody;
    CarveReads(v.blocks[parent].body, i, j, child);
  }

  /** A block is shown under the same name: any block with a title, and one without if its heading stays. */
  ghost predicate SameName(v: Vault, w: Vault, id: BlockId) {
    id in v.blocks && id in w.blocks && w.blocks[id].DisplayTitle(id) == v.blocks[id].DisplayTitle(id)
  }

  lemma {:induction false} TrimBodyStartsInText(body: Body)
    ensures TrimBodyStart(body) == [] || !IsBlank(TrimBodyStart(body)[0])
    ensures |TrimBodyStart(body)| <= |body|
    ensures |TrimBodyStart(body)| == |body| ==> TrimBodyStart(body) == body
  {
    if body != [] && IsBlank(body[0]) { TrimBodyStartsInText(body[1..]); }
  }

  lemma {:induction false} TrimBodyEndKeeps(body: Body)
    ensures TrimBodyEnd(body) <= body
    decreases |body|
  {
    if body != [] && IsBlank(body[|body| - 1]) { TrimBodyEndKeeps(body[..|body| - 1]); }
  }

  lemma TrimmedStartsInText(body: Body)
    requires TrimBody(body) == body
    ensures StartsInText(body)
  {
    TrimBodyStartsInText(body);
    TrimBodyEndKeeps(TrimBodyStart(body));
  }

  /** The new child takes no title away and is reached by no old directive. */
  lemma CarveResolves(v: Vault, parent: BlockId, i: nat, j: nat, child: BlockId, now: string, w: Vault)
    requires Carve(v, parent, i, j, child, now) == Ok(w) && Unmentioned(v, child)
    ensures SameTitles(v, w)
    ensures forall b | b in v.blocks :: Agree(v, w, v.blocks[b].body)
    ensures w.Resolve(child) == Some(child)
  {
    RewrittenTitle(v, parent, Raw(CarvedBody(v.blocks[parent].body, i, j, child)), now);
    assert SameTitles(v, w);
    forall b, k | b in v.blocks && 0 <= k < |v.blocks[b].body| && v.blocks[b].body[k].Ref?
      ensures w.Resolve(v.blocks[b].body[k].target) == v.Resolve(v.blocks[b].body[k].target)
    {
      assert NotSpelled(v.blocks[b].body, child);
      SameTitlesResolve(v, w, v.blocks[b].body[k].target);
    }
    ResolveId(w, child);
  }

  /** The two bodies after a carve, and what stays. */
  lemma CarveBodies(v: Vault, parent: BlockId, i: nat, j: nat, child: BlockId, now: string, w: Vault)
    requires Carve(v, parent, i, j, child, now) == Ok(w)
    requires Unmentioned(v, child) && CleanSelection(v, parent, i, j, child)
    ensures w.blocks.Keys == v.blocks.Keys + {child}
    ensures w.blocks[child].body == v.blocks[parent].body[i..j]
    ensures w.blocks[parent].body == CarvedBody(v.blocks[parent].body, i, j, child)
    ensures forall id | id in v.blocks && id != parent :: w.blocks[id] == v.blocks[id]
    ensures v.blocks[parent].HasTitle() ==> SameName(v, w, parent)
  {
    hide Raw, Stored;
    var body := v.blocks[parent].body;
    var left := CarvedBody(body, i, j, child);
    TrimmedStartsInText(body[i..j]);
    if i > 0 { assert left[0] == body[0]; }
    RewrittenTitle(v, parent, Raw(left), now);
  }

  lemma CarveExtracts(v: Vault, parent: BlockId, i: nat, j: nat, child: BlockId, now: string, w: Vault)
    requires Carve(v, parent, i, j, child, now) == Ok(w)
    requires Unmentioned(v, child) && CleanSelection(v, parent, i, j, child) && SameName(v, w, parent)
    ensures Extracted(v, w, CarveCut(v, parent, i, j, child))
  {
    CarveCutParts(v, parent, i, j, child);
    hide *;
    var cut := CarveCut(v, parent, i, j, child);
    CarveResolves(v, parent, i, j, child, now, w);
    CarveBodies(v, parent, i, j, child, now, w);
    IsExtracted(v, w, cut, child);
  }

  lemma CarveCutParts(v: Vault, parent: BlockId, i: nat, j: nat, child: BlockId)
    requires parent in v.blocks && i <= j <= |v.blocks[parent].body|
    ensures var body, cut := v.blocks[parent].body, CarveCut(v, parent, i, j, child);
            && cut.parent == parent && cut.child == child
            && cut.before == body[..i] && cut.inner == body[i..j] && cut.after == body[j..]
            && body == cut.before + cut.InPlace() + cut.after && cut.col == 0
            && body[i..j] == cut.padBefore + cut.inner + cut.padAfter
            && AllNl(cut.padBefore) && AllNl(cut.padAfter)
  {
    hide ReindentBody;
    var body, cut := v.blocks[parent].body, CarveCut(v, parent, i, j, child);
    ReindentBodyZero(body[i..j]);
    assert cut.InPlace() == body[i..j];
    assert body == body[..i] + body[i..j] + body[j..];
  }

  lemma IsExtracted(v: Vault, w: Vault, cut: Cut, child: BlockId)
    requires cut.child == child && cut.parent in v.blocks && child !in v.blocks
    requires w.blocks.Keys == v.blocks.Keys + {child}
    requires v.blocks[cut.parent].body == cut.before + cut.InPlace() + cut.after
    requires w.Resolve(child) == Some(child) && w.blocks[cut.parent].body == cut.before + [EmbedOf(child)] + cut.after
    requires w.blocks[child].body == cut.padBefore + cut.inner + cut.padAfter
    requires AllNl(cut.padBefore) && AllNl(cut.padAfter)
    requires forall id | id in v.blocks && id != cut.parent :: w.blocks[id] == v.blocks[id]
    requires SameName(v, w, cut.parent)
    requires forall b | b in v.blocks :: Agree(v, w, v.blocks[b].body)
    ensures Extracted(v, w, cut)
  {
    assert ChildEmbed(w, EmbedOf(child), child);
    hide ChildEmbed, Agree, Vault.Resolve, Block.DisplayTitle, EmbedOf;
  }

  /**
   Carving promises not to change rendered output. On every vault it keeps all flat renderings when the
   selection fits wherever its parent is rendered.
   */
  lemma CarveKeepsRenders(v: Vault, parent: BlockId, i: nat, j: nat, child: BlockId, now: string, w: Vault,
                          links: Option<FlatSet>)
    requires Carve(v, parent, i, j, child, now) == Ok(w)
    requires Unmentioned(v, child) && CleanSelection(v, parent, i, j, child) && SameName(v, w, parent)
    requires FitsAlways(v, CarveCut(v, parent, i, j, child), links, false)
    ensures forall id | id in v.blocks :: FlatBlock(w, id, links) == FlatBlock(v, id, links)
  {
    CarveExtracts(v, parent, i, j, child, now, w);
    forall id | id in v.blocks ensures FlatBlock(w, id, links) == FlatBlock(v, id, links) {
      ExtractKeepsRenders(v, w, CarveCut(v, parent, i, j, child), links, false, id);
    }
  }

  /**
   On an acyclic vault it does so exactly when the selection fits in its parent; on any vault that decides the parent's
   own rendering.
   */
  lemma CarveKeepsRendersIff(v: Vault, parent: BlockId, i: nat, j: nat, child: BlockId, now: string, w: Vault,
                             links: Option<FlatSet>)
    requires Carve(v, parent, i, j, child, now) == Ok(w)
    requires Unmentioned(v, child) && CleanSelection(v, parent, i, j, child) && SameName(v, w, parent)
    ensures var body := v.blocks[parent].body;
            var fits := Fits(Expand(v, body[i..j], {parent}), links,
              Advance(0, Flat(Expand(v, body[..i], {parent}), links, 0)));
            && (FlatBlock(w, parent, links) == FlatBlock(v, parent, links) <==> fits)
            && (v.Acyclic() ==> ((forall id | id in v.blocks :: FlatBlock(w, id, links) == FlatBlock(v, id, links))
              <==> fits))
  {
    hide Flat, Expand, Fits, Extracted, FitsThere, Lands, Carve, FlatBlock, CleanSelection, Unmentioned, SameName;
    CarveShape(v, parent, i, j, child);
    var cut := CarveCut(v, parent, i, j, child);
    CarveExtracts(v, parent, i, j, child, now, w);
    WholeStory(v, w, cut, links);
    LandsAsCut(v, cut, links, {parent});
    LandsIff(v, cut.before, cut.inner, 0, links, {parent});
  }

  lemma LandsAsCut(v: Vault, cut: Cut, links: Option<FlatSet>, open: set<BlockId>)
    ensures FitsThere(v, cut, links, open) <==> Lands(v, cut.before, cut.inner, cut.col, links, open)
  {
  }

  lemma CarveShape(v: Vault, parent: BlockId, i: nat, j: nat, child: BlockId)
    requires CleanSelection(v, parent, i, j, child)
    ensures parent in v.blocks && i < j <= |v.blocks[parent].body|
  {
  }

  /** Of an extraction: what the parent's own rendering shows, and what it decides on an acyclic vault. */
  lemma WholeStory(v: Vault, w: Vault, cut: Cut, links: Option<FlatSet>)
    requires Extracted(v, w, cut)
    ensures cut.parent in v.blocks && v.blocks.Keys <= w.blocks.Keys
    ensures FlatBlock(w, cut.parent, links) == FlatBlock(v, cut.parent, links)
            <==> FitsThere(v, cut, links, {cut.parent})
    ensures v.Acyclic() ==>
              ((forall id | id in v.blocks :: FlatBlock(w, id, links) == FlatBlock(v, id, links))
               <==> FitsThere(v, cut, links, {cut.parent}))
    ensures FitsAlways(v, cut, links, false) ==>
              forall id | id in v.blocks :: FlatBlock(w, id, links) == FlatBlock(v, id, links)
  {
    hide Flat, Expand, FitsThere, FitsAlways;
    ParentIff(v, w, cut, links, {cut.parent});
    if v.Acyclic() { ExtractKeepsRendersIff(v, w, cut, links); }
    if FitsAlways(v, cut, links, false) {
      forall id | id in v.blocks ensures FlatBlock(w, id, links) == FlatBlock(v, id, links) {
        ExtractKeepsRenders(v, w, cut, links, false, id);
      }
    }
  }

  // ---------- a guard that needs no rendering ----------

  /** An atom that writes text of its own, without a newline at either end. */
  predicate Firm(v: Vault, a: Atom, links: Option<FlatSet>) {
    if a.Ref? then !a.embed && FlatReference(v, a, links) != "" && NoOuterNl(FlatReference(v, a, links))
      else a.c != '\n'
  }

  predicate Unbroken(v: Vault, body: Body, links: Option<FlatSet>) {
    forall k | 0 <= k < |body| ::
      if body[k].Ref? then !body[k].embed ==> OneLine(FlatReference(v, body[k], links)) else body[k].c != '\n'
  }

  /**
   Checked on the text alone: the selection starts a line or has no newline of its own, and both its ends are text.
   */
  predicate Blends(v: Vault, before: Body, inner: Body, links: Option<FlatSet>) {
    && inner != []
    && (before == [] || before[|before| - 1] == Ch('\n') || Unbroken(v, inner, links))
    && ((|inner| == 1 && inner[0].Ref? && inner[0].embed)
        || (Firm(v, inner[0], links) && Firm(v, inner[|inner| - 1], links)))
  }

  lemma {:induction false} UnbrokenIsSoft(v: Vault, body: Body, links: Option<FlatSet>, open: set<BlockId>)
    requires Unbroken(v, body, links)
    ensures NoHardBreak(Expand(v, body, open), links)
  {
    if body != [] {
      ExpandCons(v, body, open);
      var a := body[0];
      assert a.Ref? && !a.embed ==> OneLine(FlatReference(v, a, links));
      if a.Ref? && !a.embed { assert FlatReference(v, a, links) == FlatNode(ExpandAtom(v, a, open), links, 0); }
      assert Soft(ExpandAtom(v, a, open), links);
      forall k | 0 <= k < |body[1..]|
        ensures if body[1..][k].Ref? then !body[1..][k].embed ==> OneLine(FlatReference(v, body[1..][k], links))
                else body[1..][k].c != '\n'
      {
        assert body[1..][k] == body[k + 1];
      }
      UnbrokenIsSoft(v, body[1..], links, open);
    }
  }

  lemma LineStart(v: Vault, before: Body, links: Option<FlatSet>, open: set<BlockId>)
    requires before == [] || before[|before| - 1] == Ch('\n')
    ensures Advance(0, Flat(Expand(v, before, open), links, 0)) == 0
  {
    if before != [] {
      var n := |before| - 1;
      assert before == before[..n] + [Ch('\n')];
      ExpandConcat(v, before[..n], [Ch('\n')], open);
      ExpandOne(v, Ch('\n'), open);
      var head := Expand(v, before[..n], open);
      FlatConcat(head, [Lit('\n')], links, 0);
      FlatOne(Lit('\n'), links, Advance(0, Flat(head, links, 0)));
    }
  }

  lemma FirmText(v: Vault, a: Atom, links: Option<FlatSet>, open: set<BlockId>, col: nat)
    requires Firm(v, a, links)
    ensures var t := FlatNode(ExpandAtom(v, a, open), links, col); t != "" && NoOuterNl(t)
  {
    if a.Ref? { assert FlatReference(v, a, links) == FlatNode(ExpandAtom(v, a, open), links, col); }
  }

  lemma FirmEnds(v: Vault, inner: Body, links: Option<FlatSet>, open: set<BlockId>)
    requires inner != [] && Firm(v, inner[0], links) && Firm(v, inner[|inner| - 1], links)
    ensures NoOuterNl(Flat(Expand(v, inner, open), links, 0))
  {
    hide Flat, Expand, Firm, FlatNode, ExpandAtom;
    ExpandCons(v, inner, open);
    var t, rest := FlatCons(Expand(v, inner, open), links, 0);
    FirmText(v, inner[0], links, open, 0);
    var n := |inner| - 1;
    assert inner == inner[..n] + [inner[n]];
    ExpandConcat(v, inner[..n], [inner[n]], open);
    ExpandOne(v, inner[n], open);
    var head := Expand(v, inner[..n], open);
    var last := ExpandAtom(v, inner[n], open);
    FlatConcat(head, [last], links, 0);
    FlatOne(last, links, Advance(0, Flat(head, links, 0)));
    FirmText(v, inner[n], links, open, Advance(0, Flat(head, links, 0)));
  }

  lemma LoneEmbedEnds(v: Vault, inner: Body, links: Option<FlatSet>, open: set<BlockId>)
    requires |inner| == 1 && inner[0].Ref? && inner[0].embed
    ensures NoOuterNl(Flat(Expand(v, inner, open), links, 0))
  {
    hide Flat, Expand, Reindent, TrimNl;
    assert inner == [inner[0]];
    ExpandOne(v, inner[0], open);
    var n := ExpandAtom(v, inner[0], open);
    FlatOne(n, links, 0);
    FlatNodeKind(v, inner[0], open, links, 0);
    DissolvedEnds(n, links);
    ReindentZero(Dissolved(n, links));
  }

  /** A selection that blends in fits in every context, so carving it changes no rendering, on any vault. */
  lemma BlendsFits(v: Vault, cut: Cut, links: Option<FlatSet>)
    requires cut.parent in v.blocks && Blends(v, cut.before, cut.inner, links) && (cut.col == 0 || NoNewline(cut.inner))
    ensures FitsAlways(v, cut, links, false)
  {
    forall open | cut.parent in open ensures FitsThere(v, cut, links, open) {
      BlendsFitsThere(v, cut, links, open);
    }
  }

  /** So a carve that touches no code and blends in with its lines keeps every rendering. */
  lemma BlendedCarveKeepsRenders(v: Vault, parent: BlockId, i: nat, j: nat, child: BlockId, now: string, w: Vault,
                                 links: Option<FlatSet>)
    requires Carve(v, parent, i, j, child, now) == Ok(w) && Unmentioned(v, child) && SameName(v, w, parent)
    requires parent in v.blocks && i < j <= |v.blocks[parent].body|
    requires Readable(v.blocks[parent].body, false) && StartsInText(v.blocks[parent].body)
    requires TrimBody(v.blocks[parent].body[i..j]) == v.blocks[parent].body[i..j]
    requires OutsideCode(v.blocks[parent].body, i, j, child)
    requires Blends(v, v.blocks[parent].body[..i], v.blocks[parent].body[i..j], links)
    ensures forall id | id in v.blocks :: FlatBlock(w, id, links) == FlatBlock(v, id, links)
  {
    hide Carve, Readable, StartsInText, OutsideCode, CleanSelection, TrimBody, Blends, FlatBlock, FitsAlways, SameName,
      Unmentioned;
    SelectionIsClean(v, parent, i, j, child);
    BlendsFits(v, CarveCut(v, parent, i, j, child), links);
    CarveKeepsRenders(v, parent, i, j, child, now, w, links);
  }

  lemma BlendsFitsThere(v: Vault, cut: Cut, links: Option<FlatSet>, open: set<BlockId>)
    requires Blends(v, cut.before, cut.inner, links) && (cut.col == 0 || NoNewline(cut.inner))
    ensures FitsThere(v, cut, links, open)
  {
    LandsIff(v, cut.before, cut.inner, cut.col, links, open);
    hide Lands, Flat, Expand, NoHardBreak, NoOuterNl, Advance, Unbroken, Firm;
    if Unbroken(v, cut.inner, links) {
      UnbrokenIsSoft(v, cut.inner, links, open);
    } else {
      LineStart(v, cut.before, links, open);
    }
    if |cut.inner| == 1 && cut.inner[0].Ref? && cut.inner[0].embed {
      LoneEmbedEnds(v, cut.inner, links, open);
    } else {
      FirmEnds(v, cut.inner, links, open);
    }
  }

  // ---------- the same for an indented part ----------

  predicate PlainText(body: Body) {
    forall k | 0 <= k < |body| :: body[k].Ch? && body[k].c != '\n'
  }

  /** References are one line, and what stands right behind a newline is text. */
  predicate Indents(v: Vault, body: Body, links: Option<FlatSet>) {
    && (forall k | 0 <= k < |body| && body[k].Ref? && !body[k].embed :: OneLine(FlatReference(v, body[k], links)))
    && (forall k | 0 < k < |body| && body[k - 1] == Ch('\n') && body[k] != Ch('\n') :: Firm(v, body[k], links))
  }

  /** Checked on the text alone: plain text up to the embed on its line, in `line`; text at both ends of the child. */
  predicate Aligned(v: Vault, head: Body, line: Body, inner: Body, links: Option<FlatSet>) {
    && (head == [] || head[|head| - 1] == Ch('\n')) && PlainText(line)
    && inner != [] && Firm(v, inner[0], links) && Firm(v, inner[|inner| - 1], links)
    && Indents(v, inner, links)
  }

  lemma {:induction false} PlainColumn(v: Vault, line: Body, links: Option<FlatSet>, open: set<BlockId>, col: nat)
    requires PlainText(line)
    ensures Flat(Expand(v, line, open), links, col) == Raw(line) && |Raw(line)| == |line| && '\n' !in Raw(line)
  {
    if line != [] {
      var t, rest := FlatCons(Expand(v, line, open), links, col);
      ExpandCons(v, line, open);
      assert t == [line[0].c];
      PlainColumn(v, line[1..], links, open, Advance(col, t));
    }
  }

  /** Then the embed lands at the column its directive is written at. */
  lemma AlignedColumn(v: Vault, head: Body, line: Body, links: Option<FlatSet>, open: set<BlockId>)
    requires (head == [] || head[|head| - 1] == Ch('\n')) && PlainText(line)
    ensures Advance(0, Flat(Expand(v, head + line, open), links, 0)) == |line| == Width(Raw(head + line))
  {
    hide Flat, Expand, Raw, Advance, Width;
    ExpandConcat(v, head, line, open);
    FlatConcat(Expand(v, head, open), Expand(v, line, open), links, 0);
    var p := Flat(Expand(v, head, open), links, 0);
    LineStart(v, head, links, open);
    PlainColumn(v, line, links, open, 0);
    AdvanceConcat(0, p, Raw(line));
    AdvanceOn(0, Raw(line));
    RawConcat(head, line);
    AdvanceConcat(0, Raw(head), Raw(line));
    RawLineStart(head);
    WidthAdvances(Raw(head + line));
  }

  lemma RawLineStart(head: Body)
    requires head == [] || head[|head| - 1] == Ch('\n')
    ensures Advance(0, Raw(head)) == 0
  {
    if head != [] {
      var n := |head| - 1;
      assert head == head[..n] + [Ch('\n')] && [Ch('\n')][1..] == [];
      RawConcat(head[..n], [Ch('\n')]);
      AdvanceConcat(0, Raw(head[..n]), "\n");
    }
  }

  lemma WidthAdvances(s: string)
    ensures Advance(0, s) == Width(s)
  {
  }

  lemma {:induction false} IndentsIndentable(v: Vault, body: Body, links: Option<FlatSet>, open: set<BlockId>)
    requires Indents(v, body, links)
    ensures Indentable(Expand(v, body, open), links)
  {
    hide Firm, FlatReference;
    if body != [] {
      var a, rest := body[0], body[1..];
      ExpandCons(v, body, open);
      IndentsRest(v, body, links);
      IndentsIndentable(v, rest, links, open);
      IndentableNode(v, a, links, open);
      NewlineNode(v, a, open);
      if rest != [] && a == Ch('\n') && rest[0] != Ch('\n') {
        ExpandCons(v, rest, open);
        var t, tail := FlatCons(Expand(v, rest, open), links, 0);
        FirmText(v, rest[0], links, open, 0);
        assert WritesText(t + tail);
      } else if rest != [] {
        ExpandCons(v, rest, open);
        NewlineNode(v, rest[0], open);
        assert !Breaks(Expand(v, body, open));
      }
      hide Expand, Flat;
    }
  }

  lemma IndentsRest(v: Vault, body: Body, links: Option<FlatSet>)
    requires body != [] && Indents(v, body, links)
    ensures Indents(v, body[1..], links)
    ensures body[0].Ref? && !body[0].embed ==> OneLine(FlatReference(v, body[0], links))
    ensures |body| > 1 && body[0] == Ch('\n') && body[1] != Ch('\n') ==> Firm(v, body[1..][0], links)
  {
    hide Firm, FlatReference, OneLine;
    var rest := body[1..];
    assert forall k | 0 <= k < |rest| :: rest[k] == body[k + 1];
    if |body| > 1 && body[0] == Ch('\n') && body[1] != Ch('\n') { assert body[1 - 1] == Ch('\n'); }
    forall k | 0 < k < |rest| && rest[k - 1] == Ch('\n') && rest[k] != Ch('\n') ensures Firm(v, rest[k], links) {
      assert body[k + 1 - 1] == Ch('\n') && body[k + 1] == rest[k];
    }
  }

  lemma IndentableNode(v: Vault, a: Atom, links: Option<FlatSet>, open: set<BlockId>)
    requires a.Ref? && !a.embed ==> OneLine(FlatReference(v, a, links))
    ensures ExpandAtom(v, a, open) == Lit('\n') || Soft(ExpandAtom(v, a, open), links)
  {
    if a.Ref? && !a.embed { assert FlatReference(v, a, links) == FlatNode(ExpandAtom(v, a, open), links, 0); }
  }

  /** A child embedded behind plain text, in a list item say, fits when it was indented to that column, on any vault. */
  lemma AlignedFits(v: Vault, cut: Cut, head: Body, line: Body, links: Option<FlatSet>)
    requires cut.parent in v.blocks && cut.before == head + line && cut.col == |line|
    requires Aligned(v, head, line, cut.inner, links)
    ensures FitsAlways(v, cut, links, false)
  {
    forall open | cut.parent in open ensures FitsThere(v, cut, links, open) {
      hide Lands, Flat, Expand, Firm, Indents, NoOuterNl, NoHardBreak, Indentable;
      AlignedColumn(v, head, line, links, open);
      IndentsIndentable(v, cut.inner, links, open);
      LandsIff(v, cut.before, cut.inner, cut.col, links, open);
      FirmEnds(v, cut.inner, links, open);
    }
  }

  /**
   Without the guard the promise fails: carving both lines out of the list item `- a`, newline, `b` indents the second.
   */
  lemma CarveCanChangeText(v: Vault, p: BlockId, meta: Meta, child: BlockId, now: string)
    requires v.blocks == map[p := Block(Some("T"), meta, [Ch('-'), Ch(' '), Ch('a'), Ch('\n'), Ch('b')])]
    requires child != p
    ensures Carve(v, p, 2, 5, child, now).Ok?
    ensures FlatBlock(Carve(v, p, 2, 5, child, now).value, p, None) != FlatBlock(v, p, None)
  {
    hide Raw, ReadsBack, Stored, FlatBlock;
    var body := v.blocks[p].body;
    assert body[2..5] == [Ch('a'), Ch('\n'), Ch('b')] && body[..2] == [Ch('-'), Ch(' ')] && body[5..] == [];
    assert TrimBody(body[2..5]) == body[2..5];
    TrimEnds("T");
    ItemReads(body, child);
    var w := Carve(v, p, 2, 5, child, now).value;
    CarveBodies(v, p, 2, 5, child, now, w);
    CarveKeepsRendersIff(v, p, 2, 5, child, now, w, None);
    NotFitting(v, body[..2], body[2..5], {p});
  }

  lemma ItemReads(body: Body, child: BlockId)
    requires body == [Ch('-'), Ch(' '), Ch('a'), Ch('\n'), Ch('b')]
    ensures ReadsBack(body[2..5]) && ReadsBack(CarvedBody(body, 2, 5, child))
  {
    hide ReadsBack;
    assert Chars("- ") == body[..2] && Chars("") == body[5..] && Chars("a\nb") == body[2..5];
    EmbedBetween("- ", child, "");
    MildQuiet("a\nb");
  }

  lemma NotFitting(v: Vault, before: Body, inner: Body, open: set<BlockId>)
    requires before == [Ch('-'), Ch(' ')] && inner == [Ch('a'), Ch('\n'), Ch('b')]
    ensures !Fits(Expand(v, inner, open), None, Advance(0, Flat(Expand(v, before, open), None, 0)))
  {
    hide Flat, Expand, NoHardBreak, Advance;
    SecondLine(v, inner, open);
    TwoColumns(v, before, open);
  }

  lemma SecondLine(v: Vault, inner: Body, open: set<BlockId>)
    requires inner == [Ch('a'), Ch('\n'), Ch('b')]
    ensures !NoHardBreak(Expand(v, inner, open), None)
  {
    ExpandCons(v, inner, open);
    ExpandCons(v, inner[1..], open);
    assert Expand(v, inner, open)[1..][0] == Lit('\n');
    assert !NoHardBreak(Expand(v, inner, open)[1..], None);
  }

  lemma TwoColumns(v: Vault, before: Body, open: set<BlockId>)
    requires before == [Ch('-'), Ch(' ')]
    ensures Advance(0, Flat(Expand(v, before, open), None, 0)) == 2
  {
    assert before[1..] == [Ch(' ')] && before[1..][1..] == [];
    ExpandCons(v, before, open);
    ExpandCons(v, before[1..], open);
    var t, rest := FlatCons(Expand(v, before, open), None, 0);
    assert t == "" + ['-'];
    var t', rest' := FlatCons(Expand(v, before[1..], open), None, 1);
    assert t' == "" + [' '] && rest == t';
    AdvanceConcat(0, t, rest);
  }

  // ---------- counting references ----------

  ghost predicate NoRef(v: Vault, body: Body, target: BlockId) {
    forall k | 0 <= k < |body| :: !RefersTo(v, body[k], target)
  }

  lemma {:induction false} CountZero(v: Vault, body: Body, target: BlockId)
    ensures Count(v, body, target) == 0 <==> NoRef(v, body, target)
  {
    if body != [] {
      CountZero(v, body[1..], target);
      assert forall k | 0 <= k < |body| :: body[k] == if k == 0 then body[0] else body[1..][k - 1];
      if NoRef(v, body, target) {
        forall k | 0 <= k < |body[1..]| ensures !RefersTo(v, body[1..][k], target) {
          assert !RefersTo(v, body[k + 1], target);
        }
      }
    }
  }

  lemma {:induction false} CountConcat(v: Vault, a: Body, b: Body, target: BlockId)
    ensures Count(v, a + b, target) == Count(v, a, target) + Count(v, b, target)
  {
    if a == [] {
      assert a + b == b;
    } else {
      assert (a + b)[1..] == a[1..] + b;
      CountConcat(v, a[1..], b, target);
    }
  }

  lemma {:induction false} CountInAtLeast(v: Vault, ids: seq<BlockId>, target: BlockId, a: BlockId)
    requires a in ids && a in v.blocks
    ensures CountIn(v, ids, target) >= Count(v, v.blocks[a].body, target)
  {
    if ids[0] != a { CountInAtLeast(v, ids[1..], target, a); }
  }

  lemma {:induction false} CountInTwo(v: Vault, ids: seq<BlockId>, target: BlockId, a: BlockId, b: BlockId)
    requires a in ids && b in ids && a != b && a in v.blocks && b in v.blocks
    ensures CountIn(v, ids, target) >= Count(v, v.blocks[a].body, target) + Count(v, v.blocks[b].body, target)
  {
    if ids[0] == a { CountInAtLeast(v, ids[1..], target, b); }
    else if ids[0] == b { CountInAtLeast(v, ids[1..], target, a); }
    else { CountInTwo(v, ids[1..], target, a, b); }
  }

  lemma {:induction false} CountInOnly(v: Vault, ids: seq<BlockId>, target: BlockId, a: BlockId)
    requires NoDup(ids) && a in v.blocks
    requires forall b | b in v.blocks && b != a :: Count(v, v.blocks[b].body, target) == 0
    ensures CountIn(v, ids, target) == if a in ids then Count(v, v.blocks[a].body, target) else 0
  {
    if ids != [] {
      assert forall i, j | 0 <= i < j < |ids[1..]| :: ids[1..][i] == ids[i + 1] && ids[1..][j] == ids[j + 1];
      CountInOnly(v, ids[1..], target, a);
    }
  }

  lemma CountAround(v: Vault, body: Body, k: nat, child: BlockId)
    requires k < |body| && RefersTo(v, body[k], child)
    ensures Count(v, body, child) == Count(v, body[..k], child) + 1 + Count(v, body[k + 1..], child)
  {
    var here := [body[k]];
    assert body == body[..k] + (here + body[k + 1..]);
    CountConcat(v, body[..k], here + body[k + 1..], child);
    CountConcat(v, here, body[k + 1..], child);
    assert here[1..] == [];
  }

  /** With exactly one reference in the vault, nothing else refers to the child. */
  lemma OnlyReference(v: Vault, parent: BlockId, k: nat, child: BlockId)
    requires parent in v.blocks && CountAll(v, child) == 1
    requires k < |v.blocks[parent].body| && RefersTo(v, v.blocks[parent].body[k], child)
    ensures NoRef(v, v.blocks[parent].body[..k], child) && NoRef(v, v.blocks[parent].body[k + 1..], child)
    ensures forall b | b in v.blocks && b != parent :: NoRef(v, v.blocks[b].body, child)
  {
    hide Count, CountIn, NoRef, RefersTo;
    var ids := SortedIds(v.blocks.Keys);
    var body := v.blocks[parent].body;
    CountAround(v, body, k, child);
    CountInAtLeast(v, ids, child, parent);
    CountZero(v, body[..k], child);
    CountZero(v, body[k + 1..], child);
    forall b | b in v.blocks && b != parent ensures NoRef(v, v.blocks[b].body, child) {
      CountInTwo(v, ids, child, parent, b);
      CountZero(v, v.blocks[b].body, child);
    }
  }

  // ---------- flattening ----------

  /** Removing a block that a target did not resolve to leaves the target alone, shared titles included. */
  lemma RemoveKeepsResolve(v: Vault, u: Vault, gone: BlockId, target: string)
    requires u.lower == v.lower && u.blocks.Keys == v.blocks.Keys - {gone}
    requires forall id | id in u.blocks :: u.TitleKey(id) == v.TitleKey(id)
    requires v.Resolve(target) != Some(gone)
    ensures u.Resolve(target) == v.Resolve(target)
  {
    var key := v.lower(Trim(target));
    assert u.Holders(key) == v.Holders(key) - {gone};
    if u.Holders(key) != {} && !(IsBlockId(Trim(target)) && Trim(target) in v.blocks) {
      var owner := v.TitleOwner(key).value;
      assert IsLeast(owner, u.Holders(key));
      LeastUnique(owner, u.TitleOwner(key).value, u.Holders(key));
    }
  }

  lemma {:induction false} DropNlAtoms(body: Body)
    ensures SubAtoms(DropNl(body), body)
  {
    if body != [] && body[0] == Ch('\n') { DropNlAtoms(body[1..]); }
  }

  lemma {:induction false} DropNlEndAtoms(body: Body)
    ensures SubAtoms(DropNlEnd(body), body)
    decreases |body|
  {
    if body != [] && body[|body| - 1] == Ch('\n') { DropNlEndAtoms(body[..|body| - 1]); }
  }

  lemma InlinedAtoms(body: Body, k: nat, childBody: Body, a: Atom)
    requires k < |body| && a in DropNl(Inlined(body, k, childBody)) && a.Ref?
    ensures a in body[..k] || a in body[k + 1..] || a in childBody
  {
    var whole := Inlined(body, k, childBody);
    DropNlAtoms(whole);
    var i :| 0 <= i < |DropNl(whole)| && DropNl(whole)[i] == a;
    assert a in whole;
    var trimmed := TrimNlBody(childBody);
    var put := ReindentBody(trimmed, Width(Raw(body[..k])));
    assert whole == body[..k] + put + body[k + 1..];
    if a in put {
      ReindentAtoms(trimmed, Width(Raw(body[..k])));
      DropNlEndAtoms(DropNl(childBody));
      DropNlAtoms(childBody);
      var i :| 0 <= i < |put| && put[i] == a;
      assert a in trimmed;
      var j :| 0 <= j < |trimmed| && trimmed[j] == a;
      assert a in DropNl(childBody);
      var m :| 0 <= m < |DropNl(childBody)| && DropNl(childBody)[m] == a;
    }
  }

  /** No directive left after flattening resolved to the child before, if the text inlined is read back as it was. */
  lemma FlattenLeavesNoRef(v: Vault, parent: BlockId, child: BlockId, now: string, u: Vault, b: BlockId, a: Atom)
    requires Flatten(v, parent, child, now) == Ok(u) && parent != child
    requires b in u.blocks && a in u.blocks[b].body && a.Ref?
    requires b == parent ==> ReadsBack(FlattenedBody(v, parent, child))
    ensures v.Resolve(a.target) != Some(child)
  {
    hide Raw, Stored, Inlined, CountAll;
    var body := v.blocks[parent].body;
    var k := LastRef(v, body, child).value;
    OnlyReference(v, parent, k, child);
    if b == parent {
      InlinedAtoms(body, k, v.blocks[child].body, a);
    }
    assert !RefersTo(v, a, child);
  }

  /**
   Flattening never changes what a remaining directive resolves to, shared titles included; the inlined ones neither,
   if the text inlined is read back as it was.
   */
  lemma FlattenKeepsResolution(v: Vault, parent: BlockId, child: BlockId, now: string, u: Vault)
    requires Flatten(v, parent, child, now) == Ok(u) && parent != child
    ensures forall b | b in u.blocks && (b == parent ==> ReadsBack(FlattenedBody(v, parent, child))) ::
              Agree(v, u, u.blocks[b].body)
  {
    FlattenTitles(v, parent, child, now, u);
    hide Raw, Stored, Flatten, FlattenedBody, ReadsBack;
    forall b | b in u.blocks && (b == parent ==> ReadsBack(FlattenedBody(v, parent, child)))
      ensures Agree(v, u, u.blocks[b].body)
    {
      var body := u.blocks[b].body;
      forall i | 0 <= i < |body| && body[i].Ref? ensures u.Resolve(body[i].target) == v.Resolve(body[i].target) {
        FlattenLeavesNoRef(v, parent, child, now, u, b, body[i]);
        RemoveKeepsResolve(v, u, child, body[i].target);
      }
    }
  }

  lemma FlattenTitles(v: Vault, parent: BlockId, child: BlockId, now: string, u: Vault)
    requires Flatten(v, parent, child, now) == Ok(u) && parent != child
    ensures parent in v.blocks && child in v.blocks && LastRef(v, v.blocks[parent].body, child).Some?
    ensures u.lower == v.lower && u.blocks.Keys == v.blocks.Keys - {child}
    ensures forall id | id in u.blocks :: u.TitleKey(id) == v.TitleKey(id)
  {
    hide Raw, Stored, Inlined, CountAll;
    RewrittenTitle(v, parent, Raw(FlattenedBody(v, parent, child)), now);
  }
}
