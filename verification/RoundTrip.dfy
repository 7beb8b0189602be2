/** Flattening as the reverse of an extraction, and carve followed by flatten. */
module RoundTrip {
  import opened Prelude
  import opened Text
  import opened Wiki
  import opened Layout
  import opened Indent
  import opened Render
  import opened Extract
  import opened Edits
  import opened Realign
  import opened Extraction
  import opened Reading
  import opened Seams
  import opened Outside
  import opened Refactor

  lemma FlushInlined(body: Body, k: nat, childBody: Body)
    requires k < |body| && (Width(Raw(body[..k])) == 0 || NoNewline(TrimNlBody(childBody)))
    ensures Inlined(body, k, childBody) == body[..k] + TrimNlBody(childBody) + body[k + 1..]
  {
    var trimmed := TrimNlBody(childBody);
    ReindentBodyZero(trimmed);
    if NoNewline(trimmed) { ReindentBodyOneLine(trimmed, Width(Raw(body[..k]))); }
  }

  lemma {:induction false} DropNlSplit(body: Body) returns (pad: Body)
    ensures body == pad + DropNl(body) && AllNl(pad)
  {
    pad := [];
    if body != [] && body[0] == Ch('\n') {
      var rest := DropNlSplit(body[1..]);
      pad := [body[0]] + rest;
      assert body == [body[0]] + body[1..];
    }
  }

  lemma {:induction false} DropNlEndSplit(body: Body) returns (pad: Body)
    ensures body == DropNlEnd(body) + pad && AllNl(pad)
    decreases |body|
  {
    pad := [];
    if body != [] && body[|body| - 1] == Ch('\n') {
      var n := |body| - 1;
      var rest := DropNlEndSplit(body[..n]);
      pad := rest + [body[n]];
      assert body == body[..n] + [body[n]];
    }
  }

  // ---------- flatten keeps renderings ----------

  /** There is an embed to inline, and the parent's new text is read back as the body it was written from. */
  ghost predicate CleanInline(v: Vault, parent: BlockId, child: BlockId) {
    && parent in v.blocks && child in v.blocks
    && LastRef(v, v.blocks[parent].body, child).Some?
    && StartsInText(FlattenedBody(v, parent, child)) && ReadsBack(FlattenedBody(v, parent, child))
  }

  /** A guard on the text for that: the lines written hold no code marks. */
  lemma InlineIsClean(v: Vault, parent: BlockId, child: BlockId)
    requires parent in v.blocks && child in v.blocks && LastRef(v, v.blocks[parent].body, child).Some?
    requires Readable(v.blocks[parent].body, false) && StartsInText(FlattenedBody(v, parent, child))
    requires InlinesText(v.blocks[parent].body, LastRef(v, v.blocks[parent].body, child).value, v.blocks[child].body)
    ensures CleanInline(v, parent, child)
  {
    hide Readable, StartsInText, InlinesText, Inlined, ReadsBack;
    FlattenReads(v.blocks[parent].body, LastRef(v, v.blocks[parent].body, child).value, v.blocks[child].body);
  }

  /** What is in front of the embed that a flatten inlines. */
  function InFront(v: Vault, parent: BlockId, child: BlockId): Body
    requires parent in v.blocks && LastRef(v, v.blocks[parent].body, child).Some?
  {
    v.blocks[parent].body[..LastRef(v, v.blocks[parent].body, child).value]
  }

  /** The cut a flatten closes, as the extraction it undoes. */
  lemma CutOf(v: Vault, parent: BlockId, child: BlockId) returns (cut: Cut, e: Atom)
    requires CleanInline(v, parent, child)
    requires v.blocks[parent].body[LastRef(v, v.blocks[parent].body, child).value].embed
    ensures cut.parent == parent && cut.child == child && cut.inner == TrimNlBody(v.blocks[child].body)
    ensures cut.before == InFront(v, parent, child) && cut.col == Width(Raw(cut.before))
    ensures cut.after == v.blocks[parent].body[LastRef(v, v.blocks[parent].body, child).value + 1..]
    ensures v.blocks[parent].body == cut.before + [e] + cut.after && ChildEmbed(v, e, child)
    ensures v.blocks[child].body == cut.padBefore + cut.inner + cut.padAfter
    ensures AllNl(cut.padBefore) && AllNl(cut.padAfter)
  {
    hide AllNl, TrimNlBody, CleanInline, Width, Raw, LastRef, ChildEmbed, Inlined, StartsInText;
    CleanShape(v, parent, child);
    var body := v.blocks[parent].body;
    var k := LastRef(v, body, child).value;
    LastEmbed(v, body, child);
    var padBefore, padAfter := PadsOf(v.blocks[child].body);
    var inner, col := TrimNlBody(v.blocks[child].body), Width(Raw(body[..k]));
    cut := Cut(parent, child, body[..k], inner, col, body[k + 1..], padBefore, padAfter);
    e := body[k];
    assert body == body[..k] + [body[k]] + body[k + 1..];
  }

  lemma LastEmbed(v: Vault, body: Body, child: BlockId)
    requires LastRef(v, body, child).Some? && body[LastRef(v, body, child).value].embed
    ensures ChildEmbed(v, body[LastRef(v, body, child).value], child)
  {
  }

  lemma PadsOf(body: Body) returns (padBefore: Body, padAfter: Body)
    ensures body == padBefore + TrimNlBody(body) + padAfter && AllNl(padBefore) && AllNl(padAfter)
  {
    padBefore := DropNlSplit(body);
    padAfter := DropNlEndSplit(DropNl(body));
    assert padBefore + (TrimNlBody(body) + padAfter) == padBefore + TrimNlBody(body) + padAfter;
    hide AllNl, DropNl, DropNlEnd;
  }

  lemma FlattenShape(v: Vault, parent: BlockId, child: BlockId, now: string, u: Vault)
    requires Flatten(v, parent, child, now) == Ok(u)
    ensures parent in v.blocks && child in v.blocks && LastRef(v, v.blocks[parent].body, child).Some?
    ensures v.blocks[parent].body[LastRef(v, v.blocks[parent].body, child).value].embed
    ensures u == Remove(PutBody(v, parent, Raw(FlattenedBody(v, parent, child)), now), child)
  {
  }

  /** Seen backwards, a flatten is an extraction. */
  lemma FlattenExtracts(v: Vault, parent: BlockId, child: BlockId, now: string, u: Vault) returns (cut: Cut)
    requires Flatten(v, parent, child, now) == Ok(u) && parent != child
    requires CleanInline(v, parent, child) && SameName(v, u, parent)
    ensures Extracted(u, v, cut) && cut.parent == parent && cut.child == child
    ensures cut.inner == TrimNlBody(v.blocks[child].body)
    ensures cut.before == InFront(v, parent, child) && cut.col == Width(Raw(cut.before))
  {
    hide *;
    hide Width, Raw;
    FlattenShape(v, parent, child, now, u);
    FlattenKeepsResolution(v, parent, child, now, u);
    FlattenBodies(v, parent, child, now, u);
    CleanShape(v, parent, child);
    FlattenAgrees(v, u);
    var e;
    cut, e := CutOf(v, parent, child);
    InPlaceIs(v, parent, child, cut);
    NameBack(v, u, parent);
    Assemble(v, u, cut, e);
  }

  lemma NameBack(v: Vault, u: Vault, id: BlockId)
    requires SameName(v, u, id)
    ensures SameName(u, v, id)
  {
  }

  lemma InPlaceIs(v: Vault, parent: BlockId, child: BlockId, cut: Cut)
    requires parent in v.blocks && child in v.blocks && LastRef(v, v.blocks[parent].body, child).Some?
    requires cut.before == InFront(v, parent, child) && cut.inner == TrimNlBody(v.blocks[child].body)
    requires cut.col == Width(Raw(cut.before))
    requires cut.after == v.blocks[parent].body[LastRef(v, v.blocks[parent].body, child).value + 1..]
    ensures cut.before + cut.InPlace() + cut.after
            == FlattenedBody(v, parent, child)
  {
    hide Width, Raw, TrimNlBody, ReindentBody;
  }

  lemma Assemble(v: Vault, u: Vault, cut: Cut, e: Atom)
    requires cut.parent in v.blocks && cut.child in v.blocks && cut.parent != cut.child
    requires u.blocks.Keys == v.blocks.Keys - {cut.child}
    requires u.blocks[cut.parent].body == cut.before + cut.InPlace() + cut.after
    requires v.blocks[cut.parent].body == cut.before + [e] + cut.after && ChildEmbed(v, e, cut.child)
    requires v.blocks[cut.child].body == cut.padBefore + cut.inner + cut.padAfter
    requires AllNl(cut.padBefore) && AllNl(cut.padAfter)
    requires forall id | id in u.blocks && id != cut.parent :: u.blocks[id] == v.blocks[id]
    requires SameName(u, v, cut.parent)
    requires forall id | id in u.blocks :: Agree(u, v, u.blocks[id].body)
    ensures Extracted(u, v, cut)
  {
    hide Agree, AllNl, ChildEmbed, ReindentBody, Block.DisplayTitle;
    assert v.blocks.Keys == u.blocks.Keys + {cut.child};
  }

  lemma FlattenAgrees(v: Vault, u: Vault)
    requires forall b | b in u.blocks :: Agree(v, u, u.blocks[b].body)
    ensures forall b | b in u.blocks :: Agree(u, v, u.blocks[b].body)
  {
    forall b | b in u.blocks ensures Agree(u, v, u.blocks[b].body) { assert Agree(v, u, u.blocks[b].body); }
  }

  lemma FlattenBodies(v: Vault, parent: BlockId, child: BlockId, now: string, u: Vault)
    requires Flatten(v, parent, child, now) == Ok(u) && parent != child
    requires CleanInline(v, parent, child)
    ensures u.blocks.Keys == v.blocks.Keys - {child}
    ensures LastRef(v, v.blocks[parent].body, child).Some? && u.blocks[parent].body == FlattenedBody(v, parent, child)
    ensures forall id | id in u.blocks && id != parent :: u.blocks[id] == v.blocks[id]
    ensures v.blocks[parent].HasTitle() ==> SameName(v, u, parent)
  {
    hide *;
    FlattenShape(v, parent, child, now, u);
    CleanShape(v, parent, child);
    PutAndRemove(v, parent, FlattenedBody(v, parent, child), now, child);
  }

  lemma CleanShape(v: Vault, parent: BlockId, child: BlockId)
    requires CleanInline(v, parent, child)
    ensures parent in v.blocks && child in v.blocks
    ensures LastRef(v, v.blocks[parent].body, child).Some?
    ensures StartsInText(FlattenedBody(v, parent, child)) && ReadsBack(FlattenedBody(v, parent, child))
  {
  }

  lemma PutAndRemove(v: Vault, id: BlockId, body: Body, now: string, gone: BlockId)
    requires id in v.blocks && id != gone && StartsInText(body) && ReadsBack(body)
    ensures var u := Remove(PutBody(v, id, Raw(body), now), gone);
            && u.blocks.Keys == v.blocks.Keys - {gone}
            && u.blocks[id].body == body
            && (forall b | b in u.blocks && b != id :: u.blocks[b] == v.blocks[b])
            && (v.blocks[id].HasTitle() ==> SameName(v, u, id))
  {
    RewrittenTitle(v, id, Raw(body), now);
    assert DropNl(body) == body;
    assert Rewritten(v.blocks[id], Raw(body), now).body == body;
    hide DropNl, StoredTitle, StartsInText, Raw, Stored;
  }

  /**
   A flatten keeps its parent's rendering, and on an acyclic vault all renderings, if and only if the text it inlines,
   indented to the embed's column in the source, is laid out as the embed was.
   */
  lemma FlattenKeepsRendersIff(v: Vault, parent: BlockId, child: BlockId, now: string, u: Vault, links: Option<FlatSet>)
    requires Flatten(v, parent, child, now) == Ok(u) && parent != child
    requires CleanInline(v, parent, child) && SameName(v, u, parent)
    ensures var before, inner := InFront(v, parent, child), TrimNlBody(v.blocks[child].body);
            var lands := Lands(u, before, inner, Width(Raw(before)), links, {parent});
            && (FlatBlock(u, parent, links) == FlatBlock(v, parent, links) <==> lands)
            && (u.Acyclic() ==> ((forall id | id in u.blocks :: FlatBlock(u, id, links) == FlatBlock(v, id, links))
              <==> lands))
  {
    hide Flat, Expand, Extracted, Flatten, FlatBlock, CleanInline, SameName, FitsThere, Lands, TrimNlBody, InFront;
    CleanShape(v, parent, child);
    var cut := FlattenExtracts(v, parent, child, now, u);
    FlattenTitles(v, parent, child, now, u);
    WholeStory(u, v, cut, links);
    LandsAsCut(u, cut, links, {parent});
  }

  /**
   Checked on the text alone, on any vault: inlining a child behind plain text, or one that needs no indentation, keeps
   all renderings.
   */
  lemma FlattenKeepsRenders(v: Vault, parent: BlockId, child: BlockId, now: string, u: Vault, head: Body, line: Body,
                            links: Option<FlatSet>)
    requires Flatten(v, parent, child, now) == Ok(u) && parent != child
    requires CleanInline(v, parent, child) && SameName(v, u, parent)
    requires var before, inner := InFront(v, parent, child), TrimNlBody(v.blocks[child].body);
             || (before == head + line && Aligned(u, head, line, inner, links))
             || (Blends(u, before, inner, links) && (Width(Raw(before)) == 0 || NoNewline(inner)))
    ensures forall id | id in u.blocks :: FlatBlock(u, id, links) == FlatBlock(v, id, links)
  {
    hide Flat, Expand, Extracted, Flatten, FlatBlock, CleanInline, SameName, FitsThere, FitsAlways, TrimNlBody, InFront,
      Aligned, Blends, Width, Raw, NoNewline;
    var cut := FlattenExtracts(v, parent, child, now, u);
    FlattenTitles(v, parent, child, now, u);
    WholeStory(u, v, cut, links);
    if cut.before == head + line && Aligned(u, head, line, cut.inner, links) {
      AlignedAt(u, head, line, cut.inner, links);
      AlignedFits(u, cut, head, line, links);
    } else {
      BlendsFits(u, cut, links);
    }
  }

  lemma AlignedAt(u: Vault, head: Body, line: Body, inner: Body, links: Option<FlatSet>)
    requires Aligned(u, head, line, inner, links)
    ensures Width(Raw(head + line)) == |line|
  {
    AlignedColumn(u, head, line, links, {});
  }

  // ---------- carve, then flatten ----------

  /** After carving, the embed left behind is the only reference to the child. */
  lemma CarvedOnce(v: Vault, parent: BlockId, i: nat, j: nat, child: BlockId, now: string, w: Vault)
    requires Carve(v, parent, i, j, child, now) == Ok(w)
    requires Unmentioned(v, child) && CleanSelection(v, parent, i, j, child)
    ensures forall b | b in w.blocks && b != parent :: NoRef(w, w.blocks[b].body, child)
    ensures NoRef(w, v.blocks[parent].body[..i], child) && NoRef(w, v.blocks[parent].body[j..], child)
  {
    CarveResolves(v, parent, i, j, child, now, w);
    CarveBodies(v, parent, i, j, child, now, w);
    forall b, k | b in v.blocks && 0 <= k < |v.blocks[b].body| ensures !RefersTo(w, v.blocks[b].body[k], child) {
      if v.blocks[b].body[k].Ref? {
        assert Agree(v, w, v.blocks[b].body);
        assert w.Resolve(v.blocks[b].body[k].target) == v.Resolve(v.blocks[b].body[k].target);
      }
    }
    var body := v.blocks[parent].body;
    assert forall k | 0 <= k < |body[i..j]| :: body[i..j][k] == body[i + k];
    assert forall k | 0 <= k < |body[j..]| :: body[j..][k] == body[j + k];
  }

  lemma CarvedCount(v: Vault, parent: BlockId, i: nat, j: nat, child: BlockId, now: string, w: Vault)
    requires Carve(v, parent, i, j, child, now) == Ok(w)
    requires Unmentioned(v, child) && CleanSelection(v, parent, i, j, child)
    ensures CountAll(w, child) == 1
    ensures LastRef(w, w.blocks[parent].body, child) == Some(i)
  {
    hide Carve, Count, CountIn, NoRef, ReadsBack;
    var body := v.blocks[parent].body;
    var e := EmbedOf(child);
    CarvedOnce(v, parent, i, j, child, now, w);
    CarveBodies(v, parent, i, j, child, now, w);
    CarveResolves(v, parent, i, j, child, now, w);
    var left := body[..i] + [e] + body[j..];
    assert left[i] == e && left[..i] == body[..i] && left[i + 1..] == body[j..];
    CountAround(w, left, i, child);
    CountZero(w, body[..i], child);
    CountZero(w, body[j..], child);
    forall b | b in w.blocks && b != parent ensures Count(w, w.blocks[b].body, child) == 0 {
      CountZero(w, w.blocks[b].body, child);
    }
    CountInOnly(w, SortedIds(w.blocks.Keys), child, parent);
    LastRefSkips(w, body[..i] + [e], body[j..], child);
    assert (body[..i] + [e])[i] == e;
  }

  lemma {:induction false} LastRefSkips(v: Vault, a: Body, b: Body, target: BlockId)
    requires NoRef(v, b, target)
    ensures LastRef(v, a + b, target) == LastRef(v, a, target)
    decreases |b|
  {
    if b == [] {
      assert a + b == a;
    } else {
      var n := |b| - 1;
      assert (a + b)[|a + b| - 1] == b[n] && (a + b)[..|a + b| - 1] == a + b[..n];
      assert forall k | 0 <= k < n :: b[..n][k] == b[k];
      LastRefSkips(v, a, b[..n], target);
    }
  }

  lemma TrimmedEndsInText(body: Body)
    requires TrimBody(body) == body
    ensures TrimNlBody(body) == body
  {
    TrimBodyStartsInText(body);
    TrimBodyEndKeeps(TrimBodyStart(body));
    TrimBodyEndsInText(TrimBodyStart(body));
  }

  lemma {:induction false} TrimBodyEndsInText(body: Body)
    ensures TrimBodyEnd(body) == [] || !IsBlank(TrimBodyEnd(body)[|TrimBodyEnd(body)| - 1])
    decreases |body|
  {
    if body != [] && IsBlank(body[|body| - 1]) { TrimBodyEndsInText(body[..|body| - 1]); }
  }

  /**
   Flattening what was just carved always succeeds. It gives the vault back, up to the parent's modification stamp and
   the outer white space of its title, if and only if the selection starts a line or is one line.
   */
  lemma CarveThenFlatten(v: Vault, parent: BlockId, i: nat, j: nat, child: BlockId, now: string, later: string,
                         w: Vault)
    requires Carve(v, parent, i, j, child, now) == Ok(w)
    requires Unmentioned(v, child) && CleanSelection(v, parent, i, j, child)
    ensures Flatten(w, parent, child, later).Ok?
    ensures Flatten(w, parent, child, later)
            == Ok(v.(blocks := v.blocks[parent := Rewritten(v.blocks[parent], Raw(v.blocks[parent].body), later)]))
            <==> Width(Raw(v.blocks[parent].body[..i])) == 0 || NoNewline(v.blocks[parent].body[i..j])
  {
    CarvedCount(v, parent, i, j, child, now, w);
    CarveBodies(v, parent, i, j, child, now, w);
    hide *;
    CarveShape(v, parent, i, j, child);
    CarveTrimmed(v, parent, i, j, child);
    var body := v.blocks[parent].body;
    CarvedInlines(body, i, j, child);
    var text := Raw(Inlined(CarvedBody(body, i, j, child), i, body[i..j]));
    FlattenedIs(w, parent, child, i, later);
    CarvedRest(v, parent, i, j, child, now, w, later, text);
    SameRewritten(v, parent, text, Raw(body), later);
  }

  lemma CarveTrimmed(v: Vault, parent: BlockId, i: nat, j: nat, child: BlockId)
    requires CleanSelection(v, parent, i, j, child)
    ensures parent in v.blocks && i < j <= |v.blocks[parent].body|
    ensures TrimBody(v.blocks[parent].body[i..j]) == v.blocks[parent].body[i..j]
    ensures CarvedBody(v.blocks[parent].body, i, j, child)[i] == EmbedOf(child) && EmbedOf(child).Ref?
    ensures EmbedOf(child).embed
  {
  }

  lemma SameRewritten(v: Vault, id: BlockId, text: string, other: string, now: string)
    requires id in v.blocks
    ensures v.(blocks := v.blocks[id := Rewritten(v.blocks[id], text, now)])
            == v.(blocks := v.blocks[id := Rewritten(v.blocks[id], other, now)])
            <==> Stored(text) == Stored(other)
  {
    hide Stored, StoredTitle;
    var x, y := v.blocks[id := Rewritten(v.blocks[id], text, now)], v.blocks[id := Rewritten(v.blocks[id], other, now)];
    if x == y { assert x[id] == y[id]; }
  }

  lemma FlattenedIs(w: Vault, parent: BlockId, child: BlockId, k: nat, later: string)
    requires parent in w.blocks && child in w.blocks && CountAll(w, child) == 1
    requires LastRef(w, w.blocks[parent].body, child) == Some(k) && k < |w.blocks[parent].body|
    requires w.blocks[parent].body[k].Ref? && w.blocks[parent].body[k].embed
    ensures Flatten(w, parent, child, later)
            == Ok(Remove(PutBody(w, parent, Raw(Inlined(w.blocks[parent].body, k, w.blocks[child].body)), later),
              child))
  {
    hide Inlined, CountAll, Raw, PutBody;
  }

  /** Indenting writes more, if there is a line to indent. */
  lemma {:induction false} IndentedIsLonger(body: Body, col: nat)
    requires col > 0 && body != [] && body[|body| - 1] != Ch('\n')
    ensures |Raw(ReindentBody(body, col))| >= |Raw(body)|
    ensures !NoNewline(body) ==> |Raw(ReindentBody(body, col))| > |Raw(body)|
  {
    var rest := ReindentBody(body[1..], col);
    if |body| > 1 {
      IndentedIsLonger(body[1..], col);
      assert forall k | 1 <= k < |body| :: body[k] == body[1..][k - 1];
    }
    var head := if body[0] == Ch('\n') && |body| > 1 && body[1] != Ch('\n') then [body[0]] + Chars(Spaces(col))
      else [body[0]];
    RawConcat(head, rest);
    RawConcat([body[0]], Chars(Spaces(col)));
    RawChars(Spaces(col));
    assert [body[0]][1..] == [];
  }

  lemma {:induction false} TrimNlFront(a: string, b: string)
    requires TrimNlStart(a) != ""
    ensures TrimNlStart(a + b) == TrimNlStart(a) + b
  {
    if a[0] == '\n' {
      assert (a + b)[1..] == a[1..] + b;
      TrimNlFront(a[1..], b);
    }
  }

  lemma {:induction false} TrimNlKeepsLast(a: string)
    requires a != "" && a[|a| - 1] != '\n'
    ensures TrimNlStart(a) != ""
  {
    if a[0] == '\n' { TrimNlKeepsLast(a[1..]); }
  }

  /** Texts of different length behind the same line do not come back as the same body. */
  lemma LongerStored(front: string, a: string, b: string)
    requires Width(front) > 0 && |a| != |b|
    ensures Stored(front + a) != Stored(front + b)
  {
    hide Read, Raw;
    TrimNlKeepsLast(front);
    TrimNlFront(front, a);
    TrimNlFront(front, b);
    ReadTextRaw(TrimNlStart(front + a));
    ReadTextRaw(TrimNlStart(front + b));
  }

  lemma ReadTextRaw(text: string)
    ensures Raw(Read(text)) == text
  {
    ReadRaw(text, false);
  }

  lemma CarvedInlines(body: Body, i: nat, j: nat, child: BlockId)
    requires i < j <= |body| && TrimBody(body[i..j]) == body[i..j]
    ensures Stored(Raw(Inlined(CarvedBody(body, i, j, child), i, body[i..j]))) == Stored(Raw(body))
            <==> Width(Raw(body[..i])) == 0 || NoNewline(body[i..j])
  {
    hide Stored, Raw, Width, TrimBody, TrimNlBody, ReindentBody, NoNewline;
    var left := CarvedBody(body, i, j, child);
    var col, part := Width(Raw(body[..i])), body[i..j];
    TrimmedEndsInText(part);
    assert left[..i] == body[..i] && left[i + 1..] == body[j..];
    assert body == body[..i] + part + body[j..];
    if col == 0 || NoNewline(part) {
      FlushInlined(left, i, part);
    } else {
      LastIsText(part);
      IndentedIsLonger(part, col);
      var put := ReindentBody(part, col);
      ThreeRaw(body[..i], put, body[j..]);
      ThreeRaw(body[..i], part, body[j..]);
      LongerStored(Raw(body[..i]), Raw(put) + Raw(body[j..]), Raw(part) + Raw(body[j..]));
    }
  }

  lemma ThreeRaw(a: Body, b: Body, c: Body)
    ensures Raw(a + b + c) == Raw(a) + (Raw(b) + Raw(c))
  {
    hide Raw;
    RawConcat(a + b, c);
    RawConcat(a, b);
    assert Raw(a) + Raw(b) + Raw(c) == Raw(a) + (Raw(b) + Raw(c));
  }

  lemma LastIsText(part: Body)
    requires part != [] && TrimBody(part) == part
    ensures part[|part| - 1] != Ch('\n')
  {
    TrimBodyEndsInText(TrimBodyStart(part));
  }

  lemma CarvedRest(v: Vault, parent: BlockId, i: nat, j: nat, child: BlockId, now: string, w: Vault, later: string,
                   text: string)
    requires Carve(v, parent, i, j, child, now) == Ok(w)
    requires Unmentioned(v, child) && CleanSelection(v, parent, i, j, child)
    ensures parent in v.blocks && parent in w.blocks
    ensures Remove(PutBody(w, parent, text, later), child)
            == v.(blocks := v.blocks[parent := Rewritten(v.blocks[parent], text, later)])
  {
    hide *;
    IsNew(v, child);
    CarveBodies(v, parent, i, j, child, now, w);
    CarvedParent(v, parent, i, j, child, now, w);
    RewrittenAgain(v.blocks[parent], w.blocks[parent], text, later);
    BackAgain(v, w, parent, child, text, later);
  }

  lemma IsNew(v: Vault, child: BlockId)
    requires Unmentioned(v, child)
    ensures child !in v.blocks
  {
  }

  lemma BackAgain(v: Vault, w: Vault, parent: BlockId, child: BlockId, text: string, later: string)
    requires parent in v.blocks && child !in v.blocks && w.lower == v.lower
    requires w.blocks.Keys == v.blocks.Keys + {child}
    requires forall id | id in v.blocks && id != parent :: w.blocks[id] == v.blocks[id]
    requires Rewritten(w.blocks[parent], text, later) == Rewritten(v.blocks[parent], text, later)
    ensures Remove(PutBody(w, parent, text, later), child)
            == v.(blocks := v.blocks[parent := Rewritten(v.blocks[parent], text, later)])
  {
    hide Rewritten;
    var b := Rewritten(v.blocks[parent], text, later);
    var got := Remove(PutBody(w, parent, text, later), child).blocks;
    assert got.Keys == v.blocks[parent := b].Keys;
    assert got == v.blocks[parent := b];
  }

  lemma CarvedParent(v: Vault, parent: BlockId, i: nat, j: nat, child: BlockId, now: string, w: Vault)
    requires Carve(v, parent, i, j, child, now) == Ok(w)
    ensures parent in v.blocks && parent in w.blocks
    ensures w.blocks[parent].title == StoredTitle(v.blocks[parent].title)
    ensures w.blocks[parent].meta == v.blocks[parent].meta.(updated := Some(now)) && w.lower == v.lower
  {
  }

  lemma RewrittenAgain(b: Block, c: Block, text: string, later: string)
    requires c.title == StoredTitle(b.title) && c.meta == b.meta.(updated := c.meta.updated)
    ensures Rewritten(c, text, later) == Rewritten(b, text, later)
  {
    hide Stored;
    if b.title.Some? { TrimEnds(b.title.value); TrimEnds(Trim(b.title.value)); }
  }

  // ---------- inside code ----------

  lemma {:induction false} FlatChars(v: Vault, s: string, links: Option<FlatSet>, open: set<BlockId>, col: nat)
    ensures Flat(Expand(v, Chars(s), open), links, col) == s
  {
    var body := Chars(s);
    if s != "" {
      ExpandCons(v, body, open);
      assert body[1..] == Chars(s[1..]);
      var t, rest := FlatCons(Expand(v, body, open), links, col);
      assert t == [s[0]];
      FlatChars(v, s[1..], links, open, Advance(col, t));
      assert s == [s[0]] + s[1..];
    }
  }

  /**
   Why carving asks for texts that are read back: in a fenced block it blends with its line, but the embed it leaves is
   shown as text, and there is nothing to flatten.
   */
  lemma CarveInFence(v: Vault, p: BlockId, meta: Meta, child: BlockId, now: string, later: string)
    requires v.blocks == map[p := Block(Some("T"), meta, Chars("```\nfoo\n```"))] && child != p
    ensures ReadsBack(v.blocks[p].body) && Blends(v, v.blocks[p].body[..4], v.blocks[p].body[4..7], None)
    ensures Carve(v, p, 4, 7, child, now).Ok?
    ensures var w := Carve(v, p, 4, 7, child, now).value;
            && p in w.blocks && FlatBlock(w, p, None) != FlatBlock(v, p, None)
            && Flatten(w, p, child, later).Err?
  {
    hide Raw, Read, FlatBlock, TrimNlStart;
    var body := v.blocks[p].body;
    var text, after := "```\nfoo\n```", "```\n" + "![[" + child + "]]" + "\n```";
    FooReads();
    FooSelected(body);
    EmbedText(body, child);
    EmbedReads(child);
    StoredIs(text);
    StoredIs(after);
    RawChars(text);
    RawChars("foo");
    var w := Carve(v, p, 4, 7, child, now).value;
    assert w.blocks[p].body == Chars(after);
    assert FlatBlock(w, p, None) == after by { FlatChars(w, after, None, {p}, 0); BlockText(w, p, after); }
    assert FlatBlock(v, p, None) == text by { FlatChars(v, text, None, {p}, 0); BlockText(v, p, text); }
    assert w.blocks[child].body == Chars("foo");
    NothingCounted(w, SortedIds(w.blocks.Keys), child);
  }

  lemma BlockText(v: Vault, id: BlockId, s: string)
    requires id in v.blocks && v.blocks[id].body == Chars(s) && Flat(Expand(v, Chars(s), {id}), None, 0) == s
    ensures FlatBlock(v, id, None) == s
  {
  }

  lemma StoredIs(text: string)
    requires text != "" && text[0] == '`'
    ensures TrimNlStart(text) == text && DropNl(Chars(text)) == Chars(text)
  {
  }

  lemma FooReads()
    ensures Read("```\nfoo\n```") == Chars("```\nfoo\n```")
    ensures Stored("foo") == Chars("foo")
  {
    PlainLine("foo");
    assert "foo"[..3] == "foo";
    IndexOfIs("foo", '\n', 3);
    FenceReads("foo");
    assert "```\n" + "foo" + "\n```" == "```\nfoo\n```";
    MildQuiet("foo");
    RawChars("foo");
  }

  lemma FooSelected(body: Body)
    requires body == Chars("```\nfoo\n```")
    ensures body[4..7] == Chars("foo") && TrimBody(body[4..7]) == body[4..7] && body[..4] == Chars("```\n")
    ensures body[7..] == Chars("\n```")
    ensures forall v: Vault :: Blends(v, body[..4], body[4..7], None)
  {
  }

  lemma EmbedText(body: Body, child: BlockId)
    requires body == Chars("```\nfoo\n```")
    ensures Raw(CarvedBody(body, 4, 7, child)) == "```\n" + "![[" + child + "]]" + "\n```"
  {
    FooSelected(body);
    hide Raw;
    ThreeRaw(Chars("```\n"), [EmbedOf(child)], Chars("\n```"));
    RawChars("```\n");
    RawChars("\n```");
    EmbedPlain(child);
  }

  lemma EmbedReads(child: BlockId)
    ensures var after := "```\n" + "![[" + child + "]]" + "\n```"; Read(after) == Chars(after) && |after| > 12
  {
    hide Read, NoBreakIn;
    var src := "![[" + child + "]]";
    OwnPlain(child, "!");
    assert src == "!" + "[[" + child + "]]" && |src| == 31;
    FenceReads(src);
    assert "```\n" + src + "\n```" == "```\n" + "![[" + child + "]]" + "\n```";
  }

  lemma {:induction false} NothingCounted(v: Vault, ids: seq<BlockId>, target: BlockId)
    requires forall b | b in v.blocks :: forall k | 0 <= k < |v.blocks[b].body| :: v.blocks[b].body[k].Ch?
    ensures CountIn(v, ids, target) == 0
  {
    hide Count;
    if ids != [] {
      NothingCounted(v, ids[1..], target);
      if ids[0] in v.blocks { CountZero(v, v.blocks[ids[0]].body, target); }
    }
  }
}
