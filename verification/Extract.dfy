/**
 Extracting part of a block into a block of its own, seen from the renderer. `v` holds the text in place,
 `w` the extracted child and an embed of it; carving goes from `v` to `w`, flattening from `w` to `v`.
 */
module Extract {
  import opened Prelude
  import opened Text
  import opened Wiki
  import opened Layout
  import opened Indent
  import opened Render
  import opened Edits
  import opened Realign

  predicate AllNl(body: Body) {
    forall i | 0 <= i < |body| :: body[i] == Ch('\n')
  }

  /** Every directive of `body` resolves in `w` as it does in `v`. */
  ghost predicate Agree(v: Vault, w: Vault, body: Body) {
    forall k | 0 <= k < |body| && body[k].Ref? :: w.Resolve(body[k].target) == v.Resolve(body[k].target)
  }

  /**
   How the parent's body is cut: `before`, the part in question, indented to `col`, and `after`; in the child the part
   is not indented, but may be padded with newlines.
   */
  datatype Cut = Cut(parent: BlockId, child: BlockId, before: Body, inner: Body, col: nat, after: Body,
                     padBefore: Body, padAfter: Body) {
    function InPlace(): Body { ReindentBody(inner, col) }
  }

  ghost predicate Extracted(v: Vault, w: Vault, cut: Cut) {
    && cut.parent in v.blocks && cut.child !in v.blocks
    && w.blocks.Keys == v.blocks.Keys + {cut.child}
    && v.blocks[cut.parent].body == cut.before + cut.InPlace() + cut.after
    && (exists e | ChildEmbed(w, e, cut.child) :: w.blocks[cut.parent].body == cut.before + [e] + cut.after)
    && w.blocks[cut.child].body == cut.padBefore + cut.inner + cut.padAfter
    && AllNl(cut.padBefore) && AllNl(cut.padAfter)
    && (forall id | id in v.blocks && id != cut.parent :: w.blocks[id].body == v.blocks[id].body)
    && (forall id | id in v.blocks :: w.blocks[id].DisplayTitle(id) == v.blocks[id].DisplayTitle(id))
    && (forall id | id in v.blocks :: Agree(v, w, v.blocks[id].body))
  }

  ghost predicate ChildEmbed(w: Vault, e: Atom, child: BlockId) {
    e.Ref? && e.embed && w.Resolve(e.target) == Some(child)
  }

  /** With `open` above it, the part in place is laid out as the embed of the child is. */
  ghost predicate FitsThere(v: Vault, cut: Cut, links: Option<FlatSet>, open: set<BlockId>) {
    Lands(v, cut.before, cut.inner, cut.col, links, open)
  }

  /** `acyclic` narrows the contexts in which the fit is asked for to those that can occur. */
  ghost predicate FitsAlways(v: Vault, cut: Cut, links: Option<FlatSet>, acyclic: bool)
    requires cut.parent in v.blocks
  {
    && (acyclic ==> v.Acyclic())
    && forall open | cut.parent in open && (acyclic ==> ClearBelow(v, v.blocks[cut.parent].body, open)) ::
         FitsThere(v, cut, links, open)
  }

  lemma AgreeSub(v: Vault, w: Vault, a: Body, sub: Body, b: Body)
    requires Agree(v, w, a + sub + b)
    ensures Agree(v, w, sub)
  {
    var whole := a + sub + b;
    forall k | 0 <= k < |sub| && sub[k].Ref? ensures w.Resolve(sub[k].target) == v.Resolve(sub[k].target) {
      assert whole[|a| + k] == sub[k];
    }
  }

  // ---------- the directives of the part ----------

  ghost predicate SubAtoms(a: Body, b: Body) {
    forall k | 0 <= k < |a| && a[k].Ref? :: a[k] in b
  }

  /** Indenting a body touches none of its directives. */
  lemma {:induction false} ReindentAtoms(body: Body, col: nat)
    ensures SubAtoms(ReindentBody(body, col), body) && SubAtoms(body, ReindentBody(body, col))
  {
    if body != [] {
      ReindentAtoms(body[1..], col);
      var head := if body[0] == Ch('\n') && |body| > 1 && body[1] != Ch('\n') then [body[0]] + Chars(Spaces(col))
        else [body[0]];
      var rest := ReindentBody(body[1..], col);
      var whole := head + rest;
      forall k | 0 <= k < |whole| && whole[k].Ref? ensures whole[k] in body {
        if k >= |head| { assert whole[k] == rest[k - |head|]; }
      }
      forall k | 0 <= k < |body| && body[k].Ref? ensures body[k] in whole {
        if k > 0 { assert body[1..][k - 1] in rest; } else { assert body[0] == head[0]; }
      }
    }
  }

  lemma AgreeAtoms(v: Vault, w: Vault, a: Body, b: Body)
    requires SubAtoms(a, b) && Agree(v, w, b)
    ensures Agree(v, w, a)
  {
    forall k | 0 <= k < |a| && a[k].Ref? ensures w.Resolve(a[k].target) == v.Resolve(a[k].target) {
      var m :| 0 <= m < |b| && b[m] == a[k];
    }
  }

  lemma EmbedsAtoms(v: Vault, a: Body, b: Body, x: BlockId)
    requires SubAtoms(a, b) && v.Embeds(a, x)
    ensures v.Embeds(b, x)
  {
    var k :| v.EmbedsAt(a, k, x);
    var m :| 0 <= m < |b| && b[m] == a[k];
    assert v.EmbedsAt(b, m, x);
  }

  // ---------- below the parent nothing changes ----------

  /** With the parent open, its body is never entered: both vaults expand alike, whether or not the child is open. */
  lemma {:induction false} SameDoc(v: Vault, w: Vault, cut: Cut, body: Body, open: set<BlockId>, openW: set<BlockId>)
    requires Extracted(v, w, cut) && Agree(v, w, body)
    requires cut.parent in open && cut.child !in open && (openW == open || openW == open + {cut.child})
    ensures Expand(w, body, openW) == Expand(v, body, open)
    decreases v.blocks.Keys - open, |body|
  {
    if body != [] {
      var a := body[0];
      assert body == [a] + body[1..] + [];
      AgreeSub(v, w, [a], body[1..], []);
      SameDoc(v, w, cut, body[1..], open, openW);
      if a.Ref? && a.embed && v.Resolve(a.target).Some? && v.Resolve(a.target).value !in open {
        var id := v.Resolve(a.target).value;
        assert w.Resolve(a.target) == Some(id);
        assert v.blocks.Keys - (open + {id}) < v.blocks.Keys - open by { assert id in v.blocks.Keys - open; }
        SameDoc(v, w, cut, v.blocks[id].body, open + {id}, openW + {id});
      }
      SameAtom(v, w, cut, a, open, openW);
    }
  }

  lemma SameAtom(v: Vault, w: Vault, cut: Cut, a: Atom, open: set<BlockId>, openW: set<BlockId>)
    requires Extracted(v, w, cut) && Agree(v, w, [a])
    requires cut.parent in open && cut.child !in open && (openW == open || openW == open + {cut.child})
    requires a.Ref? && a.embed && v.Resolve(a.target).Some? && v.Resolve(a.target).value !in open ==>
               var id := v.Resolve(a.target).value;
               Expand(w, v.blocks[id].body, openW + {id}) == Expand(v, v.blocks[id].body, open + {id})
    ensures ExpandAtom(w, a, openW) == ExpandAtom(v, a, open)
  {
    if a.Ref? { assert w.Resolve([a][0].target) == v.Resolve([a][0].target); }
  }

  lemma EmbeddedText(v: Vault, a: Atom, id: BlockId, open: set<BlockId>, links: Option<FlatSet>, col: nat)
    requires a.Ref? && a.embed && v.Resolve(a.target) == Some(id) && id !in open
    ensures FlatNode(ExpandAtom(v, a, open), links, col)
            == Reindent(TrimNl(Flat(Expand(v, v.blocks[id].body, open + {id}), links, 0)), col)
  {
    hide Flat, Reindent, TrimNl;
    var n := ExpandAtom(v, a, open);
    assert n.Embedded? && n.doc == Expand(v, v.blocks[id].body, open + {id});
  }

  // ---------- the parent's own body ----------

  /** What the parent's body expands to in each vault: the same around the inner part and around its embed. */
  lemma ParentDocs(v: Vault, w: Vault, cut: Cut, links: Option<FlatSet>, open: set<BlockId>) returns (n: Node)
    requires Extracted(v, w, cut) && cut.parent in open && cut.child !in open
    ensures var before, after := Expand(v, cut.before, open), Expand(v, cut.after, open);
            && Expand(v, v.blocks[cut.parent].body, open) == before + Expand(v, cut.InPlace(), open) + after
            && EmbeddedIs(n, Expand(v, cut.inner, open), links)
            && Expand(w, w.blocks[cut.parent].body, open) == before + [n] + after
  {
    hide *;
    var e := Pieces(v, w, cut);
    SameDoc(v, w, cut, cut.before, open, open);
    SameDoc(v, w, cut, cut.inner, open, open + {cut.child});
    SameDoc(v, w, cut, cut.after, open, open);
    ThreeDocs(v, cut.before, cut.InPlace(), cut.after, open);
    ThreeDocs(w, cut.before, [e], cut.after, open);
    ChildNode(w, cut, e, links, open);
    n := ExpandAtom(w, e, open);
  }

  lemma Pieces(v: Vault, w: Vault, cut: Cut) returns (e: Atom)
    requires Extracted(v, w, cut)
    ensures cut.parent in v.blocks && cut.parent in w.blocks && cut.child in w.blocks
    ensures ChildEmbed(w, e, cut.child) && w.blocks[cut.parent].body == cut.before + [e] + cut.after
    ensures v.blocks[cut.parent].body == cut.before + cut.InPlace() + cut.after
    ensures w.blocks[cut.child].body == cut.padBefore + cut.inner + cut.padAfter
    ensures AllNl(cut.padBefore) && AllNl(cut.padAfter)
    ensures Agree(v, w, cut.before) && Agree(v, w, cut.inner) && Agree(v, w, cut.after)
  {
    hide Agree, ChildEmbed, AllNl, Cut.InPlace;
    e :| ChildEmbed(w, e, cut.child) && w.blocks[cut.parent].body == cut.before + [e] + cut.after;
    assert Agree(v, w, v.blocks[cut.parent].body);
    AgreeThree(v, w, cut.before, cut.InPlace(), cut.after);
    AgreeInside(v, w, cut);
  }

  lemma AgreeThree(v: Vault, w: Vault, a: Body, b: Body, c: Body)
    requires Agree(v, w, a + b + c)
    ensures Agree(v, w, a) && Agree(v, w, b) && Agree(v, w, c)
  {
    hide Agree;
    assert a + b + c == [] + a + (b + c) && a + b + c == (a + b) + c + [];
    AgreeSub(v, w, [], a, b + c);
    AgreeSub(v, w, a, b, c);
    AgreeSub(v, w, a + b, c, []);
  }

  lemma AgreeInside(v: Vault, w: Vault, cut: Cut)
    requires Agree(v, w, cut.InPlace())
    ensures Agree(v, w, cut.inner)
  {
    hide Agree, SubAtoms, ReindentBody;
    ReindentAtoms(cut.inner, cut.col);
    AgreeAtoms(v, w, cut.inner, cut.InPlace());
  }

  lemma ThreeDocs(v: Vault, a: Body, b: Body, c: Body, open: set<BlockId>)
    ensures Expand(v, a + b + c, open) == Expand(v, a, open) + Expand(v, b, open) + Expand(v, c, open)
  {
    hide *;
    ExpandConcat(v, a + b, c, open);
    ExpandConcat(v, a, b, open);
  }

  /** `n` lays out like an embed of the document `inner`. */
  ghost predicate EmbeddedIs(n: Node, inner: seq<Node>, links: Option<FlatSet>) {
    forall col: nat :: FlatNode(n, links, col) == Reindent(TrimNl(Flat(inner, links, 0)), col)
  }

  /** The embed of the child lays out as the inner text does, whatever newlines pad it in the child. */
  lemma ChildNode(w: Vault, cut: Cut, e: Atom, links: Option<FlatSet>, open: set<BlockId>)
    requires ChildEmbed(w, e, cut.child) && cut.child !in open
    requires w.blocks[cut.child].body == cut.padBefore + cut.inner + cut.padAfter
    requires AllNl(cut.padBefore) && AllNl(cut.padAfter)
    ensures Expand(w, [e], open) == [ExpandAtom(w, e, open)]
    ensures EmbeddedIs(ExpandAtom(w, e, open), Expand(w, cut.inner, open + {cut.child}), links)
  {
    hide Flat, FlatNode, Expand, TrimNl, Reindent;
    ExpandOne(w, e, open);
    PaddedText(w, cut.padBefore, cut.inner, cut.padAfter, links, open + {cut.child});
    forall col: nat
      ensures FlatNode(ExpandAtom(w, e, open), links, col)
              == Reindent(TrimNl(Flat(Expand(w, cut.inner, open + {cut.child}), links, 0)), col)
    {
      EmbeddedText(w, e, cut.child, open, links, col);
    }
  }

  /** The parent's body renders the same with the child extracted if and only if the part fits. */
  lemma ParentIff(v: Vault, w: Vault, cut: Cut, links: Option<FlatSet>, open: set<BlockId>)
    requires Extracted(v, w, cut) && cut.parent in open && cut.child !in open
    ensures Flat(Expand(w, w.blocks[cut.parent].body, open), links, 0)
            == Flat(Expand(v, v.blocks[cut.parent].body, open), links, 0)
            <==> FitsThere(v, cut, links, open)
  {
    hide Flat, Expand, Advance, Reindent, TrimNl;
    var n := ParentDocs(v, w, cut, links, open);
    hide Extracted, Cut.InPlace;
    var before, after := Expand(v, cut.before, open), Expand(v, cut.after, open);
    TextInPlaceIff(before, Expand(v, cut.InPlace(), open), after, n, links);
  }

  // ---------- every other block ----------

  /** Any body renders the same in both vaults when the inner part fits wherever the parent is reached. */
  lemma {:induction false} SameText(v: Vault, w: Vault, cut: Cut, links: Option<FlatSet>, acyclic: bool,
                                    body: Body, open: set<BlockId>, col: nat)
    requires Extracted(v, w, cut) && FitsAlways(v, cut, links, acyclic)
    requires Agree(v, w, body) && cut.child !in open && (acyclic ==> ClearBelow(v, body, open))
    ensures Flat(Expand(w, body, open), links, col) == Flat(Expand(v, body, open), links, col)
    decreases v.blocks.Keys - open, |body|
  {
    hide *;
    if body == [] {
    } else {
      var a := body[0];
      assert body == [a] + body[1..] + [] && body == [] + [a] + body[1..];
      AgreeSub(v, w, [a], body[1..], []);
      AgreeSub(v, w, [], [a], body[1..]);
      if acyclic { ClearBelowRest(v, body, open); }
      ExpandCons(v, body, open);
      ExpandCons(w, body, open);
      var t, rest := FlatCons(Expand(v, body, open), links, col);
      var t', rest' := FlatCons(Expand(w, body, open), links, col);
      SameText(v, w, cut, links, acyclic, body[1..], open, Advance(col, t));
      if a.Ref? && a.embed && v.Resolve(a.target).Some? && v.Resolve(a.target).value !in open {
        var id := v.Resolve(a.target).value;
        Entered(v, w, cut, links, acyclic, body, open, id);
        if id == cut.parent {
          FitsNow(v, cut, links, acyclic, open + {id});
          ParentIff(v, w, cut, links, open + {id});
        } else {
          SameText(v, w, cut, links, acyclic, v.blocks[id].body, open + {id}, 0);
        }
      }
      SameNode(v, w, cut, a, open, links, col);
    }
  }

  lemma Entered(v: Vault, w: Vault, cut: Cut, links: Option<FlatSet>, acyclic: bool, body: Body, open: set<BlockId>,
                id: BlockId)
    requires Extracted(v, w, cut) && FitsAlways(v, cut, links, acyclic) && id in v.blocks && id !in open
    requires body != [] && body[0].Ref? && body[0].embed && v.Resolve(body[0].target) == Some(id)
    requires acyclic ==> ClearBelow(v, body, open)
    ensures id != cut.child && Agree(v, w, v.blocks[id].body)
    ensures id in w.blocks && (id != cut.parent ==> w.blocks[id].body == v.blocks[id].body)
    ensures acyclic ==> ClearBelow(v, v.blocks[id].body, open + {id})
    ensures v.blocks.Keys - (open + {id}) < v.blocks.Keys - open
  {
    hide ClearBelow, FitsAlways, Expand;
    assert v.EmbedsAt(body, 0, id);
    assert id in v.blocks.Keys - open;
    if acyclic {
      AlwaysAcyclic(v, cut, links);
      ClearBelowChild(v, body, open, id);
    }
  }

  lemma SameNode(v: Vault, w: Vault, cut: Cut, a: Atom, open: set<BlockId>, links: Option<FlatSet>, col: nat)
    requires Extracted(v, w, cut) && Agree(v, w, [a])
    requires a.Ref? && a.embed && v.Resolve(a.target).Some? && v.Resolve(a.target).value !in open ==>
               var id := v.Resolve(a.target).value;
               && id in w.blocks
               && Flat(Expand(w, w.blocks[id].body, open + {id}), links, 0)
                 == Flat(Expand(v, v.blocks[id].body, open + {id}), links, 0)
    ensures FlatNode(ExpandAtom(w, a, open), links, col) == FlatNode(ExpandAtom(v, a, open), links, col)
  {
    hide Flat, Expand, Reindent, TrimNl;
    if a.Ref? {
      assert w.Resolve([a][0].target) == v.Resolve([a][0].target);
      var id := v.Resolve(a.target);
      if a.embed && id.Some? && id.value !in open {
        EmbeddedText(v, a, id.value, open, links, col);
        EmbeddedText(w, a, id.value, open, links, col);
      }
    }
  }

  lemma FitsNow(v: Vault, cut: Cut, links: Option<FlatSet>, acyclic: bool, open: set<BlockId>)
    requires cut.parent in v.blocks && FitsAlways(v, cut, links, acyclic) && cut.parent in open
    requires acyclic ==> ClearBelow(v, v.blocks[cut.parent].body, open)
    ensures FitsThere(v, cut, links, open)
  {
  }

  lemma ThreePieces(v: Vault, a: Body, b: Body, c: Body, links: Option<FlatSet>, open: set<BlockId>)
    ensures var x := Flat(Expand(v, a, open), links, 0);
            var y := Flat(Expand(v, b, open), links, Advance(0, x));
            var z := Flat(Expand(v, c, open), links, Advance(Advance(0, x), y));
            Flat(Expand(v, a + b + c, open), links, 0) == x + y + z
  {
    hide *;
    ExpandConcat(v, a + b, c, open);
    ExpandConcat(v, a, b, open);
    FlatConcat(Expand(v, a + b, open), Expand(v, c, open), links, 0);
    FlatConcat(Expand(v, a, open), Expand(v, b, open), links, 0);
    AdvanceConcat(0, Flat(Expand(v, a, open), links, 0),
      Flat(Expand(v, b, open), links, Advance(0, Flat(Expand(v, a, open), links, 0))));
  }

  // ---------- the child's own text ----------

  lemma PaddedText(w: Vault, a: Body, b: Body, c: Body, links: Option<FlatSet>, open: set<BlockId>)
    requires AllNl(a) && AllNl(c)
    ensures TrimNl(Flat(Expand(w, a + b + c, open), links, 0)) == TrimNl(Flat(Expand(w, b, open), links, 0))
  {
    hide Flat, Expand, TrimNl, Advance;
    ThreePieces(w, a, b, c, links, open);
    NewlinesText(w, a, links, open, 0);
    var x := Flat(Expand(w, a, open), links, 0);
    var y := Flat(Expand(w, b, open), links, 0);
    NewlinesText(w, c, links, open, Advance(0, y));
    TrimNlPadded(x, y, Flat(Expand(w, c, open), links, Advance(0, y)));
  }

  predicate IsNl(s: string) {
    forall i | 0 <= i < |s| :: s[i] == '\n'
  }

  lemma {:induction false} NewlinesText(w: Vault, a: Body, links: Option<FlatSet>, open: set<BlockId>, col: nat)
    requires AllNl(a)
    ensures IsNl(Flat(Expand(w, a, open), links, col))
    ensures col == 0 ==> Advance(0, Flat(Expand(w, a, open), links, col)) == 0
  {
    if a != [] {
      var t, rest := FlatCons(Expand(w, a, open), links, col);
      assert ExpandAtom(w, a[0], open) == Lit('\n');
      assert t == ['\n'];
      assert Advance(col, t) == 0;
      NewlinesText(w, a[1..], links, open, 0);
      AdvanceConcat(0, t, rest);
    }
  }

  lemma {:induction false} TrimNlPadded(a: string, s: string, b: string)
    requires IsNl(a) && IsNl(b)
    ensures TrimNl(a + s + b) == TrimNl(s)
  {
    if a != "" {
      assert (a + s + b)[1..] == a[1..] + s + b;
      TrimNlPadded(a[1..], s, b);
    } else {
      assert a + s + b == s + b;
      TrimNlAfter(s, b);
    }
  }

  lemma {:induction false} TrimNlAfter(s: string, b: string)
    requires IsNl(b)
    ensures TrimNl(s + b) == TrimNl(s)
    decreases |b|
  {
    if b != "" {
      var n := |b| - 1;
      TrimNlAfter(s, b[..n]);
      assert s + b == s + b[..n] + ['\n'];
      TrimNlOneMore(s + b[..n]);
    } else {
      assert s + b == s;
    }
  }

  lemma {:induction false} TrimNlOneMore(s: string)
    ensures TrimNl(s + ['\n']) == TrimNl(s)
  {
    if s != "" && s[0] == '\n' {
      assert (s + ['\n'])[1..] == s[1..] + ['\n'];
      TrimNlOneMore(s[1..]);
    } else if s != "" {
      assert (s + ['\n'])[..|s|] == s;
    } else {
      assert s + ['\n'] == ['\n'] && (['\n'])[1..] == "";
    }
  }

  /** Every block of the vault keeps its flat rendering, cyclic vaults and sets of exported documents included. */
  lemma ExtractKeepsRenders(v: Vault, w: Vault, cut: Cut, links: Option<FlatSet>, acyclic: bool, id: BlockId)
    requires Extracted(v, w, cut) && FitsAlways(v, cut, links, acyclic) && id in v.blocks
    ensures FlatBlock(w, id, links) == FlatBlock(v, id, links)
  {
    hide Flat, Expand, FitsAlways;
    if acyclic { AlwaysAcyclic(v, cut, links); }
    if id == cut.parent {
      FitsNow(v, cut, links, acyclic, {id});
      ParentIff(v, w, cut, links, {id});
    } else {
      SameText(v, w, cut, links, acyclic, v.blocks[id].body, {id}, 0);
    }
  }

  lemma AlwaysAcyclic(v: Vault, cut: Cut, links: Option<FlatSet>)
    requires cut.parent in v.blocks && FitsAlways(v, cut, links, true)
    ensures v.Acyclic()
  {
  }

  /** On an acyclic vault: all renderings survive the extraction if and only if the inner part fits in its parent. */
  lemma ExtractKeepsRendersIff(v: Vault, w: Vault, cut: Cut, links: Option<FlatSet>)
    requires Extracted(v, w, cut) && v.Acyclic()
    ensures (forall id | id in v.blocks :: FlatBlock(w, id, links) == FlatBlock(v, id, links))
            <==> FitsThere(v, cut, links, {cut.parent})
  {
    hide Flat, Expand, Fits;
    ParentIff(v, w, cut, links, {cut.parent});
    if FitsThere(v, cut, links, {cut.parent}) {
      forall open | cut.parent in open && ClearBelow(v, v.blocks[cut.parent].body, open)
        ensures FitsThere(v, cut, links, open)
      {
        SameWherever(v, cut, open);
      }
      forall id | id in v.blocks ensures FlatBlock(w, id, links) == FlatBlock(v, id, links) {
        ExtractKeepsRenders(v, w, cut, links, true, id);
      }
    }
  }

  /** In an acyclic vault what is open above the parent does not matter to its pieces. */
  lemma SameWherever(v: Vault, cut: Cut, open: set<BlockId>)
    requires v.Acyclic() && cut.parent in v.blocks && cut.parent in open
    requires v.blocks[cut.parent].body == cut.before + cut.InPlace() + cut.after
    requires ClearBelow(v, v.blocks[cut.parent].body, open)
    ensures Expand(v, cut.inner, open) == Expand(v, cut.inner, {cut.parent})
    ensures Expand(v, cut.InPlace(), open) == Expand(v, cut.InPlace(), {cut.parent})
    ensures Expand(v, cut.before, open) == Expand(v, cut.before, {cut.parent})
  {
    hide Expand, Unfold, ReindentBody, ClearBelow;
    SamePiece(v, cut, [], cut.before, cut.InPlace() + cut.after, cut.before, open);
    SamePiece(v, cut, cut.before, cut.InPlace(), cut.after, cut.InPlace(), open);
    ReindentAtoms(cut.inner, cut.col);
    SamePiece(v, cut, cut.before, cut.InPlace(), cut.after, cut.inner, open);
  }

  lemma SamePiece(v: Vault, cut: Cut, a: Body, b: Body, c: Body, piece: Body, open: set<BlockId>)
    requires v.Acyclic() && cut.parent in v.blocks && ClearBelow(v, v.blocks[cut.parent].body, open)
    requires v.blocks[cut.parent].body == a + b + c && SubAtoms(piece, b)
    ensures Expand(v, piece, open) == Expand(v, piece, {cut.parent})
  {
    hide Expand, Unfold, SubAtoms;
    var whole := v.blocks[cut.parent].body;
    RenderAcyclic(v, cut.parent);
    forall x | v.Embeds(piece, x) ensures v.Embeds(whole, x) && v.Edge(cut.parent, x) {
      EmbedsAtoms(v, piece, b, x);
      v.EmbedsConcat(a + b, c, x);
      v.EmbedsConcat(a, b, x);
    }
    ExpandIsUnfold(v, piece, open, Below(v, cut.parent));
    ExpandIsUnfold(v, piece, {cut.parent}, Below(v, cut.parent));
  }
}
