/**
 When does an embed lay out like its contents written in place? Exactly when the contents, rendered alone,
 have no outer newline, and either start a line or break lines only inside nested embeds.
 */
module Indent {
  import opened Prelude
  import opened Text
  import opened Wiki
  import opened Layout

  /** A node breaks no line of its own; line breaks inside an embed follow the embed's column. */
  predicate Soft(n: Node, links: Option<FlatSet>) {
    match n
    case Lit(c) => c != '\n'
    case Link(id, text) => OneLine(LinkText(id, text, links))
    case Dangling(written) => OneLine(written)
    case _ => true
  }

  predicate NoHardBreak(doc: seq<Node>, links: Option<FlatSet>) {
    doc == [] || (Soft(doc[0], links) && NoHardBreak(doc[1..], links))
  }

  lemma DissolvedEnds(n: Node, links: Option<FlatSet>)
    requires n.Cycle? || n.Missing? || n.Embedded?
    ensures NoOuterNl(Dissolved(n, links))
  {
    match n
    case Cycle(_, shown) => assert Dissolved(n, links) == CycleMark(shown);
    case Missing(target, _) => assert Dissolved(n, links) == MissingMark(target);
    case Embedded(_, _, doc) => TrimNlEnds(Flat(doc, links, 0));
  }

  // ---------- sufficiency ----------

  lemma ShiftNode(n: Node, links: Option<FlatSet>, k: nat, w: nat)
    requires Soft(n, links)
    ensures var t := FlatNode(n, links, k);
            && FlatNode(n, links, k + w) == Reindent(t, w)
            && (t == "" || t[|t| - 1] != '\n')
            && Advance(k + w, FlatNode(n, links, k + w)) == Advance(k, t) + w
  {
    var t := FlatNode(n, links, k);
    if n.Lit? || n.Link? || n.Dangling? {
      assert OneLine(t);
      ReindentOneLine(t, w);
    } else {
      DissolvedEnds(n, links);
      ShiftIndented(Dissolved(n, links), k, w);
    }
  }

  lemma ShiftIndented(d: string, k: nat, w: nat)
    requires NoOuterNl(d)
    ensures var t := Reindent(d, k);
            && Reindent(d, k + w) == Reindent(t, w)
            && (t == "" || t[|t| - 1] != '\n')
            && Advance(k + w, Reindent(d, k + w)) == Advance(k, t) + w
  {
    hide Reindent, Advance, Width;
    ReindentTwice(d, k, w);
    ReindentEnds(d, k);
    ReindentAdvance(d, k);
    ReindentAdvance(d, k + w);
  }

  /** Without hard breaks, starting `w` columns further right indents the text by `w`. */
  lemma {:induction false} ShiftSoft(doc: seq<Node>, links: Option<FlatSet>, k: nat, w: nat)
    requires NoHardBreak(doc, links)
    ensures Flat(doc, links, k + w) == Reindent(Flat(doc, links, k), w)
  {
    hide FlatNode, Advance, Soft;
    if doc != [] {
      var t, rest := FlatCons(doc, links, k);
      var t', rest' := FlatCons(doc, links, k + w);
      ShiftNode(doc[0], links, k, w);
      ShiftSoft(doc[1..], links, Advance(k, t), w);
      ReindentConcat(t, rest, w);
    }
  }

  /** The condition: `col` is where the text starts, `doc` what is written there. */
  ghost predicate Fits(doc: seq<Node>, links: Option<FlatSet>, col: nat) {
    NoOuterNl(Flat(doc, links, 0)) && (col == 0 || NoHardBreak(doc, links))
  }

  lemma FitsLaysOutAlike(doc: seq<Node>, links: Option<FlatSet>, col: nat)
    requires Fits(doc, links, col)
    ensures Reindent(TrimNl(Flat(doc, links, 0)), col) == Flat(doc, links, col)
  {
    hide Flat, Reindent, TrimNl, NoHardBreak;
    var alone := Flat(doc, links, 0);
    TrimNlEnds(alone);
    if col == 0 { ReindentZero(alone); } else { ShiftSoft(doc, links, 0, col); }
  }

  // ---------- necessity: counting newlines ----------

  function Newlines(s: string): nat {
    if s == "" then 0 else (if s[0] == '\n' then 1 else 0) + Newlines(s[1..])
  }

  lemma {:induction false} NewlinesConcat(a: string, b: string)
    ensures Newlines(a + b) == Newlines(a) + Newlines(b)
  {
    if a == "" {
      assert a + b == b;
    } else {
      assert (a + b)[1..] == a[1..] + b;
      NewlinesConcat(a[1..], b);
    }
  }

  lemma {:induction false} NewlinesNone(s: string)
    ensures Newlines(s) == 0 <==> '\n' !in s
  {
    if s != "" { NewlinesNone(s[1..]); }
  }

  lemma {:induction false} NewlinesReindent(t: string, col: nat)
    ensures Newlines(Reindent(t, col)) == Newlines(t)
  {
    if t != "" {
      NewlinesReindent(t[1..], col);
      var head := if t[0] == '\n' && |t| > 1 && t[1] != '\n' then "\n" + Spaces(col) else [t[0]];
      NewlinesConcat(head, Reindent(t[1..], col));
      NewlinesConcat("\n", Spaces(col));
      NewlinesNone(Spaces(col));
    }
  }

  lemma {:induction false} NewlinesFlat(doc: seq<Node>, links: Option<FlatSet>, j: nat, k: nat)
    ensures Newlines(Flat(doc, links, j)) == Newlines(Flat(doc, links, k))
  {
    if doc != [] {
      var n := doc[0];
      var s, t := FlatNode(n, links, j), FlatNode(n, links, k);
      NewlinesFlat(doc[1..], links, Advance(j, s), Advance(k, t));
      NewlinesConcat(s, Flat(doc[1..], links, Advance(j, s)));
      NewlinesConcat(t, Flat(doc[1..], links, Advance(k, t)));
      if n.Cycle? || n.Missing? || n.Embedded? {
        NewlinesReindent(Dissolved(n, links), j);
        NewlinesReindent(Dissolved(n, links), k);
      }
    }
  }

  lemma NewlinesTrim(s: string)
    requires !NoOuterNl(s)
    ensures Newlines(TrimNl(s)) < Newlines(s)
  {
    NewlinesTrimStart(s);
    NewlinesTrimEnd(TrimNlStart(s));
  }

  lemma {:induction false} NewlinesTrimStart(s: string)
    ensures Newlines(TrimNlStart(s)) <= Newlines(s)
    ensures s != "" && s[0] == '\n' ==> Newlines(TrimNlStart(s)) < Newlines(s)
    ensures s == "" || s[0] != '\n' ==> TrimNlStart(s) == s
  {
    if s != "" && s[0] == '\n' { NewlinesTrimStart(s[1..]); }
  }

  lemma {:induction false} NewlinesTrimEnd(s: string)
    ensures Newlines(TrimNlEnd(s)) <= Newlines(s)
    ensures s != "" && s[|s| - 1] == '\n' ==> Newlines(TrimNlEnd(s)) < Newlines(s)
    decreases |s|
  {
    if s != "" && s[|s| - 1] == '\n' {
      var init := s[..|s| - 1];
      NewlinesTrimEnd(init);
      assert s == init + ['\n'];
      NewlinesConcat(init, ['\n']);
      assert Newlines(['\n']) == 1;
    }
  }

  // ---------- necessity: counting characters ----------

  lemma {:induction false} ReindentWider(a: string, d: nat, w: nat)
    requires d <= w
    ensures |a| <= |Reindent(a, d)| <= |Reindent(a, w)|
  {
    if a != "" { ReindentWider(a[1..], d, w); }
  }

  lemma {:induction false} ReindentGrows(a: string, b: string, d: nat, w: nat)
    requires d <= w
    ensures |Reindent(a, w)| + |Reindent(b, d)| <= |Reindent(a + b, w)|
  {
    if a == "" {
      assert a + b == b;
      ReindentWider(b, d, w);
    } else {
      assert (a + b)[1..] == a[1..] + b;
      ReindentGrows(a[1..], b, d, w);
    }
  }

  lemma IndentedLonger(s: string, w: nat)
    requires !OneLine(s) && EndsInText(s) && w > 0
    ensures |s| < |Reindent(s, w)|
  {
    var n := |s| - Width(s);
    WidthIsLastLine(s);
    assert s == s[..n] + s[n..];
    WidthIsLastLine(s[n..]);
    ReindentLastLine(s[..n], s[n..], w);
    ReindentWider(s[..n], w, w);
  }

  /** A node with a hard break reads the same at every column. */
  lemma SameAnywhere(n: Node, links: Option<FlatSet>, j: nat, k: nat)
    requires !Soft(n, links)
    ensures FlatNode(n, links, j) == FlatNode(n, links, k) && !OneLine(FlatNode(n, links, j))
    ensures Advance(j, FlatNode(n, links, j)) == Advance(k, FlatNode(n, links, j))
  {
  }

  lemma GrowNode(n: Node, links: Option<FlatSet>, k: nat, w: nat)
    ensures var s, t := FlatNode(n, links, k), FlatNode(n, links, k + w);
            && |s| <= |t| <= |Reindent(s, w)|
            && Advance(k, s) <= Advance(k + w, t) <= Advance(k, s) + w
  {
    var s := FlatNode(n, links, k);
    ReindentWider(s, w, w);
    if Soft(n, links) { ShiftNode(n, links, k, w); } else { SameAnywhere(n, links, k, k + w); }
  }

  /** Starting further right never shortens a text, and lengthens it by no more than indenting it would. */
  lemma {:induction false} FlatGrows(doc: seq<Node>, links: Option<FlatSet>, k: nat, w: nat)
    ensures var s, t := Flat(doc, links, k), Flat(doc, links, k + w);
            && |s| <= |t| <= |Reindent(s, w)|
            && Advance(k, s) <= Advance(k + w, t) <= Advance(k, s) + w
  {
    hide FlatNode, Reindent, Advance;
    if doc == [] {
      AdvanceEmpty(k);
      AdvanceEmpty(k + w);
    } else {
      var s0, s1 := FlatCons(doc, links, k);
      var t0, t1 := FlatCons(doc, links, k + w);
      GrowNode(doc[0], links, k, w);
      var c := Advance(k, s0);
      var d := Advance(k + w, t0) - c;
      FlatGrows(doc[1..], links, c, d);
      AdvanceConcat(k, s0, s1);
      AdvanceConcat(k + w, t0, t1);
      ReindentGrows(s0, s1, d, w);
    }
  }

  ghost predicate EndsInText(s: string) { s != "" && s[|s| - 1] != '\n' }

  lemma LongerAfterSoft(s0: string, s1: string, t0: string, t1: string, w: nat)
    requires s0 == "" || s0[|s0| - 1] != '\n'
    requires t0 == Reindent(s0, w) && |t1| < |Reindent(s1, w)|
    ensures |t0 + t1| < |Reindent(s0 + s1, w)|
  {
    ReindentConcat(s0, s1, w);
  }

  lemma EndsInTextTail(a: string, b: string)
    requires EndsInText(a + b) && !OneLine(b)
    ensures EndsInText(b)
  {
    assert b != "";
    assert (a + b)[|a + b| - 1] == b[|b| - 1];
  }

  /** With a hard break, in-place text stays strictly shorter than indented text. */
  lemma {:induction false} HardBreakShorter(doc: seq<Node>, links: Option<FlatSet>, k: nat, w: nat)
    requires !NoHardBreak(doc, links) && w > 0
    requires EndsInText(Flat(doc, links, k))
    ensures |Flat(doc, links, k + w)| < |Reindent(Flat(doc, links, k), w)|
  {
    hide FlatNode, Reindent, Advance, Soft, LinkText, OneLine;
    var s0, s1 := FlatCons(doc, links, k);
    var t0, t1 := FlatCons(doc, links, k + w);
    if Soft(doc[0], links) {
      ShiftNode(doc[0], links, k, w);
      HardBreakHasNewline(doc[1..], links, Advance(k, s0));
      EndsInTextTail(s0, s1);
      HardBreakShorter(doc[1..], links, Advance(k, s0), w);
      LongerAfterSoft(s0, s1, t0, t1, w);
    } else {
      SameAnywhere(doc[0], links, k, k + w);
      OneLineConcat(s0, s1);
      assert t0 == s0 && t1 == s1;
      IndentedLonger(s0 + s1, w);
    }
  }

  lemma {:induction false} HardBreakHasNewline(doc: seq<Node>, links: Option<FlatSet>, k: nat)
    requires !NoHardBreak(doc, links)
    ensures !OneLine(Flat(doc, links, k))
  {
    var t, rest := FlatCons(doc, links, k);
    if Soft(doc[0], links) { HardBreakHasNewline(doc[1..], links, Advance(k, t)); }
    OneLineConcat(t, rest);
  }

  lemma OneLineConcat(a: string, b: string)
    ensures OneLine(a + b) <==> OneLine(a) && OneLine(b)
  {
    AdvanceConcat(0, a, b);
    AdvanceConcat(1, a, b);
  }

  // ---------- one text in place of another ----------

  /**
   Between `before` and `after`, a text and what a node writes there give the same whole if and only if they are the
   same: what follows can make up neither for a newline nor for a shift.
   */
  lemma TextInPlaceIff(before: seq<Node>, placed: seq<Node>, after: seq<Node>, e: Node, links: Option<FlatSet>)
    ensures var col := Advance(0, Flat(before, links, 0));
            Flat(before + [e] + after, links, 0) == Flat(before + placed + after, links, 0)
            <==> FlatNode(e, links, col) == Flat(placed, links, col)
  {
    hide Flat, FlatNode, Advance;
    var p := Flat(before, links, 0);
    var col := Advance(0, p);
    var own, put := Flat(placed, links, col), FlatNode(e, links, col);
    FlatConcat(before + placed, after, links, 0);
    FlatConcat(before, placed, links, 0);
    FlatConcat(before + [e], after, links, 0);
    FlatConcat(before, [e], links, 0);
    FlatOne(e, links, col);
    AdvanceConcat(0, p, own);
    AdvanceConcat(0, p, put);
    var ownTail, putTail := Flat(after, links, Advance(col, own)), Flat(after, links, Advance(col, put));
    if p + own + ownTail == p + put + putTail {
      assert (p + own + ownTail)[|p|..] == own + ownTail && (p + put + putTail)[|p|..] == put + putTail;
      if |own| <= |put| { NoCatchUp(own, put, after, links, col); } else { NoCatchUp(put, own, after, links, col); }
    }
  }

  lemma NoCatchUp(a: string, b: string, after: seq<Node>, links: Option<FlatSet>, col: nat)
    requires |a| <= |b| && a + Flat(after, links, Advance(col, a)) == b + Flat(after, links, Advance(col, b))
    ensures a == b
  {
    hide Flat, Advance, Newlines;
    var aTail, bTail := Flat(after, links, Advance(col, a)), Flat(after, links, Advance(col, b));
    var x := b[|a|..];
    assert a == (a + aTail)[..|a|] == (b + bTail)[..|a|] == b[..|a|];
    assert b == a + x;
    NewlinesConcat(a, aTail);
    NewlinesConcat(b, bTail);
    NewlinesConcat(a, x);
    NewlinesFlat(after, links, Advance(col, a), Advance(col, b));
    NewlinesNone(x);
    AdvanceConcat(col, a, x);
    AdvanceOn(Advance(col, a), x);
    LaterIsLonger(after, links, Advance(col, a), Advance(col, b));
  }

  lemma AdvanceOn(col: nat, x: string)
    requires '\n' !in x
    ensures Advance(col, x) == col + |x|
  {
    WidthIsLastLine(x);
  }

  /** Written in place and as an embed, a document lays out alike if and only if it fits. */
  lemma FitsIff(inner: seq<Node>, links: Option<FlatSet>, col: nat)
    ensures Flat(inner, links, col) == Reindent(TrimNl(Flat(inner, links, 0)), col) <==> Fits(inner, links, col)
  {
    hide Fits, Reindent, TrimNl, Advance;
    if Fits(inner, links, col) {
      FitsLaysOutAlike(inner, links, col);
    } else {
      MisfitChangesText(inner, [], links, col);
    }
  }

  /**
   Replacing `inner`, written between `before` and `after`, by an embed of it keeps the laid-out text if and
   only if it fits where `before` ends.
   */
  lemma EmbedInPlaceIff(before: seq<Node>, inner: seq<Node>, after: seq<Node>, e: Node, links: Option<FlatSet>)
    requires forall col: nat :: FlatNode(e, links, col) == Reindent(TrimNl(Flat(inner, links, 0)), col)
    ensures Flat(before + [e] + after, links, 0) == Flat(before + inner + after, links, 0)
            <==> Fits(inner, links, Advance(0, Flat(before, links, 0)))
  {
    hide Flat, FlatNode, Fits, Reindent, TrimNl, Advance;
    TextInPlaceIff(before, inner, after, e, links);
    FitsIff(inner, links, Advance(0, Flat(before, links, 0)));
  }

  lemma MisfitChangesText(inner: seq<Node>, after: seq<Node>, links: Option<FlatSet>, col: nat)
    requires !Fits(inner, links, col)
    ensures var own, put := Flat(inner, links, col), Reindent(TrimNl(Flat(inner, links, 0)), col);
            var ownTail, putTail := Flat(after, links, Advance(col, own)), Flat(after, links, Advance(col, put));
            || Newlines(put) + Newlines(putTail) < Newlines(own) + Newlines(ownTail)
            || |own| + |ownTail| < |put| + |putTail|
  {
    if NoOuterNl(Flat(inner, links, 0)) {
      HardBreakLengthens(inner, links, col);
      LaterIsLonger(after, links, Advance(col, Flat(inner, links, col)),
                    Advance(col, Reindent(TrimNl(Flat(inner, links, 0)), col)));
    } else {
      OuterNewlineLost(inner, after, links, col);
    }
  }

  lemma OuterNewlineLost(inner: seq<Node>, after: seq<Node>, links: Option<FlatSet>, col: nat)
    requires !NoOuterNl(Flat(inner, links, 0))
    ensures var own, put := Flat(inner, links, col), Reindent(TrimNl(Flat(inner, links, 0)), col);
            var ownTail, putTail := Flat(after, links, Advance(col, own)), Flat(after, links, Advance(col, put));
            Newlines(put) + Newlines(putTail) < Newlines(own) + Newlines(ownTail)
  {
    var alone := Flat(inner, links, 0);
    var own, put := Flat(inner, links, col), Reindent(TrimNl(alone), col);
    NewlinesTrim(alone);
    NewlinesReindent(TrimNl(alone), col);
    NewlinesFlat(inner, links, 0, col);
    NewlinesFlat(after, links, Advance(col, own), Advance(col, put));
  }

  lemma HardBreakLengthens(inner: seq<Node>, links: Option<FlatSet>, col: nat)
    requires NoOuterNl(Flat(inner, links, 0)) && !NoHardBreak(inner, links) && col > 0
    ensures var own, put := Flat(inner, links, col), Reindent(TrimNl(Flat(inner, links, 0)), col);
            |own| < |put| && Advance(col, own) <= Advance(col, put)
  {
    hide *;
    var alone := Flat(inner, links, 0);
    TrimNlEnds(alone);
    HardBreakHasNewline(inner, links, 0);
    NotEmpty(alone);
    HardBreakShorter(inner, links, 0, col);
    FlatGrows(inner, links, 0, col);
    EndsFurtherRight(alone, Flat(inner, links, col), col);
  }

  lemma LaterIsLonger(doc: seq<Node>, links: Option<FlatSet>, here: nat, there: nat)
    requires here <= there
    ensures |Flat(doc, links, here)| <= |Flat(doc, links, there)|
  {
    hide *;
    var w := there - here;
    FlatGrows(doc, links, here, w);
    assert here + w == there;
  }

  lemma NotEmpty(s: string)
    requires NoOuterNl(s) && !OneLine(s)
    ensures EndsInText(s)
  {
  }

  lemma EndsFurtherRight(alone: string, own: string, col: nat)
    requires NoOuterNl(alone) && Advance(col, own) <= Advance(0, alone) + col
    ensures Advance(col, own) <= Advance(col, Reindent(alone, col))
  {
    ReindentAdvance(alone, col);
  }
}
