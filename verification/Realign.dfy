/** A text indented to one column and laid out at another: what a flatten leaves in its parent. */
module Realign {
  import opened Prelude
  import opened Text
  import opened Wiki
  import opened Layout
  import opened Indent
  import opened Render
  import opened Edits

  // ---------- indented bodies and indented documents ----------

  predicate Breaks(doc: seq<Node>) { |doc| > 1 && doc[0] == Lit('\n') && doc[1] != Lit('\n') }

  function Blanks(n: nat): (doc: seq<Node>)
    ensures |doc| == n
  {
    seq(n, _ => Lit(' '))
  }

  /** `ReindentBody` on what a body expands to. */
  function ReindentDoc(doc: seq<Node>, col: nat): seq<Node> {
    if doc == [] then [] else
    (if Breaks(doc) then [doc[0]] + Blanks(col) else [doc[0]]) + ReindentDoc(doc[1..], col)
  }

  lemma {:induction false} ExpandBlanks(v: Vault, n: nat, open: set<BlockId>)
    ensures Expand(v, Chars(Spaces(n)), open) == Blanks(n)
  {
    if n > 0 {
      assert Chars(Spaces(n)) == [Ch(' ')] + Chars(Spaces(n - 1));
      ExpandCons(v, Chars(Spaces(n)), open);
      ExpandBlanks(v, n - 1, open);
      assert Chars(Spaces(n))[1..] == Chars(Spaces(n - 1));
    }
  }

  lemma NewlineNode(v: Vault, a: Atom, open: set<BlockId>)
    ensures ExpandAtom(v, a, open) == Lit('\n') <==> a == Ch('\n')
  {
  }

  lemma {:induction false} ExpandReindent(v: Vault, body: Body, col: nat, open: set<BlockId>)
    ensures Expand(v, ReindentBody(body, col), open) == ReindentDoc(Expand(v, body, open), col)
  {
    hide ExpandAtom;
    if body != [] {
      var doc := Expand(v, body, open);
      ExpandCons(v, body, open);
      ExpandReindent(v, body[1..], col, open);
      NewlineNode(v, body[0], open);
      ExpandOne(v, body[0], open);
      if |body| > 1 {
        ExpandCons(v, body[1..], open);
        NewlineNode(v, body[1], open);
        assert doc[1] == doc[1..][0];
      }
      var head := if body[0] == Ch('\n') && |body| > 1 && body[1] != Ch('\n') then [body[0]] + Chars(Spaces(col))
        else [body[0]];
      ExpandConcat(v, head, ReindentBody(body[1..], col), open);
      ExpandConcat(v, [body[0]], Chars(Spaces(col)), open);
      ExpandBlanks(v, col, open);
      hide Expand;
    } else {
      ExpandNothing(v, open);
    }
  }

  lemma ExpandNothing(v: Vault, open: set<BlockId>)
    ensures Expand(v, [], open) == []
  {
  }

  lemma {:induction false} ReindentBodyZero(body: Body)
    ensures ReindentBody(body, 0) == body
  {
    if body != [] {
      ReindentBodyZero(body[1..]);
      assert Chars(Spaces(0)) == [];
      assert body == [body[0]] + body[1..];
    }
  }

  predicate NoNewline(body: Body) {
    forall k | 0 <= k < |body| :: body[k] != Ch('\n')
  }

  lemma {:induction false} ReindentBodyOneLine(body: Body, col: nat)
    requires NoNewline(body)
    ensures ReindentBody(body, col) == body
  {
    if body != [] {
      ReindentBodyOneLine(body[1..], col);
      assert body == [body[0]] + body[1..];
    }
  }

  // ---------- laying out an indented document ----------

  /** References are one line, and what stands right behind a newline writes text, so that it can be indented. */
  predicate Indentable(doc: seq<Node>, links: Option<FlatSet>) {
    doc == [] ||
    (&& (doc[0] == Lit('\n') || Soft(doc[0], links))
     && (Breaks(doc) ==> WritesText(Flat(doc[1..], links, 0)))
     && Indentable(doc[1..], links))
  }

  predicate WritesText(s: string) { s != "" && s[0] != '\n' }

  lemma {:induction false} FlatBlanks(n: nat, doc: seq<Node>, links: Option<FlatSet>, j: nat)
    ensures Flat(Blanks(n) + doc, links, j) == Spaces(n) + Flat(doc, links, j + n)
  {
    if n == 0 {
      assert Blanks(0) + doc == doc && Spaces(0) + Flat(doc, links, j) == Flat(doc, links, j);
    } else {
      hide Flat, Advance;
      assert Blanks(n) + doc == [Lit(' ')] + (Blanks(n - 1) + doc);
      FlatConcat([Lit(' ')], Blanks(n - 1) + doc, links, j);
      FlatOne(Lit(' '), links, j);
      AdvanceOn(j, " ");
      FlatBlanks(n - 1, doc, links, j + 1);
      assert Spaces(n) + Flat(doc, links, j + n) == " " + (Spaces(n - 1) + Flat(doc, links, j + n));
    }
  }

  lemma FlatBreak(doc: seq<Node>, links: Option<FlatSet>, j: nat)
    requires doc != [] && doc[0] == Lit('\n')
    ensures Flat(doc, links, j) == "\n" + Flat(doc[1..], links, 0)
  {
    var t, rest := FlatCons(doc, links, j);
    assert t == "\n";
  }

  /** Indenting the body by `k` and laying it out `k` columns further right is indenting the text by `k`. */
  lemma {:induction false} ShiftDoc(doc: seq<Node>, links: Option<FlatSet>, j: nat, k: nat)
    requires Indentable(doc, links)
    ensures Flat(ReindentDoc(doc, k), links, j + k) == Reindent(Flat(doc, links, j), k)
  {
    hide FlatNode, Advance, Soft;
    if doc == [] {
    } else if doc[0] == Lit('\n') {
      FlatBreak(doc, links, j);
      ShiftDoc(doc[1..], links, 0, k);
      if Breaks(doc) { ShiftBreak(doc, links, j, k); } else { ShiftBlankLine(doc, links, j, k); }
    } else {
      var t, rest := FlatCons(doc, links, j);
      var doc' := ReindentDoc(doc, k);
      var t', rest' := FlatCons(doc', links, j + k);
      assert doc'[1..] == ReindentDoc(doc[1..], k);
      ShiftNode(doc[0], links, j, k);
      ShiftDoc(doc[1..], links, Advance(j, t), k);
      ReindentConcat(t, rest, k);
    }
  }

  lemma ShiftBreak(doc: seq<Node>, links: Option<FlatSet>, j: nat, k: nat)
    requires Breaks(doc) && WritesText(Flat(doc[1..], links, 0))
    requires Flat(ReindentDoc(doc[1..], k), links, k) == Reindent(Flat(doc[1..], links, 0), k)
    ensures Flat(ReindentDoc(doc, k), links, j + k) == Reindent("\n" + Flat(doc[1..], links, 0), k)
  {
    hide Flat, Reindent;
    var rest, doc' := ReindentDoc(doc[1..], k), ReindentDoc(doc, k);
    var text := Flat(doc[1..], links, 0);
    assert doc'[1..] == Blanks(k) + rest;
    FlatBreak(doc', links, j + k);
    FlatBlanks(k, rest, links, 0);
    ReindentHead("\n" + text, k);
    assert ("\n" + text)[1..] == text;
    assert "\n" + (Spaces(k) + Reindent(text, k)) == "\n" + Spaces(k) + Reindent(text, k);
  }

  lemma ShiftBlankLine(doc: seq<Node>, links: Option<FlatSet>, j: nat, k: nat)
    requires doc != [] && doc[0] == Lit('\n') && !Breaks(doc)
    requires Flat(ReindentDoc(doc[1..], k), links, k) == Reindent(Flat(doc[1..], links, 0), k)
    ensures Flat(ReindentDoc(doc, k), links, j + k) == Reindent("\n" + Flat(doc[1..], links, 0), k)
  {
    hide Flat, Reindent;
    var rest, doc' := ReindentDoc(doc[1..], k), ReindentDoc(doc, k);
    var text := Flat(doc[1..], links, 0);
    assert doc'[1..] == rest;
    FlatBreak(doc', links, j + k);
    ReindentHead("\n" + text, k);
    assert ("\n" + text)[1..] == text;
    if doc[1..] == [] {
      assert rest == [];
      FlatEmpty(links);
    } else {
      FlatBreak(doc[1..], links, 0);
      assert rest[0] == Lit('\n');
      FlatBreak(rest, links, 0);
      FlatBreak(rest, links, k);
    }
  }

  lemma FlatEmpty(links: Option<FlatSet>)
    ensures forall j: nat :: Flat([], links, j) == ""
  {
  }

  // ---------- when it lays out like the embed ----------

  /** What the embed of a document writes at `c`, its text indented to `k` writes there too. */
  ghost predicate FitsIndented(doc: seq<Node>, links: Option<FlatSet>, k: nat, c: nat) {
    NoOuterNl(Flat(doc, links, 0)) && (k == c || NoHardBreak(doc, links))
  }

  lemma {:induction false} NoBreakNoIndent(doc: seq<Node>, links: Option<FlatSet>, k: nat)
    ensures NoHardBreak(ReindentDoc(doc, k), links) <==> NoHardBreak(doc, links)
    ensures NoHardBreak(doc, links) ==> ReindentDoc(doc, k) == doc
  {
    if doc != [] {
      NoBreakNoIndent(doc[1..], links, k);
      if Breaks(doc) {
        assert ReindentDoc(doc, k)[0] == Lit('\n');
      } else {
        assert ReindentDoc(doc, k)[1..] == ReindentDoc(doc[1..], k);
      }
      assert doc == [doc[0]] + doc[1..];
    }
  }

  /** Behind a hard break nothing depends on the column the text started at. */
  lemma {:induction false} EndFixed(doc: seq<Node>, links: Option<FlatSet>, i: nat, j: nat)
    requires !NoHardBreak(doc, links)
    ensures Advance(i, Flat(doc, links, i)) == Advance(j, Flat(doc, links, j))
  {
    hide FlatNode, Advance, Soft;
    var s, s' := FlatCons(doc, links, i);
    var t, t' := FlatCons(doc, links, j);
    AdvanceConcat(i, s, s');
    AdvanceConcat(j, t, t');
    if Soft(doc[0], links) {
      EndFixed(doc[1..], links, Advance(i, s), Advance(j, t));
    } else {
      SameAnywhere(doc[0], links, i, j);
    }
  }

  lemma NewlinesBlanks(n: nat, doc: seq<Node>, links: Option<FlatSet>, j: nat)
    ensures Newlines(Flat(Blanks(n) + doc, links, j)) == Newlines(Flat(doc, links, j))
  {
    hide Flat, Newlines;
    FlatBlanks(n, doc, links, j);
    NewlinesConcat(Spaces(n), Flat(doc, links, j + n));
    NewlinesNone(Spaces(n));
    NewlinesFlat(doc, links, j, j + n);
  }

  lemma {:induction false} NewlinesIndented(doc: seq<Node>, links: Option<FlatSet>, i: nat, j: nat, k: nat)
    ensures Newlines(Flat(ReindentDoc(doc, k), links, i)) == Newlines(Flat(doc, links, j))
  {
    hide FlatNode, Advance;
    if doc != [] {
      var doc', rest := ReindentDoc(doc, k), ReindentDoc(doc[1..], k);
      NewlinesFlat(doc', links, i, j);
      var t, tail := FlatCons(doc, links, j);
      var t', tail' := FlatCons(doc', links, j);
      NewlinesConcat(t, tail);
      NewlinesConcat(t, tail');
      var c := Advance(j, t);
      NewlinesIndented(doc[1..], links, c, c, k);
      if Breaks(doc) {
        assert doc'[1..] == Blanks(k) + rest;
        NewlinesBlanks(k, rest, links, c);
      } else {
        assert doc'[1..] == rest;
      }
    }
  }

  /** The exact condition, for documents that can be indented. */
  lemma IndentedIff(doc: seq<Node>, links: Option<FlatSet>, k: nat, c: nat)
    requires Indentable(doc, links)
    ensures Flat(ReindentDoc(doc, k), links, c) == Reindent(TrimNl(Flat(doc, links, 0)), c)
            <==> FitsIndented(doc, links, k, c)
  {
    hide Flat, Reindent, TrimNl, ReindentDoc, Indentable, NoOuterNl, NoHardBreak;
    var alone := Flat(doc, links, 0);
    if !NoOuterNl(alone) {
      NewlinesTrim(alone);
      NewlinesReindent(TrimNl(alone), c);
      NewlinesIndented(doc, links, c, 0, k);
    } else {
      TrimNlEnds(alone);
      if NoHardBreak(doc, links) {
        NoBreakNoIndent(doc, links, k);
        ShiftSoft(doc, links, 0, c);
      } else if k == c {
        ShiftDoc(doc, links, 0, k);
      } else {
        EndsElsewhere(doc, links, k, c);
      }
    }
  }

  /** Indented to another column than it starts at, a text of several lines ends at another column. */
  lemma EndsElsewhere(doc: seq<Node>, links: Option<FlatSet>, k: nat, c: nat)
    requires Indentable(doc, links) && NoOuterNl(Flat(doc, links, 0)) && !NoHardBreak(doc, links) && k != c
    ensures Flat(ReindentDoc(doc, k), links, c) != Reindent(Flat(doc, links, 0), c)
  {
    hide Flat, Reindent, ReindentDoc, Indentable, NoHardBreak, Advance;
    var alone := Flat(doc, links, 0);
    NoBreakNoIndent(doc, links, k);
    EndFixed(ReindentDoc(doc, k), links, c, k);
    ShiftDoc(doc, links, 0, k);
    ReindentAdvance(alone, k);
    ReindentAdvance(alone, c);
  }

  /** The text of `inner`, indented to `col` behind `before`, is laid out there as an embed of `inner` would be. */
  ghost predicate Lands(v: Vault, before: Body, inner: Body, col: nat, links: Option<FlatSet>, open: set<BlockId>) {
    var here := Advance(0, Flat(Expand(v, before, open), links, 0));
    var alone := Flat(Expand(v, inner, open), links, 0);
    Flat(Expand(v, ReindentBody(inner, col), open), links, here) == Reindent(TrimNl(alone), here)
  }

  /**
   When it lands: without indentation, if the text fits; indented, if the text alone has no outer newline and either
   breaks no line or is laid out at the very column it was indented to.
   */
  lemma LandsIff(v: Vault, before: Body, inner: Body, col: nat, links: Option<FlatSet>, open: set<BlockId>)
    ensures var doc, here := Expand(v, inner, open), Advance(0, Flat(Expand(v, before, open), links, 0));
            && (col == 0 || NoNewline(inner) ==>
              (Lands(v, before, inner, col, links, open) <==> Fits(doc, links, here)))
            && (Indentable(doc, links) ==>
                  (Lands(v, before, inner, col, links, open) <==> FitsIndented(doc, links, col, here)))
  {
    hide Flat, Expand, Reindent, TrimNl, Fits, FitsIndented, Advance, ReindentBody, ReindentDoc, Indentable, NoNewline;
    var doc, here := Expand(v, inner, open), Advance(0, Flat(Expand(v, before, open), links, 0));
    if col == 0 { ReindentBodyZero(inner); }
    if NoNewline(inner) { ReindentBodyOneLine(inner, col); }
    FitsIff(doc, links, here);
    if Indentable(doc, links) {
      ExpandReindent(v, inner, col, open);
      IndentedIff(doc, links, col, here);
    }
  }
}
