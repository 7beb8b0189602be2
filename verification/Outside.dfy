/** Guards on the text under which carving and flattening hide no directive in code and bring none out of it. */
module Outside {
  import opened Prelude
  import opened Text
  import opened Wiki
  import opened Layout
  import opened CodeMask
  import opened Extraction
  import opened Reading
  import opened Seams
  import opened Edits
  import opened Linking
  import opened Placing
  import opened Unlinking

  /** What is read as it was written comes back from its file so. */
  lemma {:induction false} StoredReads(body: Body)
    requires Readable(body, false)
    ensures ReadsBack(body)
  {
    hide Readable, Read, Bracket;
    ReadableRefs(body, false);
    if body == [] {
      NothingRead(false);
      assert Readable([], false);
      ReadIs([]);
    } else if body[0] == Ch('\n') {
      var rest := body[1..];
      assert body == [Ch('\n')] + rest;
      SpaceBefore('\n', rest, false);
      StoredReads(rest);
      RawConcat([Ch('\n')], rest);
      RawOne('\n');
      assert (['\n'] + Raw(rest))[1..] == Raw(rest);
    } else {
      ReadIs(body);
      FirstNoBreak(body);
    }
  }

  lemma ReadIs(body: Body)
    requires Readable(body, false)
    ensures Read(Raw(body)) == body
  {
  }

  lemma FirstNoBreak(body: Body)
    requires body != [] && body[0] != Ch('\n') && (body[0].Ref? ==> Bracket(body[0].src)) && Readable(body, false)
    ensures TrimNlStart(Raw(body)) == Raw(body) && DropNl(body) == body
  {
    ReadWritten(Raw(body), false);
    var a := body[0];
    assert a.Raw() != "";
    assert Raw(body)[0] == a.Raw()[0];
  }

  lemma QuietReadsBack(body: Body)
    requires Quiet(body) && NoFence(Raw(body))
    ensures ReadsBack(body)
  {
    hide Quiet, NoFence, Raw, ReadsBack;
    QuietReads(body);
    StoredReads(body);
  }

  /**
   Placed where no code is, a directive is added there to those the block is read back with; they keep their order.
   */
  lemma PlacedRefsRead(v: Vault, body: Body, d: Atom, place: Placement) returns (at: nat)
    requires Readable(body, false) && OwnDirective(d) && PlaceIsText(v, body, place)
    ensures at <= |body| && GoesAt(v, body, place, at)
    ensures Refs(Stored(Raw(Placed(v, body, d, place)))) == Refs(body[..at]) + [d] + Refs(body[at..])
  {
    hide Readable, PlaceIsText, Placed, Raw, Stored, Refs, GoesAt;
    PlacedReads(v, body, d, place);
    StoredReads(Placed(v, body, d, place));
    var line;
    at, line := PlacedExactly(v, body, d, place);
    RefsDropNl(Placed(v, body, d, place));
  }

  /** The lines between two seams exchanged for others. */
  lemma LinesReplaced(body: Body, s: nat, e: nat, others: Body)
    requires Readable(body, false) && s <= e <= |body|
    requires FullLines(body[..s]) && !Open(body[..s], false) && (e == |body| || body[e] == Ch('\n'))
    requires Closed(body[s..e]) && Sealed(others)
    ensures Readable(body[..s] + (others + body[e..]), false)
  {
    hide ReadFrom, Raw, FenceAfter, Closed, Sealed, FullLines;
    ThreeParts(body, s, e);
    ReplacedReads(body[..s], body[s..e], others, body[e..]);
  }

  /** Neither backticks, tildes nor opening brackets. */
  predicate Mild(s: string) { Plain(s) && forall k | 0 <= k < |s| :: s[k] != '[' }

  lemma MildQuiet(s: string)
    requires Mild(s)
    ensures Quiet(Chars(s)) && Raw(Chars(s)) == s && ReadsBack(Chars(s))
  {
    hide NoFence, ReadsBack, Raw;
    RawChars(s);
    PlainNoFence(s);
    QuietReadsBack(Chars(s));
  }

  lemma EmbedPlain(id: BlockId)
    ensures Raw([EmbedOf(id)]) == EmbedOf(id).src && Plain(EmbedOf(id).src)
  {
    var src := EmbedOf(id).src;
    assert [EmbedOf(id)][1..] == [] && |src| == 31;
    forall k | 0 <= k < |src| ensures src[k] != '`' && src[k] != '~' {
      if 3 <= k < 29 { assert src[k] == id[k - 3] && IsAsciiAlnum(id[k - 3]); }
    }
  }

  /** An embed of the program's own between harmless texts. */
  lemma EmbedBetween(before: string, id: BlockId, after: string)
    requires Mild(before) && Mild(after)
    ensures ReadsBack(Chars(before) + [EmbedOf(id)] + Chars(after))
  {
    hide ReadsBack, Raw, QuietAtom, NoFence, EmbedOf, Quiet;
    var body := Chars(before) + [EmbedOf(id)] + Chars(after);
    OwnEmbed(id);
    MildQuiet(before);
    MildQuiet(after);
    QuietAround(Chars(before), EmbedOf(id), Chars(after));
    EmbedPlain(id);
    RawConcat(Chars(before) + [EmbedOf(id)], Chars(after));
    RawConcat(Chars(before), [EmbedOf(id)]);
    PlainNoFence(Raw(body));
    QuietReadsBack(body);
  }

  // ---------- carving ----------

  /** The lines from the one of `i` to the one of `j`, without the last newline. */
  function Touched(body: Body, i: nat, j: nat): Body
    requires i <= j <= |body|
  {
    body[LineStart(body, i)..LineEnd(body, j)]
  }

  /** The same lines after a carve. */
  function TouchedAfter(body: Body, i: nat, j: nat, child: BlockId): Body
    requires i <= j <= |body|
  {
    body[LineStart(body, i)..i] + [EmbedOf(child)] + body[j..LineEnd(body, j)]
  }

  /**
   Checked on the text: no fence is open where the lines of the selection start, they hold no backtick and no bracket
   outside directives, and there is no fence line among them, in the selection, or in what is left of them.
   */
  predicate OutsideCode(body: Body, i: nat, j: nat, child: BlockId)
    requires i <= j <= |body|
  {
    && !FenceAfter(Raw(body[..LineStart(body, i)]), false) && Quiet(Touched(body, i, j))
    && NoFence(Raw(Touched(body, i, j))) && NoFence(Raw(body[i..j])) && NoFence(Raw(TouchedAfter(body, i, j, child)))
  }

  lemma QuietPart(a: Body, b: Body, c: Body)
    requires Quiet(a + b + c)
    ensures Quiet(a) && Quiet(b) && Quiet(c)
  {
    hide QuietAtom;
    var whole := a + b + c;
    forall k | 0 <= k < |a| ensures a[k] == whole[k] {}
    forall k | 0 <= k < |b| ensures b[k] == whole[|a| + k] {}
    forall k | 0 <= k < |c| ensures c[k] == whole[|a| + |b| + k] {}
    forall k | 0 < k < |a| && a[k].Ref? && !a[k].embed ensures a[k - 1] != Ch('!') { assert whole[k - 1] == a[k - 1]; }
    forall k | 0 < k < |b| && b[k].Ref? && !b[k].embed ensures b[k - 1] != Ch('!') {
      assert whole[|a| + k] == b[k] && whole[|a| + k - 1] == b[k - 1];
    }
    forall k | 0 < k < |c| && c[k].Ref? && !c[k].embed ensures c[k - 1] != Ch('!') {
      assert whole[|a| + |b| + k] == c[k] && whole[|a| + |b| + k - 1] == c[k - 1];
    }
  }

  lemma QuietAround(a: Body, e: Atom, c: Body)
    requires Quiet(a) && Quiet(c) && QuietAtom(e) && e.Ref? && e.embed
    ensures Quiet(a + [e] + c)
  {
    hide QuietAtom;
    var whole := a + [e] + c;
    forall k | 0 <= k < |whole| ensures QuietAtom(whole[k]) {
      assert whole[k] == if k < |a| then a[k] else if k == |a| then e else c[k - |a| - 1];
    }
    forall k | 0 < k < |whole| && whole[k].Ref? && !whole[k].embed ensures whole[k - 1] != Ch('!') {
      if k < |a| {
        assert whole[k] == a[k] && whole[k - 1] == a[k - 1];
      } else if k > |a| + 1 {
        assert whole[k] == c[k - |a| - 1] && whole[k - 1] == c[k - |a| - 2];
      }
    }
  }

  lemma TouchedParts(body: Body, i: nat, j: nat, child: BlockId)
    requires i <= j <= |body|
    ensures var s, e := LineStart(body, i), LineEnd(body, j);
            && Touched(body, i, j) == body[s..i] + body[i..j] + body[j..e]
            && CarvedBody(body, i, j, child) == body[..s] + (TouchedAfter(body, i, j, child) + body[e..])
            && FullLines(body[..s]) && (e == |body| || body[e] == Ch('\n'))
  {
    hide LineStart, LineEnd, FullLines;
    LineStartIs(body, i);
    LineEndIs(body, j);
    var s, e := LineStart(body, i), LineEnd(body, j);
    CutAround(body, s, i, j, e, [EmbedOf(child)]);
  }

  lemma CutAround(body: Body, s: nat, i: nat, j: nat, e: nat, part: Body)
    requires s <= i <= j <= e <= |body|
    ensures body[s..e] == body[s..i] + body[i..j] + body[j..e]
    ensures body[..i] + part + body[j..] == body[..s] + (body[s..i] + part + body[j..e] + body[e..])
  {
    assert body[..i] == body[..s] + body[s..i];
    assert body[j..] == body[j..e] + body[e..];
    Regrouped(body[..s], body[s..i], part, body[j..e], body[e..]);
  }

  lemma Regrouped(a: Body, b: Body, c: Body, d: Body, e: Body)
    ensures a + b + c + (d + e) == a + (b + c + d + e)
  {
  }

  /** Outside code both texts a carve writes are read back as they were written. */
  lemma CarveReads(body: Body, i: nat, j: nat, child: BlockId)
    requires Readable(body, false) && i <= j <= |body| && OutsideCode(body, i, j, child)
    ensures ReadsBack(body[i..j]) && ReadsBack(TrimBody(body[i..j])) && ReadsBack(CarvedBody(body, i, j, child))
  {
    hide Readable, Quiet, NoFence, FenceAfter, Raw, Closed, Sealed, ReadsBack, LineStart, LineEnd, FullLines,
      QuietAtom, EmbedOf;
    var s, e := LineStart(body, i), LineEnd(body, j);
    TouchedParts(body, i, j, child);
    QuietPart(body[s..i], body[i..j], body[j..e]);
    QuietReadsBack(body[i..j]);
    TrimmedReads(body[i..j]);
    OwnEmbed(child);
    QuietAround(body[s..i], EmbedOf(child), body[j..e]);
    QuietSealed(TouchedAfter(body, i, j, child));
    QuietNoTick(Touched(body, i, j));
    LineClosed(Touched(body, i, j));
    LinesReplaced(body, s, e, TouchedAfter(body, i, j, child));
    StoredReads(CarvedBody(body, i, j, child));
  }

  lemma TrimmedReads(body: Body)
    requires Quiet(body) && NoFence(Raw(body))
    ensures ReadsBack(TrimBody(body))
  {
    hide Quiet, NoFence, Raw, ReadsBack, Readable, TrimBodyStart, TrimBodyEnd;
    QuietReadable(body);
    TrimmedStart(body, false);
    TrimmedEnd(TrimBodyStart(body), false);
    StoredReads(TrimBody(body));
  }

  lemma QuietReadable(body: Body)
    requires Quiet(body) && NoFence(Raw(body))
    ensures Readable(body, false)
  {
    QuietReads(body);
  }

  lemma OwnEmbed(id: BlockId)
    ensures QuietAtom(EmbedOf(id)) && EmbedOf(id).Ref? && EmbedOf(id).embed
  {
    OwnById(id);
    assert QuietAtom([EmbedOf(id)][0]);
  }

  // ---------- flattening ----------

  lemma RawFirst(body: Body)
    requires Bracketed(body) && body != []
    ensures Raw(body) != "" && (Raw(body)[0] == '\n' <==> body[0] == Ch('\n'))
  {
    assert body[0].Ref? ==> Bracket(body[0].src);
  }

  /** Indenting the atoms of a body is indenting its text. */
  lemma {:induction false} RawReindent(body: Body, col: nat)
    requires Bracketed(body)
    ensures Raw(ReindentBody(body, col)) == Reindent(Raw(body), col)
  {
    if body != [] {
      var a, rest := body[0], body[1..];
      assert body == [a] + rest;
      BracketedParts([a], rest);
      RawReindent(rest, col);
      var breaks := a == Ch('\n') && |body| > 1 && body[1] != Ch('\n');
      var head := if breaks then [a] + Chars(Spaces(col)) else [a];
      RawConcat(head, ReindentBody(rest, col));
      RawConcat([a], Chars(Spaces(col)));
      RawChars(Spaces(col));
      RawSingle(a);
      if rest != [] { RawFirst(rest); }
      if a.Ref? {
        assert Bracket([a][0].src);
        SourceStays(a.src, Raw(rest), col);
      } else {
        ReindentHead(Raw(body), col);
        assert Raw(body)[1..] == Raw(rest);
      }
      hide ReindentBody, Reindent;
    }
  }

  lemma SourceStays(src: string, rest: string, col: nat)
    requires Bracket(src)
    ensures Reindent(src + rest, col) == src + Reindent(rest, col)
  {
    ReindentConcat(src, rest, col);
    WidthIsLastLine(src);
    ReindentOneLine(src, col);
  }

  lemma {:induction false} RawDropNl(body: Body)
    requires Bracketed(body)
    ensures Raw(DropNl(body)) == TrimNlStart(Raw(body)) && Bracketed(DropNl(body))
  {
    if body != [] {
      RawFirst(body);
      assert body == [body[0]] + body[1..];
      BracketedParts([body[0]], body[1..]);
      if body[0] == Ch('\n') {
        assert Raw(body)[1..] == Raw(body[1..]);
        RawDropNl(body[1..]);
      }
    }
  }

  lemma {:induction false} RawDropNlEnd(body: Body)
    requires Bracketed(body)
    ensures Raw(DropNlEnd(body)) == TrimNlEnd(Raw(body)) && Bracketed(DropNlEnd(body))
    decreases |body|
  {
    if body != [] {
      var n := |body| - 1;
      var init, last := body[..n], body[n];
      assert body == init + [last];
      BracketedParts(init, [last]);
      RawConcat(init, [last]);
      RawSingle(last);
      assert last.Ref? ==> Bracket([last][0].src);
      var s := Raw(body);
      assert s[|s| - 1] == last.Raw()[|last.Raw()| - 1];
      if last == Ch('\n') {
        assert s[..|s| - 1] == Raw(init);
        RawDropNlEnd(init);
      }
    }
  }

  /** What a flatten inlines is the child's text without outer newlines, indented line by line. */
  lemma InlinedRaw(childBody: Body, col: nat)
    requires Bracketed(childBody)
    ensures Raw(ReindentBody(TrimNlBody(childBody), col)) == Reindent(TrimNl(Raw(childBody)), col)
  {
    hide DropNl, DropNlEnd, ReindentBody, Bracketed, Raw, Reindent;
    RawDropNl(childBody);
    RawDropNlEnd(DropNl(childBody));
    RawReindent(TrimNlBody(childBody), col);
  }

  /** The line of the embed at `k`, with `text` in its place. */
  function InlinedLine(body: Body, k: nat, text: Body): Body
    requires k < |body|
  {
    body[LineStart(body, k)..k] + text + body[k + 1..LineEnd(body, k + 1)]
  }

  /** The lines a flatten writes hold no backtick, no bracket outside directives and no fence line. */
  predicate InlinesText(body: Body, k: nat, childBody: Body)
    requires k < |body|
  {
    var lines := InlinedLine(body, k, ReindentBody(TrimNlBody(childBody), Width(Raw(body[..k]))));
    Quiet(lines) && NoFence(Raw(lines))
  }

  lemma FlattenReads(body: Body, k: nat, childBody: Body)
    requires Readable(body, false) && k < |body| && body[k].Ref? && InlinesText(body, k, childBody)
    ensures ReadsBack(Inlined(body, k, childBody))
  {
    hide Readable, Quiet, NoFence, FenceAfter, Raw, Closed, Sealed, ReadsBack, LineStart, LineEnd, FullLines, Open,
      ReindentBody, TrimNlBody, Width;
    var s, e := LineStart(body, k), LineEnd(body, k + 1);
    var text := ReindentBody(TrimNlBody(childBody), Width(Raw(body[..k])));
    LiveLine(body, k);
    LiveClosed(body, s, e);
    QuietSealed(InlinedLine(body, k, text));
    LinesReplaced(body, s, e, InlinedLine(body, k, text));
    InlinedParts(body, k, text);
    StoredReads(Inlined(body, k, childBody));
  }

  lemma InlinedParts(body: Body, k: nat, text: Body)
    requires k < |body|
    ensures body[..k] + text + body[k + 1..]
            == body[..LineStart(body, k)] + (InlinedLine(body, k, text) + body[LineEnd(body, k + 1)..])
  {
    CutAround(body, LineStart(body, k), k, k + 1, LineEnd(body, k + 1), text);
  }

  lemma LiveClosed(body: Body, s: nat, e: nat)
    requires s <= e <= |body| && FullLines(body[..s]) && !Open(body[..s], false) && !Open(body[..e], false)
    ensures Closed(body[s..e])
  {
    hide FullLines, FenceAfter, Raw;
    ThreeParts(body, s, e);
    OpenConcat(body[..s], body[s..e], false);
    SpaceAfter(body[s..e], '\n', false);
  }

  // ---------- a fenced line ----------

  lemma FenceReads(inner: string)
    requires NoBreakIn(inner) && !IsFence(inner)
    ensures Read("```\n" + inner + "\n```") == Chars("```\n" + inner + "\n```")
  {
    hide IsFence, ReadFrom, FenceAfter, Chars, HeadLine;
    var a, b, c := "```\n", inner + "\n", "```";
    FenceLines();
    HeadOfOpen(inner, '\n');
    FenceTerminator(inner, "\n");
    CodeLineReads(a, false);
    CodeLineReads(b, true);
    CodeLineReads(c, true);
    ReadConcat(a, b + c, false);
    ReadConcat(b, c, true);
    CharsConcat(b, c);
    CharsConcat(a, b + c);
    assert a + (b + c) == "```\n" + inner + "\n```";
  }

  lemma FenceLines()
    ensures HeadLine("```\n") == "```\n" && IsFence("```\n") && HeadLine("```") == "```" && IsFence("```")
  {
    HeadTwice("```\n");
    assert TrimStart("```\n") == "```\n" && TrimStart("```") == "```";
    assert "```"[..3] == "```";
    IndexOfIs("```", '\n', 3);
  }
}
