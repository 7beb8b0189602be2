/** White space at the seams of an edit, and where a directive may be placed so that it is read back as one. */
module Seams {
  import opened Prelude
  import opened Text
  import opened Wiki
  import opened CodeMask
  import opened Extraction
  import opened Reading
  import opened Edits
  import opened Linking

  // ---------- a blank character at the end ----------

  lemma {:induction false} RunEndAppend(s: string, c: char, a: nat)
    requires a <= |s| && c != '`'
    ensures RunEnd(s + [c], a) == RunEnd(s, a)
    decreases |s| - a
  {
    if Tick(s, a) {
      assert Tick(s + [c], a);
      RunEndAppend(s, c, a + 1);
    } else {
      assert !Tick(s + [c], a);
    }
  }

  lemma {:induction false} NextTickAppend(s: string, c: char, p: nat)
    requires p <= |s| && c != '`'
    ensures NextTick(s + [c], p) == if NextTick(s, p) < |s| then NextTick(s, p) else |s| + 1
    decreases |s| - p
  {
    if p < |s| && !Tick(s, p) {
      assert !Tick(s + [c], p);
      NextTickAppend(s, c, p + 1);
    } else if p < |s| {
      assert Tick(s + [c], p);
    } else {
      assert !Tick(s + [c], p);
      assert NextTick(s + [c], p + 1) == p + 1;
    }
  }

  lemma {:induction false} CloserAppend(s: string, c: char, p: nat, n: nat)
    requires p <= |s| && c != '`'
    ensures Closer(s + [c], p, n) == Closer(s, p, n)
    decreases |s| - p
  {
    hide NextTick, RunEnd;
    NextTickAppend(s, c, p);
    var a := NextTick(s, p);
    if a < |s| {
      RunEndAppend(s, c, a);
      CloserAppend(s, c, RunEnd(s, a), n);
    }
  }

  lemma {:induction false} SpansAppend(s: string, c: char, p: nat)
    requires p <= |s| && c != '`'
    ensures SpansUntilUnclosed(s + [c], p) == SpansUntilUnclosed(s, p)
    decreases |s| - p
  {
    hide NextTick, RunEnd, Closer;
    NextTickAppend(s, c, p);
    var a := NextTick(s, p);
    if a < |s| {
      RunEndAppend(s, c, a);
      var b := RunEnd(s, a);
      CloserAppend(s, c, b, b - a);
      var d := Closer(s, b, b - a);
      if d.Some? { SpansAppend(s, c, d.value); }
    }
  }

  lemma {:induction false} InnerSpace(s: string, c: char)
    requires IsSpace(c)
    ensures Inner(s) < |s| ==> Inner(s + [c]) == Inner(s)
    ensures Inner(s) == |s| ==> Inner(s + [c]) == if c == '\n' then |s| else |s| + 1
  {
    if s != "" && s[0] != ']' && s[0] != '\n' {
      assert (s + [c])[1..] == s[1..] + [c];
      InnerSpace(s[1..], c);
    } else if s == "" {
      assert s + [c] == [c] && [c][1..] == "";
    }
  }

  lemma MatchSpace(s: string, c: char)
    requires IsSpace(c)
    ensures Match(s + [c]) == Match(s)
  {
    var d := Bang(s) + 2;
    var t := s + [c];
    if s == "" {
      assert t == [c];
    } else {
      assert Bang(t) == Bang(s);
      if |s| >= d {
        assert t[d..] == s[d..] + [c];
        InnerSpace(s[d..], c);
      } else if |t| >= d {
        assert t[d - 1] == c;
      }
    }
  }

  lemma {:induction false} ScanSpace(s: string, c: char, f: seq<bool>, x: bool)
    requires IsSpace(c) && |f| == |s|
    ensures Scan(s + [c], f + [x]) == Scan(s, f) + [Ch(c)]
    decreases |s|
  {
    hide Match, RefOf, Scan, Chars;
    var t, g := s + [c], f + [x];
    MatchSpace(s, c);
    ScanCons(t, g);
    if s == "" {
      LastSpace(c, g);
      ScanNothing(f);
      assert t == [c] && [] + [Ch(c)] == [Ch(c)];
    } else {
      ScanCons(s, f);
      var n := Match(s);
      var k := if n.None? then 1 else n.value;
      assert t[k..] == s[k..] + [c] && g[k..] == f[k..] + [x] && t[..k] == s[..k];
      ScanSpace(s[k..], c, f[k..], x);
    }
  }

  lemma LastSpace(c: char, flags: seq<bool>)
    requires IsSpace(c) && |flags| == 1
    ensures Scan([c], flags) == [Ch(c)]
  {
    MatchSpace("", c);
    NoMatchInNothing();
    assert "" + [c] == [c] && [c][1..] == "";
  }

  lemma ScanNothing(flags: seq<bool>)
    requires flags == []
    ensures Scan("", flags) == []
  {
  }

  lemma NoMatchInNothing()
    ensures Match("").None?
  {
  }

  /** A blank does not make or break a fence. */
  lemma FenceSpace(line: string, c: char)
    requires IsSpace(c)
    ensures IsFence(line + [c]) <==> IsFence(line)
  {
    if TrimStart(line) == "" {
      TrimStartBlank(line, [c]);
      assert [c][1..] == "" && TrimStart([c]) == "";
    } else {
      TrimStartAppend(line, [c]);
      PrefixAppend("```", TrimStart(line), [c]);
      PrefixAppend("~~~", TrimStart(line), [c]);
    }
  }

  lemma FlagsOneLine(line: string, code: bool)
    requires HeadLine(line) == line && line != ""
    ensures Flags(line, code) == LineFlags(line, code || IsFence(line))
    ensures FenceAfter(line, code) == (code != IsFence(line))
  {
    assert line[|line|..] == "";
    assert Flags("", code != IsFence(line)) == [];
  }

  lemma ReadSpaceInLine(line: string, c: char, inFence: bool)
    requires IsSpace(c) && NoBreakIn(line)
    ensures ReadFrom(line + [c], inFence) == ReadFrom(line, inFence) + [Ch(c)]
    ensures FenceAfter(line + [c], inFence) == FenceAfter(line, inFence)
  {
    hide IsFence, Scan, SpansUntilUnclosed, InSpans;
    var longer := line + [c];
    HeadOfOpen(line, c);
    FlagsOneLine(longer, inFence);
    FenceSpace(line, c);
    SpansAppend(line, c, 0);
    var code := inFence || IsFence(line);
    var f := LineFlags(longer, code);
    assert f[..|line|] == LineFlags(line, code);
    assert f == LineFlags(line, code) + [f[|line|]];
    ScanSpace(line, c, LineFlags(line, code), f[|line|]);
    if line != "" { FlagsOneLine(line, inFence); } else { EmptyLine(inFence); }
  }

  lemma EmptyLine(inFence: bool)
    ensures Flags("", inFence) == [] && FenceAfter("", inFence) == inFence && !IsFence("")
    ensures LineFlags("", inFence) == []
  {
  }

  predicate NoBreakIn(s: string) { IndexOf(s, '\n') == |s| }

  lemma HeadOfOpen(line: string, c: char)
    requires NoBreakIn(line)
    ensures HeadLine(line) == line && HeadLine(line + [c]) == line + [c]
  {
    assert line[..|line|] == line;
    var t := line + [c];
    if c == '\n' {
      assert t[..|line|] == line;
      IndexOfIs(t, '\n', |line|);
      assert t[..|line| + 1] == t;
    } else {
      assert t[..|t|] == t;
      IndexOfIs(t, '\n', |t|);
    }
  }

  /** A blank at the end of a text is read as a blank. */
  lemma {:induction false} ReadSpace(text: string, c: char, inFence: bool)
    requires IsSpace(c)
    ensures ReadFrom(text + [c], inFence) == ReadFrom(text, inFence) + [Ch(c)]
    ensures FenceAfter(text + [c], inFence) == FenceAfter(text, inFence)
    decreases |text|
  {
    hide ReadFrom, FenceAfter;
    var i := IndexOf(text, '\n');
    if i == |text| {
      ReadSpaceInLine(text, c, inFence);
    } else {
      var line, rest := text[..i + 1], text[i + 1..];
      assert text == line + rest && text + [c] == line + (rest + [c]);
      ReadConcat(line, rest, inFence);
      ReadConcat(line, rest + [c], inFence);
      ReadSpace(rest, c, FenceAfter(line, inFence));
    }
  }

  // ---------- a blank character at the start ----------

  lemma {:induction false} RunEndShift(c: char, s: string, a: nat)
    requires a <= |s|
    ensures RunEnd([c] + s, a + 1) == RunEnd(s, a) + 1
    decreases |s| - a
  {
    assert Tick([c] + s, a + 1) == Tick(s, a);
    if Tick(s, a) { RunEndShift(c, s, a + 1); }
  }

  lemma {:induction false} NextTickShift(c: char, s: string, p: nat)
    requires p <= |s|
    ensures NextTick([c] + s, p + 1) == NextTick(s, p) + 1
    decreases |s| - p
  {
    assert Tick([c] + s, p + 1) == Tick(s, p);
    if p < |s| && !Tick(s, p) { NextTickShift(c, s, p + 1); }
  }

  lemma {:induction false} CloserShift(c: char, s: string, p: nat, n: nat)
    requires p <= |s|
    ensures Closer([c] + s, p + 1, n) == if Closer(s, p, n).Some? then Some(Closer(s, p, n).value + 1) else None
    decreases |s| - p
  {
    hide NextTick, RunEnd;
    NextTickShift(c, s, p);
    var a := NextTick(s, p);
    if a < |s| {
      RunEndShift(c, s, a);
      CloserShift(c, s, RunEnd(s, a), n);
    }
  }

  lemma {:induction false} SpansShift(c: char, s: string, p: nat, k: int)
    requires p <= |s|
    ensures InSpans(SpansUntilUnclosed([c] + s, p + 1), k + 1) <==> InSpans(SpansUntilUnclosed(s, p), k)
    decreases |s| - p
  {
    hide NextTick, RunEnd, Closer, InSpans, SpansUntilUnclosed;
    NoneInNone();
    SpansCons(s, p);
    SpansCons([c] + s, p + 1);
    NextTickShift(c, s, p);
    var a := NextTick(s, p);
    if a < |s| {
      RunEndShift(c, s, a);
      var b := RunEnd(s, a);
      CloserShift(c, s, b, b - a);
      var d := Closer(s, b, b - a);
      if d.Some? {
        CloserFurther(s, p, a, b, d.value);
        SpansShift(c, s, d.value, k);
        ShiftedCons((a, d.value), SpansUntilUnclosed(s, d.value), SpansUntilUnclosed([c] + s, d.value + 1), k);
      }
    }
  }

  lemma SpansCons(s: string, p: nat)
    requires p <= |s|
    ensures SpansUntilUnclosed(s, p) ==
            var a := NextTick(s, p);
            if a == |s| then [] else
            var b := RunEnd(s, a);
            var d := Closer(s, b, b - a);
            if d.None? then [] else [(a, d.value)] + SpansUntilUnclosed(s, d.value)
  {
  }

  lemma CloserFurther(s: string, p: nat, a: nat, b: nat, d: nat)
    requires p <= |s| && a == NextTick(s, p) && a < |s| && b == RunEnd(s, a) && Closer(s, b, b - a) == Some(d)
    ensures p < d
  {
  }

  lemma ShiftedCons(x: (nat, nat), rest: Spans, moved: Spans, k: int)
    requires InSpans(moved, k + 1) <==> InSpans(rest, k)
    ensures InSpans([(x.0 + 1, x.1 + 1)] + moved, k + 1) <==> InSpans([x] + rest, k)
  {
    hide InSpans;
    InSpansCons(x, rest, k);
    InSpansCons((x.0 + 1, x.1 + 1), moved, k + 1);
  }

  lemma SpansSkip(c: char, s: string)
    requires c != '`'
    ensures SpansUntilUnclosed([c] + s, 0) == SpansUntilUnclosed([c] + s, 1)
  {
    assert !Tick([c] + s, 0);
    assert NextTick([c] + s, 0) == NextTick([c] + s, 1);
  }

  lemma LineFlagsShift(c: char, line: string, code: bool)
    requires c != '`'
    ensures LineFlags([c] + line, code)[1..] == LineFlags(line, code)
  {
    hide SpansUntilUnclosed, InSpans;
    SpansSkip(c, line);
    forall k | 0 <= k < |line| ensures LineFlags([c] + line, code)[k + 1] == LineFlags(line, code)[k] {
      SpansShift(c, line, 0, k);
    }
  }

  lemma HeadShift(c: char, text: string)
    requires c != '\n'
    ensures HeadLine([c] + text) == [c] + HeadLine(text)
  {
    var i, t := IndexOf(text, '\n'), [c] + text;
    assert t[..i + 1] == [c] + text[..i];
    IndexOfIs(t, '\n', i + 1);
    if i < |text| { assert t[..i + 2] == [c] + text[..i + 1]; }
  }

  lemma ReadSpaceAhead(c: char, text: string, inFence: bool)
    requires IsSpace(c)
    ensures ReadFrom([c] + text, inFence) == [Ch(c)] + ReadFrom(text, inFence)
    ensures FenceAfter([c] + text, inFence) == FenceAfter(text, inFence)
  {
    if c == '\n' {
      hide ReadFrom, FenceAfter;
      ReadConcat("\n", text, inFence);
      assert [c] == "" + [c];
      ReadSpaceInLine("", c, inFence);
      NothingRead(inFence);
    } else {
      FlagsAhead(c, text, inFence);
      ScanAhead(c, text, Flags([c] + text, inFence));
    }
  }

  lemma NothingRead(inFence: bool)
    ensures ReadFrom("", inFence) == [] && FenceAfter("", inFence) == inFence && NoBreakIn("")
  {
  }

  lemma ScanAhead(c: char, text: string, flags: seq<bool>)
    requires IsSpace(c) && |flags| == |text| + 1
    ensures Scan([c] + text, flags) == [Ch(c)] + Scan(text, flags[1..])
  {
    ScanCons([c] + text, flags);
    assert ([c] + text)[1..] == text;
  }

  lemma FlagsAhead(c: char, text: string, inFence: bool)
    requires IsSpace(c) && c != '\n'
    ensures Flags([c] + text, inFence)[1..] == Flags(text, inFence)
    ensures FenceAfter([c] + text, inFence) == FenceAfter(text, inFence)
  {
    hide SpansUntilUnclosed, InSpans, LineFlags, IsFence, Flags, FenceAfter, HeadLine;
    HeadShift(c, text);
    var line, longer := HeadLine(text), HeadLine([c] + text);
    FlagsCons([c] + text, inFence);
    assert ([c] + text)[|longer|..] == text[|line|..];
    FenceAhead(c, line);
    LineFlagsShift(c, line, inFence || IsFence(line));
    if text == "" { EmptyLine(inFence); } else { FlagsCons(text, inFence); }
    var rest := text[|line|..];
    assert (LineFlags(longer, inFence || IsFence(line)) + Flags(rest, inFence != IsFence(line)))[1..]
        == LineFlags(line, inFence || IsFence(line)) + Flags(rest, inFence != IsFence(line));
  }

  lemma FenceAhead(c: char, line: string)
    requires IsSpace(c)
    ensures IsFence([c] + line) <==> IsFence(line)
  {
    assert ([c] + line)[1..] == line;
  }

  lemma FlagsCons(text: string, inFence: bool)
    requires text != ""
    ensures var line := HeadLine(text);
            && Flags(text, inFence)
              == LineFlags(line, inFence || IsFence(line)) + Flags(text[|line|..], inFence != IsFence(line))
            && FenceAfter(text, inFence) == FenceAfter(text[|line|..], inFence != IsFence(line))
  {
  }

  // ---------- white space around a body ----------

  /** The body is what its text is read as. */
  ghost predicate Readable(body: Body, inFence: bool) { ReadFrom(Raw(body), inFence) == body }

  ghost predicate Open(body: Body, inFence: bool) { FenceAfter(Raw(body), inFence) }

  lemma SpaceAfter(body: Body, c: char, inFence: bool)
    requires IsSpace(c)
    ensures Readable(body + [Ch(c)], inFence) <==> Readable(body, inFence)
    ensures Open(body + [Ch(c)], inFence) == Open(body, inFence)
  {
    hide ReadFrom, Raw, FenceAfter;
    RawConcat(body, [Ch(c)]);
    RawOne(c);
    ReadSpace(Raw(body), c, inFence);
    var r := ReadFrom(Raw(body), inFence);
    if r + [Ch(c)] == body + [Ch(c)] { assert r == (r + [Ch(c)])[..|r|] && body == (body + [Ch(c)])[..|body|]; }
  }

  lemma RawOne(c: char)
    ensures Raw([Ch(c)]) == [c]
  {
    assert [Ch(c)][1..] == [];
  }

  lemma SpaceBefore(c: char, body: Body, inFence: bool)
    requires IsSpace(c)
    ensures Readable([Ch(c)] + body, inFence) <==> Readable(body, inFence)
    ensures Open([Ch(c)] + body, inFence) == Open(body, inFence)
  {
    hide ReadFrom, Raw, FenceAfter;
    RawConcat([Ch(c)], body);
    RawOne(c);
    ReadSpaceAhead(c, Raw(body), inFence);
    var r := ReadFrom(Raw(body), inFence);
    if [Ch(c)] + r == [Ch(c)] + body { assert r == ([Ch(c)] + r)[1..] && body == ([Ch(c)] + body)[1..]; }
  }

  /** Trimming a body is reading the trimmed text. */
  lemma {:induction false} TrimmedEnd(body: Body, inFence: bool)
    ensures Readable(TrimBodyEnd(body), inFence) <==> Readable(body, inFence)
    ensures Open(TrimBodyEnd(body), inFence) == Open(body, inFence)
    decreases |body|
  {
    hide Readable, Open;
    if body != [] && IsBlank(body[|body| - 1]) {
      var n := |body| - 1;
      TrimmedEnd(body[..n], inFence);
      assert body == body[..n] + [Ch(body[n].c)];
      SpaceAfter(body[..n], body[n].c, inFence);
    }
  }

  lemma {:induction false} TrimmedStart(body: Body, inFence: bool)
    ensures Readable(TrimBodyStart(body), inFence) <==> Readable(body, inFence)
    ensures Open(TrimBodyStart(body), inFence) == Open(body, inFence)
  {
    hide Readable, Open;
    if body != [] && IsBlank(body[0]) {
      TrimmedStart(body[1..], inFence);
      assert body == [Ch(body[0].c)] + body[1..];
      SpaceBefore(body[0].c, body[1..], inFence);
    }
  }

  lemma GapAfter(body: Body, inFence: bool)
    ensures Readable(body + Gap(), inFence) <==> Readable(body, inFence)
    ensures Open(body + Gap(), inFence) == Open(body, inFence) && FullLines(body + Gap())
  {
    hide Readable, Open;
    var nl := [Ch('\n')];
    assert body + Gap() == body + nl + nl;
    SpaceAfter(body, '\n', inFence);
    SpaceAfter(body + nl, '\n', inFence);
  }

  lemma GapBefore(body: Body, inFence: bool)
    ensures Readable(Gap() + body, inFence) <==> Readable(body, inFence)
  {
    hide Readable, Open;
    var nl := [Ch('\n')];
    assert Gap() + body == nl + (nl + body);
    SpaceBefore('\n', body, inFence);
    SpaceBefore('\n', nl + body, inFence);
  }

  lemma Apart(a: Body, b: Body, inFence: bool)
    requires Readable(a + b, inFence) && FullLines(a)
    ensures Readable(a, inFence) && Readable(b, Open(a, inFence))
  {
    hide ReadFrom, Raw, FenceAfter;
    ReadApart(a, b, inFence);
  }

  lemma Together(a: Body, b: Body, inFence: bool)
    requires FullLines(a) && Readable(a, inFence) && Readable(b, Open(a, inFence))
    ensures Readable(a + b, inFence) && Open(a + b, inFence) == Open(b, Open(a, inFence))
  {
    hide ReadFrom, Raw, FenceAfter;
    ReadTogether(a, b, inFence);
  }

  // ---------- a directive on a line of its own ----------

  /** The directives the program writes. */
  predicate OwnDirective(d: Atom) {
    Quiet([d]) && d.Ref? && NoFence(Raw([d]))
  }

  lemma OwnReads(d: Atom)
    requires OwnDirective(d)
    ensures Readable([d], false) && Readable([d] + Newline(), false) && !Open([d] + Newline(), false)
  {
    hide Quiet, NoFence, Raw, ReadFrom, FenceAfter;
    assert Newline() == [Ch('\n')];
    QuietSealed([d]);
  }

  lemma OwnById(id: BlockId)
    ensures OwnDirective(EmbedOf(id)) && OwnDirective(ReferenceTo(id))
  {
    hide OwnDirective;
    OwnSpelled(id, "!", EmbedOf(id)) by { assert "![[" + id + "]]" == "!" + "[[" + id + "]]"; }
    OwnSpelled(id, "", ReferenceTo(id)) by { assert "[[" + id + "]]" == "" + "[[" + id + "]]"; }
  }

  lemma OwnSpelled(id: BlockId, bang: string, d: Atom)
    requires bang == "" || bang == "!"
    requires d == Ref(bang == "!", id, None, bang + "[[" + id + "]]")
    ensures OwnDirective(d)
  {
    hide Match, RefOf, NoTick, NoBreakIn, IsFence, OwnDirective, IsBlockId;
    OwnMatch(id, bang);
    OwnRef(id, bang);
    OwnPlain(id, bang);
    OwnQuiet(d);
  }

  lemma OwnMatch(id: BlockId, bang: string)
    requires bang == "" || bang == "!"
    ensures var src := bang + "[[" + id + "]]";
            |id| == 26 && |src| == |bang| + 30 && Match(src) == Some(|src|) && Bang(src) == |bang|
  {
    var src := bang + "[[" + id + "]]";
    var d := |bang| + 2;
    assert src[d..] == id + "]]";
    InnerId(id, "]]");
    assert src[d + 26] == ']' && src[d + 27] == ']';
  }

  lemma OwnRef(id: BlockId, bang: string)
    requires bang == "" || bang == "!"
    ensures var src := bang + "[[" + id + "]]"; |src| >= 5 && RefOf(src) == Ref(bang == "!", id, None, src)
  {
    var src := bang + "[[" + id + "]]";
    OwnMatch(id, bang);
    assert src[|bang| + 2..|src| - 2] == id;
    NoBar(id);
    TrimId(id);
  }

  lemma NoBar(id: BlockId)
    ensures IndexOf(id, '|') == |id| && id[..|id|] == id
  {
    assert id[..|id|] == id;
    forall k | 0 <= k < |id| ensures id[k] != '|' { assert IsAsciiAlnum(id[k]); }
    IndexOfIs(id, '|', |id|);
  }

  lemma OwnPlain(id: BlockId, bang: string)
    requires bang == "" || bang == "!"
    ensures var src := bang + "[[" + id + "]]"; NoTick(src) && NoBreakIn(src) && !IsFence(src)
  {
    var src := bang + "[[" + id + "]]";
    var d := |bang| + 2;
    forall k | 0 <= k < |src| ensures src[k] != '`' && src[k] != '\n' {
      if d <= k < d + 26 { assert src[k] == id[k - d] && IsAsciiAlnum(id[k - d]); }
    }
    assert src[..|src|] == src;
    IndexOfIs(src, '\n', |src|);
    assert TrimStart(src) == src && src[0] != '`' && src[0] != '~';
  }

  lemma {:induction false} InnerId(s: string, rest: string)
    requires (forall k | 0 <= k < |s| :: IsAsciiAlnum(s[k])) && rest != "" && rest[0] == ']'
    ensures Inner(s + rest) == |s|
  {
    if s == "" {
      assert s + rest == rest;
    } else {
      assert (s + rest)[1..] == s[1..] + rest;
      InnerId(s[1..], rest);
    }
  }

  lemma OwnQuiet(d: Atom)
    requires d.Ref? && Match(d.src) == Some(|d.src|) && RefOf(d.src) == d && d.target != ""
    requires NoTick(d.src) && NoBreakIn(d.src) && !IsFence(d.src)
    ensures OwnDirective(d)
  {
    assert [d][1..] == [] && Raw([d]) == d.src;
    assert HeadLine(d.src) == d.src && d.src[|d.src|..] == "";
    assert NoFence("");
  }

  /** In a fence a directive is read as text. */
  lemma FencedText(d: Atom, rest: Body)
    requires OwnDirective(d)
    ensures !Readable([d] + rest, true)
  {
    var text := Raw([d] + rest);
    RawConcat([d], rest);
    assert [d][1..] == [] && Raw([d]) == d.src && QuietAtom([d][0]);
    MatchConcat(d.src, Raw(rest));
    FlagsCons(text, true);
    var f := Flags(text, true);
    assert f[0] by { HeadNotEmpty(text); }
    ScanCons(text, f);
    assert Chars(text[..|d.src|])[0].Ch?;
    assert ([d] + rest)[0] == d;
  }

  /** On a line of its own between readable parts, a directive is read as one if and only if no fence is open there. */
  lemma Around(front: Body, d: Atom, back: Body)
    requires OwnDirective(d) && FullLines(front) && Readable(front, false)
    requires back == [] || back[0] == Ch('\n')
    requires !Open(front, false) ==> Readable(back, false)
    ensures Readable(front + [d] + back, false) <==> !Open(front, false)
  {
    hide Readable, Open, OwnDirective;
    assert front + [d] + back == front + ([d] + back);
    if Open(front, false) {
      FencedText(d, back);
      if Readable(front + ([d] + back), false) { Apart(front, [d] + back, false); }
    } else {
      OwnLine(d, back);
      Together(front, [d] + back, false);
    }
  }

  lemma OwnLine(d: Atom, back: Body)
    requires OwnDirective(d) && (back == [] || back[0] == Ch('\n')) && Readable(back, false)
    ensures Readable([d] + back, false)
  {
    hide Readable, Open, OwnDirective;
    OwnReads(d);
    if back == [] {
      assert [d] + back == [d];
    } else {
      var rest := back[1..];
      assert back == [Ch('\n')] + rest && [d] + back == ([d] + Newline()) + rest;
      SpaceBefore('\n', rest, false);
      Together([d] + Newline(), rest, false);
    }
  }

  /** Where whole lines end or begin. */
  predicate AtSeam(body: Body, at: nat) {
    at == 0 || at >= |body| || body[at - 1] == Ch('\n') || body[at] == Ch('\n')
  }

  lemma SeamParts(a: Body, b: Body)
    requires Readable(a + b, false) && (FullLines(a) || b == [] || b[0] == Ch('\n'))
    ensures Readable(a, false) && (!Open(a, false) ==> Readable(b, false))
  {
    hide Readable, Open;
    if FullLines(a) {
      Apart(a, b, false);
    } else if b == [] {
      assert a + b == a;
      EmptyReads();
    } else {
      var nl, rest := [Ch('\n')], b[1..];
      assert b == nl + rest && a + b == (a + nl) + rest;
      Apart(a + nl, rest, false);
      SpaceAfter(a, '\n', false);
      SpaceBefore('\n', rest, false);
    }
  }

  lemma EmptyReads()
    ensures Readable([], false) && !Open([], false)
  {
    NothingRead(false);
  }

  lemma AppendedReads(body: Body, d: Atom)
    requires Readable(body, false) && OwnDirective(d)
    ensures Readable(Appended(body, d), false) <==> !Open(body, false)
  {
    hide Readable, Open, OwnDirective, TrimBodyEnd;
    var head := TrimBodyEnd(body);
    TrimmedEnd(body, false);
    GapAfter(head, false);
    EmptyReads();
    SpaceAfter([], '\n', false);
    assert Newline() == [] + [Ch('\n')];
    Around(head + Gap(), d, Newline());
  }

  lemma SplicedReads(body: Body, d: Atom, at: nat)
    requires Readable(body, false) && OwnDirective(d) && AtSeam(body, at)
    ensures Readable(Spliced(body, d, at), false) <==> !Open(body[..if at < |body| then at else |body|], false)
  {
    hide Readable, Open, OwnDirective, TrimBodyEnd, TrimBodyStart;
    var off := if at < |body| then at else |body|;
    var a, b := body[..off], body[off..];
    assert body == a + b;
    SeamParts(a, b);
    var head, tail := TrimBodyEnd(a), TrimBodyStart(b);
    TrimmedEnd(a, false);
    TrimmedStart(b, false);
    GapAfter(head, false);
    GapBefore(tail, false);
    EmptyReads();
    var front := if head == [] then [] else head + Gap();
    var more := if tail == [] then [] else Gap() + tail;
    SpaceAfter(more, '\n', false);
    assert Newline() == [Ch('\n')];
    assert more + Newline() != [] && (more + Newline())[0] == Ch('\n');
    assert Spliced(body, d, at) == front + [d] + (more + Newline());
    Around(front, d, more + Newline());
  }

  // ---------- a directive marks a line that is not code ----------

  lemma CharsConcat(a: string, b: string)
    ensures Chars(a + b) == Chars(a) + Chars(b)
  {
  }

  lemma {:induction false} ScanCode(text: string, flags: seq<bool>)
    requires |flags| == |text| && forall k | 0 <= k < |flags| :: flags[k]
    ensures Scan(text, flags) == Chars(text)
    decreases |text|
  {
    hide Match, RefOf;
    if text != "" {
      ScanCons(text, flags);
      var n := Match(text);
      var k := if n.None? then 1 else n.value;
      ScanCode(text[k..], flags[k..]);
      assert text == text[..k] + text[k..];
      CharsConcat(text[..k], text[k..]);
      assert Chars(text[..1]) == [Ch(text[0])];
    }
  }

  /** A fence line, or a line in a fence, is read as characters. */
  lemma CodeLineReads(line: string, inFence: bool)
    requires line != "" && HeadLine(line) == line && (inFence || IsFence(line))
    ensures ReadFrom(line, inFence) == Chars(line) && FenceAfter(line, inFence) == (inFence != IsFence(line))
  {
    hide IsFence;
    FlagsOneLine(line, inFence);
    ScanCode(line, LineFlags(line, true));
  }

  /** A line that is read as a body with a directive is no fence, and no fence is open. */
  lemma LiveText(line: Body, inFence: bool, k: nat)
    requires k < |line| && line[k].Ref? && Readable(line, inFence) && HeadLine(Raw(line)) == Raw(line)
    ensures !inFence && !Open(line, inFence)
  {
    hide Flags, IsFence, Scan, HeadLine;
    var text := Raw(line);
    if text == "" { NothingRead(inFence); } else { FlagsOneLine(text, inFence); }
    if text != "" && (inFence || IsFence(text)) { CodeLineReads(text, inFence); }
  }

  lemma {:induction false} ScanSpelled(text: string, flags: seq<bool>)
    requires |flags| == |text|
    ensures forall k | 0 <= k < |Scan(text, flags)| && Scan(text, flags)[k].Ref? :: Bracket(Scan(text, flags)[k].src)
    decreases |text|
  {
    hide Match, RefOf, Bracket;
    if text != "" {
      ScanCons(text, flags);
      var n := Match(text);
      var k := if n.None? then 1 else n.value;
      ScanSpelled(text[k..], flags[k..]);
      if n.Some? { MatchBracket(text); }
    }
  }

  lemma BracketNoBreak(s: string)
    requires Bracket(s)
    ensures NoBreakIn(s)
  {
    assert s[..|s|] == s;
    IndexOfIs(s, '\n', |s|);
  }

  lemma {:induction false} RawNoBreak(line: Body)
    requires forall k | 0 <= k < |line| :: line[k] != Ch('\n') && (line[k].Ref? ==> NoBreakIn(line[k].src))
    ensures NoBreakIn(Raw(line))
  {
    hide IndexOf;
    if line != [] {
      RawNoBreak(line[1..]);
      NoBreakConcat(line[0].Raw(), Raw(line[1..])) by { if line[0].Ch? { OneChar(line[0].c); } }
    } else {
      NothingRead(false);
    }
  }

  lemma OneChar(c: char)
    requires c != '\n'
    ensures NoBreakIn([c])
  {
    assert [c][1..] == "";
  }

  lemma NoBreakConcat(a: string, b: string)
    requires NoBreakIn(a) && NoBreakIn(b)
    ensures NoBreakIn(a + b)
  {
    assert a[..|a|] == a && b[..|b|] == b && (a + b)[..|a + b|] == a + b;
    IndexOfIs(a + b, '\n', |a + b|);
  }

  lemma {:induction false} LineEndIs(body: Body, k: nat)
    requires k <= |body|
    ensures forall i | k <= i < LineEnd(body, k) :: body[i] != Ch('\n')
    ensures LineEnd(body, k) < |body| ==> body[LineEnd(body, k)] == Ch('\n')
    decreases |body| - k
  {
    if k < |body| && body[k] != Ch('\n') { LineEndIs(body, k + 1); }
  }

  lemma {:induction false} LineStartIs(body: Body, k: nat)
    requires k <= |body|
    ensures forall i | LineStart(body, k) <= i < k :: body[i] != Ch('\n')
    ensures FullLines(body[..LineStart(body, k)])
  {
    if k > 0 && body[k - 1] != Ch('\n') { LineStartIs(body, k - 1); }
  }

  lemma OpenConcat(a: Body, b: Body, inFence: bool)
    requires FullLines(a)
    ensures Open(a + b, inFence) == Open(b, Open(a, inFence))
  {
    hide ReadFrom, Raw, FenceAfter;
    RawFullLines(a);
    RawConcat(a, b);
    ReadConcat(Raw(a), Raw(b), inFence);
  }

  lemma ReadableRefs(body: Body, inFence: bool)
    requires Readable(body, inFence)
    ensures forall k | 0 <= k < |body| && body[k].Ref? :: Bracket(body[k].src)
  {
    ScanSpelled(Raw(body), Flags(Raw(body), inFence));
  }

  /** The first line of a readable part, behind the whole lines `front`, is readable where they end. */
  lemma LineApart(front: Body, line: Body, back: Body)
    requires Readable(front + (line + back), false) && FullLines(front) && (back == [] || back[0] == Ch('\n'))
    ensures Readable(line, Open(front, false))
  {
    hide ReadFrom, Raw, FenceAfter;
    ReadApart(front, line + back, false);
    var f := Open(front, false);
    if back == [] {
      assert line + back == line;
    } else {
      var nl, rest := [Ch('\n')], back[1..];
      assert line + back == (line + nl) + rest;
      ReadApart(line + nl, rest, f);
      SpaceAfter(line, '\n', f);
    }
  }

  /** No fence is open where the line of a directive starts, nor where it ends. */
  lemma LiveLine(body: Body, k: nat)
    requires Readable(body, false) && k < |body| && body[k].Ref?
    ensures var s, e := LineStart(body, k), LineEnd(body, k + 1);
            && !Open(body[..s], false) && !Open(body[..e], false)
            && FullLines(body[..s]) && (e == |body| || body[e] == Ch('\n'))
  {
    hide Readable, Open, NoBreakIn, HeadLine, LineStart, LineEnd, FullLines;
    var s, e := LineStart(body, k), LineEnd(body, k + 1);
    LineStartIs(body, k);
    LineEndIs(body, k + 1);
    ReadableRefs(body, false);
    var front, line, back := body[..s], body[s..e], body[e..];
    ThreeParts(body, s, e);
    LineApart(front, line, back);
    LineOf(body, s, e, k);
    LiveText(line, Open(front, false), k - s);
    OpenConcat(front, line, false);
  }

  lemma ThreeParts(body: Body, s: nat, e: nat)
    requires s <= e <= |body|
    ensures body == body[..s] + (body[s..e] + body[e..]) && body[..e] == body[..s] + body[s..e]
  {
  }

  lemma LineOf(body: Body, s: nat, e: nat, k: nat)
    requires s <= k < e <= |body| && body[k].Ref?
    requires (forall i | s <= i < k :: body[i] != Ch('\n')) && (forall i | k + 1 <= i < e :: body[i] != Ch('\n'))
    requires forall i | 0 <= i < |body| && body[i].Ref? :: Bracket(body[i].src)
    ensures HeadLine(Raw(body[s..e])) == Raw(body[s..e]) && body[s..e][k - s].Ref?
  {
    hide NoBreakIn, HeadLine, Bracket;
    var line := body[s..e];
    forall i | 0 <= i < |line| ensures line[i] != Ch('\n') && (line[i].Ref? ==> NoBreakIn(line[i].src)) {
      assert line[i] == body[s + i];
      if line[i].Ref? { BracketNoBreak(line[i].src); }
    }
    RawNoBreak(line);
    WholeHead(Raw(line));
  }

  lemma WholeHead(text: string)
    requires NoBreakIn(text)
    ensures HeadLine(text) == text
  {
  }

  /** Next to a directive the vault knows, another one can always be placed. */
  lemma AnchoredReads(v: Vault, body: Body, d: Atom, anchor: BlockId, after: bool)
    requires Readable(body, false) && OwnDirective(d)
    ensures Readable(Anchored(v, body, d, anchor, after), false)
            <==> FirstTarget(v, body, anchor).Some? || !Open(body, false)
  {
    hide Readable, Open, OwnDirective, TrimBodyEnd, TrimBodyStart;
    var k := FirstTarget(v, body, anchor);
    if k.None? {
      AppendedReads(body, d);
    } else {
      FirstTargets(v, body, anchor);
      LiveLine(body, k.value);
      var at := if after then LineEnd(body, k.value + 1) else LineStart(body, k.value);
      var a, b := body[..at], body[at..];
      assert body == a + b;
      SeamParts(a, b);
      TrimmedEnd(a, false);
      GapAfter(TrimBodyEnd(a), false);
      TrimmedStart(b, false);
      GapBefore(TrimBodyStart(b), false);
      if after {
        Around(TrimBodyEnd(a) + Gap(), d, b);
      } else {
        Around(a, d, Gap() + TrimBodyStart(b));
        assert a + [d] + Gap() + TrimBodyStart(b) == a + [d] + (Gap() + TrimBodyStart(b));
      }
    }
  }

  lemma {:induction false} FirstTargets(v: Vault, body: Body, id: BlockId)
    requires FirstTarget(v, body, id).Some?
    ensures body[FirstTarget(v, body, id).value].Ref?
  {
    if !Targets(v, body[0], id) { FirstTargets(v, body[1..], id); }
  }

  /** No code is cut and no fence is open where the directive goes. */
  predicate PlaceIsText(v: Vault, body: Body, place: Placement) {
    match place
    case Append => !FenceAfter(Raw(body), false)
    case Anchor(anchor, _) => FirstTarget(v, body, anchor).Some? || !FenceAfter(Raw(body), false)
    case Offset(at) => AtSeam(body, at) && !FenceAfter(Raw(body[..if at < |body| then at else |body|]), false)
  }

  /** Placed there, the directive and all others are read back; at a seam of whole lines, only there. */
  lemma PlacedReads(v: Vault, body: Body, d: Atom, place: Placement)
    requires Readable(body, false) && OwnDirective(d)
    ensures PlaceIsText(v, body, place) ==> Readable(Placed(v, body, d, place), false)
    ensures (place.Offset? ==> AtSeam(body, place.at)) && Readable(Placed(v, body, d, place), false) ==>
              PlaceIsText(v, body, place)
  {
    hide Readable, OwnDirective, Anchored, Appended, Spliced, FenceAfter, AtSeam;
    match place
    case Append => AppendedReads(body, d);
    case Anchor(anchor, after) => AnchoredReads(v, body, d, anchor, after);
    case Offset(at) => if AtSeam(body, at) { SplicedReads(body, d, at); }
  }
}
