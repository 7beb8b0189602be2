/** Which edits of a text are read back as the same edits of its body. */
module Reading {
  import opened Prelude
  import opened Text
  import opened Wiki
  import opened CodeMask
  import opened Extraction

  // ---------- atoms and texts ----------

  /** No atom is written with nothing. */
  predicate Written(body: Body) {
    forall k | 0 <= k < |body| :: body[k].Raw() != ""
  }

  lemma {:induction false} ScanWritten(text: string, flags: seq<bool>)
    requires |flags| == |text|
    ensures Written(Scan(text, flags))
    decreases |text|
  {
    hide Match, RefOf;
    if text != "" {
      ScanCons(text, flags);
      var n := Match(text);
      var k := if n.None? then 1 else n.value;
      ScanWritten(text[k..], flags[k..]);
    }
  }

  /** The first atoms of a body are told by their text. */
  lemma SamePrefix(a: Body, b: Body, c: Body, d: Body)
    requires a + b == c + d && Raw(a) == Raw(c) && Written(a + b)
    ensures a == c && b == d
  {
    hide Raw, Written;
    if |a| <= |c| { PrefixIs(a, b, c, d); } else { PrefixIs(c, d, a, b); }
  }

  lemma PrefixIs(a: Body, b: Body, c: Body, d: Body)
    requires a + b == c + d && Raw(a) == Raw(c) && Written(a + b) && |a| <= |c|
    ensures a == c && b == d
  {
    hide Raw, Written;
    var more := LongerPrefix(a, b, c, d);
    RawConcat(a, more);
    WrittenPart(a, more, d);
    NothingWritten(more);
  }

  lemma LongerPrefix(a: Body, b: Body, c: Body, d: Body) returns (more: Body)
    requires a + b == c + d && |a| <= |c|
    ensures c == a + more && b == more + d && a + b == a + more + d
  {
    more := c[|a|..];
    assert a == (a + b)[..|a|] && (c + d)[..|a|] == c[..|a|];
    assert b == (a + b)[|a|..] && (c + d)[|a|..] == more + d;
  }

  lemma WrittenPart(a: Body, more: Body, d: Body)
    requires Written(a + more + d)
    ensures Written(more)
  {
    assert forall k | 0 <= k < |more| :: more[k] == (a + more + d)[|a| + k];
  }

  lemma NothingWritten(body: Body)
    requires Written(body) && Raw(body) == ""
    ensures body == []
  {
  }

  // ---------- text without code marks or stray brackets ----------

  /** A directive that its own text stands for. */
  predicate Spelled(a: Atom) {
    a.Ref? ==>
      && Match(a.src) == Some(|a.src|) && a == RefOf(a.src) && a.target != ""
      && Bang(a.src) == if a.embed then 1 else 0
  }

  predicate QuietAtom(a: Atom) {
    if a.Ref? then Spelled(a) && NoTick(a.src) else a.c != '`' && a.c != '['
  }

  /** No backtick, no bracket outside directives, no exclamation mark right before a plain reference. */
  predicate Quiet(body: Body) {
    && (forall k | 0 <= k < |body| :: QuietAtom(body[k]))
    && (forall k | 0 < k < |body| && body[k].Ref? && !body[k].embed :: body[k - 1] != Ch('!'))
  }

  predicate NoTick(s: string) { '`' !in s }

  predicate NoFence(text: string)
    decreases |text|
  {
    text == "" || (!IsFence(HeadLine(text)) && NoFence(text[|HeadLine(text)|..]))
  }

  lemma {:induction false} NoTicks(s: string, p: nat)
    requires p <= |s| && NoTick(s)
    ensures NextTick(s, p) == |s|
  {
    forall i | 0 <= i < |s| ensures !Tick(s, i) { assert s[i] in s; }
  }

  lemma {:induction false} NoCode(text: string)
    requires NoTick(text) && NoFence(text)
    ensures Flags(text, false) == seq(|text|, _ => false) && !FenceAfter(text, false)
    decreases |text|
  {
    hide IsFence, LineFlags;
    if text != "" {
      var line := HeadLine(text);
      NoCode(text[|line|..]);
      assert forall k | 0 <= k < |line| :: line[k] == text[k] && text[k] in text;
      NoCodeInLine(line);
      assert seq(|text|, _ => false) == seq(|line|, _ => false) + seq(|text| - |line|, _ => false);
    }
  }

  lemma NoCodeInLine(line: string)
    requires NoTick(line)
    ensures LineFlags(line, false) == seq(|line|, _ => false)
  {
    NoTicks(line, 0);
    assert SpansUntilUnclosed(line, 0) == [];
  }

  lemma MatchConcat(a: string, b: string)
    requires Match(a) == Some(|a|)
    ensures Match(a + b) == Some(|a|)
  {
    var d := Bang(a) + 2;
    assert (a + b)[d..] == a[d..] + b;
    InnerConcat(a[d..], b);
  }

  lemma {:induction false} QuietTail(body: Body)
    requires Quiet(body) && body != []
    ensures Quiet(body[1..]) && QuietAtom(body[0])
    ensures |body| > 1 && body[1].Ref? && !body[1].embed ==> body[0] != Ch('!')
  {
    hide QuietAtom;
    var rest := body[1..];
    forall k | 0 <= k < |rest| ensures QuietAtom(rest[k]) { assert rest[k] == body[k + 1]; }
    forall k | 0 < k < |rest| && rest[k].Ref? && !rest[k].embed ensures rest[k - 1] != Ch('!') {
      assert rest[k] == body[k + 1] && rest[k - 1] == body[k];
    }
  }

  lemma {:induction false} QuietNoTick(body: Body)
    requires Quiet(body)
    ensures NoTick(Raw(body))
  {
    if body != [] {
      QuietTail(body);
      QuietNoTick(body[1..]);
    }
  }

  /** A character that is no bracket starts no match, unless it is the mark of an embed. */
  lemma NoMatch(c: char, rest: Body)
    requires c != '[' && Quiet(rest)
    requires c == '!' && rest != [] && rest[0].Ref? ==> rest[0].embed
    ensures Match([c] + Raw(rest)).None?
  {
    var s := [c] + Raw(rest);
    assert s[1..] == Raw(rest);
    if c == '!' && rest != [] {
      var a := rest[0];
      assert QuietAtom(a);
      assert Raw(rest)[0] == a.Raw()[0];
      assert s[1] == Raw(rest)[0];
      if a.Ref? { assert a.src[0] == '!'; } else { assert a.c != '['; }
    }
  }

  lemma {:induction false} ScanQuiet(body: Body, flags: seq<bool>)
    requires Quiet(body) && |flags| == |Raw(body)| && forall k | 0 <= k < |flags| :: !flags[k]
    ensures Scan(Raw(body), flags) == body
  {
    hide Match, RefOf, Scan, Raw;
    if body == [] {
      NothingScanned(flags);
    } else {
      var a, rest := body[0], body[1..];
      QuietTail(body);
      assert body == [a] + rest;
      RawConcat([a], rest);
      RawSingle(a);
      FirstQuiet(a, rest);
      var n := |a.Raw()|;
      var text := a.Raw() + Raw(rest);
      assert text[n..] == Raw(rest) && text[..n] == a.Raw();
      ScanQuiet(rest, flags[n..]);
      ScanCons(text, flags);
    }
  }

  lemma NothingScanned(flags: seq<bool>)
    requires |flags| == |Raw([])|
    ensures Scan(Raw([]), flags) == []
  {
  }

  lemma RawSingle(a: Atom)
    ensures Raw([a]) == a.Raw()
  {
    assert [a][1..] == [];
  }

  /** What the first atom is written as is matched as a whole, or starts no match. */
  lemma FirstQuiet(a: Atom, rest: Body)
    requires QuietAtom(a) && Quiet(rest) && (rest != [] && rest[0].Ref? && !rest[0].embed ==> a != Ch('!'))
    ensures a.Ref? ==> |a.src| >= 5 && Match(a.src + Raw(rest)) == Some(|a.src|) && RefOf(a.src) == a && a.target != ""
    ensures a.Ch? ==> Match([a.c] + Raw(rest)).None?
  {
    if a.Ref? { MatchConcat(a.src, Raw(rest)); } else { NoMatch(a.c, rest); }
  }

  /** Text without code marks is read as it was written. */
  lemma QuietReads(body: Body)
    requires Quiet(body) && NoFence(Raw(body))
    ensures ReadFrom(Raw(body), false) == body && !FenceAfter(Raw(body), false)
  {
    QuietNoTick(body);
    NoCode(Raw(body));
    ScanQuiet(body, Flags(Raw(body), false));
  }

  /** Neither backticks nor tildes. */
  predicate Plain(text: string) {
    forall k | 0 <= k < |text| :: text[k] != '`' && text[k] != '~'
  }

  lemma {:induction false} PlainNoFence(text: string)
    requires Plain(text)
    ensures NoFence(text)
    decreases |text|
  {
    hide IsFence;
    if text != "" {
      var line := HeadLine(text);
      PlainLine(line);
      PlainNoFence(text[|line|..]);
    }
  }

  lemma {:induction false} PlainLine(line: string)
    requires Plain(line)
    ensures !IsFence(line)
  {
    TrimStartEnds(line);
    var t := TrimStart(line);
    assert forall k | 0 <= k < |t| :: t[k] == line[|line| - |t| + k];
    assert "```"[0] == '`' && "~~~"[0] == '~';
  }

  lemma {:induction false} NoFenceNl(text: string)
    requires NoFence(text)
    ensures NoFence(text + "\n")
    decreases |text|
  {
    hide IsFence;
    if text == "" {
      BlankLine();
    } else {
      var line := HeadLine(text);
      var i := IndexOf(text, '\n');
      if i < |text| {
        HeadOfLine(line, text[i + 1..] + "\n");
        assert text + "\n" == line + (text[i + 1..] + "\n") && text[|line|..] == text[i + 1..];
        HeadTwice(line);
        NoFenceNl(text[i + 1..]);
        assert (text + "\n")[|line|..] == text[i + 1..] + "\n";
      } else {
        FenceTerminator(text, "\n");
        assert text[..i] == text;
        IndexOfIs(text + "\n", '\n', |text|) by { assert (text + "\n")[..|text|] == text; }
        assert HeadLine(text + "\n") == text + "\n" by { assert (text + "\n")[..|text| + 1] == text + "\n"; }
      }
    }
  }

  lemma HeadTwice(line: string)
    requires line != "" && line[|line| - 1] == '\n' && '\n' !in line[..|line| - 1]
    ensures HeadLine(line) == line
  {
    IndexOfIs(line, '\n', |line| - 1);
    assert line[..|line|] == line;
  }

  lemma BlankLine()
    ensures HeadLine("\n") == "\n" && !IsFence("\n") && NoFence("\n")
  {
    HeadTwice("\n");
    assert "\n"[1..] == "" && TrimStart("\n") == "";
  }

  // ---------- replacing lines ----------

  predicate FullLines(body: Body) { body == [] || body[|body| - 1] == Ch('\n') }

  lemma RawFullLines(body: Body)
    requires FullLines(body)
    ensures WholeLines(Raw(body))
  {
    if body != [] {
      var n := |body| - 1;
      assert body == body[..n] + [body[n]] && [body[n]][1..] == [];
      RawConcat(body[..n], [body[n]]);
    }
  }

  /** What is read of whole lines and of what follows them, taken apart. */
  lemma ReadApart(a: Body, b: Body, inFence: bool)
    requires FullLines(a) && ReadFrom(Raw(a + b), inFence) == a + b
    ensures ReadFrom(Raw(a), inFence) == a && ReadFrom(Raw(b), FenceAfter(Raw(a), inFence)) == b
  {
    hide ReadFrom, Raw, FenceAfter;
    RawFullLines(a);
    RawConcat(a, b);
    ReadConcat(Raw(a), Raw(b), inFence);
    ReadRaw(Raw(a), inFence);
    ReadWritten(Raw(a + b), inFence);
    SamePrefix(ReadFrom(Raw(a), inFence), ReadFrom(Raw(b), FenceAfter(Raw(a), inFence)), a, b);
  }

  lemma ReadWritten(text: string, inFence: bool)
    ensures Written(ReadFrom(text, inFence))
  {
    ScanWritten(text, Flags(text, inFence));
  }

  lemma ReadTogether(a: Body, b: Body, inFence: bool)
    requires FullLines(a) && ReadFrom(Raw(a), inFence) == a && ReadFrom(Raw(b), FenceAfter(Raw(a), inFence)) == b
    ensures ReadFrom(Raw(a + b), inFence) == a + b
    ensures FenceAfter(Raw(a + b), inFence) == FenceAfter(Raw(b), FenceAfter(Raw(a), inFence))
  {
    RawFullLines(a);
    RawConcat(a, b);
    ReadConcat(Raw(a), Raw(b), inFence);
  }

  /** Lines that leave no fence open. */
  ghost predicate Closed(lines: Body) {
    !FenceAfter(Raw(lines + [Ch('\n')]), false)
  }

  /** Lines read back by themselves, that leave no fence open. */
  ghost predicate Sealed(lines: Body) {
    && ReadFrom(Raw(lines), false) == lines && ReadFrom(Raw(lines + [Ch('\n')]), false) == lines + [Ch('\n')]
    && Closed(lines)
  }

  lemma QuietSealed(lines: Body)
    requires Quiet(lines) && NoFence(Raw(lines))
    ensures Sealed(lines)
  {
    hide Quiet, NoFence, Raw, ReadFrom, FenceAfter;
    QuietReads(lines);
    QuietNl(lines);
    QuietReads(lines + [Ch('\n')]);
  }

  /** Between whole lines, lines that leave no fence open may be replaced by others. */
  lemma ReplacedReads(before: Body, lines: Body, others: Body, after: Body)
    requires ReadFrom(Raw(before + (lines + after)), false) == before + (lines + after)
    requires FullLines(before) && !FenceAfter(Raw(before), false) && (after == [] || after[0] == Ch('\n'))
    requires Closed(lines) && Sealed(others)
    ensures ReadFrom(Raw(before + (others + after)), false) == before + (others + after)
  {
    hide *;
    ReadApart(before, lines + after, false);
    TailReads(lines, others, after);
    ReadTogether(before, others + after, false);
  }

  lemma TailReads(lines: Body, others: Body, after: Body)
    requires ReadFrom(Raw(lines + after), false) == lines + after && (after == [] || after[0] == Ch('\n'))
    requires Closed(lines) && Sealed(others)
    ensures ReadFrom(Raw(others + after), false) == others + after
  {
    hide *;
    hide Raw, ReadFrom, FenceAfter;
    if after == [] {
      SealedReads(others);
      assert others + after == others;
    } else {
      var nl, rest := [Ch('\n')], after[1..];
      assert after == nl + rest && lines + after == lines + nl + rest && others + after == others + nl + rest;
      NlReads(lines, others, rest);
    }
  }

  lemma SealedReads(lines: Body)
    requires Sealed(lines)
    ensures ReadFrom(Raw(lines), false) == lines
  {
  }

  lemma NlReads(lines: Body, others: Body, rest: Body)
    requires var all := lines + [Ch('\n')] + rest; ReadFrom(Raw(all), false) == all
    requires Closed(lines) && Sealed(others)
    ensures var all := others + [Ch('\n')] + rest; ReadFrom(Raw(all), false) == all
  {
    hide Raw, ReadFrom, FenceAfter;
    Exchanged(lines + [Ch('\n')], others + [Ch('\n')], rest);
  }

  /** Whole lines in front of the rest may be exchanged if both leave no fence open. */
  lemma Exchanged(a: Body, b: Body, rest: Body)
    requires FullLines(a) && FullLines(b) && ReadFrom(Raw(a + rest), false) == a + rest
    requires !FenceAfter(Raw(a), false) && !FenceAfter(Raw(b), false) && ReadFrom(Raw(b), false) == b
    ensures ReadFrom(Raw(b + rest), false) == b + rest
  {
    hide *;
    ReadApart(a, rest, false);
    ReadTogether(b, rest, false);
  }

  lemma LineClosed(lines: Body)
    requires NoFence(Raw(lines)) && NoTick(Raw(lines))
    ensures Closed(lines)
  {
    RawNl(lines);
    NoFenceNl(Raw(lines));
    NoCode(Raw(lines) + "\n");
  }

  lemma RawNl(body: Body)
    ensures Raw(body + [Ch('\n')]) == Raw(body) + "\n"
  {
    RawConcat(body, [Ch('\n')]);
    assert [Ch('\n')][1..] == [];
  }

  lemma QuietNl(body: Body)
    requires Quiet(body) && NoFence(Raw(body))
    ensures Quiet(body + [Ch('\n')]) && NoFence(Raw(body + [Ch('\n')]))
  {
    RawNl(body);
    NoFenceNl(Raw(body));
  }
}
