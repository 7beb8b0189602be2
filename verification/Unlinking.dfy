/** Removing every directive to a block from a body: whole-line spans of the text, cut from right to left. */
module Unlinking {
  import opened Prelude
  import opened Text
  import opened Wiki
  import opened Extraction
  import opened Reading
  import opened Seams
  import opened Edits
  import opened Linking

  // ---------- byte offsets ----------

  /** Bytes of a character in UTF-8. */
  function Utf8(c: char): (n: nat)
    ensures 1 <= n <= 4
  {
    if c < '\U{0080}' then 1 else if c < '\U{0800}' then 2 else if c < '\U{10000}' then 3 else 4
  }

  function Bytes(s: string): nat {
    if s == "" then 0 else Utf8(s[0]) + Bytes(s[1..])
  }

  /** The position at byte `n`; `None` beyond the end and inside a character, where slicing panics. */
  function At(s: string, n: nat): (i: Option<nat>)
    ensures i.Some? ==> i.value <= |s| && i.value <= n && (n > 0 ==> i.value > 0)
  {
    if n == 0 then Some(0) else
    if s == "" || Utf8(s[0]) > n then None else
    var i := At(s[1..], n - Utf8(s[0]));
    if i.Some? then Some(i.value + 1) else None
  }

  lemma {:induction false} AtConcat(a: string, b: string, n: nat)
    ensures At(a + b, Bytes(a) + n) == if At(b, n).Some? then Some(|a| + At(b, n).value) else None
  {
    if a == "" {
      assert a + b == b;
    } else {
      assert (a + b)[1..] == a[1..] + b;
      AtConcat(a[1..], b, n);
    }
  }

  lemma {:induction false} BytesConcat(a: string, b: string)
    ensures Bytes(a + b) == Bytes(a) + Bytes(b)
  {
    if a == "" {
      assert a + b == b;
    } else {
      assert (a + b)[1..] == a[1..] + b;
      BytesConcat(a[1..], b);
    }
  }

  // ---------- the program's cuts ----------

  /** A half-open range of byte offsets. */
  datatype Span = Span(start: nat, end: nat)

  /** The position behind the last newline. */
  function LastLine(s: string): (i: nat)
    ensures i <= |s|
  {
    if s == "" || s[|s| - 1] == '\n' then |s| else LastLine(s[..|s| - 1])
  }

  function UpToBreak(s: string): string { s[..IndexOf(s, '\n')] }

  /** The whole-line span of the directive at `k`, in the text of the body. */
  function SpanAt(body: Body, k: nat): Span
    requires k < |body|
  {
    var before := Raw(body[..k]);
    Span(Bytes(before[..LastLine(before)]), Bytes(Raw(body[..k + 1])) + Bytes(UpToBreak(Raw(body[k + 1..]))))
  }

  /** The spans of the directives to `target` among the first `n` atoms, the last one first. */
  function SpansTo(v: Vault, body: Body, target: BlockId, n: nat): seq<Span>
    requires n <= |body|
  {
    if n == 0 then []
    else (if Targets(v, body[n - 1], target) then [SpanAt(body, n - 1)] else []) + SpansTo(v, body, target, n - 1)
  }

  /** From position `i` on, a newline right there swallowed. */
  function Behind(text: string, i: nat): string
    requires i <= |text|
  {
    if i < |text| && text[i] == '\n' then text[i + 1..] else text[i..]
  }

  /** One cut; `None` where a slice panics. */
  function CutSpan(text: string, s: Span): Option<string> {
    var i, j := At(text, s.start), At(text, s.end);
    if i.None? || j.None? || s.start > s.end then None else Some(text[..i.value] + Behind(text, j.value))
  }

  /** All cuts, each in the text the ones before it left, at the offsets of the original text. */
  function CutSpans(text: string, spans: seq<Span>): Option<string>
    decreases |spans|
  {
    if spans == [] then Some(text) else
    var next := CutSpan(text, spans[0]);
    if next.None? then None else CutSpans(next.value, spans[1..])
  }

  /** The text of the unlinked body, `None` when there was nothing to unlink, an error when a slice panics. */
  function Unlinked(v: Vault, body: Body, target: BlockId): Result<Option<string>> {
    var spans := SpansTo(v, body, target, |body|);
    if spans == [] then Ok(None) else
    var cut := CutSpans(Raw(body), spans);
    if cut.None? then Err("slice out of range") else Ok(Some(TrimEnd(cut.value) + "\n"))
  }

  method RemoveDirectivesTo(v: Vault, whole: Body, target: BlockId) returns (r: Result<Option<string>>)
    ensures r == Unlinked(v, whole, target)
  {
    var spans: seq<Span> := [];
    for k := 0 to |whole|
      invariant spans == SpansTo(v, whole, target, k)
    {
      if Targets(v, whole[k], target) { spans := [SpanAt(whole, k)] + spans; }
    }
    if spans == [] { return Ok(None); }
    var body := Raw(whole);
    for i := 0 to |spans|
      invariant CutSpans(body, spans[i..]) == CutSpans(Raw(whole), spans)
    {
      var s := spans[i];
      assert spans[i..][0] == s && spans[i..][1..] == spans[i + 1..];
      var start, end := At(body, s.start), At(body, s.end);
      if start.None? || end.None? || s.start > s.end { return Err("slice out of range"); }
      var cutEnd := end.value;
      if cutEnd < |body| && body[cutEnd] == '\n' { cutEnd := cutEnd + 1; }
      body := body[..start.value] + body[cutEnd..];
    }
    assert spans[|spans|..] == [];
    return Ok(Some(TrimEnd(body) + "\n"));
  }

  // ---------- the reference definition: line by line ----------

  /** Every directive is written in brackets on one line, which is what extraction matches. */
  predicate Bracketed(body: Body) {
    forall k | 0 <= k < |body| && body[k].Ref? :: Bracket(body[k].src)
  }

  function Hits(v: Vault, line: Body, target: BlockId): nat {
    if line == [] then 0 else (if Targets(v, line[0], target) then 1 else 0) + Hits(v, line[1..], target)
  }

  /** Cut `n` bytes off the front, with the newline behind them, so many `times`. */
  function Eat(text: string, n: nat, times: nat): Option<string>
    decreases times
  {
    if times == 0 then Some(text) else
    var i := At(text, n);
    if i.None? then None else Eat(Behind(text, i.value), n, times - 1)
  }

  /**
   Each line with hits goes, with its newline; each further hit on it eats as many bytes as the line had out of
   what the later lines have become.
   */
  function CutLines(v: Vault, body: Body, target: BlockId): Option<string>
    decreases |body|
  {
    var e := LineEnd(body, 0);
    var line, hits := Raw(body[..e]), Hits(v, body[..e], target);
    if e == |body| then (if hits == 0 then Some(line) else Eat("", Bytes(line), hits - 1)) else
    var rest := CutLines(v, body[e + 1..], target);
    if rest.None? then None
    else if hits == 0 then Some(line + "\n" + rest.value)
    else Eat(rest.value, Bytes(line), hits - 1)
  }

  // ---------- lines ----------

  ghost predicate NoBreak(body: Body) {
    forall k | 0 <= k < |body| :: body[k] != Ch('\n')
  }

  /** The first line of a body and, unless it is the last, what follows its newline. */
  lemma {:induction false} FirstLine(body: Body, k: nat)
    requires k <= |body|
    ensures forall i | k <= i < LineEnd(body, k) :: body[i] != Ch('\n')
    ensures LineEnd(body, k) < |body| ==> body[LineEnd(body, k)] == Ch('\n')
    ensures k == 0 ==> NoBreak(body[..LineEnd(body, 0)])
    ensures k == 0 && LineEnd(body, 0) == |body| ==> body[..LineEnd(body, 0)] == body
    ensures k == 0 && LineEnd(body, 0) < |body| ==>
              body == body[..LineEnd(body, 0)] + [Ch('\n')] + body[LineEnd(body, 0) + 1..]
    decreases |body| - k
  {
    if k < |body| && body[k] != Ch('\n') { FirstLine(body, k + 1); }
  }

  lemma BracketedParts(a: Body, b: Body)
    requires Bracketed(a + b)
    ensures Bracketed(a) && Bracketed(b)
  {
    forall k | 0 <= k < |a| && a[k].Ref? ensures Bracket(a[k].src) { assert (a + b)[k] == a[k]; }
    forall k | 0 <= k < |b| && b[k].Ref? ensures Bracket(b[k].src) { assert (a + b)[|a| + k] == b[k]; }
  }

  lemma {:induction false} RawOneLine(line: Body)
    requires NoBreak(line) && Bracketed(line)
    ensures '\n' !in Raw(line)
  {
    if line != [] { RawOneLine(line[1..]); }
  }

  lemma {:induction false} LastLineConcat(a: string, b: string)
    requires a == "" || a[|a| - 1] == '\n'
    ensures LastLine(a + b) == |a| + LastLine(b)
    decreases |b|
  {
    if b == "" {
      assert a + b == a;
    } else {
      assert (a + b)[..|a + b| - 1] == a + b[..|b| - 1];
      LastLineConcat(a, b[..|b| - 1]);
    }
  }

  lemma {:induction false} LastLineNone(s: string)
    requires '\n' !in s
    ensures LastLine(s) == 0
  {
    if s != "" { LastLineNone(s[..|s| - 1]); }
  }

  lemma UpToBreakIs(line: string, rest: string)
    requires '\n' !in line && (rest == "" || rest[0] == '\n')
    ensures UpToBreak(line + rest) == line
  {
    assert (line + rest)[..|line|] == line;
    IndexOfIs(line + rest, '\n', |line|);
  }

  // ---------- the spans of a line ----------

  function Copies(s: Span, n: nat): seq<Span> {
    if n == 0 then [] else [s] + Copies(s, n - 1)
  }

  function Moved(s: Span, off: nat): Span { Span(s.start + off, s.end + off) }

  function Shift(spans: seq<Span>, off: nat): seq<Span> {
    if spans == [] then [] else [Moved(spans[0], off)] + Shift(spans[1..], off)
  }

  /** A directive on the first line spans that line. */
  lemma SpanOnLine(line: Body, tail: Body, k: nat)
    requires NoBreak(line) && Bracketed(line) && (tail == [] || tail[0] == Ch('\n')) && k < |line|
    ensures SpanAt(line + tail, k) == Span(0, Bytes(Raw(line)))
  {
    hide Raw, Bytes, UpToBreak, LastLine, Bracketed, NoBreak;
    PiecesOfLine(line, tail, k);
    StartsLine(line[..k]);
    EndsLine(line[..k + 1], line[k + 1..], tail);
  }

  lemma PiecesOfLine(line: Body, tail: Body, k: nat)
    requires k < |line| && Bracketed(line) && NoBreak(line)
    ensures (line + tail)[..k] == line[..k] && (line + tail)[..k + 1] == line[..k + 1]
    ensures (line + tail)[k + 1..] == line[k + 1..] + tail && line == line[..k + 1] + line[k + 1..]
    ensures Bracketed(line[..k]) && NoBreak(line[..k]) && Bracketed(line[k + 1..]) && NoBreak(line[k + 1..])
  {
    hide Bracketed;
    assert line == line[..k] + line[k..] && line == line[..k + 1] + line[k + 1..];
    BracketedParts(line[..k], line[k..]);
    BracketedParts(line[..k + 1], line[k + 1..]);
  }

  lemma StartsLine(before: Body)
    requires Bracketed(before) && NoBreak(before)
    ensures Bytes(Raw(before)[..LastLine(Raw(before))]) == 0
  {
    RawOneLine(before);
    LastLineNone(Raw(before));
    assert Raw(before)[..0] == "";
  }

  lemma EndsLine(a: Body, b: Body, tail: Body)
    requires Bracketed(b) && NoBreak(b) && (tail == [] || tail[0] == Ch('\n'))
    ensures Bytes(Raw(a)) + Bytes(UpToBreak(Raw(b + tail))) == Bytes(Raw(a + b))
  {
    hide Raw, Bytes, UpToBreak;
    RawOneLine(b);
    RawConcat(b, tail);
    RawHead(tail);
    UpToBreakIs(Raw(b), Raw(tail));
    RawConcat(a, b);
    BytesConcat(Raw(a), Raw(b));
  }

  lemma RawHead(tail: Body)
    requires tail == [] || tail[0] == Ch('\n')
    ensures Raw(tail) == "" || Raw(tail)[0] == '\n'
  {
  }

  lemma StartBehind(front: string, before: string)
    requires front != "" && front[|front| - 1] == '\n'
    ensures Bytes((front + before)[..LastLine(front + before)]) == Bytes(front) + Bytes(before[..LastLine(before)])
  {
    hide Bytes, LastLine;
    LastLineConcat(front, before);
    assert (front + before)[..|front| + LastLine(before)] == front + before[..LastLine(before)];
    BytesConcat(front, before[..LastLine(before)]);
  }

  /** A directive behind the first line has the span it has without that line, moved. */
  lemma SpanBehind(line: Body, rest: Body, k: nat)
    requires k < |rest|
    ensures SpanAt(line + [Ch('\n')] + rest, |line| + 1 + k) == Moved(SpanAt(rest, k), Bytes(Raw(line + [Ch('\n')])))
  {
    hide *;
    hide Raw, Bytes, UpToBreak, LastLine;
    var front := line + [Ch('\n')];
    SpanAhead(front, rest, k) by { RawNl(line); }
  }

  lemma SpanAhead(front: Body, rest: Body, k: nat)
    requires k < |rest| && Raw(front) != "" && Raw(front)[|Raw(front)| - 1] == '\n'
    ensures SpanAt(front + rest, |front| + k) == Moved(SpanAt(rest, k), Bytes(Raw(front)))
  {
    hide Raw, Bytes, UpToBreak, LastLine;
    var body, i := front + rest, |front| + k;
    AtomsBehind(front, rest, k);
    RawConcat(front, rest[..k]);
    RawConcat(front, rest[..k + 1]);
    StartBehind(Raw(front), Raw(rest[..k]));
    BytesConcat(Raw(front), Raw(rest[..k + 1]));
  }

  lemma AtomsBehind(front: Body, rest: Body, k: nat)
    requires k < |rest|
    ensures (front + rest)[..|front| + k] == front + rest[..k]
    ensures (front + rest)[..|front| + k + 1] == front + rest[..k + 1]
    ensures (front + rest)[|front| + k + 1..] == rest[k + 1..]
  {
  }

  /** The spans of the hits on the first line are all the same. */
  lemma {:induction false} SpansOnLine(v: Vault, line: Body, tail: Body, target: BlockId, n: nat)
    requires NoBreak(line) && Bracketed(line) && (tail == [] || tail[0] == Ch('\n')) && n <= |line|
    ensures SpansTo(v, line + tail, target, n) == Copies(Span(0, Bytes(Raw(line))), Hits(v, line[..n], target))
  {
    hide SpanAt, Targets, Raw, Bytes, Bracketed;
    if n > 0 {
      SpanOnLine(line, tail, n - 1);
      SpansOnLine(v, line, tail, target, n - 1);
      assert line[..n] == line[..n - 1] + [line[n - 1]];
      HitsSnoc(v, line[..n - 1], line[n - 1], target);
    }
  }

  lemma {:induction false} HitsSnoc(v: Vault, line: Body, a: Atom, target: BlockId)
    ensures Hits(v, line + [a], target) == Hits(v, line, target) + if Targets(v, a, target) then 1 else 0
  {
    hide Targets;
    if line == [] {
      assert line + [a] == [a] && [a][1..] == [];
    } else {
      assert (line + [a])[1..] == line[1..] + [a];
      HitsSnoc(v, line[1..], a, target);
    }
  }

  lemma {:induction false} SpansBehind(v: Vault, line: Body, rest: Body, target: BlockId, n: nat)
    requires n <= |rest|
    ensures var body := line + [Ch('\n')] + rest;
            SpansTo(v, body, target, |line| + 1 + n)
            == Shift(SpansTo(v, rest, target, n), Bytes(Raw(line + [Ch('\n')]))) + SpansTo(v, body, target, |line|)
  {
    hide SpanAt, Targets, Raw, Bytes;
    var body, off := line + [Ch('\n')] + rest, Bytes(Raw(line + [Ch('\n')]));
    var later, here := SpansTo(v, rest, target, n), SpansTo(v, body, target, |line|);
    if n == 0 {
      assert body[|line|] == Ch('\n') && !Targets(v, body[|line|], target) by { NoTarget(v, target); }
    } else {
      SpanBehind(line, rest, n - 1);
      SpansBehind(v, line, rest, target, n - 1);
      assert body[|line| + n] == rest[n - 1];
      var spans := SpansTo(v, rest, target, n - 1);
      if Targets(v, rest[n - 1], target) {
        assert later[1..] == spans;
        assert Shift(later, off) == [Moved(later[0], off)] + Shift(spans, off);
      } else {
        assert later == spans;
      }
    }
  }

  lemma NoTarget(v: Vault, target: BlockId)
    ensures !Targets(v, Ch('\n'), target)
  {
  }

  /** The cuts come from right to left: a later one starts no later, and one at the same place is the same. */
  ghost predicate RightToLeft(spans: seq<Span>) {
    forall i, j | 0 <= i < j < |spans| :: spans[i].start > spans[j].start || spans[i] == spans[j]
  }

  lemma {:induction false} ShiftAt(spans: seq<Span>, off: nat)
    ensures |Shift(spans, off)| == |spans|
    ensures forall i | 0 <= i < |spans| :: Shift(spans, off)[i] == Moved(spans[i], off)
  {
    if spans != [] { ShiftAt(spans[1..], off); }
  }

  lemma {:induction false} CopiesAt(s: Span, n: nat)
    ensures |Copies(s, n)| == n && forall i | 0 <= i < n :: Copies(s, n)[i] == s
  {
    if n > 0 { CopiesAt(s, n - 1); }
  }

  /** So taking the directives from the last one is sorting the spans by their start, downwards. */
  lemma {:induction false} SpansSorted(v: Vault, body: Body, target: BlockId)
    requires Bracketed(body)
    ensures RightToLeft(SpansTo(v, body, target, |body|))
    decreases |body|
  {
    hide SpansTo, Raw, Bytes, Hits, Bracketed;
    FirstLine(body, 0);
    var e := LineEnd(body, 0);
    var line := body[..e];
    assert line[..|line|] == line && body == line + body[e..];
    BracketedParts(line, body[e..]);
    SpansOnLine(v, line, body[e..], target, e);
    CopiesAt(Span(0, Bytes(Raw(line))), Hits(v, line, target));
    if e < |body| {
      var rest := body[e + 1..];
      BracketedParts(line + [Ch('\n')], rest);
      SpansSorted(v, rest, target);
      SpansBehind(v, line, rest, target, |rest|);
      BreakCounts(line);
      ShiftAt(SpansTo(v, rest, target, |rest|), Bytes(Raw(line + [Ch('\n')])));
    }
  }

  lemma BreakCounts(line: Body)
    ensures Bytes(Raw(line + [Ch('\n')])) > 0
  {
    RawNl(line);
    BytesConcat(Raw(line), "\n");
  }

  // ---------- cutting ----------

  lemma CutBehind(front: string, text: string, s: Span)
    ensures CutSpan(front + text, Moved(s, Bytes(front)))
            == if CutSpan(text, s).Some? then Some(front + CutSpan(text, s).value) else None
  {
    hide At, Bytes, Behind;
    AtConcat(front, text, s.start);
    AtConcat(front, text, s.end);
    var i, j := At(text, s.start), At(text, s.end);
    if i.Some? && j.Some? && s.start <= s.end {
      BehindConcat(front, text, j.value);
      assert (front + text)[..|front| + i.value] + Behind(text, j.value)
              == front + (text[..i.value] + Behind(text, j.value));
    }
  }

  lemma BehindConcat(front: string, text: string, i: nat)
    requires i <= |text|
    ensures Behind(front + text, |front| + i) == Behind(text, i)
  {
  }

  lemma {:induction false} CutsBehind(front: string, text: string, spans: seq<Span>)
    ensures CutSpans(front + text, Shift(spans, Bytes(front)))
            == if CutSpans(text, spans).Some? then Some(front + CutSpans(text, spans).value) else None
    decreases |spans|
  {
    hide CutSpan, Bytes;
    if spans != [] {
      CutBehind(front, text, spans[0]);
      var next := CutSpan(text, spans[0]);
      var off := Bytes(front);
      assert Shift(spans, off)[1..] == Shift(spans[1..], off);
      if next.Some? { CutsBehind(front, next.value, spans[1..]); }
    }
  }

  lemma {:induction false} CutsConcat(text: string, a: seq<Span>, b: seq<Span>)
    ensures CutSpans(text, a + b)
            == if CutSpans(text, a).Some? then CutSpans(CutSpans(text, a).value, b) else None
    decreases |a|
  {
    hide CutSpan;
    if a == [] {
      assert a + b == b;
    } else {
      assert (a + b)[1..] == a[1..] + b;
      var next := CutSpan(text, a[0]);
      if next.Some? { CutsConcat(next.value, a[1..], b); }
    }
  }

  lemma {:induction false} CutsAreBites(text: string, n: nat, times: nat)
    ensures CutSpans(text, Copies(Span(0, n), times)) == Eat(text, n, times)
    decreases times
  {
    hide Behind;
    if times > 0 {
      assert Copies(Span(0, n), times)[1..] == Copies(Span(0, n), times - 1);
      var i := At(text, n);
      if i.Some? {
        assert text[..0] + Behind(text, i.value) == Behind(text, i.value);
        CutsAreBites(Behind(text, i.value), n, times - 1);
      }
    }
  }

  lemma AtEnd(line: string, tail: string)
    ensures At(line + tail, Bytes(line)) == Some(|line|)
  {
    hide Bytes;
    AtConcat(line, tail, 0);
    assert At(tail, 0) == Some(0);
  }

  lemma BehindLine(line: string, rest: string, tail: string)
    requires (tail == "" && rest == "") || tail == "\n" + rest
    ensures Behind(line + tail, |line|) == rest
  {
    assert (line + tail)[|line|..] == tail;
    if tail != "" { assert (line + tail)[|line| + 1..] == rest; }
  }

  /** The first bite takes the line itself. */
  lemma FirstBite(line: string, rest: string, tail: string, times: nat)
    requires times > 0 && ((tail == "" && rest == "") || tail == "\n" + rest)
    ensures Eat(line + tail, Bytes(line), times) == Eat(rest, Bytes(line), times - 1)
  {
    AtEnd(line, tail);
    hide Bytes, At, Behind;
    BehindLine(line, rest, tail);
  }

  /** For every body, the stale offsets amount to the line-by-line definition. */
  lemma {:induction false} CutsByLine(v: Vault, body: Body, target: BlockId)
    requires Bracketed(body)
    ensures CutSpans(Raw(body), SpansTo(v, body, target, |body|)) == CutLines(v, body, target)
    decreases |body|
  {
    hide SpansTo, Raw, Bytes, Hits, Bracketed, CutLines, CutSpans;
    FirstLine(body, 0);
    var e := LineEnd(body, 0);
    var line := body[..e];
    if e == |body| {
      OnlyLineCut(v, line, target);
    } else {
      var rest := body[e + 1..];
      BracketedParts(line + [Ch('\n')], rest);
      CutsByLine(v, rest, target);
      InnerLineCut(v, line, rest, target);
    }
  }

  lemma OnlyLineCut(v: Vault, line: Body, target: BlockId)
    requires Bracketed(line) && NoBreak(line)
    ensures CutSpans(Raw(line), SpansTo(v, line, target, |line|)) == CutLines(v, line, target)
  {
    hide SpansTo, Raw, Bytes, Hits, Eat, Bracketed, CutSpans, CutLines;
    var hits, n := Hits(v, line, target), Bytes(Raw(line));
    assert line[..|line|] == line && line + [] == line && Raw(line) + "" == Raw(line);
    SpansOnLine(v, line, [], target, |line|);
    CutLinesLast(v, line, target);
    CutsAreBites(Raw(line), n, hits);
    if hits > 0 { FirstBite(Raw(line), "", "", hits); } else { NoEat(Raw(line), n); }
  }

  lemma InnerLineCut(v: Vault, line: Body, rest: Body, target: BlockId)
    requires Bracketed(line + [Ch('\n')] + rest) && NoBreak(line)
    requires CutSpans(Raw(rest), SpansTo(v, rest, target, |rest|)) == CutLines(v, rest, target)
    ensures var body := line + [Ch('\n')] + rest;
            CutSpans(Raw(body), SpansTo(v, body, target, |body|)) == CutLines(v, body, target)
  {
    hide SpansTo, Raw, Bytes, Hits, Eat, Bracketed, CutSpans, CutLines;
    var hits, n := Hits(v, line, target), Bytes(Raw(line));
    var tail := [Ch('\n')] + rest;
    assert line[..|line|] == line && line + tail == line + [Ch('\n')] + rest;
    BracketedParts(line, tail);
    SpansOnLine(v, line, tail, target, |line|);
    LaterLinesCut(v, line, rest, target);
    CutLinesCons(v, line, rest, target);
    var left := CutLines(v, rest, target);
    if left.Some? {
      var text := Raw(line) + "\n" + left.value;
      CutsAreBites(text, n, hits);
      assert text == Raw(line) + ("\n" + left.value);
      if hits > 0 { FirstBite(Raw(line), left.value, "\n" + left.value, hits); } else { NoEat(text, n); }
    }
  }

  lemma CutLinesLast(v: Vault, line: Body, target: BlockId)
    requires NoBreak(line)
    ensures var hits := Hits(v, line, target);
            CutLines(v, line, target) == if hits == 0 then Some(Raw(line)) else Eat("", Bytes(Raw(line)), hits - 1)
  {
    hide Hits, Raw, Bytes, Eat;
    LineEndLast(line, 0);
    assert line[..|line|] == line;
  }

  lemma CutLinesCons(v: Vault, line: Body, rest: Body, target: BlockId)
    requires NoBreak(line)
    ensures var hits, left := Hits(v, line, target), CutLines(v, rest, target);
            CutLines(v, line + [Ch('\n')] + rest, target)
            == if left.None? then None
               else if hits == 0 then Some(Raw(line) + "\n" + left.value)
               else Eat(left.value, Bytes(Raw(line)), hits - 1)
  {
    hide Hits, Raw, Bytes, Eat;
    var body := line + [Ch('\n')] + rest;
    LineEndOf(line, rest);
    assert body[..|line|] == line && body[|line| + 1..] == rest;
  }

  lemma {:induction false} LineEndLast(line: Body, k: nat)
    requires NoBreak(line) && k <= |line|
    ensures LineEnd(line, k) == |line|
    decreases |line| - k
  {
    if k < |line| { LineEndLast(line, k + 1); }
  }

  lemma LaterLinesCut(v: Vault, line: Body, rest: Body, target: BlockId)
    ensures var body := line + [Ch('\n')] + rest;
            var left := CutSpans(Raw(rest), SpansTo(v, rest, target, |rest|));
            CutSpans(Raw(body), SpansTo(v, body, target, |body|))
            == if left.Some? then CutSpans(Raw(line) + "\n" + left.value, SpansTo(v, body, target, |line|)) else None
  {
    hide SpansTo, Raw, Bytes, CutSpans;
    var front := line + [Ch('\n')];
    var body := front + rest;
    SpansBehind(v, line, rest, target, |rest|);
    RawConcat(front, rest);
    RawNl(line);
    CutsConcat(Raw(body), Shift(SpansTo(v, rest, target, |rest|), Bytes(Raw(front))), SpansTo(v, body, target, |line|));
    CutsBehind(Raw(front), Raw(rest), SpansTo(v, rest, target, |rest|));
  }

  // ---------- lines kept ----------

  function SplitLines(body: Body): seq<Body>
    decreases |body|
  {
    var e := LineEnd(body, 0);
    if e == |body| then [body] else [body[..e]] + SplitLines(body[e + 1..])
  }

  function JoinLines(lines: seq<Body>): Body {
    if lines == [] then [] else if |lines| == 1 then lines[0] else lines[0] + [Ch('\n')] + JoinLines(lines[1..])
  }

  function KeptLines(v: Vault, lines: seq<Body>, target: BlockId): seq<Body> {
    if lines == [] then []
    else (if Hits(v, lines[0], target) > 0 then [] else [lines[0]]) + KeptLines(v, lines[1..], target)
  }

  /** The body without the lines that hold a directive to `target`, each with its newline. */
  function Keep(v: Vault, body: Body, target: BlockId): Body
    decreases |body|
  {
    var e := LineEnd(body, 0);
    if e == |body| then (if Hits(v, body, target) > 0 then [] else body)
    else (if Hits(v, body[..e], target) > 0 then [] else body[..e + 1]) + Keep(v, body[e + 1..], target)
  }

  /** No line holds two directives to `target`: otherwise its span is cut twice. */
  predicate NoLineTwice(v: Vault, body: Body, target: BlockId) {
    forall line | line in SplitLines(body) :: Hits(v, line, target) <= 1
  }

  ghost predicate NoHits(v: Vault, body: Body, target: BlockId) {
    forall k | 0 <= k < |body| :: !Targets(v, body[k], target)
  }

  /** A hit leaves no line empty. */
  lemma {:induction false} HitHasBytes(v: Vault, line: Body, target: BlockId)
    requires Bracketed(line) && Hits(v, line, target) > 0
    ensures Bytes(Raw(line)) > 0
  {
    var a := line[0].Raw();
    assert a != "";
    BytesConcat(a, Raw(line[1..]));
  }

  lemma {:induction false} EatShrinks(text: string, n: nat, times: nat)
    requires n > 0 && Eat(text, n, times).Some?
    ensures |Eat(text, n, times).value| + times <= |text|
    decreases times
  {
    if times > 0 { EatShrinks(Behind(text, At(text, n).value), n, times - 1); }
  }

  lemma NoEat(text: string, n: nat)
    ensures Eat(text, n, 0) == Some(text)
  {
  }

  /** With at most one hit on each line, line by line is `Keep`; with two on one, less than that is left. */
  lemma {:induction false} CutLinesKeep(v: Vault, body: Body, target: BlockId)
    requires Bracketed(body)
    ensures NoLineTwice(v, body, target) ==> CutLines(v, body, target) == Some(Raw(Keep(v, body, target)))
    ensures CutLines(v, body, target).Some? ==>
              && |CutLines(v, body, target).value| <= |Raw(Keep(v, body, target))|
              && (!NoLineTwice(v, body, target) ==> |CutLines(v, body, target).value| < |Raw(Keep(v, body, target))|)
    decreases |body|
  {
    hide Raw, Bytes, Hits, NoLineTwice, Bracketed, SplitLines, CutLines;
    FirstLine(body, 0);
    TwiceByLine(v, body, target);
    var e := LineEnd(body, 0);
    var line := body[..e];
    var hits := Hits(v, line, target);
    if e == |body| {
      CutLinesLast(v, line, target);
      if hits > 0 { LineEaten(v, line, "", target); }
      RawNone();
    } else {
      var rest := body[e + 1..];
      assert body == line + ([Ch('\n')] + rest) && body[..e + 1] == line + [Ch('\n')];
      BracketedParts(line, [Ch('\n')] + rest);
      BracketedParts(line + [Ch('\n')], rest);
      CutLinesKeep(v, rest, target);
      CutLinesCons(v, line, rest, target);
      RawNl(line);
      RawConcat(line + [Ch('\n')], Keep(v, rest, target));
      assert [] + Keep(v, rest, target) == Keep(v, rest, target);
      var left := CutLines(v, rest, target);
      if left.Some? && hits > 0 { LineEaten(v, line, left.value, target); }
    }
  }

  lemma LineEaten(v: Vault, line: Body, text: string, target: BlockId)
    requires Bracketed(line) && Hits(v, line, target) > 0
    ensures var hits, r := Hits(v, line, target), Eat(text, Bytes(Raw(line)), Hits(v, line, target) - 1);
            && (hits == 1 ==> r == Some(text))
            && (hits > 1 && r.Some? ==> |r.value| < |text|)
  {
    hide Raw, Bytes, Hits, Bracketed;
    HitHasBytes(v, line, target);
    var n, hits := Bytes(Raw(line)), Hits(v, line, target);
    NoEat(text, n);
    if Eat(text, n, hits - 1).Some? { EatShrinks(text, n, hits - 1); }
  }

  lemma RawNone()
    ensures Raw([]) == ""
  {
  }

  lemma TwiceByLine(v: Vault, body: Body, target: BlockId)
    ensures var e := LineEnd(body, 0);
            NoLineTwice(v, body, target) <==>
              Hits(v, body[..e], target) <= 1 && (e < |body| ==> NoLineTwice(v, body[e + 1..], target))
  {
    hide Hits;
    var e := LineEnd(body, 0);
    if e == |body| {
      assert body[..e] == body;
    } else {
      var lines := SplitLines(body[e + 1..]);
      assert SplitLines(body) == [body[..e]] + lines;
      assert body[..e] in SplitLines(body);
      assert forall line | line in lines :: line in SplitLines(body);
    }
  }

  /** The cuts leave exactly the other lines if and only if no line holds two directives to the target. */
  lemma CutsKeepIff(v: Vault, body: Body, target: BlockId)
    requires Bracketed(body)
    ensures CutSpans(Raw(body), SpansTo(v, body, target, |body|)) == Some(Raw(Keep(v, body, target)))
            <==> NoLineTwice(v, body, target)
  {
    CutsByLine(v, body, target);
    CutLinesKeep(v, body, target);
  }

  // ---------- what unlinking leaves ----------

  /** The other lines in order, blank space at the end trimmed. */
  function Left(v: Vault, body: Body, target: BlockId): Body {
    TrimBodyEnd(JoinLines(KeptLines(v, SplitLines(body), target))) + Newline()
  }

  /** With at most one directive to the target on each line, unlinking keeps exactly the other lines. */
  lemma UnlinkKeepsOtherLines(v: Vault, body: Body, target: BlockId)
    requires Bracketed(body) && NoLineTwice(v, body, target)
    ensures Unlinked(v, body, target) == Ok(if NoHits(v, body, target) then None else Some(Raw(Left(v, body, target))))
  {
    SpansEmpty(v, body, target, |body|);
    assert body[..|body|] == body;
    CutsKeepIff(v, body, target);
    KeepIsFilter(v, body, target);
    KeepBracketed(v, body, target);
    RawTrimEnd(Keep(v, body, target));
    var kept := TrimBodyEnd(Keep(v, body, target));
    assert Newline() == [Ch('\n')];
    RawNl(kept);
  }

  lemma {:induction false} SpansEmpty(v: Vault, body: Body, target: BlockId, n: nat)
    requires n <= |body|
    ensures SpansTo(v, body, target, n) == [] <==> NoHits(v, body[..n], target)
  {
    hide SpanAt, Targets;
    if n > 0 {
      SpansEmpty(v, body, target, n - 1);
      assert body[..n] == body[..n - 1] + [body[n - 1]];
    }
  }

  lemma {:induction false} HitsNone(v: Vault, line: Body, target: BlockId)
    ensures Hits(v, line, target) == 0 <==> NoHits(v, line, target)
  {
    hide Targets;
    if line != [] {
      HitsNone(v, line[1..], target);
      assert line == [line[0]] + line[1..];
    }
  }

  lemma {:induction false} KeepBracketed(v: Vault, body: Body, target: BlockId)
    requires Bracketed(body)
    ensures Bracketed(Keep(v, body, target))
    decreases |body|
  {
    hide Hits, Bracket;
    var e := LineEnd(body, 0);
    if e < |body| {
      assert body == body[..e + 1] + body[e + 1..];
      BracketedParts(body[..e + 1], body[e + 1..]);
      KeepBracketed(v, body[e + 1..], target);
    }
  }

  /** Directives end in a bracket, so trimming the text trims the same characters. */
  lemma {:induction false} RawTrimEnd(body: Body)
    requires Bracketed(body)
    ensures TrimEnd(Raw(body)) == Raw(TrimBodyEnd(body))
    decreases |body|
  {
    if body != [] {
      var n := |body| - 1;
      var init, last := body[..n], body[n];
      assert body == init + [last];
      BracketedParts(init, [last]);
      RawConcat(init, [last]);
      assert [last][1..] == [] && Raw([last]) == last.Raw();
      assert last.Ref? ==> Bracket(last.src) by { assert last == body[n]; }
      var s := Raw(body);
      assert s[|s| - 1] == last.Raw()[|last.Raw()| - 1];
      if IsBlank(last) {
        assert s[..|s| - 1] == Raw(init);
        RawTrimEnd(init);
      }
    }
  }

  /** Cutting lines and filtering lines agree, up to blank space at the end. */
  lemma {:induction false} KeepIsFilter(v: Vault, body: Body, target: BlockId)
    ensures TrimBodyEnd(Keep(v, body, target)) == TrimBodyEnd(JoinLines(KeptLines(v, SplitLines(body), target)))
    decreases |body|
  {
    hide Hits, TrimBodyEnd;
    FirstLine(body, 0);
    var e := LineEnd(body, 0);
    var line := body[..e];
    if e == |body| {
      assert KeptLines(v, [body], target) == if Hits(v, body, target) > 0 then [] else [body];
    } else {
      var rest := body[e + 1..];
      KeepIsFilter(v, rest, target);
      var kept := KeptLines(v, SplitLines(rest), target);
      assert ([line] + SplitLines(rest))[1..] == SplitLines(rest);
      assert body[..e + 1] == line + [Ch('\n')];
      JoinAfter(line, kept, Keep(v, rest, target));
      assert [] + kept == kept && [] + Keep(v, rest, target) == Keep(v, rest, target);
    }
  }

  lemma JoinAfter(line: Body, kept: seq<Body>, rest: Body)
    requires TrimBodyEnd(rest) == TrimBodyEnd(JoinLines(kept))
    ensures TrimBodyEnd(line + [Ch('\n')] + rest) == TrimBodyEnd(JoinLines([line] + kept))
  {
    hide TrimBodyEnd;
    TrimEndAfter(line + [Ch('\n')], rest, JoinLines(kept));
    assert ([line] + kept)[1..] == kept;
    if kept == [] {
      assert line + [Ch('\n')] + [] == line + [Ch('\n')];
      TrimEndNewline(line);
    }
  }

  lemma TrimEndNewline(a: Body)
    ensures TrimBodyEnd(a + [Ch('\n')]) == TrimBodyEnd(a)
  {
    assert (a + [Ch('\n')])[..|a|] == a;
  }

  lemma {:induction false} TrimEndConcat(a: Body, b: Body)
    ensures TrimBodyEnd(a + b) == if TrimBodyEnd(b) == [] then TrimBodyEnd(a) else a + TrimBodyEnd(b)
    decreases |b|
  {
    if b == [] {
      assert a + b == a;
    } else if IsBlank(b[|b| - 1]) {
      var n := |b| - 1;
      assert (a + b)[..|a + b| - 1] == a + b[..n];
      TrimEndConcat(a, b[..n]);
    }
  }

  lemma TrimEndAfter(a: Body, b: Body, c: Body)
    requires TrimBodyEnd(b) == TrimBodyEnd(c)
    ensures TrimBodyEnd(a + b) == TrimBodyEnd(a + c)
  {
    TrimEndConcat(a, b);
    TrimEndConcat(a, c);
  }

  /** A line goes if one of its directives resolves to the block. */
  lemma {:induction false} HitsIs(v: Vault, line: Body, target: BlockId)
    requires target in v.blocks
    ensures Hits(v, line, target) > 0 <==> exists a :: a in line && a.Ref? && v.Resolve(a.target) == Some(target)
  {
    hide Targets, Vault.Resolve;
    if line != [] {
      TargetsIs(v, line[0], target);
      HitsIs(v, line[1..], target);
      assert line == [line[0]] + line[1..];
    }
  }

  /** What is left targets the block nowhere, and every directive of a kept line is still there. */
  lemma UnlinkRemovesAll(v: Vault, body: Body, target: BlockId)
    ensures NoHits(v, Left(v, body, target), target)
    ensures Refs(Left(v, body, target)) == Refs(JoinLines(KeptLines(v, SplitLines(body), target)))
    ensures forall x | x in Refs(Left(v, body, target)) :: x in Refs(body)
  {
    hide Targets;
    var kept, left := JoinLines(KeptLines(v, SplitLines(body), target)), Left(v, body, target);
    RefsTrimEnd(kept);
    RefsConcat(TrimBodyEnd(kept), Newline());
    RefsBlanks();
    JoinedNoHits(v, SplitLines(body), target);
    forall k | 0 <= k < |left| ensures !Targets(v, left[k], target) {
      if left[k].Ref? {
        RefsMember(left, left[k]);
        RefsMember(kept, left[k]);
      } else {
        assert !Targets(v, left[k], target) by { CharNoTarget(v, left[k], target); }
      }
    }
    forall x | x in Refs(left) ensures x in Refs(body) { KeptRefs(v, body, target, x); }
  }

  lemma CharNoTarget(v: Vault, a: Atom, target: BlockId)
    requires !a.Ref?
    ensures !Targets(v, a, target)
  {
  }

  lemma {:induction false} JoinedNoHits(v: Vault, lines: seq<Body>, target: BlockId)
    ensures NoHits(v, JoinLines(KeptLines(v, lines, target)), target)
  {
    hide Targets, Hits;
    if lines != [] {
      NoTarget(v, target);
      HitsNone(v, lines[0], target);
      JoinedNoHits(v, lines[1..], target);
      var kept := KeptLines(v, lines[1..], target);
      assert ([lines[0]] + kept)[1..] == kept;
      assert [] + kept == kept;
    }
  }

  lemma {:induction false} KeptRefs(v: Vault, body: Body, target: BlockId, x: Atom)
    requires x in Refs(JoinLines(KeptLines(v, SplitLines(body), target)))
    ensures x in Refs(body)
    decreases |body|
  {
    hide Hits, Refs;
    RefsMember(JoinLines(KeptLines(v, SplitLines(body), target)), x);
    RefsMember(body, x);
    var e := LineEnd(body, 0);
    if e < |body| {
      var rest := body[e + 1..];
      var kept := KeptLines(v, SplitLines(rest), target);
      assert ([body[..e]] + SplitLines(rest))[1..] == SplitLines(rest);
      assert ([body[..e]] + kept)[1..] == kept && [] + kept == kept;
      if x in JoinLines(kept) {
        RefsMember(JoinLines(kept), x);
        KeptRefs(v, rest, target, x);
        RefsMember(rest, x);
      } else {
        assert x in body[..e] + [Ch('\n')];
      }
    }
  }

  // ---------- what is left is read back ----------

  lemma ReadableBracketed(body: Body, inFence: bool)
    requires Readable(body, inFence)
    ensures Bracketed(body)
  {
    ReadableRefs(body, inFence);
  }

  /** Lines that hold a directive leave the fences as they are, so the others are read as before. */
  lemma {:induction false} KeepReads(v: Vault, body: Body, target: BlockId, inFence: bool)
    requires Readable(body, inFence)
    ensures Readable(Keep(v, body, target), inFence) && Open(Keep(v, body, target), inFence) == Open(body, inFence)
    decreases |body|
  {
    hide Readable, Open, Hits, FullLines;
    FirstLine(body, 0);
    var e := LineEnd(body, 0);
    var line := body[..e];
    if e == |body| {
      if Hits(v, body, target) > 0 {
        HitLine(v, body, target, inFence);
        EmptyReads();
      }
    } else {
      var nl, rest := [Ch('\n')], body[e + 1..];
      assert body[..e + 1] == line + nl;
      FullOnes(line);
      Apart(line + nl, rest, inFence);
      SpaceAfter(line, '\n', inFence);
      OpenConcat(line + nl, rest, inFence);
      KeepReads(v, rest, target, Open(line + nl, inFence));
      if Hits(v, line, target) > 0 {
        HitLine(v, line, target, inFence);
        assert [] + Keep(v, rest, target) == Keep(v, rest, target);
      } else {
        Together(line + nl, Keep(v, rest, target), inFence);
      }
    }
  }

  lemma FullOnes(line: Body)
    ensures FullLines(line + [Ch('\n')])
  {
  }

  lemma HitLine(v: Vault, line: Body, target: BlockId, inFence: bool)
    requires NoBreak(line) && Hits(v, line, target) > 0 && Readable(line, inFence)
    ensures !inFence && !Open(line, inFence)
  {
    hide Readable, Open, Targets, HeadLine, NoBreakIn, Bracket;
    HitsNone(v, line, target);
    var k :| 0 <= k < |line| && Targets(v, line[k], target);
    if !line[k].Ref? { CharNoTarget(v, line[k], target); }
    ReadableRefs(line, inFence);
    forall i | 0 <= i < |line| && line[i].Ref? ensures NoBreakIn(line[i].src) { BracketNoBreak(line[i].src); }
    RawNoBreak(line);
    WholeHead(Raw(line));
    LiveText(line, inFence, k);
  }

  /** So nothing an unlink leaves of other lines is hidden in code or brought out of it. */
  lemma UnlinkReads(v: Vault, body: Body, target: BlockId)
    requires Readable(body, false)
    ensures Readable(Left(v, body, target), false)
  {
    hide Readable, Open, Keep, TrimBodyEnd, Hits;
    KeepReads(v, body, target, false);
    KeepIsFilter(v, body, target);
    TrimmedEnd(Keep(v, body, target), false);
    SpaceAfter(TrimBodyEnd(Keep(v, body, target)), '\n', false);
    assert Newline() == [Ch('\n')];
  }

  // ---------- two on one line ----------

  /**
   A line with two directives to the target, and none behind it: the second cut takes the line's length out of
   what follows, and panics if there is less, or the cut falls inside a character.
   */
  lemma UnlinkTwice(v: Vault, line: Body, rest: Body, target: BlockId)
    requires Bracketed(line + [Ch('\n')] + rest) && NoBreak(line) && Hits(v, line, target) == 2
    requires NoHits(v, rest, target)
    ensures var i := At(Raw(rest), Bytes(Raw(line)));
            Unlinked(v, line + [Ch('\n')] + rest, target)
            == if i.None? then Err("slice out of range") else Ok(Some(TrimEnd(Behind(Raw(rest), i.value)) + "\n"))
  {
    hide Raw, Bytes, Targets, Hits, Bracketed, SpanAt;
    var body := line + [Ch('\n')] + rest;
    LineEndOf(line, rest);
    assert body[..|line|] == line && body[|line| + 1..] == rest;
    BracketedParts(line + [Ch('\n')], rest);
    HitsNone(v, line, target);
    assert !NoHits(v, body, target) by {
      var k :| 0 <= k < |line| && Targets(v, line[k], target);
      assert body[k] == line[k];
    }
    SpansEmpty(v, body, target, |body|);
    assert body[..|body|] == body;
    CutsByLine(v, body, target);
    NothingCut(v, rest, target);
    BittenOnce(Raw(rest), Bytes(Raw(line)));
  }

  lemma BittenOnce(text: string, n: nat)
    ensures Eat(text, n, 1) == if At(text, n).None? then None else Some(Behind(text, At(text, n).value))
  {
    if At(text, n).Some? { NoEat(Behind(text, At(text, n).value), n); }
  }

  lemma {:induction false} LineEndFrom(line: Body, rest: Body, k: nat)
    requires NoBreak(line) && k <= |line|
    ensures LineEnd(line + [Ch('\n')] + rest, k) == |line|
    decreases |line| - k
  {
    if k < |line| {
      assert (line + [Ch('\n')] + rest)[k] == line[k];
      LineEndFrom(line, rest, k + 1);
    }
  }

  lemma LineEndOf(line: Body, rest: Body)
    requires NoBreak(line)
    ensures LineEnd(line + [Ch('\n')] + rest, 0) == |line|
  {
    LineEndFrom(line, rest, 0);
  }

  lemma NothingCut(v: Vault, body: Body, target: BlockId)
    requires Bracketed(body) && NoHits(v, body, target)
    ensures CutLines(v, body, target) == Some(Raw(body))
  {
    hide CutLines, Targets, Raw;
    SpansEmpty(v, body, target, |body|);
    assert body[..|body|] == body;
    CutsByLine(v, body, target);
  }

  predicate Ascii(s: string) { forall i | 0 <= i < |s| :: s[i] < '\U{0080}' }

  lemma {:induction false} AsciiAt(s: string, rest: string)
    requires Ascii(s)
    ensures Bytes(s) == |s| && At(s + rest, |s|) == Some(|s|)
  {
    if s == "" {
      assert s + rest == rest;
    } else {
      assert (s + rest)[1..] == s[1..] + rest;
      AsciiAt(s[1..], rest);
    }
  }

  /** Two embeds of `target` next to each other: 62 bytes. */
  function Doubled(target: BlockId): Body { [EmbedOf(target), EmbedOf(target)] }

  lemma DoubledHits(v: Vault, target: BlockId)
    requires target in v.blocks
    ensures Hits(v, Doubled(target), target) == 2 && NoBreak(Doubled(target)) && Bracketed(Doubled(target))
    ensures Bytes(Raw(Doubled(target))) == 62
  {
    var one, two := EmbedOf(target), Doubled(target);
    ResolveId(v, target);
    assert two[1..] == [one] && [one][1..] == [];
    assert Targets(v, one, target);
    assert Hits(v, [one], target) == 1;
    assert Raw([one]) == one.src && two == [one] + [one];
    RawConcat([one], [one]);
    assert |one.src| == 31 && Ascii(one.src) by { assert forall i | 0 <= i < 26 :: one.src[3 + i] == target[i]; }
    AsciiAt(one.src + one.src, "");
    assert Bracket(one.src) by { assert forall i | 0 <= i < 26 :: target[i] != '\n'; }
  }

  /** A body that is nothing but such a line panics; longer text behind it loses its first 62 bytes. */
  lemma UnlinkTwiceEatsText(v: Vault, target: BlockId, eaten: string, rest: Body)
    requires target in v.blocks
    requires |eaten| == 62 && Ascii(eaten) && Bracketed(rest) && NoHits(v, rest, target)
    ensures Unlinked(v, Doubled(target) + [Ch('\n')], target) == Err("slice out of range")
    ensures Unlinked(v, Doubled(target) + [Ch('\n')] + (Chars(eaten) + rest), target)
            == Ok(Some(TrimEnd(Behind(Raw(rest), 0)) + "\n"))
  {
    hide Unlinked, Raw, Bytes, Targets, Hits, TrimEnd, EmbedOf;
    DoubledHits(v, target);
    var line, tail := Doubled(target), Chars(eaten) + rest;
    assert line + [Ch('\n')] + [] == line + [Ch('\n')];
    RawNone();
    UnlinkTwice(v, line, [], target);
    RawConcat(Chars(eaten), rest);
    RawChars(eaten);
    AsciiAt(eaten, Raw(rest));
    BehindConcat(eaten, Raw(rest), 0);
    EatenNoHits(v, eaten, rest, target);
    UnlinkTwice(v, line, tail, target);
  }

  lemma EatenNoHits(v: Vault, eaten: string, rest: Body, target: BlockId)
    requires Bracketed(rest) && NoHits(v, rest, target)
    ensures NoHits(v, Chars(eaten) + rest, target) && Bracketed(Chars(eaten) + rest)
  {
  }
}
