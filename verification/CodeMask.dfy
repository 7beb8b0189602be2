/**
 Where directives and inline tags are not looked for: inline code spans (section 6.1 of CommonMark 0.31.2, within
 one line) and fenced lines. Two masking loops and two fence walks are compared. Positions count characters.
 */
module CodeMask {
  import opened Prelude
  import opened Text

  // ---------- what a code span is ----------

  predicate Tick(s: string, i: int) { 0 <= i < |s| && s[i] == '`' }

  /** A backtick string: backticks with no backtick before or after. */
  ghost predicate IsRun(s: string, a: int, b: int) {
    a < b && (forall i | a <= i < b :: Tick(s, i)) && !Tick(s, a - 1) && !Tick(s, b)
  }

  /** The run `[c, d)` is the first one after `[a, b)` that has its length. */
  ghost predicate Closes(s: string, a: int, b: int, c: int, d: int) {
    && IsRun(s, a, b) && IsRun(s, c, d) && b <= c && d - c == b - a
    && forall x, y | IsRun(s, x, y) && b <= x < c :: y - x != b - a
  }

  ghost predicate Unclosed(s: string, a: int, b: int) {
    IsRun(s, a, b) && forall x, y | IsRun(s, x, y) && b <= x :: y - x != b - a
  }

  type Spans = seq<(nat, nat)>

  /** The code spans from position `p` on, chosen left to right: runs that are never closed are text. */
  ghost predicate AreCodeSpans(s: string, p: int, spans: Spans)
    decreases |spans|
  {
    if spans == [] then forall a, b | IsRun(s, a, b) && p <= a :: Unclosed(s, a, b) else
    var (a, d) := spans[0];
    && p <= a && (forall x, y | IsRun(s, x, y) && p <= x < a :: Unclosed(s, x, y))
    && (exists b, c :: Closes(s, a, b, c, d))
    && AreCodeSpans(s, d, spans[1..])
  }

  lemma RunUnique(s: string, a: int, b: int, c: int)
    requires IsRun(s, a, b) && IsRun(s, a, c)
    ensures b == c
  {
    assert b < c ==> Tick(s, b);
    assert c < b ==> Tick(s, c);
  }

  lemma CloseUnique(s: string, a: int, b: int, c: int, d: int, b': int, c': int, d': int)
    requires Closes(s, a, b, c, d) && Closes(s, a, b', c', d')
    ensures d == d' && !Unclosed(s, a, b)
  {
    RunUnique(s, a, b, b');
    assert c == c';
  }

  /** That description fits one list of spans only. */
  lemma {:induction false} CodeSpansUnique(s: string, p: int, x: Spans, y: Spans)
    requires AreCodeSpans(s, p, x) && AreCodeSpans(s, p, y)
    ensures x == y
    decreases |x|
  {
    hide IsRun, Unclosed, Tick;
    if x != [] { SomeCloser(s, x[0].0, x[0].1); }
    if y != [] { SomeCloser(s, y[0].0, y[0].1); }
    if x != [] && y != [] {
      var (a, d) := x[0];
      var (a', d') := y[0];
      var b, c :| Closes(s, a, b, c, d);
      var b', c' :| Closes(s, a', b', c', d');
      CloseUnique(s, a, b, c, d, b, c, d);
      CloseUnique(s, a', b', c', d', b', c', d');
      assert a == a';
      CloseUnique(s, a, b, c, d, b', c', d');
      CodeSpansUnique(s, d, x[1..], y[1..]);
      assert x == [x[0]] + x[1..] && y == [y[0]] + y[1..];
    }
  }

  lemma SomeCloser(s: string, a: int, d: int)
    requires exists b, c :: Closes(s, a, b, c, d)
    ensures exists b :: IsRun(s, a, b) && !Unclosed(s, a, b)
  {
    var b, c :| Closes(s, a, b, c, d);
    assert IsRun(s, a, b);
  }

  // ---------- the loops' own way of finding them ----------

  function NextTick(s: string, p: nat): (a: nat)
    requires p <= |s|
    ensures p <= a <= |s| && (a < |s| ==> Tick(s, a))
    ensures forall i | p <= i < a :: !Tick(s, i)
    decreases |s| - p
  {
    if p == |s| || Tick(s, p) then p else NextTick(s, p + 1)
  }

  function RunEnd(s: string, a: nat): (b: nat)
    requires a <= |s|
    ensures a <= b <= |s| && !Tick(s, b)
    ensures forall i | a <= i < b :: Tick(s, i)
    ensures Tick(s, a) ==> a < b
    decreases |s| - a
  {
    if Tick(s, a) then RunEnd(s, a + 1) else a
  }

  /** The end of the first run of length `n` from `p` on. */
  function Closer(s: string, p: nat, n: nat): (d: Option<nat>)
    requires p <= |s|
    ensures d.Some? ==> p <= d.value <= |s|
    decreases |s| - p
  {
    var a := NextTick(s, p);
    if a == |s| then None else
    var b := RunEnd(s, a);
    if b - a == n then Some(b) else Closer(s, b, n)
  }

  /** All code spans from `p` on. */
  function SpansFrom(s: string, p: nat): (spans: Spans)
    requires p <= |s|
    decreases |s| - p
  {
    var a := NextTick(s, p);
    if a == |s| then [] else
    var b := RunEnd(s, a);
    var d := Closer(s, b, b - a);
    if d.None? then SpansFrom(s, b) else [(a, d.value)] + SpansFrom(s, d.value)
  }

  /** The code spans before the first run that is never closed. */
  function SpansUntilUnclosed(s: string, p: nat): (spans: Spans)
    requires p <= |s|
    decreases |s| - p
  {
    var a := NextTick(s, p);
    if a == |s| then [] else
    var b := RunEnd(s, a);
    var d := Closer(s, b, b - a);
    if d.None? then [] else [(a, d.value)] + SpansUntilUnclosed(s, d.value)
  }

  /** A position from which scanning meets whole runs only. */
  ghost predicate AtBoundary(s: string, p: nat) {
    p <= |s| && !(Tick(s, p - 1) && Tick(s, p))
  }

  lemma RunFound(s: string, p: nat)
    requires AtBoundary(s, p) && NextTick(s, p) < |s|
    ensures IsRun(s, NextTick(s, p), RunEnd(s, NextTick(s, p)))
    ensures AtBoundary(s, RunEnd(s, NextTick(s, p)))
    ensures forall x, y | IsRun(s, x, y) && p <= x :: x == NextTick(s, p) || x >= RunEnd(s, NextTick(s, p))
  {
    var a := NextTick(s, p);
    var b := RunEnd(s, a);
    forall x: int, y: int | IsRun(s, x, y) && p <= x ensures x == a || x >= b {
      assert a < x < b ==> Tick(s, x - 1);
      assert x < a ==> !Tick(s, x);
    }
  }

  lemma NoRunFound(s: string, p: nat)
    requires p <= |s| && NextTick(s, p) == |s|
    ensures forall x, y | IsRun(s, x, y) :: x < p
  {
    forall x, y | IsRun(s, x, y) ensures x < p {
      assert p <= x ==> !Tick(s, x);
    }
  }

  /** `Closer` finds the first run of its length, if any. */
  lemma {:induction false} CloserIs(s: string, p: nat, n: nat)
    requires AtBoundary(s, p)
    ensures Closer(s, p, n).None? ==> forall x, y | IsRun(s, x, y) && p <= x :: y - x != n
    ensures Closer(s, p, n).Some? ==>
              var d := Closer(s, p, n).value;
              IsRun(s, d - n, d) && p <= d - n && AtBoundary(s, d) && forall x, y | IsRun(s, x, y)
                && p <= x < d - n :: y - x != n
    decreases |s| - p
  {
    var a := NextTick(s, p);
    if a == |s| {
      NoRunFound(s, p);
    } else {
      var b := RunEnd(s, a);
      RunFound(s, p);
      if b - a != n {
        CloserIs(s, b, n);
        forall x, y | IsRun(s, x, y) && p <= x && x < b ensures y - x != n { RunUnique(s, a, b, y); }
      }
    }
  }

  /** The functional scan meets the definition. */
  lemma {:induction false} SpansFromAreCodeSpans(s: string, p: nat)
    requires AtBoundary(s, p)
    ensures AreCodeSpans(s, p, SpansFrom(s, p))
    decreases |s| - p
  {
    hide AreCodeSpans, NextTick, RunEnd, Closer, IsRun, Tick;
    var a := NextTick(s, p);
    if a == |s| {
      NoSpans(s, p);
    } else {
      var b := RunEnd(s, a);
      RunFound(s, p);
      CloserIs(s, b, b - a);
      var d := Closer(s, b, b - a);
      if d.None? {
        SpansFromAreCodeSpans(s, b);
        UnclosedFirst(s, p, a, b, SpansFrom(s, b));
      } else {
        SpansFromAreCodeSpans(s, d.value);
        ClosedFirst(s, p, a, b, d.value, SpansFrom(s, d.value));
      }
    }
  }

  lemma NoSpans(s: string, p: nat)
    requires p <= |s| && NextTick(s, p) == |s|
    ensures AreCodeSpans(s, p, [])
  {
    NoRunFound(s, p);
  }

  lemma ClosedFirst(s: string, p: nat, a: nat, b: nat, d: nat, rest: Spans)
    requires IsRun(s, a, b) && p <= a && d >= b - a && IsRun(s, d - (b - a), d) && b <= d - (b - a)
    requires AreCodeSpans(s, d, rest)
    requires forall x, y | IsRun(s, x, y) && p <= x :: x == a || x >= b
    requires forall x, y | IsRun(s, x, y) && b <= x < d - (b - a) :: y - x != b - a
    ensures AreCodeSpans(s, p, [(a, d)] + rest)
  {
    var spans := [(a, d)] + rest;
    assert spans[1..] == rest && spans[0] == (a, d);
    assert Closes(s, a, b, d - (b - a), d);
    hide IsRun, Unclosed, Tick;
  }

  lemma UnclosedFirst(s: string, p: nat, a: nat, b: nat, spans: Spans)
    requires IsRun(s, a, b) && p <= a && AreCodeSpans(s, b, spans)
    requires forall x, y | IsRun(s, x, y) && p <= x :: x == a || x >= b
    requires forall x, y | IsRun(s, x, y) && b <= x :: y - x != b - a
    ensures AreCodeSpans(s, p, spans)
  {
    assert Unclosed(s, a, b);
    forall x, y | IsRun(s, x, y) && p <= x && x < b ensures Unclosed(s, x, y) { RunUnique(s, a, b, y); }
    hide IsRun, Unclosed;
  }

  // ---------- masks ----------

  predicate InSpans(spans: Spans, k: int) {
    exists i | 0 <= i < |spans| :: spans[i].0 <= k < spans[i].1
  }

  method MeasureRun(s: string, from: nat) returns (i: nat)
    requires from <= |s|
    ensures i == RunEnd(s, from)
  {
    i := from;
    while i < |s| && s[i] == '`'
      invariant from <= i <= |s| && RunEnd(s, i) == RunEnd(s, from)
    {
      i := i + 1;
    }
  }

  method FindCloser(s: string, from: nat, n: nat) returns (d: Option<nat>)
    requires from <= |s|
    ensures d == Closer(s, from, n)
  {
    var j := from;
    while j < |s|
      invariant from <= j <= |s| && Closer(s, j, n) == Closer(s, from, n)
      decreases |s| - j
    {
      if s[j] == '`' {
        var e := MeasureRun(s, j);
        if e - j == n { return Some(e); }
        j := e;
      } else {
        j := j + 1;
      }
    }
    d := None;
  }

  /** Spans found from `p` on lie there. */
  lemma {:induction false} SpansBeyond(s: string, p: nat)
    requires p <= |s|
    ensures forall k: int | InSpans(SpansFrom(s, p), k) :: p <= k < |s|
    decreases |s| - p
  {
    hide Closer, RunEnd;
    var a := NextTick(s, p);
    if a < |s| {
      var b := RunEnd(s, a);
      var d := Closer(s, b, b - a);
      if d.None? {
        SpansBeyond(s, b);
      } else {
        SpansBeyond(s, d.value);
        forall k: int ensures InSpans(SpansFrom(s, p), k) <==> a <= k < d.value || InSpans(SpansFrom(s, d.value), k) {
          InSpansCons((a, d.value), SpansFrom(s, d.value), k);
        }
      }
    }
  }

  lemma InSpansCons(x: (nat, nat), rest: Spans, k: int)
    ensures InSpans([x] + rest, k) <==> x.0 <= k < x.1 || InSpans(rest, k)
  {
    var all := [x] + rest;
    if i :| 0 <= i < |rest| && rest[i].0 <= k < rest[i].1 { assert all[i + 1] == rest[i]; }
    assert all[0] == x;
  }

  lemma StepChar(s: string, i: nat)
    requires i < |s| && s[i] != '`'
    ensures SpansFrom(s, i) == SpansFrom(s, i + 1) && !InSpans(SpansFrom(s, i), i)
  {
    assert NextTick(s, i) == NextTick(s, i + 1);
    SpansBeyond(s, i + 1);
  }

  lemma UnfoldFrom(s: string, i: nat)
    requires i < |s| && s[i] == '`'
    ensures
      var b := RunEnd(s, i);
      var d := Closer(s, b, b - i);
      SpansFrom(s, i) == if d.Some? then [(i, d.value)] + SpansFrom(s, d.value) else SpansFrom(s, b)
  {
    hide Closer, RunEnd;
    assert NextTick(s, i) == i;
  }

  lemma UnfoldUntil(s: string, i: nat)
    requires i < |s| && s[i] == '`'
    ensures
      var b := RunEnd(s, i);
      var d := Closer(s, b, b - i);
      SpansUntilUnclosed(s, i) == if d.Some? then [(i, d.value)] + SpansUntilUnclosed(s, d.value) else []
  {
    hide Closer, RunEnd;
    assert NextTick(s, i) == i;
  }

  lemma NoneInNone()
    ensures forall k: int :: !InSpans([], k)
  {}

  lemma StepRun(s: string, i: nat)
    requires i < |s| && s[i] == '`'
    ensures
      var b := RunEnd(s, i);
      var d := Closer(s, b, b - i);
      if d.Some? then forall k: int ::
        InSpans(SpansFrom(s, i), k) <==> i <= k < d.value || InSpans(SpansFrom(s, d.value), k)
      else SpansFrom(s, i) == SpansFrom(s, b) && forall k: int | k < b :: !InSpans(SpansFrom(s, i), k)
  {
    hide Closer, RunEnd, SpansFrom, InSpans;
    UnfoldFrom(s, i);
    var b := RunEnd(s, i);
    var d := Closer(s, b, b - i);
    if d.Some? {
      SpansBeyond(s, d.value);
      forall k: int ensures InSpans(SpansFrom(s, i), k) <==> i <= k < d.value || InSpans(SpansFrom(s, d.value), k) {
        InSpansCons((i, d.value), SpansFrom(s, d.value), k);
      }
    } else {
      SpansBeyond(s, b);
    }
  }

  /** Inline code spans replaced by blanks; an unclosed run is left as it is and the scan goes on behind it. */
  method MaskCodeSpans(line: string) returns (out: string)
    ensures |out| == |line|
    ensures forall k | 0 <= k < |line| :: out[k] == if InSpans(SpansFrom(line, 0), k) then ' ' else line[k]
  {
    hide Closer, RunEnd, SpansFrom, InSpans;
    out := "";
    var i := 0;
    ghost var all := SpansFrom(line, 0);
    while i < |line|
      invariant 0 <= i <= |line| && |out| == i
      invariant forall k | 0 <= k < i :: out[k] == if InSpans(all, k) then ' ' else line[k]
      invariant forall k: int | i <= k :: InSpans(all, k) <==> InSpans(SpansFrom(line, i), k)
      decreases |line| - i
    {
      if line[i] != '`' {
        StepChar(line, i);
        out := out + [line[i]];
        i := i + 1;
      } else {
        StepRun(line, i);
        var b := MeasureRun(line, i);
        var end := FindCloser(line, b, b - i);
        if end.Some? {
          SpansBeyond(line, end.value);
          out := out + Spaces(end.value - i);
          i := end.value;
        } else {
          out := out + line[i..b];
          i := b;
        }
      }
    }
  }

  /** Marks inline code spans of a line that starts at `base` in the mask; the first unclosed run ends the work. */
  method MarkInlineCode(line: string, base: nat, mask: array<bool>)
    requires base + |line| <= mask.Length
    modifies mask
    ensures forall k | 0 <= k < mask.Length ::
              mask[k] == (old(mask[k]) || (base <= k < base + |line| && InSpans(SpansUntilUnclosed(line, 0), k - base)))
  {
    hide Closer, RunEnd, SpansUntilUnclosed, InSpans;
    var i := 0;
    ghost var all := SpansUntilUnclosed(line, 0);
    while i < |line|
      invariant 0 <= i <= |line|
      invariant forall k | 0 <= k < mask.Length ::
              mask[k] == (old(mask[k]) || (base <= k < base + i && InSpans(all, k - base)))
      invariant forall k: int | i <= k :: InSpans(all, k) <==> InSpans(SpansUntilUnclosed(line, i), k)
      decreases |line| - i
    {
      if line[i] == '`' {
        MarkRun(line, i);
        var start := i;
        i := MeasureRun(line, i);
        var closed := FindCloser(line, i, i - start);
        if closed.None? {
          forall k: int ensures !InSpans(SpansUntilUnclosed(line, start), k) {}
          break;
        }
        Mark(mask, base + start, base + closed.value);
        i := closed.value;
      } else {
        MarkChar(line, i);
        i := i + 1;
      }
    }
    assert i == |line| ==> forall k: int | i <= k ::
            !InSpans(SpansUntilUnclosed(line, i), k) by { UntilBeyond(line, |line|); }
  }

  method Mark(mask: array<bool>, start: nat, end: nat)
    requires start <= end <= mask.Length
    modifies mask
    ensures forall k | 0 <= k < mask.Length :: mask[k] == (old(mask[k]) || start <= k < end)
  {
    for i := start to end
      invariant forall k | 0 <= k < mask.Length :: mask[k] == (old(mask[k]) || start <= k < i)
    {
      mask[i] := true;
    }
  }

  lemma {:induction false} UntilBeyond(s: string, p: nat)
    requires p <= |s|
    ensures forall k: int | InSpans(SpansUntilUnclosed(s, p), k) :: p <= k < |s|
    decreases |s| - p
  {
    hide Closer, RunEnd;
    var a := NextTick(s, p);
    if a < |s| {
      var b := RunEnd(s, a);
      var d := Closer(s, b, b - a);
      if d.Some? {
        UntilBeyond(s, d.value);
        forall k: int
          ensures InSpans(SpansUntilUnclosed(s, p), k)
                  <==> a <= k < d.value || InSpans(SpansUntilUnclosed(s, d.value), k)
        {
          InSpansCons((a, d.value), SpansUntilUnclosed(s, d.value), k);
        }
      }
    }
  }

  lemma MarkChar(s: string, i: nat)
    requires i < |s| && s[i] != '`'
    ensures SpansUntilUnclosed(s, i) == SpansUntilUnclosed(s, i + 1) && !InSpans(SpansUntilUnclosed(s, i), i)
  {
    assert NextTick(s, i) == NextTick(s, i + 1);
    UntilBeyond(s, i + 1);
  }

  lemma MarkRun(s: string, i: nat)
    requires i < |s| && s[i] == '`'
    ensures
      var b := RunEnd(s, i);
      var d := Closer(s, b, b - i);
      if d.Some? then (forall k: int :: InSpans(SpansUntilUnclosed(s, i), k)
                                        <==> i <= k < d.value || InSpans(SpansUntilUnclosed(s, d.value), k))
                      && forall k: int | InSpans(SpansUntilUnclosed(s, d.value), k) :: d.value <= k
      else forall k: int :: !InSpans(SpansUntilUnclosed(s, i), k)
  {
    NoneInNone();
    hide Closer, RunEnd, SpansUntilUnclosed, InSpans;
    UnfoldUntil(s, i);
    var b := RunEnd(s, i);
    var d := Closer(s, b, b - i);
    if d.Some? {
      UntilBeyond(s, d.value);
      forall k: int ensures InSpans(SpansUntilUnclosed(s, i), k)
        <==> i <= k < d.value || InSpans(SpansUntilUnclosed(s, d.value), k) {
        InSpansCons((i, d.value), SpansUntilUnclosed(s, d.value), k);
      }
    }
  }

  // ---------- the two loops compared ----------

  /** Where the scan meets its first run that is never closed; the length when there is none. */
  function FirstUnclosed(s: string, p: nat): (u: nat)
    requires p <= |s|
    ensures p <= u <= |s|
    decreases |s| - p
  {
    var a := NextTick(s, p);
    if a == |s| then |s| else
    var b := RunEnd(s, a);
    var d := Closer(s, b, b - a);
    if d.None? then a else FirstUnclosed(s, d.value)
  }

  /** Both loops mark the same up to the first unclosed run; behind it only `MaskCodeSpans` marks anything. */
  lemma {:induction false} MasksAgree(s: string, p: nat)
    requires p <= |s|
    ensures forall k: int | InSpans(SpansUntilUnclosed(s, p), k) ::
            k < FirstUnclosed(s, p) && InSpans(SpansFrom(s, p), k)
    ensures forall k: int | k < FirstUnclosed(s, p) ::
            InSpans(SpansUntilUnclosed(s, p), k) <==> InSpans(SpansFrom(s, p), k)
    ensures FirstUnclosed(s, p) == |s| ==> SpansUntilUnclosed(s, p) == SpansFrom(s, p)
    decreases |s| - p
  {
    hide Closer, RunEnd, InSpans;
    NoneInNone();
    var a := NextTick(s, p);
    if a < |s| {
      var b := RunEnd(s, a);
      var d := Closer(s, b, b - a);
      if d.None? {
        SpansBeyond(s, b);
      } else {
        MasksAgree(s, d.value);
        forall k: int
          ensures InSpans(SpansUntilUnclosed(s, p), k)
                  <==> a <= k < d.value || InSpans(SpansUntilUnclosed(s, d.value), k)
        {
          InSpansCons((a, d.value), SpansUntilUnclosed(s, d.value), k);
        }
        forall k: int ensures InSpans(SpansFrom(s, p), k) <==> a <= k < d.value || InSpans(SpansFrom(s, d.value), k) {
          InSpansCons((a, d.value), SpansFrom(s, d.value), k);
        }
      }
    }
  }

  /** The run it stops at is never closed. */
  lemma {:induction false} FirstUnclosedIs(s: string, p: nat)
    requires AtBoundary(s, p)
    ensures FirstUnclosed(s, p) < |s| ==> exists b :: Unclosed(s, FirstUnclosed(s, p), b)
    decreases |s| - p
  {
    hide IsRun, Tick, RunEnd, Closer, NextTick;
    var a := NextTick(s, p);
    if a < |s| {
      var b := RunEnd(s, a);
      RunFound(s, p);
      CloserIs(s, b, b - a);
      var d := Closer(s, b, b - a);
      if d.None? {
        assert Unclosed(s, a, b);
      } else {
        FirstUnclosedIs(s, d.value);
      }
    }
  }

  // ---------- fences ----------

  predicate IsFence(line: string) {
    "```" <= TrimStart(line) || "~~~" <= TrimStart(line)
  }

  /** Which lines are code: fence lines, and the lines between them. */
  function FenceMarks(lines: seq<string>, inFence: bool): (marks: seq<bool>)
    ensures |marks| == |lines|
  {
    if lines == [] then [] else
    if IsFence(lines[0]) then [true] + FenceMarks(lines[1..], !inFence) else [inFence] + FenceMarks(lines[1..], inFence)
  }

  /** `split_inclusive('\n')`. */
  function InclusiveLines(s: string): seq<string>
    decreases |s|
  {
    if s == "" then [] else
    var i := IndexOf(s, '\n');
    if i == |s| then [s] else [s[..i + 1]] + InclusiveLines(s[i + 1..])
  }

  lemma {:induction false} TrimStartAppend(s: string, w: string)
    requires TrimStart(s) != ""
    ensures TrimStart(s + w) == TrimStart(s) + w
  {
    if IsSpace(s[0]) {
      assert (s + w)[1..] == s[1..] + w;
      TrimStartAppend(s[1..], w);
    }
  }

  lemma {:induction false} TrimStartBlank(s: string, w: string)
    requires TrimStart(s) == ""
    ensures TrimStart(s + w) == TrimStart(w)
  {
    if s == "" {
      assert s + w == w;
    } else {
      assert (s + w)[1..] == s[1..] + w;
      TrimStartBlank(s[1..], w);
    }
  }

  /** A line terminator does not make or break a fence. */
  lemma FenceTerminator(line: string, w: string)
    requires w == "\n" || w == "\r" || w == "\r\n"
    ensures IsFence(line + w) <==> IsFence(line)
  {
    assert TrimStart("\n") == "" && TrimStart("\r") == "";
    assert "\r\n"[1..] == "\n" && TrimStart("\r\n") == TrimStart("\n");
    if TrimStart(line) == "" {
      TrimStartBlank(line, w);
    } else {
      TrimStartAppend(line, w);
      PrefixAppend("```", TrimStart(line), w);
      PrefixAppend("~~~", TrimStart(line), w);
    }
  }

  lemma PrefixAppend(p: string, t: string, w: string)
    requires (p == "```" || p == "~~~") && w != "" && w[0] != p[0]
    ensures p <= t + w <==> p <= t
  {
    if |t| < |p| { assert (t + w)[|t|] == w[0] && p[|t|] == p[0]; }
  }

  /** The mask of `link.rs` walks `split_inclusive`, the tag scan walks `lines`: they call the same lines code. */
  lemma {:induction false} SameFences(s: string, inFence: bool)
    ensures FenceMarks(InclusiveLines(s), inFence) == FenceMarks(Lines(s), inFence)
    decreases |s|
  {
    if s != "" {
      var i := IndexOf(s, '\n');
      if i < |s| {
        var line := s[..i];
        assert s[..i + 1] == line + "\n";
        FenceTerminator(line, "\n");
        if StripCr(line) != line {
          assert line == StripCr(line) + "\r";
          FenceTerminator(StripCr(line), "\r");
        }
        hide IsFence, StripCr;
        SameFences(s[i + 1..], if IsFence(line) then !inFence else inFence);
        FenceMarksCons(line + "\n", InclusiveLines(s[i + 1..]), inFence);
        FenceMarksCons(StripCr(line), Lines(s[i + 1..]), inFence);
      } else {
        assert s[..i] == s;
      }
    }
  }

  lemma FenceMarksCons(line: string, rest: seq<string>, inFence: bool)
    ensures FenceMarks([line] + rest, inFence)
         == if IsFence(line) then [true] + FenceMarks(rest, !inFence) else [inFence] + FenceMarks(rest, inFence)
  {
    assert ([line] + rest)[1..] == rest;
  }

  /** The lines that are not code, in order. */
  function Outside(lines: seq<string>, marks: seq<bool>): seq<string> {
    if lines == [] || marks == [] then [] else (if marks[0] then [] else [lines[0]]) + Outside(lines[1..], marks[1..])
  }

  method NonCodeLines(body: string) returns (out: seq<string>)
    ensures out == Outside(Lines(body), FenceMarks(InclusiveLines(body), false))
  {
    SameFences(body, false);
    hide IsFence, InclusiveLines;
    var lines := Lines(body);
    out := [];
    var inFence := false;
    assert lines[0..] == lines;
    for i := 0 to |lines|
      invariant out + Outside(lines[i..], FenceMarks(lines[i..], inFence)) == Outside(lines, FenceMarks(lines, false))
    {
      assert lines[i..][0] == lines[i] && lines[i..][1..] == lines[i + 1..];
      assert FenceMarks(lines[i..], inFence)[1..]
              == FenceMarks(lines[i + 1..], if IsFence(lines[i]) then !inFence else inFence);
      if IsFence(lines[i]) {
        inFence := !inFence;
        continue;
      }
      if !inFence { out := out + [lines[i]]; }
    }
    assert lines[|lines|..] == [];
  }

  // ---------- the whole mask ----------

  /** Whether position `k` of `s` is code, line by line. */
  ghost predicate CodeAt(lines: seq<string>, marks: seq<bool>, k: int)
    requires |lines| == |marks|
  {
    && lines != []
    && if k < |lines[0]| then marks[0] || InSpans(SpansUntilUnclosed(lines[0], 0), k)
       else CodeAt(lines[1..], marks[1..], k - |lines[0]|)
  }

  function Total(lines: seq<string>): nat {
    if lines == [] then 0 else |lines[0]| + Total(lines[1..])
  }

  lemma {:induction false} InclusiveTotal(s: string)
    ensures Total(InclusiveLines(s)) == |s|
    decreases |s|
  {
    if s != "" {
      var i := IndexOf(s, '\n');
      if i < |s| {
        InclusiveTotal(s[i + 1..]);
        assert InclusiveLines(s)[1..] == InclusiveLines(s[i + 1..]);
      } else {
        assert [s][1..] == [];
      }
    }
  }

  method BuildMask(content: string) returns (mask: array<bool>)
    ensures fresh(mask) && mask.Length == |content|
    ensures forall k | 0 <= k < |content| ::
            mask[k] == CodeAt(InclusiveLines(content), FenceMarks(InclusiveLines(content), false), k)
  {
    hide IsFence, InclusiveLines, SpansUntilUnclosed, InSpans;
    mask := new bool[|content|](_ => false);
    var lines := InclusiveLines(content);
    InclusiveTotal(content);
    ghost var marks := FenceMarks(lines, false);
    var inFence := false;
    var offset := 0;
    assert lines[0..] == lines;
    for i := 0 to |lines|
      invariant 0 <= offset && offset + Total(lines[i..]) == |content|
      invariant forall k | offset <= k < |content| :: !mask[k]
      invariant forall k | 0 <= k < offset :: mask[k] == CodeAt(lines, marks, k)
      invariant forall k | offset <= k ::
              CodeAt(lines, marks, k) <==> CodeAt(lines[i..], FenceMarks(lines[i..], inFence), k - offset)
    {
      var line := lines[i];
      assert lines[i..][0] == line && lines[i..][1..] == lines[i + 1..];
      assert FenceMarks(lines[i..], inFence)[1..]
              == FenceMarks(lines[i + 1..], if IsFence(line) then !inFence else inFence);
      if IsFence(line) {
        Mark(mask, offset, offset + |line|);
        inFence := !inFence;
      } else if inFence {
        Mark(mask, offset, offset + |line|);
      } else {
        MarkInlineCode(line, offset, mask);
      }
      offset := offset + |line|;
    }
    assert lines[|lines|..] == [];
  }
}
