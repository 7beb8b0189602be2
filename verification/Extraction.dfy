/**
 How a text becomes a body: the code mask, the pattern of a directive, and what is kept of its matches. The texts that
 operations write are read this way, so what they leave is a body again.
 */
module Extraction {
  import opened Prelude
  import opened Text
  import opened Wiki
  import opened CodeMask

  // ---------- one directive ----------

  /** Characters before the first `]` or newline. */
  function Inner(s: string): (n: nat)
    ensures n <= |s| && (n < |s| ==> s[n] == ']' || s[n] == '\n')
    ensures forall i | 0 <= i < n :: s[i] != ']' && s[i] != '\n'
  {
    if s == "" || s[0] == ']' || s[0] == '\n' then 0 else 1 + Inner(s[1..])
  }

  function Bang(s: string): nat {
    if s != "" && s[0] == '!' then 1 else 0
  }

  /** Length of the match of `(!?)\[\[([^\]\n]+)\]\]` at the start of `s`. */
  function Match(s: string): (n: Option<nat>)
    ensures n.Some? ==> 5 <= n.value <= |s|
  {
    var b := Bang(s) + 2;
    if |s| < b || s[b - 2] != '[' || s[b - 1] != '[' then None else
    var q := Inner(s[b..]);
    if q == 0 || |s| < b + q + 2 || s[b + q] != ']' || s[b + q + 1] != ']' then None else Some(b + q + 2)
  }

  /** The directive a match stands for: the target up to the first bar, the alias behind it, both trimmed. */
  function RefOf(src: string): (r: Atom)
    requires |src| >= 5
    ensures r.Ref? && r.src == src
  {
    var inner := src[Bang(src) + 2..|src| - 2];
    var bar := IndexOf(inner, '|');
    Ref(Bang(src) == 1, Trim(inner[..bar]), if bar < |inner| then Some(Trim(inner[bar + 1..])) else None, src)
  }

  /** One line that ends in a bracket, as every match does. */
  predicate Bracket(s: string) {
    s != "" && s[|s| - 1] == ']' && '\n' !in s
  }

  lemma MatchBracket(text: string)
    requires Match(text).Some?
    ensures Bracket(text[..Match(text).value])
  {
    var b, n := Bang(text) + 2, Match(text).value;
    var q := Inner(text[b..]);
    forall k | 0 <= k < n ensures text[k] != '\n' {
      if b <= k < b + q { assert text[k] == text[b..][k - b]; }
    }
  }

  // ---------- the mask ----------

  /** The first line with its newline. */
  function HeadLine(text: string): (line: string)
    ensures line <= text && (text != "" ==> line != "")
  {
    var i := IndexOf(text, '\n');
    if i < |text| then text[..i + 1] else text
  }

  function LineFlags(line: string, code: bool): (flags: seq<bool>)
    ensures |flags| == |line|
  {
    seq(|line|, k => code || InSpans(SpansUntilUnclosed(line, 0), k))
  }

  /** Which characters are code, `inFence` at the start. */
  function Flags(text: string, inFence: bool): (flags: seq<bool>)
    ensures |flags| == |text|
    decreases |text|
  {
    if text == "" then [] else
    var line := HeadLine(text);
    LineFlags(line, inFence || IsFence(line)) + Flags(text[|line|..], inFence != IsFence(line))
  }

  /** Whether a fence is open at the end. */
  function FenceAfter(text: string, inFence: bool): bool
    decreases |text|
  {
    if text == "" then inFence else
    var line := HeadLine(text);
    FenceAfter(text[|line|..], inFence != IsFence(line))
  }

  /** It is the mask the loop over lines builds. */
  lemma {:induction false} FlagsAreCode(text: string, inFence: bool, k: nat)
    requires k < |text|
    ensures Flags(text, inFence)[k] == CodeAt(InclusiveLines(text), FenceMarks(InclusiveLines(text), inFence), k)
    decreases |text|
  {
    hide IsFence, InSpans, SpansUntilUnclosed;
    var line := HeadLine(text);
    var rest := text[|line|..];
    var i := IndexOf(text, '\n');
    if i == |text| { assert InclusiveLines(rest) == []; }
    assert InclusiveLines(text) == [line] + InclusiveLines(rest);
    FenceMarksCons(line, InclusiveLines(rest), inFence);
    var marks := FenceMarks(InclusiveLines(text), inFence);
    assert marks[0] == (inFence || IsFence(line))
            && marks[1..] == FenceMarks(InclusiveLines(rest), inFence != IsFence(line));
    if k >= |line| { FlagsAreCode(rest, inFence != IsFence(line), k - |line|); }
  }

  // ---------- reading ----------

  /** Matches are taken left to right without overlap; one that starts in code or has no target stays text. */
  function Scan(text: string, flags: seq<bool>): Body
    requires |flags| == |text|
    decreases |text|
  {
    if text == "" then [] else
    var n := Match(text);
    if n.None? then [Ch(text[0])] + Scan(text[1..], flags[1..]) else
    var src := text[..n.value];
    (if flags[0] || RefOf(src).target == "" then Chars(src) else [RefOf(src)]) + Scan(text[n.value..], flags[n.value..])
  }

  function ReadFrom(text: string, inFence: bool): Body { Scan(text, Flags(text, inFence)) }

  function Read(text: string): Body { ReadFrom(text, false) }

  lemma {:induction false} RawChars(s: string)
    ensures Raw(Chars(s)) == s
  {
    if s != "" {
      assert Chars(s)[1..] == Chars(s[1..]);
      RawChars(s[1..]);
      assert s == [s[0]] + s[1..];
    }
  }

  lemma {:induction false} ScanRaw(text: string, flags: seq<bool>)
    requires |flags| == |text|
    ensures Raw(Scan(text, flags)) == text
    decreases |text|
  {
    hide Match, RefOf;
    if text != "" {
      var n := Match(text);
      if n.None? {
        ScanRaw(text[1..], flags[1..]);
        assert Scan(text, flags)[1..] == Scan(text[1..], flags[1..]);
        assert text == [text[0]] + text[1..];
      } else {
        var src := text[..n.value];
        ScanRaw(text[n.value..], flags[n.value..]);
        var head := if flags[0] || RefOf(src).target == "" then Chars(src) else [RefOf(src)];
        RawConcat(head, Scan(text[n.value..], flags[n.value..]));
        RawChars(src);
        RefOfSrc(src);
        assert text == src + text[n.value..];
      }
    }
  }

  lemma RefOfSrc(src: string)
    requires |src| >= 5
    ensures RefOf(src).Ref? && RefOf(src).src == src && Raw([RefOf(src)]) == src
  {
    assert [RefOf(src)][1..] == [];
  }

  /** Reading loses nothing. */
  lemma ReadRaw(text: string, inFence: bool)
    ensures Raw(ReadFrom(text, inFence)) == text
  {
    ScanRaw(text, Flags(text, inFence));
  }

  // ---------- the program's loop ----------

  datatype Reference = Reference(directive: Atom, start: nat, end: nat)

  /** The directives of a body that starts at position `p`, and where they are. */
  function Located(body: Body, p: nat): seq<Reference> {
    if body == [] then [] else
    var end := p + |body[0].Raw()|;
    (if body[0].Ref? then [Reference(body[0], p, end)] else []) + Located(body[1..], end)
  }

  lemma {:induction false} LocatedChars(s: string, rest: Body, p: nat)
    ensures Located(Chars(s) + rest, p) == Located(rest, p + |s|)
  {
    if s == "" {
      assert Chars(s) + rest == rest;
    } else {
      assert (Chars(s) + rest)[1..] == Chars(s[1..]) + rest;
      LocatedChars(s[1..], rest, p + 1);
    }
  }

  /** Positions count characters. */
  method ExtractReferences(content: string) returns (refs: seq<Reference>)
    ensures refs == Located(Read(content), 0)
  {
    hide Match, RefOf, Flags, CodeAt, IsFence, Scan, Located, InclusiveLines, FenceMarks;
    var mask := BuildMask(content);
    ghost var flags := Flags(content, false);
    forall k | 0 <= k < |content| ensures mask[k] == flags[k] { FlagsAreCode(content, false, k); }
    refs := [];
    var p := 0;
    assert content[0..] == content && flags[0..] == flags;
    assert [] + Located(Read(content), 0) == Located(Read(content), 0);
    while p < |content|
      invariant p <= |content| && forall k | 0 <= k < |content| :: mask[k] == flags[k]
      invariant refs + Located(Scan(content[p..], flags[p..]), p) == Located(Read(content), 0)
    {
      var n := Match(content[p..]);
      ScanStep(content, flags, p);
      ghost var later := Located(Scan(content[p..], flags[p..]), p);
      if n.None? {
        p := p + 1;
      } else {
        var r := RefOf(content[p..][..n.value]);
        ghost var tail := Located(Scan(content[p + n.value..], flags[p + n.value..]), p + n.value);
        if !mask[p] && r.target != "" {
          assert refs + later == refs + [Reference(r, p, p + n.value)] + tail;
          refs := refs + [Reference(r, p, p + n.value)];
        } else {
          assert later == tail;
        }
        p := p + n.value;
      }
    }
    ScanEnd(content[p..], flags[p..], p);
  }

  lemma ScanEnd(text: string, flags: seq<bool>, p: nat)
    requires text == "" && flags == []
    ensures Located(Scan(text, flags), p) == []
  {
  }

  lemma ScanStep(content: string, flags: seq<bool>, p: nat)
    requires |flags| == |content| && p < |content|
    ensures var here := Located(Scan(content[p..], flags[p..]), p);
            var n := Match(content[p..]);
            if n.None? then here == Located(Scan(content[p + 1..], flags[p + 1..]), p + 1) else
            var r, q := RefOf(content[p..][..n.value]), p + n.value;
            here == (if !flags[p] && r.target != "" then [Reference(r, p, q)] else [])
                    + Located(Scan(content[q..], flags[q..]), q)
  {
    hide Match, RefOf, Located, Scan, Chars;
    var text, f := content[p..], flags[p..];
    ScanCons(text, f);
    var n := Match(text);
    var k := if n.None? then 1 else n.value;
    assert text[k..] == content[p + k..] && f[k..] == flags[p + k..];
    var rest := Scan(content[p + k..], flags[p + k..]);
    LocatedRef(Ch(text[0]), rest, p);
    if n.Some? {
      var src := text[..n.value];
      LocatedChars(src, rest, p);
      LocatedRef(RefOf(src), rest, p);
    }
  }

  lemma ScanCons(text: string, flags: seq<bool>)
    requires |flags| == |text| && text != ""
    ensures Scan(text, flags) ==
            var n := Match(text);
            if n.None? then [Ch(text[0])] + Scan(text[1..], flags[1..]) else
            var src := text[..n.value];
            (if flags[0] || RefOf(src).target == "" then Chars(src) else [RefOf(src)])
              + Scan(text[n.value..], flags[n.value..])
  {
  }

  lemma LocatedRef(a: Atom, rest: Body, p: nat)
    ensures var end := p + |a.Raw()|;
            Located([a] + rest, p) == (if a.Ref? then [Reference(a, p, end)] else []) + Located(rest, end)
  {
    assert ([a] + rest)[1..] == rest;
  }

  // ---------- line by line ----------

  lemma HeadOfLine(a: string, b: string)
    requires a != "" && a[|a| - 1] == '\n'
    ensures HeadLine(a + b) == HeadLine(a)
  {
    var i := IndexOf(a, '\n');
    assert a[..|a|] == a && a[|a| - 1] in a;
    assert (a + b)[..i] == a[..i] && (a + b)[i] == a[i];
    IndexOfIs(a + b, '\n', i);
    assert (a + b)[..i + 1] == a[..i + 1];
  }

  predicate WholeLines(a: string) { a == "" || a[|a| - 1] == '\n' }

  lemma {:induction false} FlagsConcat(a: string, b: string, inFence: bool)
    requires WholeLines(a)
    ensures Flags(a + b, inFence) == Flags(a, inFence) + Flags(b, FenceAfter(a, inFence))
    ensures FenceAfter(a + b, inFence) == FenceAfter(b, FenceAfter(a, inFence))
    decreases |a|
  {
    hide IsFence, LineFlags, HeadLine;
    if a == "" {
      assert a + b == b;
    } else {
      HeadOfLine(a, b);
      HeadNotEmpty(a);
      var line := HeadLine(a);
      assert (a + b)[|line|..] == a[|line|..] + b;
      FlagsConcat(a[|line|..], b, inFence != IsFence(line));
    }
  }

  lemma HeadNotEmpty(a: string)
    requires a != ""
    ensures HeadLine(a) != "" && HeadLine(a) <= a
  {
  }

  lemma {:induction false} InnerConcat(a: string, b: string)
    requires Inner(a) < |a|
    ensures Inner(a + b) == Inner(a)
  {
    if Inner(a) > 0 {
      assert (a + b)[1..] == a[1..] + b;
      InnerConcat(a[1..], b);
    }
  }

  lemma {:induction false} InnerStops(s: string, k: nat)
    requires k < |s| && (s[k] == ']' || s[k] == '\n')
    ensures Inner(s) <= k
  {
    if k > 0 && Inner(s) > 0 { InnerStops(s[1..], k - 1); }
  }

  /** No match reaches over a newline. */
  lemma MatchInLine(a: string, b: string)
    requires a != "" && a[|a| - 1] == '\n'
    ensures Match(a + b) == Match(a)
  {
    var d := Bang(a) + 2;
    assert Bang(a + b) == Bang(a);
    if |a| >= d && a[d - 2] == '[' && a[d - 1] == '[' {
      assert |a| > d;
      assert (a + b)[d..] == a[d..] + b;
      InnerStops(a[d..], |a| - d - 1);
      InnerConcat(a[d..], b);
      var q := Inner(a[d..]);
      assert a[d..][q] == a[d + q] && (a + b)[d + q] == a[d + q];
      if d + q + 1 < |a| { assert (a + b)[d + q + 1] == a[d + q + 1]; } else { assert a[d + q] == '\n'; }
    } else if |a| < d {
      assert a == "!\n" || a == "\n";
    }
  }

  lemma {:induction false} ScanConcat(a: string, b: string, f: seq<bool>, g: seq<bool>)
    requires WholeLines(a) && |f| == |a| && |g| == |b|
    ensures Scan(a + b, f + g) == Scan(a, f) + Scan(b, g)
    decreases |a|
  {
    hide Match, RefOf;
    if a == "" {
      assert a + b == b && f + g == g;
    } else {
      MatchInLine(a, b);
      var n := Match(a);
      var k := if n.None? then 1 else n.value;
      assert (a + b)[k..] == a[k..] + b && (f + g)[k..] == f[k..] + g && (a + b)[..k] == a[..k];
      ScanConcat(a[k..], b, f[k..], g);
    }
  }

  /** What follows whole lines is read by itself, from the fence they leave open. */
  lemma ReadConcat(a: string, b: string, inFence: bool)
    requires WholeLines(a)
    ensures ReadFrom(a + b, inFence) == ReadFrom(a, inFence) + ReadFrom(b, FenceAfter(a, inFence))
    ensures FenceAfter(a + b, inFence) == FenceAfter(b, FenceAfter(a, inFence))
  {
    FlagsConcat(a, b, inFence);
    ScanConcat(a, b, Flags(a, inFence), Flags(b, FenceAfter(a, inFence)));
  }
}
