/** Edits of a block's text: exact replacement, appending, and the guard against losing most of it. */
module TextEdits {
  import opened Text

  /** Non-overlapping occurrences, from the left. */
  function Matches(s: string, p: string): nat
    requires p != ""
  {
    if |s| < |p| then 0 else if p <= s then 1 + Matches(s[|p|..], p) else Matches(s[1..], p)
  }

  function ReplaceAll(s: string, p: string, q: string): string
    requires p != ""
  {
    if |s| < |p| then s else if p <= s then q + ReplaceAll(s[|p|..], p, q) else [s[0]] + ReplaceAll(s[1..], p, q)
  }

  /** `text` on a fresh line, ending in a newline. */
  function AppendText(body: string, text: string): string {
    var start := if body != "" && body[|body| - 1] != '\n' then body + "\n" else body;
    var all := start + text;
    if all != "" && all[|all| - 1] == '\n' then all else all + "\n"
  }

  const GUARD_MIN_CHARS := 200

  /** An update that empties a block, or takes more than three quarters of a block of at least 200 characters. */
  predicate Destructive(before: string, after: string) {
    var b, a := |Trim(before)|, |Trim(after)|;
    b > 0 && (a == 0 || (b >= GUARD_MIN_CHARS && a < b && 4 * (b - a) > 3 * b))
  }

  // ---------- replacement ----------

  ghost predicate OccursAt(s: string, p: string, k: nat) {
    k + |p| <= |s| && s[k..k + |p|] == p
  }

  ghost predicate Absent(s: string, p: string) {
    forall k: nat :: !OccursAt(s, p, k)
  }

  /** The first `p` in `a + p` is the one at its end. */
  ghost predicate FirstAtEnd(a: string, p: string) {
    forall k: nat | k < |a| :: !OccursAt(a + p, p, k)
  }

  /**
   `s` is the pieces with `p` between them, each of these the first occurrence after the one before it, and none
   is left behind the last.
   */
  ghost predicate CutAt(s: string, p: string, pieces: seq<string>) {
    && pieces != [] && s == Join(pieces, p)
    && Absent(pieces[|pieces| - 1], p)
    && forall i | 0 <= i < |pieces| - 1 :: FirstAtEnd(pieces[i], p)
  }

  /** Every text has such a cut. */
  lemma {:induction false} CutExists(s: string, p: string) returns (pieces: seq<string>)
    requires p != ""
    ensures CutAt(s, p, pieces)
  {
    if |s| < |p| {
      pieces := [s];
    } else if p <= s {
      var rest := CutExists(s[|p|..], p);
      pieces := [""] + rest;
      FirstPieceEmpty(s, p, rest);
    } else {
      var rest := CutExists(s[1..], p);
      pieces := [[s[0]] + rest[0]] + rest[1..];
      FirstPieceLonger(s, p, rest);
    }
  }

  lemma FirstPieceEmpty(s: string, p: string, rest: seq<string>)
    requires p != "" && p <= s && CutAt(s[|p|..], p, rest)
    ensures CutAt(s, p, [""] + rest)
  {
    var pieces := [""] + rest;
    assert pieces[1..] == rest;
    assert Join(pieces, p) == "" + p + Join(rest, p);
  }

  lemma JoinHead(c: char, rest: seq<string>, p: string)
    requires rest != []
    ensures Join([[c] + rest[0]] + rest[1..], p) == [c] + Join(rest, p)
  {
    var pieces := [[c] + rest[0]] + rest[1..];
    if |rest| > 1 {
      assert pieces[1..] == rest[1..];
      assert [c] + rest[0] + p + Join(rest[1..], p) == [c] + (rest[0] + p + Join(rest[1..], p));
    }
  }

  lemma FirstPieceLonger(s: string, p: string, rest: seq<string>)
    requires p != "" && s != "" && !(p <= s) && CutAt(s[1..], p, rest)
    ensures CutAt(s, p, [[s[0]] + rest[0]] + rest[1..])
  {
    hide Join;
    var pieces := [[s[0]] + rest[0]] + rest[1..];
    JoinHead(s[0], rest, p);
    assert s == [s[0]] + s[1..];
    JoinParts(pieces, p);
    if |rest| == 1 {
      AbsentLonger(s, p, rest[0]);
    } else {
      StartsWithPiece(pieces, p);
      FirstLonger(s, p, rest[0]);
    }
  }

  lemma AbsentLonger(s: string, p: string, a: string)
    requires p != "" && s != "" && !(p <= s) && s == [s[0]] + a && Absent(a, p)
    ensures Absent(s, p)
  {
    forall k: nat ensures !OccursAt(s, p, k) {
      if k > 0 && k + |p| <= |s| {
        assert a[k - 1..k - 1 + |p|] == s[k..k + |p|];
        assert !OccursAt(a, p, k - 1);
      }
    }
  }

  lemma FirstLonger(s: string, p: string, a: string)
    requires p != "" && s != "" && !(p <= s) && [s[0]] + a + p <= s && FirstAtEnd(a, p)
    ensures FirstAtEnd([s[0]] + a, p)
  {
    var first := [s[0]] + a;
    assert first + p == [s[0]] + (a + p);
    forall k: nat | k < |first| ensures !OccursAt(first + p, p, k) {
      if k == 0 {
        assert (first + p)[0..|p|] == s[..|p|];
      } else {
        assert (a + p)[k - 1..k - 1 + |p|] == (first + p)[k..k + |p|];
        assert !OccursAt(a + p, p, k - 1);
      }
    }
  }

  lemma StartsWithPiece(pieces: seq<string>, p: string)
    requires |pieces| > 1
    ensures pieces[0] + p <= Join(pieces, p)
  {
    assert Join(pieces, p) == (pieces[0] + p) + Join(pieces[1..], p);
  }

  /** Replacing joins the pieces by the new text, as many times as matches were counted; nothing else changes. */
  lemma {:induction false} ReplacedPieces(s: string, p: string, q: string, pieces: seq<string>)
    requires p != "" && CutAt(s, p, pieces)
    ensures ReplaceAll(s, p, q) == Join(pieces, q)
    ensures Matches(s, p) == |pieces| - 1
    decreases |s|
  {
    hide Join;
    JoinParts(pieces, p);
    JoinParts(pieces, q);
    if |s| < |p| {
    } else if p <= s {
      StartCut(s, p, pieces);
      ReplacedPieces(s[|p|..], p, q, pieces[1..]);
      assert q + ReplaceAll(s[|p|..], p, q) == "" + q + Join(pieces[1..], q);
    } else {
      LaterCut(s, p, pieces);
      var rest := [pieces[0][1..]] + pieces[1..];
      assert pieces[0] == [s[0]] + pieces[0][1..];
      assert pieces == [[s[0]] + rest[0]] + rest[1..];
      ReplacedPieces(s[1..], p, q, rest);
      JoinHead(s[0], rest, q);
    }
  }

  lemma JoinParts(pieces: seq<string>, p: string)
    requires pieces != []
    ensures |pieces| == 1 ==> Join(pieces, p) == pieces[0]
    ensures |pieces| > 1 ==> Join(pieces, p) == pieces[0] + p + Join(pieces[1..], p)
  {}

  lemma StartCut(s: string, p: string, pieces: seq<string>)
    requires p != "" && p <= s && CutAt(s, p, pieces)
    ensures |pieces| > 1 && pieces[0] == "" && CutAt(s[|p|..], p, pieces[1..])
  {
    hide Join;
    JoinParts(pieces, p);
    var first := pieces[0];
    assert OccursAt(s, p, 0);
    if |pieces| == 1 {
      assert false;
    } else {
      StartsWithPiece(pieces, p);
      assert (first + p)[0..|p|] == s[0..|p|];
      assert OccursAt(first + p, p, 0);
      assert s[|p|..] == Join(pieces[1..], p);
    }
  }

  lemma LaterCut(s: string, p: string, pieces: seq<string>)
    requires p != "" && |s| >= |p| && !(p <= s) && CutAt(s, p, pieces)
    ensures pieces[0] != "" && pieces[0][0] == s[0] && CutAt(s[1..], p, [pieces[0][1..]] + pieces[1..])
  {
    hide Join;
    JoinParts(pieces, p);
    var first := pieces[0];
    if |pieces| > 1 { StartsWithPiece(pieces, p); }
    assert "" + p == p;
    var rest := [first[1..]] + pieces[1..];
    assert first == [s[0]] + first[1..];
    assert pieces == [[s[0]] + rest[0]] + rest[1..];
    JoinHead(s[0], rest, p);
    assert s[1..] == Join(rest, p);
    if |pieces| == 1 { AbsentShorter(first, p); } else { FirstShorter(first, p); }
  }

  lemma SliceShift(a: string, k: nat, n: nat)
    requires k + 1 + n <= |a|
    ensures a[k + 1..k + 1 + n] == a[1..][k..k + n]
  {}

  lemma AbsentShorter(a: string, p: string)
    requires a != "" && Absent(a, p)
    ensures Absent(a[1..], p)
  {
    forall k: nat ensures !OccursAt(a[1..], p, k) {
      if k + |p| <= |a[1..]| {
        SliceShift(a, k, |p|);
        assert !OccursAt(a, p, k + 1);
      }
    }
  }

  lemma FirstShorter(a: string, p: string)
    requires a != "" && FirstAtEnd(a, p)
    ensures FirstAtEnd(a[1..], p)
  {
    assert a + p == [a[0]] + (a[1..] + p);
    forall k: nat | k < |a[1..]| ensures !OccursAt(a[1..] + p, p, k) {
      assert (a + p)[k + 1..k + 1 + |p|] == (a[1..] + p)[k..k + |p|];
      assert !OccursAt(a + p, p, k + 1);
    }
  }

  // ---------- appending ----------

  lemma {:induction false} LinesAfterBreak(a: string, b: string)
    ensures Lines(a + "\n" + b) == Lines(a + "\n") + Lines(b)
    decreases |a|
  {
    hide Lines;
    var i := IndexOf(a, '\n');
    if i < |a| {
      LinesAfterBreak(a[i + 1..], b);
      FirstLine(a, i, "\n");
      FirstLine(a, i, "\n" + b);
      assert a + ("\n" + b) == a + "\n" + b && a[i + 1..] + ("\n" + b) == a[i + 1..] + "\n" + b;
    } else {
      FirstLine(a + "\n", i, "");
      FirstLine(a + "\n", i, b);
      EmptyLine();
      assert a + "\n" + "" == a + "\n" && (a + "\n")[i + 1..] == "" && "" + b == b && "" + "" == "";
    }
  }

  lemma IndexOfFirst(s: string, i: nat)
    requires i < |s| && s[i] == '\n' && forall k | 0 <= k < i :: s[k] != '\n'
    ensures IndexOf(s, '\n') == i
  {
    IndexOfIs(s, '\n', i);
  }

  /** A newline behind an unfinished line ends it, and takes a carriage return with it. */
  lemma {:induction false} LastLine(a: string) returns (init: seq<string>, last: string)
    requires a != "" && a[|a| - 1] != '\n'
    ensures last != "" && last[|last| - 1] == a[|a| - 1]
    ensures Lines(a) == init + [last] && Lines(a + "\n") == init + [StripCr(last)]
    decreases |a|
  {
    hide Lines;
    var i := IndexOf(a, '\n');
    if i == |a| {
      init, last := [], a;
      WholeLine(a);
    } else {
      var more;
      more, last := LastLine(a[i + 1..]);
      init := [StripCr(a[..i])] + more;
      FirstLine(a, i, "");
      FirstLine(a, i, "\n");
      assert a + "" == a && a[i + 1..] + "" == a[i + 1..];
    }
  }

  lemma WholeLine(a: string)
    requires a != "" && IndexOf(a, '\n') == |a|
    ensures Lines(a) == [a] && Lines(a + "\n") == [StripCr(a)]
  {
    var x := a + "\n";
    assert forall k | 0 <= k < |a| :: a[..|a|][k] == a[k] == x[k];
    IndexOfFirst(x, |a|);
    assert x[..|a|] == a && x[|a| + 1..] == "";
  }

  lemma FirstLine(a: string, i: nat, b: string)
    requires i < |a| && a[i] == '\n' && '\n' !in a[..i]
    ensures Lines(a + b) == [StripCr(a[..i])] + Lines(a[i + 1..] + b)
  {
    var x := a + b;
    assert forall k | 0 <= k < i :: a[..i][k] == a[k] == x[k];
    IndexOfFirst(x, i);
    assert x[..i] == a[..i] && x[i + 1..] == a[i + 1..] + b;
  }

  function Ended(s: string): string {
    if s == "" || s[|s| - 1] == '\n' then s else s + "\n"
  }

  predicate EndsInCr(s: string) { s != "" && s[|s| - 1] == '\r' }

  lemma LinesEnded(s: string)
    ensures |Lines(Ended(s))| == |Lines(s)|
    ensures Lines(Ended(s)) == Lines(s) <==> !EndsInCr(s)
  {
    if s != "" && s[|s| - 1] != '\n' {
      var init, last := LastLine(s);
      if EndsInCr(s) { assert (init + [last])[|init|] != (init + [StripCr(last)])[|init|]; }
    }
  }

  lemma LinesJoined(a: string, b: string)
    requires a == "" || a[|a| - 1] == '\n'
    ensures Lines(a + b) == Lines(a) + Lines(b)
  {
    if a == "" {
      assert a + b == b;
    } else {
      var n := |a| - 1;
      assert a == a[..n] + "\n";
      LinesAfterBreak(a[..n], b);
    }
  }

  /**
   Appending keeps the body as it is, ends in a newline, and adds exactly the lines of the text to those of the
   body, unless both are empty (then there is one empty line) or one ends in the middle of a `\r\n`.
   */
  lemma AppendedLines(body: string, text: string)
    ensures var r := AppendText(body, text);
            && body <= r && r[|r| - 1] == '\n'
            && (Lines(r) == Lines(body) + Lines(text) <==>
                (body != "" || text != "") && !EndsInCr(body) && !EndsInCr(text))
  {
    hide *;
    AppendedIs(body, text);
    if body == "" && text == "" {
      EmptyLine();
    } else {
      LinesEnded(body);
      LinesEnded(text);
      LinesJoined(Ended(body), Ended(text));
      ConcatParts(Lines(Ended(body)), Lines(Ended(text)), Lines(body), Lines(text));
    }
  }

  lemma AppendedIs(body: string, text: string)
    ensures var r := AppendText(body, text);
            && body <= r && r[|r| - 1] == '\n'
            && r == (if body == "" && text == "" then "\n" else Ended(body) + Ended(text))
            && (Ended(body) == "" || Ended(body)[|Ended(body)| - 1] == '\n')
            && (EndsInCr("") <==> false)
  {}

  lemma ConcatParts(a: seq<string>, b: seq<string>, c: seq<string>, d: seq<string>)
    requires |a| == |c|
    ensures a + b == c + d <==> a == c && b == d
  {
    var n := |a|;
    assert (a + b)[..n] == a && (a + b)[n..] == b && (c + d)[..n] == c && (c + d)[n..] == d;
  }

  lemma EmptyLine()
    ensures Lines("") == [] && Lines("\n") == [""]
  {
    assert "\n"[..0] == "" && "\n"[1..] == "";
  }

  // ---------- the guard ----------

  /** What the guard refuses: leaving nothing of a text, or less than a quarter of a long one. */
  lemma GuardIs(before: string, after: string)
    ensures Destructive(before, after) <==>
            && Trim(before) != ""
            && (Trim(after) == "" || (|Trim(before)| >= 200 && 4 * |Trim(after)| < |Trim(before)|))
  {}

  lemma {:induction false} TrimStartBehind(a: string, b: string)
    ensures TrimStart(a) != "" ==> TrimStart(a + b) == TrimStart(a) + b
  {
    if a != "" && IsSpace(a[0]) {
      assert (a + b)[1..] == a[1..] + b;
      TrimStartBehind(a[1..], b);
    }
  }

  lemma {:induction false} TrimEndBehind(a: string, b: string)
    ensures TrimEnd(a) <= TrimEnd(a + b)
    decreases |b|
  {
    if b == "" {
      assert a + b == a;
    } else if IsSpace(b[|b| - 1]) {
      assert (a + b)[..|a + b| - 1] == a + b[..|b| - 1];
      TrimEndBehind(a, b[..|b| - 1]);
    } else {
      TrimEndEnds(a);
      assert TrimEnd(a + b) == a + b;
    }
  }

  /** Text that is only added to never trips the guard. */
  lemma AppendPassesGuard(body: string, text: string)
    ensures !Destructive(body, AppendText(body, text))
  {
    hide Destructive, AppendText, TrimStart, TrimEnd;
    AppendedLines(body, text);
    var r := AppendText(body, text);
    var more := r[|body|..];
    assert r == body + more;
    GuardIs(body, r);
    if Trim(body) != "" {
      TrimmedSome(body);
      TrimStartBehind(body, more);
      TrimEndBehind(TrimStart(body), more);
    }
  }

  lemma TrimmedSome(s: string)
    requires Trim(s) != ""
    ensures TrimStart(s) != ""
  {}
}
