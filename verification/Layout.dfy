/**
 How an expanded document becomes text. Expansion (which directive yields what) and layout (at which
 column it lands) are separate here; `Render` shows that the interleaved loops of the program are their
 composition.
 */
module Layout {
  import opened Prelude
  import opened Text
  import opened Wiki

  // ---------- columns ----------

  /** Characters after the last newline: the column at which text appended to `s` starts. */
  function Width(s: string): (w: nat)
    ensures w <= |s|
  {
    if s == "" || s[|s| - 1] == '\n' then 0 else 1 + Width(s[..|s| - 1])
  }

  predicate OneLine(s: string) { Width(s) == |s| }

  /** The column reached from `col` after writing `s`. */
  function Advance(col: nat, s: string): nat {
    if OneLine(s) then col + |s| else Width(s)
  }

  /** `Width` is what `rfind('\n')` yields. */
  lemma {:induction false} WidthIsLastLine(s: string)
    ensures '\n' !in s[|s| - Width(s)..]
    ensures !OneLine(s) ==> s[|s| - Width(s) - 1] == '\n'
    ensures OneLine(s) <==> '\n' !in s
    decreases |s|
  {
    if s != "" && s[|s| - 1] != '\n' {
      var init := s[..|s| - 1];
      WidthIsLastLine(init);
      assert s == init + [s[|s| - 1]];
      assert s[|s| - Width(s)..] == init[|init| - Width(init)..] + [s[|s| - 1]];
    }
  }

  lemma {:induction false} AdvanceConcat(col: nat, a: string, b: string)
    ensures Advance(col, a + b) == Advance(Advance(col, a), b)
    decreases |b|
  {
    if b == "" {
      assert a + b == a;
    } else {
      var n := |b| - 1;
      AdvanceConcat(col, a, b[..n]);
      assert (a + b)[..|a + b| - 1] == a + b[..n];
      assert b == b[..n] + [b[n]] && a + b == (a + b[..n]) + [b[n]];
    }
  }

  lemma AdvanceEmpty(col: nat)
    ensures Advance(col, "") == col
  {
  }

  // ---------- re-indentation ----------

  /** Indent every non-blank line after the first by `col`. */
  function Reindent(t: string, col: nat): string {
    if t == "" then "" else
    (if t[0] == '\n' && |t| > 1 && t[1] != '\n' then "\n" + Spaces(col) else [t[0]]) + Reindent(t[1..], col)
  }

  lemma {:induction false} ReindentZero(t: string)
    ensures Reindent(t, 0) == t
  {
    if t != "" {
      ReindentZero(t[1..]);
      assert t == [t[0]] + t[1..];
    }
  }

  lemma {:induction false} ReindentOneLine(t: string, col: nat)
    requires OneLine(t)
    ensures Reindent(t, col) == t
    decreases |t|
  {
    if t != "" {
      var n := |t| - 1;
      ReindentOneLine(t[..n], col);
      assert t == t[..n] + [t[n]];
      assert n > 0 ==> t[..n][n - 1] != '\n' by { if n > 0 { assert Width(t[..n]) > 0; } }
      ReindentConcat(t[..n], [t[n]], col);
      assert [t[n]][1..] == "";
    }
  }

  /** Where the first text stops short of a newline, or nothing needing indentation follows, pieces indent apart. */
  lemma {:induction false} ReindentConcat(a: string, b: string, col: nat)
    requires a == "" || a[|a| - 1] != '\n' || b == "" || b[0] == '\n'
    ensures Reindent(a + b, col) == Reindent(a, col) + Reindent(b, col)
  {
    if a == "" {
      assert a + b == b;
    } else {
      assert (a + b)[1..] == a[1..] + b;
      ReindentConcat(a[1..], b, col);
    }
  }

  lemma {:induction false} ReindentSpaces(n: nat, t: string, col: nat)
    ensures Reindent(Spaces(n) + t, col) == Spaces(n) + Reindent(t, col)
  {
    if n == 0 {
      assert Spaces(0) + t == t;
    } else {
      assert (Spaces(n) + t)[1..] == Spaces(n - 1) + t;
      ReindentSpaces(n - 1, t, col);
      assert Spaces(n) == [' '] + Spaces(n - 1);
    }
  }

  /** Indenting twice is indenting once by the sum: what lets embeds nest. */
  lemma {:induction false} ReindentTwice(t: string, a: nat, b: nat)
    ensures Reindent(Reindent(t, a), b) == Reindent(t, a + b)
  {
    ReindentHead(t, a);
    ReindentHead(t, a + b);
    ReindentHead("", b);
    hide Reindent;
    if t == "" {
    } else {
      var rest := Reindent(t[1..], a);
      ReindentTwice(t[1..], a, b);
      if t[0] == '\n' && |t| > 1 && t[1] != '\n' {
        ReindentEnds(t[1..], a);
        IndentedAgain(rest, a, b);
      } else {
        ReindentEnds(t[1..], a);
      }
    }
  }

  lemma IndentedAgain(rest: string, a: nat, b: nat)
    requires rest != "" && rest[0] != '\n'
    ensures Reindent("\n" + Spaces(a) + rest, b) == "\n" + Spaces(a + b) + Reindent(rest, b)
  {
    var inner := Spaces(a) + rest;
    ReindentSpaces(a, rest, b);
    assert "\n" + Spaces(a) + rest == ['\n'] + inner;
    ReindentHead(['\n'] + inner, b);
    hide Reindent;
    assert (['\n'] + inner)[1..] == inner && inner[0] != '\n';
    assert Spaces(b) + Spaces(a) == Spaces(a + b);
  }

  /** Indentation moves no outer newline and keeps the number of newlines. */
  lemma {:induction false} ReindentEnds(t: string, col: nat)
    ensures t == "" <==> Reindent(t, col) == ""
    ensures t != "" ==> Reindent(t, col)[0] == t[0]
    ensures t != "" ==> Reindent(t, col)[|Reindent(t, col)| - 1] == t[|t| - 1]
  {
    if t != "" { ReindentEnds(t[1..], col); }
  }

  /** The column after an indented text: one line advances it, several restart it at the indentation. */
  lemma {:induction false} ReindentAdvance(t: string, k: nat)
    requires t == "" || t[|t| - 1] != '\n'
    ensures Advance(k, Reindent(t, k)) == k + Width(t)
    decreases |t|
  {
    hide Reindent;
    if OneLine(t) {
      ReindentOneLine(t, k);
    } else {
      var n := |t| - Width(t);
      WidthIsLastLine(t);
      var head, tail := t[..n], t[n..];
      assert t == head + tail;
      WidthIsLastLine(tail);
      ReindentLastLine(head, tail, k);
      ReindentEnds(head, k);
      AdvanceAfterBreak(k, Reindent(head, k), Spaces(k) + tail);
      assert Reindent(t, k) == Reindent(head, k) + (Spaces(k) + tail);
    }
  }

  lemma AdvanceAfterBreak(k: nat, a: string, b: string)
    requires a != "" && a[|a| - 1] == '\n' && '\n' !in b
    ensures Advance(k, a + b) == |b|
  {
    AdvanceConcat(k, a, b);
    WidthIsLastLine(b);
  }

  lemma {:induction false} ReindentLastLine(head: string, tail: string, col: nat)
    requires head != "" && head[|head| - 1] == '\n' && tail != "" && OneLine(tail) && tail[0] != '\n'
    ensures Reindent(head + tail, col) == Reindent(head, col) + Spaces(col) + tail
  {
    hide OneLine, Width;
    assert (head + tail)[1..] == head[1..] + tail;
    if |head| == 1 {
      ReindentOneLine(tail, col);
      assert head[1..] + tail == tail;
    } else {
      ReindentLastLine(head[1..], tail, col);
    }
  }

  /** One more line after `a`, as the loop over `split('\n')` adds it. */
  lemma {:induction false} ReindentAddLine(a: string, line: string, col: nat)
    requires OneLine(line) && (line == "" || line[0] != '\n')
    ensures Reindent(a + "\n" + line, col) ==
            Reindent(a, col) + "\n" + (if line == "" then "" else Spaces(col)) + line
  {
    ReindentHead(a, col);
    ReindentHead(a + "\n" + line, col);
    hide OneLine, Width, Reindent;
    var s := a + "\n" + line;
    if a == "" {
      assert s == "\n" + line && s[1..] == line;
      ReindentOneLine(line, col);
    } else {
      assert s[1..] == a[1..] + "\n" + line;
      ReindentAddLine(a[1..], line, col);
    }
  }

  lemma ReindentHead(t: string, col: nat)
    ensures Reindent(t, col) == if t == "" then "" else
              (if t[0] == '\n' && |t| > 1 && t[1] != '\n' then "\n" + Spaces(col) else [t[0]]) + Reindent(t[1..], col)
  {}

  method ReindentContinuation(text: string, col: nat) returns (out: string)
    ensures out == Reindent(text, col)
  {
    if col == 0 {
      ReindentZero(text);
      return text;
    }
    var pad := Spaces(col);
    out := "";
    var lines := Split(text, '\n');
    for i := 0 to |lines|
      invariant out == Reindent(Join(lines[..i], "\n"), col)
    {
      var line := lines[i];
      WidthIsLastLine(line);
      assert lines[..i + 1] == lines[..i] + [line];
      if i > 0 {
        JoinConcat(lines[..i], [line], "\n");
        ReindentAddLine(Join(lines[..i], "\n"), line, col);
        out := out + "\n";
        if line != "" { out := out + pad; }
      } else {
        ReindentOneLine(line, col);
      }
      out := out + line;
    }
    assert lines[..|lines|] == lines;
    JoinSplit(text, '\n');
  }

  // ---------- expanded documents ----------

  datatype Node =
    | Lit(c: char)
    | Link(id: BlockId, text: string)
    | Dangling(written: string)
    | Cycle(at: BlockId, cycleLabel: string)
    | Missing(target: string, missingLabel: string)
    | Embedded(child: BlockId, title: string, doc: seq<Node>)

  /** The documents exported together: the output path of each, and of the one being rendered. */
  datatype FlatSet = FlatSet(paths: map<BlockId, string>, selfPath: string)

  /** The link from the directory of `from` to the file `to`, both `/`-separated and relative to one root. */
  function RelativeLink(from: string, to: string): string {
    var dirs, parts := Split(from, '/'), Split(to, '/');
    var common := CommonDirs(dirs[..|dirs| - 1], parts);
    Ups(|dirs| - 1 - common) + Join(parts[common..], "/")
  }

  /** Leading directories shared, the last part of `parts` (the file name) never counted. */
  function CommonDirs(dirs: seq<string>, parts: seq<string>): (n: nat)
    ensures n <= |dirs| && (parts == [] || n < |parts|) && (parts == [] ==> n == 0)
  {
    if dirs != [] && |parts| > 1 && dirs[0] == parts[0] then 1 + CommonDirs(dirs[1..], parts[1..]) else 0
  }

  function Ups(n: nat): string {
    if n == 0 then "" else "../" + Ups(n - 1)
  }

  function LinkText(id: BlockId, text: string, links: Option<FlatSet>): string {
    if links.Some? && id in links.value.paths
    then "[" + text + "](" + RelativeLink(links.value.selfPath, links.value.paths[id]) + ")"
    else text
  }

  function CycleMark(shown: string): string { "<!-- mkb: transclusion cycle at " + shown + " -->" }

  function MissingMark(target: string): string { "<!-- mkb: unresolved embed: " + target + " -->" }

  /** What an embed dissolves into, before it is indented to its column. */
  function Dissolved(n: Node, links: Option<FlatSet>): string
    requires n.Cycle? || n.Missing? || n.Embedded?
    decreases n, 0
  {
    match n
    case Cycle(_, shown) => CycleMark(shown)
    case Missing(target, _) => MissingMark(target)
    case Embedded(_, _, doc) => TrimNl(Flat(doc, links, 0))
  }

  function FlatNode(n: Node, links: Option<FlatSet>, col: nat): string
    decreases n, 1
  {
    match n
    case Lit(c) => [c]
    case Link(id, text) => LinkText(id, text, links)
    case Dangling(written) => written
    case _ => Reindent(Dissolved(n, links), col)
  }

  /** A document as flat Markdown, its first character landing at column `col`. */
  function Flat(doc: seq<Node>, links: Option<FlatSet>, col: nat): string
    decreases doc, 2
  {
    if doc == [] then "" else
    var t := FlatNode(doc[0], links, col);
    t + Flat(doc[1..], links, Advance(col, t))
  }

  lemma FlatCons(doc: seq<Node>, links: Option<FlatSet>, k: nat) returns (t: string, rest: string)
    requires doc != []
    ensures t == FlatNode(doc[0], links, k) && rest == Flat(doc[1..], links, Advance(k, t))
    ensures Flat(doc, links, k) == t + rest
  {
    t := FlatNode(doc[0], links, k);
    rest := Flat(doc[1..], links, Advance(k, t));
  }

  lemma {:induction false} FlatConcat(a: seq<Node>, b: seq<Node>, links: Option<FlatSet>, col: nat)
    ensures Flat(a + b, links, col) == Flat(a, links, col) + Flat(b, links, Advance(col, Flat(a, links, col)))
  {
    if a == [] {
      assert a + b == b;
    } else {
      assert (a + b)[1..] == a[1..] + b;
      var t, rest := FlatCons(a, links, col);
      var t', rest' := FlatCons(a + b, links, col);
      FlatConcat(a[1..], b, links, Advance(col, t));
      AdvanceConcat(col, t, rest);
    }
  }

  lemma FlatOne(n: Node, links: Option<FlatSet>, col: nat)
    ensures Flat([n], links, col) == FlatNode(n, links, col)
  {
    assert [n][1..] == [];
  }

  // ---------- embed cards ----------

  function EscapeLinkText(s: string): string {
    if s == "" then "" else (if s[0] in "\\[]" then ['\\', s[0]] else [s[0]]) + EscapeLinkText(s[1..])
  }

  /** Quote lines as a Markdown block quote. */
  function Quote(lines: seq<string>): string {
    if lines == [] then "" else
    (if lines[0] == "" then ">" else "> " + lines[0]) + "\n" + Quote(lines[1..])
  }

  function CycleCard(id: BlockId, shown: string): string {
    "[\U{21BB} " + EscapeLinkText(shown) + "](mkb:" + id + ") *(transclusion cycle)*"
  }

  function MissingCard(shown: string): string {
    "[\U{26A0} " + EscapeLinkText(shown) + "](mkb:?unresolved) *(unresolved embed)*"
  }

  function CardHeader(id: BlockId, title: string): string {
    "> \U{29C9} [" + EscapeLinkText(title) + "](mkb:" + id + ")\n>\n"
  }

  function CardNode(n: Node): string
    decreases n, 0
  {
    match n
    case Lit(c) => [c]
    case Link(id, text) => "[" + EscapeLinkText(text) + "](mkb:" + id + ")"
    case Dangling(written) => "[" + EscapeLinkText(written) + "](mkb:?unresolved)"
    case Cycle(id, shown) => CycleCard(id, shown)
    case Missing(_, shown) => MissingCard(shown)
    case Embedded(id, title, doc) => CardHeader(id, title) + Quote(Lines(Cards(doc)))
  }

  /** A document as Markdown for display, embeds shown as quoted cards. */
  function Cards(doc: seq<Node>): string
    decreases doc, 1
  {
    if doc == [] then "" else CardNode(doc[0]) + Cards(doc[1..])
  }

  lemma {:induction false} CardsConcat(a: seq<Node>, b: seq<Node>)
    ensures Cards(a + b) == Cards(a) + Cards(b)
  {
    if a == [] {
      assert a + b == b;
    } else {
      assert (a + b)[1..] == a[1..] + b;
      CardsConcat(a[1..], b);
    }
  }

  lemma {:induction false} QuoteConcat(a: seq<string>, b: seq<string>)
    ensures Quote(a + b) == Quote(a) + Quote(b)
  {
    if a == [] {
      assert a + b == b;
    } else {
      assert (a + b)[1..] == a[1..] + b;
      QuoteConcat(a[1..], b);
    }
  }
}
