/** Where the links between exported documents lead. */
module Addresses {
  import opened Prelude
  import opened Text
  import opened Wiki
  import opened Layout
  import opened References

  // ---------- following a relative link ----------

  /** From a directory, `..` goes up one level and any other part down into it. */
  function Walk(dir: seq<string>, steps: seq<string>): seq<string>
    decreases |steps|
  {
    if steps == [] then dir else
    Walk(if steps[0] == ".." then (if dir == [] then [] else dir[..|dir| - 1]) else dir + [steps[0]], steps[1..])
  }

  /** The file a reader of the file `from` gets to. */
  function Follow(from: string, link: string): string {
    var parts := Split(from, '/');
    Join(Walk(parts[..|parts| - 1], Split(link, '/')), "/")
  }

  /** A path that names its file the short way, on one line. */
  predicate ProperPath(path: string) {
    && '\n' !in path
    && forall k | 0 <= k < |Split(path, '/')| ::
         Split(path, '/')[k] != "" && Split(path, '/')[k] != "." && Split(path, '/')[k] != ".."
  }

  function Parents(n: nat): seq<string> {
    if n == 0 then [] else [".."] + Parents(n - 1)
  }

  lemma {:induction false} SplitUps(n: nat, rest: string)
    ensures Split(Ups(n) + rest, '/') == Parents(n) + Split(rest, '/')
  {
    hide Split;
    if n == 0 {
      assert Ups(0) + rest == rest;
    } else {
      SplitUps(n - 1, rest);
      SplitUp(Ups(n - 1) + rest);
      assert Ups(n) + rest == "../" + (Ups(n - 1) + rest);
    }
  }

  lemma SplitUp(rest: string)
    ensures Split("../" + rest, '/') == [".."] + Split(rest, '/')
  {
    hide Split;
    SplitConcat("..", rest, '/');
    SplitNone("..");
    assert "../" + rest == ".." + ['/'] + rest;
  }

  lemma SplitNone(s: string)
    requires forall k | 0 <= k < |s| :: s[k] != '/'
    ensures Split(s, '/') == [s]
  {
    assert s[..|s|] == s;
    IndexOfIs(s, '/', |s|);
  }

  lemma {:induction false} SplitJoin(parts: seq<string>)
    requires parts != [] && forall k | 0 <= k < |parts| :: '/' !in parts[k]
    ensures Split(Join(parts, "/"), '/') == parts
  {
    SplitNone(parts[0]);
    if |parts| > 1 {
      SplitJoin(parts[1..]);
      SplitConcat(parts[0], Join(parts[1..], "/"), '/');
      assert Join(parts, "/") == parts[0] + ['/'] + Join(parts[1..], "/");
    }
  }

  lemma {:induction false} WalkUp(dir: seq<string>, n: nat, steps: seq<string>)
    requires n <= |dir|
    ensures Walk(dir, Parents(n) + steps) == Walk(dir[..|dir| - n], steps)
    decreases n
  {
    if n == 0 {
      assert Parents(0) + steps == steps && dir[..|dir|] == dir;
    } else {
      var up := dir[..|dir| - 1];
      assert (Parents(n) + steps)[1..] == Parents(n - 1) + steps;
      WalkUp(up, n - 1, steps);
      assert up[..|up| - (n - 1)] == dir[..|dir| - n];
    }
  }

  lemma {:induction false} WalkDown(dir: seq<string>, steps: seq<string>)
    requires forall k | 0 <= k < |steps| :: steps[k] != ".."
    ensures Walk(dir, steps) == dir + steps
    decreases |steps|
  {
    if steps == [] {
      assert dir + steps == dir;
    } else {
      WalkDown(dir + [steps[0]], steps[1..]);
      assert dir + [steps[0]] + steps[1..] == dir + steps;
    }
  }

  lemma {:induction false} SharedDirs(dirs: seq<string>, parts: seq<string>)
    ensures var n := CommonDirs(dirs, parts); n <= |parts| && dirs[..n] == parts[..n]
  {
    if dirs != [] && |parts| > 1 && dirs[0] == parts[0] {
      SharedDirs(dirs[1..], parts[1..]);
      var n := CommonDirs(dirs, parts);
      assert dirs[..n] == [dirs[0]] + dirs[1..][..n - 1] && parts[..n] == [parts[0]] + parts[1..][..n - 1];
    }
  }

  /** The link written from one file to another leads to that other file, wherever the two are. */
  lemma RelativeLinkLeads(from: string, to: string)
    requires ProperPath(to)
    ensures Follow(from, RelativeLink(from, to)) == to
  {
    hide Split, Join, Walk, CommonDirs, Ups;
    var here, parts := Split(from, '/'), Split(to, '/');
    var dirs := here[..|here| - 1];
    var common := CommonDirs(dirs, parts);
    SharedDirs(dirs, parts);
    var ups, rest := |dirs| - common, parts[common..];
    SplitUps(ups, Join(rest, "/"));
    SplitJoin(rest);
    WalkUp(dirs, ups, rest);
    WalkDown(dirs[..common], rest);
    assert parts[..common] + rest == parts;
    JoinSplit(to, '/');
    assert ['/'] == "/";
  }

  lemma {:induction false} NoBreakInJoin(parts: seq<string>)
    requires forall k | 0 <= k < |parts| :: '\n' !in parts[k]
    ensures '\n' !in Join(parts, "/")
  {
    if |parts| > 1 { NoBreakInJoin(parts[1..]); }
  }

  lemma {:induction false} NoBreakInUps(n: nat)
    ensures '\n' !in Ups(n)
  {
    if n > 0 { NoBreakInUps(n - 1); }
  }

  lemma {:induction false} NoBreakInParts(s: string)
    requires '\n' !in s
    ensures forall k | 0 <= k < |Split(s, '/')| :: '\n' !in Split(s, '/')[k]
    decreases |s|
  {
    var i := IndexOf(s, '/');
    assert forall k | 0 <= k < |s| :: s[k] in s;
    if i < |s| {
      var rest := s[i + 1..];
      forall k | 0 <= k < |rest| ensures rest[k] != '\n' { assert s[i + 1 + k] in s; }
      NoBreakInParts(rest);
    }
  }

  lemma LinkOnOneLine(from: string, to: string)
    requires '\n' !in to
    ensures '\n' !in RelativeLink(from, to)
  {
    hide Split, Join, CommonDirs, Ups;
    NoBreakInParts(to);
    var here, parts := Split(from, '/'), Split(to, '/');
    var common := CommonDirs(here[..|here| - 1], parts);
    NoBreakInJoin(parts[common..]);
    NoBreakInUps(|here| - 1 - common);
  }

  // ---------- links in a laid-out document ----------

  /** Somewhere the text is a Markdown link to `address`. */
  ghost predicate ShowsLink(text: string, address: string) {
    exists p, words, q :: text == p + ("[" + (words + ("](" + address + ")" + q)))
  }

  lemma ShowsWithin(a: string, text: string, b: string, address: string)
    requires ShowsLink(text, address)
    ensures ShowsLink(a + text + b, address)
  {
    var p, words, q :| text == p + ("[" + (words + ("](" + address + ")" + q)));
    assert a + text + b == (a + p) + ("[" + (words + ("](" + address + ")" + (q + b))));
  }

  /** Indenting a text indents each part of it, with a look at what follows. */
  lemma {:induction false} ReindentFront(a: string, b: string, col: nat) returns (x: string)
    ensures Reindent(a + b, col) == x + Reindent(b, col)
  {
    if a == "" {
      assert a + b == b;
      x := "";
    } else {
      assert (a + b)[1..] == a[1..] + b;
      var y := ReindentFront(a[1..], b, col);
      ReindentHead(a + b, col);
      x := (if (a + b)[0] == '\n' && |a + b| > 1 && (a + b)[1] != '\n' then "\n" + Spaces(col) else [(a + b)[0]]) + y;
    }
  }

  lemma ReindentKept(a: string, b: string, col: nat)
    requires a != "" && '\n' !in a
    ensures Reindent(a + b, col) == a + Reindent(b, col)
  {
    WidthIsLastLine(a);
    ReindentOneLine(a, col);
    ReindentConcat(a, b, col);
  }

  lemma ShowsIndented(text: string, address: string, col: nat)
    requires ShowsLink(text, address) && '\n' !in address
    ensures ShowsLink(Reindent(text, col), address)
  {
    hide Reindent;
    var p, words, q :| text == p + ("[" + (words + ("](" + address + ")" + q)));
    var last := "](" + address + ")";
    assert "](" + address + ")" + q == last + q;
    ReindentKept(last, q, col);
    var words' := ReindentFront(words, last + q, col);
    ReindentKept("[", words + (last + q), col);
    var p' := ReindentFront(p, "[" + (words + (last + q)), col);
    var q' := Reindent(q, col);
    assert Reindent(text, col) == p' + ("[" + (words' + ("](" + address + ")" + q')));
  }

  lemma {:induction false} TrimmedFront(text: string) returns (a: string)
    ensures text == a + TrimNlStart(text) && forall k | 0 <= k < |a| :: a[k] == '\n'
  {
    a := "";
    if text != "" && text[0] == '\n' {
      a := TrimmedFront(text[1..]);
      a := "\n" + a;
    }
  }

  lemma {:induction false} ShowsTrimmedStart(text: string, address: string)
    requires ShowsLink(text, address)
    ensures ShowsLink(TrimNlStart(text), address)
  {
    if text != "" && text[0] == '\n' {
      var p, words, q :| text == p + ("[" + (words + ("](" + address + ")" + q)));
      assert p != "";
      assert text[1..] == p[1..] + ("[" + (words + ("](" + address + ")" + q)));
      ShowsTrimmedStart(text[1..], address);
    }
  }

  lemma EndsTogether(a: string, b: string)
    requires b != ""
    ensures (a + b)[|a + b| - 1] == b[|b| - 1]
  {}

  lemma {:induction false} ShowsTrimmedEnd(text: string, address: string)
    requires ShowsLink(text, address)
    ensures ShowsLink(TrimNlEnd(text), address)
    decreases |text|
  {
    if text != "" && text[|text| - 1] == '\n' {
      var p, words, q :| text == p + ("[" + (words + ("](" + address + ")" + q)));
      var front := p + ("[" + (words + ("](" + address)));
      assert text == front + (")" + q);
      EndsTogether(front, ")" + q);
      assert text[..|text| - 1] == p + ("[" + (words + ("](" + address + ")" + q[..|q| - 1])));
      ShowsTrimmedEnd(text[..|text| - 1], address);
    }
  }

  /**
   Every reference a document emits to a document of the set is, in its text, a link with the address of that document.
   */
  lemma {:induction false} LinkShown(doc: seq<Node>, set_: FlatSet, id: BlockId, col: nat)
    requires id in Emitted(doc) && id in set_.paths && '\n' !in set_.paths[id]
    ensures ShowsLink(Flat(doc, Some(set_), col), RelativeLink(set_.selfPath, set_.paths[id]))
    decreases doc, 1
  {
    hide RelativeLink, ShowsLink, Advance;
    var address := RelativeLink(set_.selfPath, set_.paths[id]);
    LinkOnOneLine(set_.selfPath, set_.paths[id]);
    var t, rest := FlatCons(doc, Some(set_), col);
    if id in EmittedBy(doc[0]) {
      NodeLinkShown(doc[0], set_, id, col);
      assert "" + t + rest == t + rest;
      ShowsWithin("", t, rest, address);
    } else {
      LinkShown(doc[1..], set_, id, Advance(col, t));
      assert t + rest + "" == t + rest;
      ShowsWithin(t, rest, "", address);
    }
  }

  lemma {:induction false} NodeLinkShown(n: Node, set_: FlatSet, id: BlockId, col: nat)
    requires id in EmittedBy(n) && id in set_.paths && '\n' !in set_.paths[id]
    ensures ShowsLink(FlatNode(n, Some(set_), col), RelativeLink(set_.selfPath, set_.paths[id]))
    decreases n, 0
  {
    hide RelativeLink, TrimNl, Reindent;
    var address := RelativeLink(set_.selfPath, set_.paths[id]);
    match n
    case Link(_, text) =>
      assert FlatNode(n, Some(set_), col) == "" + ("[" + (text + ("](" + address + ")" + "")));
    case Embedded(_, _, doc) =>
      LinkShown(doc, set_, id, 0);
      LinkOnOneLine(set_.selfPath, set_.paths[id]);
      ShowsTrimmed(Flat(doc, Some(set_), 0), address);
      ShowsIndented(TrimNl(Flat(doc, Some(set_), 0)), address, col);
    case _ =>
  }

  lemma ShowsTrimmed(text: string, address: string)
    requires ShowsLink(text, address)
    ensures ShowsLink(TrimNl(text), address)
  {
    ShowsTrimmedStart(text, address);
    ShowsTrimmedEnd(TrimNlStart(text), address);
  }
}
