/**
 The words a reference is shown with: the author's alias wherever one is given, the block's title where the bare target
 was written. Stated on texts and on what the renderers write.
 */
module Wording {
  import opened Prelude
  import opened Text
  import opened Wiki
  import opened Layout
  import opened Extract
  import opened Render
  import opened Extraction
  import opened Directives

  // ---------- one reference ----------

  /** A reference written with words of the author's own. */
  predicate Aliased(a: Atom) {
    a.Ref? && !a.embed && a.alias.Some? && a.alias.value != a.target
  }

  /** A reference that gives its target and nothing else. */
  predicate Bare(a: Atom) {
    a.Ref? && !a.embed && (a.alias.None? || a.alias.value == a.target)
  }

  /** Between any two parts of a body, an aliased reference to a known block is written as its alias. */
  lemma AliasWritten(v: Vault, p: BlockId, before: Body, a: Atom, after: Body, links: Option<FlatSet>)
    requires p in v.blocks && v.blocks[p].body == before + [a] + after
    requires Aliased(a) && v.Resolve(a.target).Some?
    requires links.Some? ==> v.Resolve(a.target).value !in links.value.paths
    ensures var front := Flat(Expand(v, before, {p}), links, 0);
            FlatBlock(v, p, links)
            == front + a.alias.value + Flat(Expand(v, after, {p}), links, Advance(0, front + a.alias.value))
  {
    WordsBetween(v, p, before, a, after, links, a.alias.value);
  }

  lemma WordsBetween(v: Vault, p: BlockId, before: Body, a: Atom, after: Body, links: Option<FlatSet>, words: string)
    requires p in v.blocks && v.blocks[p].body == before + [a] + after
    requires a.Ref? && !a.embed && forall col: nat :: FlatNode(ExpandAtom(v, a, {p}), links, col) == words
    ensures var front := Flat(Expand(v, before, {p}), links, 0);
            FlatBlock(v, p, links) == front + words + Flat(Expand(v, after, {p}), links, Advance(0, front + words))
  {
    hide Flat, Expand, FlatNode, ExpandAtom, Advance;
    var open := {p};
    var front := Flat(Expand(v, before, open), links, 0);
    ExpandConcat(v, before + [a], after, open);
    ExpandConcat(v, before, [a], open);
    ExpandOne(v, a, open);
    var head, n := Expand(v, before, open), ExpandAtom(v, a, open);
    FlatConcat(head + [n], Expand(v, after, open), links, 0);
    FlatConcat(head, [n], links, 0);
    FlatOne(n, links, Advance(0, front));
  }

  /** A bare reference is written as the title of its block, in the letters the title has. */
  lemma BareWritten(v: Vault, p: BlockId, before: Body, a: Atom, after: Body, links: Option<FlatSet>, id: BlockId)
    requires p in v.blocks && v.blocks[p].body == before + [a] + after
    requires Bare(a) && v.Resolve(a.target) == Some(id) && v.blocks[id].HasTitle()
    requires links.Some? ==> id !in links.value.paths
    ensures var front, words := Flat(Expand(v, before, {p}), links, 0), Trim(v.blocks[id].title.value);
            FlatBlock(v, p, links) == front + words + Flat(Expand(v, after, {p}), links, Advance(0, front + words))
  {
    WordsBetween(v, p, before, a, after, links, Trim(v.blocks[id].title.value));
  }

  /**
   A bare title target is shown as the title it found: the author's words up to what lower-casing makes equal, and those
   very words only if they are the title as stored.
   */
  lemma TitleTargetWords(v: Vault, a: Atom, id: BlockId)
    requires Bare(a) && v.Resolve(a.target) == Some(id) && a.target != id && Trim(a.target) == a.target
    requires !(IsBlockId(a.target) && a.target in v.blocks)
    ensures v.blocks[id].HasTitle()
    ensures v.lower(FlatReference(v, a, None)) == v.lower(a.target)
    ensures FlatReference(v, a, None) == a.target <==> a.target == Trim(v.blocks[id].title.value)
  {
    assert id in v.Holders(v.lower(a.target));
  }

  // ---------- cards ----------

  /** In the app the same words are a link to the block. */
  lemma CardWords(v: Vault, body: Body, before: Body, a: Atom, after: Body, open: set<BlockId>, id: BlockId,
                  words: string)
    requires body == before + [a] + after && a.Ref? && !a.embed && v.Resolve(a.target) == Some(id)
    requires words == if Aliased(a) then a.alias.value else v.blocks[id].DisplayTitle(id)
    ensures Cards(Expand(v, body, open))
            == Cards(Expand(v, before, open)) + "[" + EscapeLinkText(words) + "](mkb:" + id + ")"
              + Cards(Expand(v, after, open))
  {
    hide Cards, Expand, EscapeLinkText, Block.DisplayTitle, Vault.Resolve;
    ExpandConcat(v, before + [a], after, open);
    ExpandConcat(v, before, [a], open);
    ExpandOne(v, a, open);
    assert ExpandAtom(v, a, open) == Link(id, words);
    CardsConcat(Expand(v, before, open) + [Link(id, words)], Expand(v, after, open));
    CardsConcat(Expand(v, before, open), [Link(id, words)]);
    OneCard(Link(id, words));
    var link := "[" + EscapeLinkText(words) + "](mkb:" + id + ")";
    assert Cards(Expand(v, before, open)) + link
        == Cards(Expand(v, before, open)) + "[" + EscapeLinkText(words) + "](mkb:" + id + ")";
  }

  /** Where a reader of Markdown sees a link's label end: at the first bracket that no backslash protects. */
  function LabelEnd(s: string): (n: nat)
    ensures n <= |s|
  {
    if s == "" || s[0] == ']' then 0
    else if s[0] == '\\' && |s| > 1 then 2 + LabelEnd(s[2..])
    else 1 + LabelEnd(s[1..])
  }

  /** And what it shows of it: a backslash protects the character behind it. */
  function Unescaped(s: string): string {
    if s == "" then ""
    else if s[0] == '\\' && |s| > 1 then [s[1]] + Unescaped(s[2..])
    else [s[0]] + Unescaped(s[1..])
  }

  /** The label of a card's link is read to its end and shows the very words, brackets and backslashes included. */
  lemma {:induction false} LabelRead(words: string, rest: string)
    ensures LabelEnd(EscapeLinkText(words) + "]" + rest) == |EscapeLinkText(words)|
    ensures Unescaped(EscapeLinkText(words)) == words
  {
    if words == "" {
      assert EscapeLinkText(words) + "]" + rest == "]" + rest;
    } else {
      var tail := EscapeLinkText(words[1..]);
      var head := if words[0] == '\\' || words[0] == '[' || words[0] == ']' then ['\\', words[0]] else [words[0]];
      LabelRead(words[1..], rest);
      EscapeHead(words, head);
      hide EscapeLinkText;
      assert (head + tail) + "]" + rest == head + (tail + "]" + rest);
      PastHead(words[0], head, tail + "]" + rest);
      PastHead(words[0], head, tail);
      assert words == [words[0]] + words[1..];
    }
  }

  lemma EscapeHead(words: string, head: string)
    requires words != ""
    requires head == if words[0] == '\\' || words[0] == '[' || words[0] == ']' then ['\\', words[0]] else [words[0]]
    ensures EscapeLinkText(words) == head + EscapeLinkText(words[1..])
  {}

  lemma PastHead(c: char, head: string, s: string)
    requires head == if c == '\\' || c == '[' || c == ']' then ['\\', c] else [c]
    ensures LabelEnd(head + s) == |head| + LabelEnd(s) && Unescaped(head + s) == [c] + Unescaped(s)
  {
    assert (head + s)[|head|..] == s;
  }

  /** A block quote, read back: `> ` or the bare `>` in front of every line. */
  function Unquoted(line: string): string {
    if |line| >= 2 && line[0] == '>' && line[1] == ' ' then line[2..]
    else if line != "" && line[0] == '>' then line[1..] else line
  }

  predicate IsQuoted(line: string) { line != "" && line[0] == '>' }

  function Marked(lines: seq<string>): seq<string> {
    if lines == [] then [] else [if lines[0] == "" then ">" else "> " + lines[0]] + Marked(lines[1..])
  }

  lemma {:induction false} MarkedBack(lines: seq<string>)
    ensures |Marked(lines)| == |lines|
    ensures forall k | 0 <= k < |lines| :: IsQuoted(Marked(lines)[k]) && Unquoted(Marked(lines)[k]) == lines[k]
  {
    if lines != [] { MarkedBack(lines[1..]); }
  }

  lemma {:induction false} QuoteSplit(lines: seq<string>)
    requires forall k | 0 <= k < |lines| :: '\n' !in lines[k]
    ensures Split(Quote(lines), '\n') == Marked(lines) + [""]
  {
    hide Split;
    if lines == [] {
      OneSplit("");
    } else {
      var head := if lines[0] == "" then ">" else "> " + lines[0];
      QuoteSplit(lines[1..]);
      LineBefore(head, Quote(lines[1..]));
      assert "\n" == ['\n'];
    }
  }

  lemma LineBefore(head: string, rest: string)
    requires '\n' !in head
    ensures Split(head + ['\n'] + rest, '\n') == [head] + Split(rest, '\n')
  {
    hide Split;
    OneSplit(head);
    SplitConcat(head, rest, '\n');
  }

  lemma OneSplit(s: string)
    requires '\n' !in s
    ensures Split(s, '\n') == [s]
  {
    assert s[..|s|] == s;
    IndexOfIs(s, '\n', |s|);
  }

  /**
   The card of an embed is a block quote: a line with a link to the block under its title, an empty one, and then
   line by line what the block's own body is shown as.
   */
  lemma EmbedCard(id: BlockId, title: string, doc: seq<Node>)
    requires '\n' !in title
    ensures var lines := Split(CardNode(Embedded(id, title, doc)), '\n');
            var inner := Lines(Cards(doc));
            && |lines| == 2 + |inner| + 1 && lines[|lines| - 1] == ""
            && lines[0] == "> \U{29C9} [" + EscapeLinkText(title) + "](mkb:" + id + ")" && lines[1] == ">"
            && forall k | 0 <= k < |inner| :: IsQuoted(lines[k + 2]) && Unquoted(lines[k + 2]) == inner[k]
  {
    hide Cards, Lines, Split, Quote, EscapeLinkText;
    var inner := Lines(Cards(doc));
    var first := "> \U{29C9} [" + EscapeLinkText(title) + "](mkb:" + id + ")";
    EscapedLine(title);
    IdLine(id);
    NoBreakJoined(first, title, id);
    QuoteSplit(inner);
    MarkedBack(inner);
    OneSplit(first);
    OneSplit(">");
    SplitConcat(">", Quote(inner), '\n');
    SplitConcat(first, ">" + ['\n'] + Quote(inner), '\n');
    assert CardNode(Embedded(id, title, doc)) == first + ['\n'] + (">" + ['\n'] + Quote(inner));
  }

  lemma {:induction false} EscapedLine(s: string)
    requires '\n' !in s
    ensures '\n' !in EscapeLinkText(s)
  {
    if s != "" { EscapedLine(s[1..]); }
  }

  lemma IdLine(id: BlockId)
    ensures '\n' !in id
  {
    forall k | 0 <= k < |id| ensures id[k] != '\n' { assert IsAsciiAlnum(id[k]); }
  }

  lemma NoBreakJoined(first: string, title: string, id: BlockId)
    requires first == "> \U{29C9} [" + EscapeLinkText(title) + "](mkb:" + id + ")"
    requires '\n' !in EscapeLinkText(title) && '\n' !in id
    ensures '\n' !in first
  {
    hide EscapeLinkText;
  }

  // ---------- texts ----------

  /**
   `[[target|alias]]`, by itself, is shown as the alias: as plain text in a document, as a link to the block in the
   app.
   */
  lemma AliasedText(v: Vault, p: BlockId, target: string, alias: string, id: BlockId)
    requires p in v.blocks && Writable(target, Some(alias))
    requires v.blocks[p].body == Read("[[" + target + "|" + alias + "]]")
    requires v.Resolve(Trim(target)) == Some(id) && Trim(alias) != Trim(target)
    ensures FlatBlock(v, p, None) == Trim(alias)
    ensures Cards(Expand(v, v.blocks[p].body, {p})) == "[" + EscapeLinkText(Trim(alias)) + "](mkb:" + id + ")"
  {
    hide Trim, Read, Block.DisplayTitle, Vault.Resolve;
    assert "[[" + target + "|" + alias + "]]" == Written(false, target, Some(alias));
    DirectiveRead(false, target, Some(alias));
    OneShown(v, p, Meant(false, target, Some(alias)), id, Trim(alias));
  }

  /** `[[id]]`, by itself, is shown as the block's title. */
  lemma BareIdText(v: Vault, p: BlockId, id: BlockId)
    requires p in v.blocks && v.blocks[p].body == Read("[[" + id + "]]") && id in v.blocks && v.blocks[id].HasTitle()
    ensures FlatBlock(v, p, None) == Trim(v.blocks[id].title.value)
    ensures Cards(Expand(v, v.blocks[p].body, {p}))
            == "[" + EscapeLinkText(Trim(v.blocks[id].title.value)) + "](mkb:" + id + ")"
  {
    hide Read, Vault.Resolve, EscapeLinkText, Trim;
    IdWritable(id);
    DirectiveRead(false, id, None);
    ResolveId(v, id);
    OneShown(v, p, Meant(false, id, None), id, Trim(v.blocks[id].title.value));
  }

  lemma IdWritable(id: BlockId)
    ensures Writable(id, None) && Trim(id) == id && "[[" + id + "]]" == Written(false, id, None)
  {
    forall k | 0 <= k < |id| ensures id[k] != ']' && id[k] != '\n' && id[k] != '|' { assert IsAsciiAlnum(id[k]); }
    TrimId(id);
  }

  lemma OneShown(v: Vault, p: BlockId, a: Atom, id: BlockId, words: string)
    requires p in v.blocks && v.blocks[p].body == [a]
    requires ExpandAtom(v, a, {p}) == Link(id, words)
    ensures FlatBlock(v, p, None) == words
    ensures Cards(Expand(v, v.blocks[p].body, {p})) == "[" + EscapeLinkText(words) + "](mkb:" + id + ")"
  {
    hide ExpandAtom, Expand, EscapeLinkText;
    ExpandOne(v, a, {p});
    FlatOne(Link(id, words), None, 0);
    OneCard(Link(id, words));
  }

  lemma OneCard(n: Node)
    ensures Cards([n]) == CardNode(n)
  {
    assert [n][1..] == [];
    assert CardNode(n) + Cards([]) == CardNode(n);
  }

  /** A reference to nothing is shown as it was labelled; an embed of nothing leaves a note of its target. */
  lemma DanglingText(v: Vault, p: BlockId, embed: bool, target: string, alias: Option<string>)
    requires p in v.blocks && Writable(target, alias) && v.blocks[p].body == Read(Written(embed, target, alias))
    requires v.Resolve(Trim(target)).None?
    ensures var shown := Trim(if alias.Some? then alias.value else target);
            if embed then
              && FlatBlock(v, p, None) == "<!-- mkb: unresolved embed: " + Trim(target) + " -->"
              && Cards(Expand(v, v.blocks[p].body, {p}))
                 == "[\U{26A0} " + EscapeLinkText(shown) + "](mkb:?unresolved) *(unresolved embed)*"
            else
              && FlatBlock(v, p, None) == shown
              && Cards(Expand(v, v.blocks[p].body, {p})) == "[" + EscapeLinkText(shown) + "](mkb:?unresolved)"
  {
    hide Read, Trim, Expand, EscapeLinkText, Written, Writable, Vault.Resolve;
    DirectiveRead(embed, target, alias);
    var a := Meant(embed, target, alias);
    ExpandOne(v, a, {p});
    var n := ExpandAtom(v, a, {p});
    FlatOne(n, None, 0);
    OneCard(n);
    if embed { ReindentZero(MissingMark(Trim(target))); }
  }

  /** A block that embeds itself is not entered again: a note with the label of the embed is left. */
  lemma SelfEmbedText(v: Vault, p: BlockId, target: string, alias: Option<string>)
    requires p in v.blocks && Writable(target, alias) && v.blocks[p].body == Read(Written(true, target, alias))
    requires v.Resolve(Trim(target)) == Some(p)
    ensures var shown := Trim(if alias.Some? then alias.value else target);
            && FlatBlock(v, p, None) == "<!-- mkb: transclusion cycle at " + shown + " -->"
            && Cards(Expand(v, v.blocks[p].body, {p}))
               == "[\U{21BB} " + EscapeLinkText(shown) + "](mkb:" + p + ") *(transclusion cycle)*"
  {
    hide Read, Trim, Expand, EscapeLinkText, Written, Writable, Vault.Resolve;
    DirectiveRead(true, target, alias);
    var a := Meant(true, target, alias);
    ExpandOne(v, a, {p});
    var n := ExpandAtom(v, a, {p});
    FlatOne(n, None, 0);
    OneCard(n);
    ReindentZero(CycleMark(n.cycleLabel));
  }

  /** A block without a title is called by the heading it starts with, if that has no markup and is not too long. */
  lemma HeadingShown(id: BlockId, b: Block, words: string, rest: string)
    requires !b.HasTitle() && Raw(b.body) == "# " + words + "\n" + rest
    requires words != "" && Trim(words) == words && |words| <= 80
    requires forall k | 0 <= k < |words| ::
              words[k] != '\n' && words[k] != '#' && words[k] != '*' && words[k] != '_' && words[k] != '`'
    ensures b.DisplayTitle(id) == words
  {
    hide *;
    var line := "# " + words;
    NoOuterSpace(words);
    FirstLineIs(line, rest);
    HashTrimmed(words);
    NoMarkup(words);
    HeadingIs(Lines(Raw(b.body)), id, words);
    Untitled(id, b);
  }

  lemma Untitled(id: BlockId, b: Block)
    requires !b.HasTitle()
    ensures b.DisplayTitle(id) == Heading(Lines(Raw(b.body)), id)
  {}

  lemma HeadingIs(lines: seq<string>, id: BlockId, words: string)
    requires lines != [] && Trim(TrimHashes(Trim(lines[0]))) == words
    requires words != "" && |words| <= 80 && StripMarkup(words) == words
    ensures Heading(lines, id) == words
  {
    hide Trim, TrimHashes, StripMarkup;
  }

  lemma FirstLineIs(line: string, rest: string)
    requires line != "" && '\n' !in line && line[|line| - 1] != '\r'
    ensures Lines(line + "\n" + rest) != [] && Lines(line + "\n" + rest)[0] == line
  {
    var text := line + "\n" + rest;
    assert text[..|line|] == line;
    IndexOfIs(text, '\n', |line|);
  }

  lemma HashTrimmed(words: string)
    requires words != "" && words[0] != '#' && Trim(words) == words && !IsSpace(words[0])
    requires !IsSpace(words[|words| - 1])
    ensures Trim(TrimHashes(Trim("# " + words))) == words
  {
    var line := "# " + words;
    NoOuterSpaceTrim(line);
    hide Trim;
    assert line[1..] == " " + words && TrimHashes(line) == " " + words;
    SpaceTrimmed(words);
  }

  lemma NoOuterSpace(s: string)
    requires Trim(s) == s && s != ""
    ensures !IsSpace(s[0]) && !IsSpace(s[|s| - 1]) && s[|s| - 1] != '\r'
  {
    TrimEnds(s);
  }

  lemma NoOuterSpaceTrim(s: string)
    requires s != "" && !IsSpace(s[0]) && !IsSpace(s[|s| - 1])
    ensures Trim(s) == s
  {
    TrimEnds(s);
  }

  lemma SpaceTrimmed(s: string)
    requires Trim(s) == s
    ensures Trim(" " + s) == s
  {
    assert (" " + s)[1..] == s;
  }

  lemma {:induction false} NoMarkup(s: string)
    requires forall k | 0 <= k < |s| :: s[k] != '*' && s[k] != '_' && s[k] != '`'
    ensures StripMarkup(s) == s
  {
    if s != "" {
      NoMarkup(s[1..]);
      assert s == [s[0]] + s[1..];
    }
  }

  // ---------- a retitled block ----------

  /** The same blocks and bodies, and every directive resolves alike; the titles may differ. */
  ghost predicate Retitled(v: Vault, w: Vault) {
    && w.blocks.Keys == v.blocks.Keys
    && forall id | id in v.blocks :: w.blocks[id].body == v.blocks[id].body && Agree(v, w, v.blocks[id].body)
  }

  /** No bare reference of the body names a block that is shown under another title. */
  ghost predicate BareKept(v: Vault, w: Vault, body: Body) {
    forall k | 0 <= k < |body| && Bare(body[k]) && v.Resolve(body[k].target).Some? ::
      var id := v.Resolve(body[k].target).value;
      id in w.blocks && w.blocks[id].DisplayTitle(id) == v.blocks[id].DisplayTitle(id)
  }

  /** What is shown of a body does not change with titles that no bare reference shows: aliases are the author's. */
  lemma {:induction false} AliasesKept(v: Vault, w: Vault, body: Body, open: set<BlockId>, links: Option<FlatSet>,
                                       col: nat)
    requires Retitled(v, w) && Agree(v, w, body) && BareKept(v, w, body)
    requires forall id | id in v.blocks :: BareKept(v, w, v.blocks[id].body)
    ensures Flat(Expand(w, body, open), links, col) == Flat(Expand(v, body, open), links, col)
    decreases v.blocks.Keys - open, |body|
  {
    hide Flat, FlatNode, Expand, ExpandAtom, Advance;
    if body == [] {
      NothingExpanded(v, open);
      NothingExpanded(w, open);
    } else {
      var a := body[0];
      assert body == [a] + body[1..] + [] && body == [] + [a] + body[1..];
      AgreeSub(v, w, [a], body[1..], []);
      AgreeSub(v, w, [], [a], body[1..]);
      BareTail(v, w, body);
      ExpandCons(v, body, open);
      ExpandCons(w, body, open);
      var t, rest := FlatCons(Expand(v, body, open), links, col);
      var t', rest' := FlatCons(Expand(w, body, open), links, col);
      if a.Ref? && a.embed && v.Resolve(a.target).Some? && v.Resolve(a.target).value !in open {
        var id := v.Resolve(a.target).value;
        assert v.blocks.Keys - (open + {id}) < v.blocks.Keys - open by { assert id in v.blocks.Keys - open; }
        AliasesKept(v, w, v.blocks[id].body, open + {id}, links, 0);
      }
      AtomKept(v, w, a, open, links, col);
      AliasesKept(v, w, body[1..], open, links, Advance(col, t));
    }
  }

  lemma NothingExpanded(v: Vault, open: set<BlockId>)
    ensures Expand(v, [], open) == []
  {
  }

  lemma BareTail(v: Vault, w: Vault, body: Body)
    requires body != [] && BareKept(v, w, body)
    ensures BareKept(v, w, body[1..]) && BareKept(v, w, [body[0]])
  {
    hide Block.DisplayTitle, Vault.Resolve;
    var rest := body[1..];
    assert forall k | 0 <= k < |rest| :: rest[k] == body[k + 1];
    assert [body[0]][0] == body[0];
  }

  lemma AtomKept(v: Vault, w: Vault, a: Atom, open: set<BlockId>, links: Option<FlatSet>, col: nat)
    requires Retitled(v, w) && Agree(v, w, [a]) && BareKept(v, w, [a])
    requires a.Ref? && a.embed && v.Resolve(a.target).Some? && v.Resolve(a.target).value !in open ==>
               var id := v.Resolve(a.target).value;
               Flat(Expand(w, w.blocks[id].body, open + {id}), links, 0)
               == Flat(Expand(v, v.blocks[id].body, open + {id}), links, 0)
    ensures FlatNode(ExpandAtom(w, a, open), links, col) == FlatNode(ExpandAtom(v, a, open), links, col)
  {
    hide Flat, Expand, Reindent, TrimNl, Block.DisplayTitle, Vault.Resolve;
    if a.Ref? {
      assert w.Resolve([a][0].target) == v.Resolve([a][0].target);
      var id := v.Resolve(a.target);
      if a.embed && id.Some? && id.value !in open {
        EmbeddedText(v, a, id.value, open, links, col);
        EmbeddedText(w, a, id.value, open, links, col);
      } else if !a.embed && id.Some? && Bare(a) {
        assert Bare([a][0]);
      }
    }
  }

  /**
   Retitling blocks, with every directive still finding what it found, changes no rendering but through bare references:
   if each of those names a block shown as before, all blocks render as before.
   */
  lemma RetitleKeepsRenders(v: Vault, w: Vault, links: Option<FlatSet>)
    requires Retitled(v, w) && forall id | id in v.blocks :: BareKept(v, w, v.blocks[id].body)
    ensures forall id | id in v.blocks :: FlatBlock(w, id, links) == FlatBlock(v, id, links)
  {
    forall id | id in v.blocks ensures FlatBlock(w, id, links) == FlatBlock(v, id, links) {
      AliasesKept(v, w, v.blocks[id].body, {id}, links, 0);
    }
  }
}
