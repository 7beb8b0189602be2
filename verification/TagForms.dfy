/** The ways to write tags in the frontmatter of a block file: a flow list, a list of lines, a single tag. */
module TagForms {
  import opened Prelude
  import opened Text
  import opened BlockFile
  import opened BlockFileLaws

  predicate Blank(s: string) { forall k | 0 <= k < |s| :: IsSpace(s[k]) }

  predicate Quotes(s: string) { forall k | 0 <= k < |s| :: IsQuote(s[k]) }

  /** A tag that is not cut by reading it: no white space or quotes at its ends. */
  predicate PlainTag(t: string) {
    t != "" && Trimmed(t) && !IsQuote(t[0]) && !IsQuote(t[|t| - 1])
  }

  /** `s` is `t`, perhaps in quotes and with white space around. */
  ghost predicate Dressed(s: string, t: string) {
    exists a, q, r, b :: Blank(a) && Quotes(q) && Quotes(r) && Blank(b) && s == a + (q + t + r) + b
  }

  lemma Undress(s: string, t: string) returns (a: string, q: string, r: string, b: string)
    requires Dressed(s, t)
    ensures Blank(a) && Quotes(q) && Quotes(r) && Blank(b) && s == a + (q + t + r) + b
  {
    a, q, r, b :| Blank(a) && Quotes(q) && Quotes(r) && Blank(b) && s == a + (q + t + r) + b;
  }

  lemma Dress(s: string, a: string, q: string, t: string, r: string, b: string)
    requires Blank(a) && Quotes(q) && Quotes(r) && Blank(b) && s == a + (q + t + r) + b
    ensures Dressed(s, t)
  {}

  lemma {:induction false} BlankBefore(a: string, x: string)
    requires Blank(a) && x != "" && !IsSpace(x[0])
    ensures TrimStart(a + x) == x
  {
    if a == "" {
      assert a + x == x;
    } else {
      assert (a + x)[1..] == a[1..] + x;
      BlankBefore(a[1..], x);
    }
  }

  lemma {:induction false} BlankAfter(x: string, b: string)
    requires Blank(b) && x != "" && !IsSpace(x[|x| - 1])
    ensures TrimEnd(x + b) == x
    decreases |b|
  {
    if b == "" {
      assert x + b == x;
    } else {
      assert (x + b)[..|x + b| - 1] == x + b[..|b| - 1];
      BlankAfter(x, b[..|b| - 1]);
    }
  }

  lemma BlankAround(a: string, x: string, b: string)
    requires Blank(a) && Blank(b) && x != "" && Trimmed(x)
    ensures Trim(a + x + b) == x
  {
    hide TrimStart, TrimEnd;
    assert a + x + b == a + (x + b);
    BlankBefore(a, x + b);
    BlankAfter(x, b);
  }

  lemma {:induction false} QuotesBefore(q: string, x: string)
    requires Quotes(q) && x != "" && !IsQuote(x[0])
    ensures TrimQuotesStart(q + x) == x
  {
    if q == "" {
      assert q + x == x;
    } else {
      assert (q + x)[1..] == q[1..] + x;
      QuotesBefore(q[1..], x);
    }
  }

  lemma {:induction false} QuotesAfter(x: string, r: string)
    requires Quotes(r) && x != "" && !IsQuote(x[|x| - 1])
    ensures TrimQuotesEnd(x + r) == x
    decreases |r|
  {
    if r == "" {
      assert x + r == x;
    } else {
      assert (x + r)[..|x + r| - 1] == x + r[..|r| - 1];
      QuotesAfter(x, r[..|r| - 1]);
    }
  }

  lemma QuotedTrimmed(q: string, t: string, r: string)
    requires Quotes(q) && Quotes(r) && PlainTag(t)
    ensures q + t + r != "" && Trimmed(q + t + r)
  {
    var x := q + t + r;
    assert x[0] == if q == "" then t[0] else q[0];
    assert x[|x| - 1] == if r == "" then t[|t| - 1] else r[|r| - 1];
  }

  /** However it is dressed, the tag is read. */
  lemma DressedTag(s: string, t: string)
    requires PlainTag(t) && Dressed(s, t)
    ensures TagOf(s) == [t]
  {
    hide Trim, TrimQuotesStart, TrimQuotesEnd, Trimmed, Dressed;
    var a, q, r, b := Undress(s, t);
    QuotedTrimmed(q, t, r);
    BlankAround(a, q + t + r, b);
    assert q + t + r == q + (t + r);
    QuotesBefore(q, t + r);
    QuotesAfter(t, r);
    TrimEnds(t);
  }

  // ---------- lines ----------

  /** The line is `mark` with `t` behind it. */
  ghost predicate Marks(line: string, mark: string, t: string) {
    exists a, s :: Blank(a) && Dressed(s, t) && line == a + mark + s
  }

  lemma MarkedLine(line: string, mark: string, t: string)
    requires PlainTag(t) && Marks(line, mark, t) && mark != "" && !IsSpace(mark[0])
    ensures mark <= Trim(line) && Dressed(Trim(line)[|mark|..], t)
    ensures Trim(Trim(line)[|mark|..]) != ""
    ensures Trim(Trim(line)[|mark|..])[0] == t[0] || IsQuote(Trim(Trim(line)[|mark|..])[0])
  {
    hide Trim, Trimmed, Dressed;
    var a0, s :| Blank(a0) && Dressed(s, t) && line == a0 + mark + s;
    var a, q, r, b := Undress(s, t);
    QuotedTrimmed(q, t, r);
    var x := mark + (a + (q + t + r));
    LastOf(mark + a, q + t + r);
    assert x == (mark + a) + (q + t + r);
    TrimmedBehind(mark, a, q + t + r);
    BlankAround(a0, x, b);
    assert line == a0 + x + b;
    Dress(Trim(line)[|mark|..], a, q, t, r, "");
    BlankAround(a, q + t + r, "");
  }

  lemma LastOf(a: string, b: string)
    requires b != ""
    ensures (a + b)[|a + b| - 1] == b[|b| - 1]
  {}

  lemma TrimmedBehind(mark: string, a: string, x: string)
    requires mark != "" && !IsSpace(mark[0]) && x != "" && Trimmed(x)
    ensures Trimmed(mark + (a + x))
  {
    LastOf(a, x);
    LastOf(mark, a + x);
  }

  predicate IsItem(line: string) { Trim(line) != "" && Trim(line)[0] == '-' }

  lemma {:induction false} ItemsRead(items: seq<string>, tags: seq<string>, rest: seq<string>)
    requires |items| == |tags| && (rest == [] || !IsItem(rest[0]))
    requires forall i | 0 <= i < |tags| :: PlainTag(tags[i]) && Marks(items[i], "-", tags[i])
    ensures BlockTags(items + rest) == (tags, |items|)
  {
    hide TagOf, Trim, PlainTag, Marks, Dressed;
    if items == [] {
      assert items + rest == rest;
    } else {
      MarkedLine(items[0], "-", tags[0]);
      DressedTag(Trim(items[0])[1..], tags[0]);
      ItemsRead(items[1..], tags[1..], rest);
      assert (items + rest)[1..] == items[1..] + rest;
      assert [tags[0]] + tags[1..] == tags;
    }
  }

  /** A list of lines below `tags:` is read to its end, item by item, and reading goes on behind it. */
  lemma ListedTagsRead(head: string, items: seq<string>, tags: seq<string>, rest: seq<string>)
    requires Trim(head) == "tags:" && |items| == |tags| && (rest == [] || !IsItem(rest[0]))
    requires forall i | 0 <= i < |tags| :: PlainTag(tags[i]) && Marks(items[i], "-", tags[i])
    ensures FmTags([head] + items + rest) == tags + FmTags(rest)
  {
    hide BlockTags, PlainTag, Marks, IsItem;
    var lines := [head] + items + rest;
    assert lines[1..] == items + rest;
    ItemsRead(items, tags, rest);
    assert lines[1..][|items|..] == rest;
    TagsKey(head);
    assert lines[1 + |items|..] == rest;
  }

  lemma TagsKey(head: string)
    requires Trim(head) == "tags:"
    ensures AfterKey(head, "tags").Some? && Trim(AfterKey(head, "tags").value) == ""
  {}

  /** A single tag on the line of `tags:`, unless it looks like the start of a flow list. */
  lemma SingleTagRead(line: string, t: string, rest: seq<string>)
    requires PlainTag(t) && t[0] != '[' && Marks(line, "tags:", t)
    ensures FmTags([line] + rest) == [t] + FmTags(rest)
  {
    hide BlockTags, PlainTag, Marks, Dressed, Trim, TagOf, FlowTags;
    MarkedLine(line, "tags:", t);
    var after := Trim(line)[5..];
    assert "tags" + ":" == "tags:";
    assert AfterKey(line, "tags").value == after;
    TrimDressed(after, t);
    DressedTag(Trim(after), t);
    assert ([line] + rest)[1..] == rest;
  }

  lemma TrimDressed(s: string, t: string)
    requires PlainTag(t) && Dressed(s, t)
    ensures Dressed(Trim(s), t)
  {
    hide Trim, Trimmed, Dressed;
    var a, q, r, b := Undress(s, t);
    QuotedTrimmed(q, t, r);
    BlankAround(a, q + t + r, b);
    Dress(Trim(s), "", q, t, r, "");
  }

  // ---------- the same tags ----------

  function ItemLines(tags: seq<string>): (lines: seq<string>)
    ensures |lines| == |tags| && forall i | 0 <= i < |tags| :: lines[i] == "  - " + tags[i]
  {
    seq(|tags|, i requires 0 <= i < |tags| => "  - " + tags[i])
  }

  lemma CanonIsPlain(t: string)
    requires CanonTag(t)
    ensures PlainTag(t) && t[0] != '['
  {
    TrimEnds(t);
  }

  lemma ItemMarked(t: string)
    ensures Marks("  - " + t, "-", t)
  {
    Dress(" " + t, " ", "", t, "", "");
    assert "  - " + t == "  " + "-" + (" " + t);
  }

  lemma SingleMarked(t: string)
    ensures Marks("tags: " + t, "tags:", t)
  {
    Dress(" " + t, " ", "", t, "", "");
    assert "tags: " + t == "" + "tags:" + (" " + t);
  }

  lemma FlowRead(tags: seq<string>)
    requires CanonTags(tags) && tags != []
    ensures FmTags(["tags: [" + Join(tags, ", ") + "]"]) == tags
  {
    hide CanonTags, FlowTags, Trim, Join, BlockTags;
    var q := "[" + Join(tags, ", ") + "]";
    FlowReads(tags);
    TrimEnds(q);
    BlankAround(" ", q, "");
    var line := "tags: " + q;
    assert line == "" + ("tags:" + (" " + q)) + "";
    BlankAround("", "tags:" + (" " + q), "");
    assert AfterKey(line, "tags") == Some(" " + q);
    assert " " + q + "" == " " + q;
    assert [line][1..] == [];
    assert tags + [] == tags;
    assert line == "tags: [" + Join(tags, ", ") + "]";
  }

  /** The three forms say the same: canonical tags are read from each of them. */
  lemma FormsAgree(tags: seq<string>)
    requires CanonTags(tags) && tags != []
    ensures FmTags(["tags: [" + Join(tags, ", ") + "]"]) == tags
    ensures FmTags(["tags:"] + ItemLines(tags)) == tags
    ensures |tags| == 1 ==> FmTags(["tags: " + tags[0]]) == tags
  {
    hide *;
    FlowRead(tags);
    ItemsAgree(tags);
    if |tags| == 1 { SingleAgrees(tags); }
  }

  lemma ItemsAgree(tags: seq<string>)
    requires CanonTags(tags)
    ensures FmTags(["tags:"] + ItemLines(tags)) == tags
  {
    hide FmTags, CanonTag, PlainTag, Marks, ItemLines, Trim;
    forall i | 0 <= i < |tags| ensures PlainTag(tags[i]) && Marks(ItemLines(tags)[i], "-", tags[i]) {
      CanonIsPlain(tags[i]);
      ItemMarked(tags[i]);
    }
    TrimEnds("tags:");
    NoLines();
    ListedTagsRead("tags:", ItemLines(tags), tags, []);
    assert ["tags:"] + ItemLines(tags) + [] == ["tags:"] + ItemLines(tags);
    assert tags + [] == tags;
  }

  lemma SingleAgrees(tags: seq<string>)
    requires CanonTags(tags) && |tags| == 1
    ensures FmTags(["tags: " + tags[0]]) == tags
  {
    hide FmTags, CanonTag, PlainTag, Marks;
    CanonIsPlain(tags[0]);
    SingleMarked(tags[0]);
    NoLines();
    SingleTagRead("tags: " + tags[0], tags[0], []);
    assert ["tags: " + tags[0]] + [] == ["tags: " + tags[0]];
    assert [tags[0]] + [] == tags;
  }

  lemma NoLines()
    ensures FmTags([]) == []
  {}
}
