/**
 The block file format: YAML frontmatter with a few managed keys and open-ended properties, then the body. Inline
 tags and code languages, which are derived from the body by pattern matching, are not part of it.
 */
module BlockFile {
  import opened Prelude
  import opened Text
  import opened Fields

  /** What the frontmatter and the body of a file say. */
  datatype Parsed = Parsed(title: Option<string>, tags: seq<string>, locked: bool, updated: Option<string>,
    props: Props, body: string)

  // ---------- scalars ----------

  predicate IsControl(c: char) { c <= '\U{001F}' || '\U{007F}' <= c <= '\U{009F}' }

  /** Characters a plain scalar may not start with. */
  predicate IsIndicator(c: char) {
    c == '-' || c == '?' || c == ':' || c == ',' || c == '[' || c == ']' || c == '{' || c == '}' || c == '#' || c == '&'
    || c == '*' || c == '!' || c == '|' || c == '>' || c == '\'' || c == '"' || c == '%' || c == '@' || c == '`'
  }

  predicate IsPlainSafe(s: string) {
    && s != "" && Trim(s) == s && !IsIndicator(s[0])
    && (forall i | 0 <= i < |s| - 1 :: !(s[i] == ':' && s[i + 1] == ' ') && !(s[i] == ' ' && s[i + 1] == '#'))
    && s[|s| - 1] != ':'
    && (forall i | 0 <= i < |s| :: !IsControl(s[i]))
  }

  function EscapeChar(c: char): string {
    if c == '\\' then "\\\\" else if c == '"' then "\\\"" else if c == '\n' then "\\n" else if c == '\t' then "\\t"
      else [c]
  }

  function EscapeAll(s: string): string {
    if s == "" then "" else EscapeChar(s[0]) + EscapeAll(s[1..])
  }

  function YamlScalar(s: string): string {
    if IsPlainSafe(s) then s else "\"" + EscapeAll(s) + "\""
  }

  function UnescapeChar(c: char): char {
    if c == 'n' then '\n' else if c == 't' then '\t' else c
  }

  function Unescape(s: string): string {
    if s == "" then ""
    else if s[0] != '\\' then [s[0]] + Unescape(s[1..])
    else if |s| == 1 then ""
    else [UnescapeChar(s[1])] + Unescape(s[2..])
  }

  function Undouble(s: string): string {
    if |s| < 2 then s else if s[0] == '\'' && s[1] == '\'' then "'" + Undouble(s[2..]) else [s[0]] + Undouble(s[1..])
  }

  predicate Enclosed(s: string, q: char) {
    |s| >= 2 && s[0] == q && s[|s| - 1] == q
  }

  function ParseScalar(raw: string): string {
    var s := Trim(raw);
    if Enclosed(s, '"') then Unescape(s[1..|s| - 1])
    else if Enclosed(s, '\'') then Undouble(s[1..|s| - 1])
    else s
  }

  method WriteScalar(s: string) returns (r: string)
    ensures r == YamlScalar(s)
  {
    if IsPlainSafe(s) { return s; }
    r := "\"";
    for i := 0 to |s|
      invariant r + EscapeAll(s[i..]) == "\"" + EscapeAll(s)
    {
      assert s[i..][1..] == s[i + 1..];
      assert r + (EscapeChar(s[i]) + EscapeAll(s[i + 1..])) == (r + EscapeChar(s[i])) + EscapeAll(s[i + 1..]);
      r := r + EscapeChar(s[i]);
    }
    assert s[|s|..] == "" && r + "" == r;
    r := r + "\"";
  }

  method ReadScalar(raw: string) returns (r: string)
    ensures r == ParseScalar(raw)
  {
    var s := Trim(raw);
    if Enclosed(s, '"') {
      var inner := s[1..|s| - 1];
      r := UnescapeLoop(inner);
    } else if Enclosed(s, '\'') {
      r := Undouble(s[1..|s| - 1]);
    } else {
      r := s;
    }
  }

  method UnescapeLoop(inner: string) returns (r: string)
    ensures r == Unescape(inner)
  {
    var i := 0;
    r := "";
    assert inner[0..] == inner;
    while i < |inner|
      invariant 0 <= i <= |inner|
      invariant r + Unescape(inner[i..]) == Unescape(inner)
    {
      var c := inner[i];
      assert inner[i..][1..] == inner[i + 1..];
      if c == '\\' {
        if i + 1 < |inner| {
          assert inner[i..][2..] == inner[i + 2..];
          var u := [UnescapeChar(inner[i + 1])];
          assert r + (u + Unescape(inner[i + 2..])) == (r + u) + Unescape(inner[i + 2..]);
          r := r + u;
        }
        i := if i + 1 < |inner| then i + 2 else i + 1;
      } else {
        assert r + ([c] + Unescape(inner[i + 1..])) == (r + [c]) + Unescape(inner[i + 1..]);
        r := r + [c];
        i := i + 1;
      }
    }
    assert inner[i..] == "";
  }

  lemma UnescapeOne(c: char, rest: string)
    ensures Unescape(EscapeChar(c) + rest) == [c] + Unescape(rest)
  {
    var e := EscapeChar(c) + rest;
    if |EscapeChar(c)| == 1 {
      assert e[1..] == rest;
    } else {
      assert e[2..] == rest;
    }
  }

  lemma {:induction false} UnescapeEscape(s: string)
    ensures Unescape(EscapeAll(s)) == s
  {
    if s != "" {
      hide Unescape, EscapeChar;
      UnescapeEscape(s[1..]);
      UnescapeOne(s[0], EscapeAll(s[1..]));
    } else {
      assert EscapeAll(s) == "";
    }
  }

  /** Every string at all survives being written as a scalar and read back, also behind the blank that follows a key. */
  lemma ScalarRoundTrip(s: string)
    ensures ParseScalar(YamlScalar(s)) == s && ParseScalar(" " + YamlScalar(s)) == s
  {
    TrimPad(YamlScalar(s));
    ScalarShape(s);
    TrimEnds(YamlScalar(s));
    if !IsPlainSafe(s) {
      var q := YamlScalar(s);
      assert q[1..|q| - 1] == EscapeAll(s);
      UnescapeEscape(s);
    }
  }

  lemma TrimPad(s: string)
    ensures Trim(" " + s) == Trim(s)
  {
    assert (" " + s)[1..] == s;
  }

  /** A written scalar has no line break, ends where it seems to, and is never empty. */
  lemma ScalarShape(s: string)
    ensures YamlScalar(s) != "" && Trimmed(YamlScalar(s)) && NoBreakIn(YamlScalar(s))
  {
    TrimEnds(s);
    if !IsPlainSafe(s) { EscapedOneLine(s); }
  }

  ghost predicate NoBreakIn(s: string) { forall i | 0 <= i < |s| :: s[i] != '\n' }

  lemma {:induction false} EscapedOneLine(s: string)
    ensures NoBreakIn(EscapeAll(s))
  {
    if s != "" { EscapedOneLine(s[1..]); }
  }

  // ---------- splitting off the frontmatter ----------

  function StripBom(s: string): string {
    if s != "" && s[0] == '\U{FEFF}' then s[1..] else s
  }

  /** A line with its terminator, `split_inclusive('\n')`. */
  function FirstLine(s: string): (n: nat)
    ensures n <= |s| && (s != "" ==> n > 0)
  {
    var i := IndexOf(s, '\n');
    if i < |s| then i + 1 else i
  }

  function TrimEol(s: string): string
    decreases |s|
  {
    if s != "" && (s[|s| - 1] == '\n' || s[|s| - 1] == '\r') then TrimEol(s[..|s| - 1]) else s
  }

  /** Where the closing `---` line starts and where it ends. */
  function FindClose(s: string): (r: Option<(nat, nat)>)
    ensures r.Some? ==> r.value.0 <= r.value.1 <= |s|
    decreases |s|
  {
    if s == "" then None else
    var n := FirstLine(s);
    if TrimEol(s[..n]) == "---" then Some((0, n)) else
    Shifted(FindClose(s[n..]), n)
  }

  function StripBreak(s: string): string {
    if |s| >= 1 && s[0] == '\n' then s[1..] else if |s| >= 2 && s[0] == '\r' && s[1] == '\n' then s[2..] else s
  }

  predicate Opens(s: string) { "---\n" <= s || "---\r\n" <= s }

  /** Frontmatter without its fences, and the body after them; without well-formed fences all is body. */
  function SplitFrontmatter(source: string): (Option<string>, string) {
    var s := StripBom(source);
    if !Opens(s) then (None, source) else
    var rest := s[FirstLine(s)..];
    var close := FindClose(rest);
    if close.None? then (None, source) else (Some(rest[..close.value.0]), StripBreak(rest[close.value.1..]))
  }

  method SplitSource(source: string) returns (r: (Option<string>, string))
    ensures r == SplitFrontmatter(source)
  {
    var s := StripBom(source);
    if !Opens(s) { return (None, source); }
    var rest := s[FirstLine(s)..];
    var close := SearchClose(rest);
    r := if close.None? then (None, source) else (Some(rest[..close.value.0]), StripBreak(rest[close.value.1..]));
  }

  method SearchClose(rest: string) returns (r: Option<(nat, nat)>)
    ensures r == FindClose(rest)
  {
    hide TrimEol, FirstLine;
    var offset := 0;
    var tail := rest;
    while tail != ""
      invariant 0 <= offset <= |rest| && tail == rest[offset..]
      invariant FindClose(rest) == Shifted(FindClose(tail), offset)
      decreases |tail|
    {
      var n := FirstLine(tail);
      if TrimEol(tail[..n]) == "---" { return Some((offset, offset + n)); }
      tail := tail[n..];
      offset := offset + n;
    }
    r := None;
  }

  function Shifted(r: Option<(nat, nat)>, n: nat): Option<(nat, nat)> {
    if r.None? then None else Some((r.value.0 + n, r.value.1 + n))
  }

  // ---------- reading the frontmatter ----------

  /** The rest of a line after `key:`, if that is how it starts. */
  function AfterKey(line: string, key: string): Option<string> {
    var t := Trim(line);
    if key + ":" <= t then Some(t[|key| + 1..]) else None
  }

  function NamedScalar(lines: seq<string>, key: string): Option<string> {
    if lines == [] then None else
    var rest := AfterKey(lines[0], key);
    if rest.Some? && ParseScalar(rest.value) != "" then Some(ParseScalar(rest.value)) else NamedScalar(lines[1..], key)
  }

  predicate IsTruthy(s: string) { EqNoCase(s, "true") || EqNoCase(s, "yes") || EqNoCase(s, "on") || EqNoCase(s, "1") }

  predicate LockFlag(lines: seq<string>) {
    && lines != []
    && var rest := AfterKey(lines[0], "locked");
    if rest.Some? then IsTruthy(ParseScalar(rest.value)) else LockFlag(lines[1..])
  }

  predicate IsQuote(c: char) { c == '"' || c == '\'' }

  function TrimQuotesStart(s: string): string {
    if s != "" && IsQuote(s[0]) then TrimQuotesStart(s[1..]) else s
  }

  function TrimQuotesEnd(s: string): string
    decreases |s|
  {
    if s != "" && IsQuote(s[|s| - 1]) then TrimQuotesEnd(s[..|s| - 1]) else s
  }

  function DropOpen(s: string): string {
    if s != "" && s[0] == '[' then DropOpen(s[1..]) else s
  }

  function DropClose(s: string): string
    decreases |s|
  {
    if s != "" && s[|s| - 1] == ']' then DropClose(s[..|s| - 1]) else s
  }

  /** One tag: outer quotes and white space stripped, dropped when nothing is left. */
  function TagOf(s: string): seq<string> {
    var t := Trim(TrimQuotesEnd(TrimQuotesStart(Trim(s))));
    if t == "" then [] else [t]
  }

  function TagsOf(parts: seq<string>): seq<string> {
    if parts == [] then [] else TagOf(parts[0]) + TagsOf(parts[1..])
  }

  function FlowTags(rest: string): seq<string> {
    TagsOf(Split(DropClose(DropOpen(rest)), ','))
  }

  /** The `- item` lines from here on: their tags and how many lines they take. */
  function BlockTags(lines: seq<string>): (r: (seq<string>, nat))
    ensures r.1 <= |lines|
  {
    if lines == [] || Trim(lines[0]) == "" || Trim(lines[0])[0] != '-' then ([], 0) else
    var (tags, n) := BlockTags(lines[1..]);
    (TagOf(Trim(lines[0])[1..]) + tags, n + 1)
  }

  /** `tags: [a, b]`, `tags:` with a list below it, or `tags: a`. */
  function FmTags(lines: seq<string>): seq<string>
    decreases |lines|
  {
    if lines == [] then [] else
    var after := AfterKey(lines[0], "tags");
    if after.None? then FmTags(lines[1..]) else
    var rest := Trim(after.value);
    if rest == "" then var (tags, n) := BlockTags(lines[1..]); tags + FmTags(lines[1 + n..])
    else if rest[0] == '[' then FlowTags(rest) + FmTags(lines[1..])
    else TagOf(rest) + FmTags(lines[1..])
  }

  /** The property on a line, if there is one. */
  function PropOf(line: string): Option<(string, string)> {
    if line != "" && (line[0] == ' ' || line[0] == '\t') then None else
    var colon := IndexOf(line, ':');
    if colon == |line| then None else
    var key := Trim(line[..colon]);
    if !IsPropKey(key) || IsManagedKey(key) then None else
    var value := ParseScalar(line[colon + 1..]);
    if value == "" then None else Some((key, value))
  }

  /** The properties of `lines` on top of those already read; the first of a name in any letter case stays. */
  function FmProps(lines: seq<string>, props: Props): Props {
    if lines == [] then props else
    var p := PropOf(lines[0]);
    FmProps(lines[1..], if p.None? || Find(props, p.value.0) < |props| then props else props + [p.value])
  }

  /** A blank title is no title. */
  function TitleRead(title: Option<string>): Option<string> {
    if title.Some? && Trim(title.value) == "" then None else title
  }

  function ParseBlock(source: string): Parsed {
    var (fm, body) := SplitFrontmatter(source);
    if fm.None? then Parsed(None, [], false, None, [], body) else
    var lines := Lines(fm.value);
    Parsed(TitleRead(NamedScalar(lines, "title")), FmTags(lines), LockFlag(lines), NamedScalar(lines, "updated"),
           FmProps(lines, []), body)
  }

  method ReadTags(lines: seq<string>) returns (tags: seq<string>)
    ensures tags == FmTags(lines)
  {
    hide AfterKey, FlowTags, TagOf, Trim;
    tags := [];
    var i := 0;
    assert lines[0..] == lines;
    while i < |lines|
      invariant 0 <= i <= |lines|
      invariant tags + FmTags(lines[i..]) == FmTags(lines)
    {
      var after := AfterKey(lines[i], "tags");
      assert lines[i..][0] == lines[i] && lines[i..][1..] == lines[i + 1..];
      if after.Some? {
        var rest := Trim(after.value);
        if rest == "" {
          var more, j := ReadItems(lines, i + 1);
          assert lines[i..][1 + (j - i - 1)..] == lines[j..];
          tags := tags + more;
          i := j;
          continue;
        } else if rest[0] == '[' {
          tags := tags + FlowTags(rest);
        } else {
          tags := tags + TagOf(rest);
        }
      }
      i := i + 1;
    }
    assert lines[i..] == [];
  }

  method ReadItems(lines: seq<string>, from: nat) returns (tags: seq<string>, j: nat)
    requires from <= |lines|
    ensures from <= j <= |lines| && (tags, j - from) == BlockTags(lines[from..])
  {
    hide TagOf, Trim;
    tags, j := [], from;
    while j < |lines| && Trim(lines[j]) != "" && Trim(lines[j])[0] == '-'
      invariant from <= j <= |lines|
      invariant BlockTags(lines[from..]).0 == tags + BlockTags(lines[j..]).0
      invariant BlockTags(lines[from..]).1 == j - from + BlockTags(lines[j..]).1
    {
      assert lines[j..][0] == lines[j] && lines[j..][1..] == lines[j + 1..];
      tags := tags + TagOf(Trim(lines[j])[1..]);
      j := j + 1;
    }
    assert j < |lines| ==> lines[j..][0] == lines[j];
    assert tags + [] == tags;
  }

  method ReadProps(lines: seq<string>) returns (props: Props)
    ensures props == FmProps(lines, [])
  {
    hide PropOf, Find;
    props := [];
    assert lines[0..] == lines;
    for i := 0 to |lines|
      invariant FmProps(lines[i..], props) == FmProps(lines, [])
    {
      assert lines[i..][0] == lines[i] && lines[i..][1..] == lines[i + 1..];
      var p := PropOf(lines[i]);
      if p.Some? && Find(props, p.value.0) == |props| { props := props + [p.value]; }
    }
    assert lines[|lines|..] == [];
  }

  // ---------- writing ----------

  type Entries = seq<(string, string)>

  function Nonblank(tags: seq<string>): seq<string> {
    if tags == [] then [] else (if Trim(tags[0]) == "" then [] else [Trim(tags[0])]) + Nonblank(tags[1..])
  }

  /** Properties whose key may be written: well formed, and not one that is managed. */
  function Writable(props: Props): Props {
    if props == [] then [] else
    var k := Trim(props[0].0);
    (if IsPropKey(k) && !IsManagedKey(k) then [(k, props[0].1)] else []) + Writable(props[1..])
  }

  function Scalars(props: Props): Entries {
    if props == [] then [] else [(props[0].0, YamlScalar(props[0].1))] + Scalars(props[1..])
  }

  function ScalarEntry(key: string, value: Option<string>): Entries {
    if value.Some? then [(key, YamlScalar(value.value))] else []
  }

  function TagsEntry(clean: seq<string>): Entries {
    if clean == [] then [] else [("tags", "[" + Join(clean, ", ") + "]")]
  }

  function LockEntry(locked: bool): Entries {
    if locked then [("locked", "true")] else []
  }

  /** The frontmatter as keys and the text behind them, in the order they are written. */
  function EntriesOf(title: Option<string>, tags: seq<string>, locked: bool, updated: Option<string>,
                     props: Props): Entries {
    ScalarEntry("title", StoredTitle(title)) + TagsEntry(Nonblank(tags)) + LockEntry(locked)
    + ScalarEntry("updated", StoredTitle(updated)) + Scalars(Writable(props))
  }

  function EntryLine(e: (string, string)): string { e.0 + ": " + e.1 }

  function Render(es: Entries): string {
    if es == [] then "" else EntryLine(es[0]) + "\n" + Render(es[1..])
  }

  function WriteBlock(title: Option<string>, tags: seq<string>, locked: bool, updated: Option<string>, props: Props,
                      body: string): string {
    var es := EntriesOf(title, tags, locked, updated, props);
    if es == [] then body else "---\n" + Render(es) + "---\n\n" + TrimNlStart(body)
  }

  lemma {:induction false} RenderConcat(a: Entries, b: Entries)
    ensures Render(a + b) == Render(a) + Render(b)
  {
    hide EntryLine;
    if a == [] {
      assert a + b == b;
    } else {
      assert (a + b)[1..] == a[1..] + b;
      RenderConcat(a[1..], b);
    }
  }

  lemma RenderMore(es: Entries, e: (string, string))
    ensures Render(es + [e]) == Render(es) + EntryLine(e) + "\n"
  {
    RenderConcat(es, [e]);
    assert [e][1..] == [];
    assert Render([e]) == EntryLine(e) + "\n" + "";
    assert Render(es) + (EntryLine(e) + "\n") == Render(es) + EntryLine(e) + "\n";
  }

  lemma {:induction false} ScalarsMore(props: Props, k: nat)
    requires k < |props|
    ensures Scalars(props[..k + 1]) == Scalars(props[..k]) + [(props[k].0, YamlScalar(props[k].1))]
  {
    hide YamlScalar;
    assert props[..k + 1][1..] == props[1..][..k];
    if k > 0 {
      assert props[..k][1..] == props[1..][..k - 1];
      ScalarsMore(props[1..], k - 1);
    }
  }

  method PushEntry(out: string, key: string, text: string, ghost es: Entries) returns (r: string)
    requires out == "---\n" + Render(es)
    ensures r == "---\n" + Render(es + [(key, text)])
  {
    hide Render;
    RenderMore(es, (key, text));
    r := out + key + ": " + text + "\n";
    assert r == "---\n" + (Render(es) + EntryLine((key, text)) + "\n");
  }

  /** Print the file piece by piece. */
  method PrintBlock(title: Option<string>, tags: seq<string>, locked: bool, updated: Option<string>, props: Props,
                    body: string) returns (fm: string)
    ensures fm == WriteBlock(title, tags, locked, updated, props, body)
  {
    hide Render, Writable, Nonblank, ScalarEntry, TagsEntry, LockEntry, Scalars, Join, StoredTitle, TrimNlStart;
    var t, u, clean, kept := StoredTitle(title), StoredTitle(updated), Nonblank(tags), Writable(props);
    NoEntries(t, clean, locked, u, kept);
    if t.None? && clean == [] && !locked && u.None? && kept == [] { return body; }
    NoRender();
    fm := PushScalar("---\n", "title", t, []);
    fm := PushTags(fm, clean, [] + ScalarEntry("title", t));
    fm := PushLock(fm, locked, [] + ScalarEntry("title", t) + TagsEntry(clean));
    fm := PushScalar(fm, "updated", u, [] + ScalarEntry("title", t) + TagsEntry(clean) + LockEntry(locked));
    fm := PushProps(fm, kept,
      [] + ScalarEntry("title", t) + TagsEntry(clean) + LockEntry(locked) + ScalarEntry("updated", u));
    assert [] + ScalarEntry("title", t) == ScalarEntry("title", t);
    fm := fm + "---\n\n" + TrimNlStart(body);
  }

  lemma NoEntries(t: Option<string>, clean: seq<string>, locked: bool, u: Option<string>, kept: Props)
    ensures t.None? && clean == [] && !locked && u.None? && kept == [] <==>
            ScalarEntry("title", t) + TagsEntry(clean) + LockEntry(locked) + ScalarEntry("updated", u) + Scalars(kept)
              == []
  {
    hide YamlScalar, Join;
    var es := ScalarEntry("title", t) + TagsEntry(clean) + LockEntry(locked) + ScalarEntry("updated", u)
      + Scalars(kept);
    assert |es| == |ScalarEntry("title", t)| + |TagsEntry(clean)| + |LockEntry(locked)|
                   + |ScalarEntry("updated", u)| + |Scalars(kept)|;
  }

  method PushScalar(out: string, key: string, value: Option<string>, ghost es: Entries) returns (r: string)
    requires out == "---\n" + Render(es)
    ensures r == "---\n" + Render(es + ScalarEntry(key, value))
  {
    hide Render, YamlScalar;
    assert value.None? ==> es + ScalarEntry(key, value) == es;
    if value.None? { return out; }
    var scalar := WriteScalar(value.value);
    r := PushEntry(out, key, scalar, es);
  }

  method PushTags(out: string, clean: seq<string>, ghost es: Entries) returns (r: string)
    requires out == "---\n" + Render(es)
    ensures r == "---\n" + Render(es + TagsEntry(clean))
  {
    hide Render, Join;
    assert clean == [] ==> es + TagsEntry(clean) == es;
    if clean == [] { return out; }
    r := PushEntry(out, "tags", "[" + Join(clean, ", ") + "]", es);
  }

  method PushLock(out: string, locked: bool, ghost es: Entries) returns (r: string)
    requires out == "---\n" + Render(es)
    ensures r == "---\n" + Render(es + LockEntry(locked))
  {
    hide Render;
    assert !locked ==> es + LockEntry(locked) == es;
    if !locked { return out; }
    r := PushEntry(out, "locked", "true", es);
  }

  method PushProps(out: string, kept: Props, ghost es: Entries) returns (r: string)
    requires out == "---\n" + Render(es)
    ensures r == "---\n" + Render(es + Scalars(kept))
  {
    hide Render, YamlScalar;
    r := out;
    assert kept[..0] == [] && es + Scalars([]) == es;
    for i := 0 to |kept|
      invariant r == "---\n" + Render(es + Scalars(kept[..i]))
    {
      var scalar := WriteScalar(kept[i].1);
      ScalarsMore(kept, i);
      r := PushEntry(r, kept[i].0, scalar, es + Scalars(kept[..i]));
      assert es + Scalars(kept[..i]) + [(kept[i].0, scalar)] == es + Scalars(kept[..i + 1]);
    }
    assert kept[..|kept|] == kept;
  }

  lemma NoRender()
    ensures Render([]) == ""
  {}
}
