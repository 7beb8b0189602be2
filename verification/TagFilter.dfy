/** The hierarchical tag filter: four `LIKE` patterns that stand for "a contiguous run of whole `/`-segments". */
module TagFilter {
  import opened Prelude
  import opened Text

  // ---------- SQLite's LIKE with ESCAPE '\' ----------

  function AsciiFold(c: char): char {
    if 'A' <= c <= 'Z' then (c as int + 32) as char else c
  }

  /**
   `s LIKE p ESCAPE '\'`: `%` any run, `_` any one character, `\` makes the next one literal; ASCII case is ignored.
   */
  predicate Like(p: string, s: string)
    decreases |p|, |s|
  {
    if p == "" then s == ""
    else if p[0] == '%' then Like(p[1..], s) || (s != "" && Like(p, s[1..]))
    else if p[0] == '_' then s != "" && Like(p[1..], s[1..])
    else if p[0] == '\\' then |p| >= 2 && s != "" && AsciiFold(p[1]) == AsciiFold(s[0]) && Like(p[2..], s[1..])
    else s != "" && AsciiFold(p[0]) == AsciiFold(s[0]) && Like(p[1..], s[1..])
  }

  /** What Rust's `to_lowercase` guarantees here: no ASCII capital is left. */
  ghost predicate Folded(s: string) {
    forall i | 0 <= i < |s| :: !('A' <= s[i] <= 'Z')
  }

  predicate IsMeta(c: char) { c == '\\' || c == '%' || c == '_' }

  function Escape(tag: string): string {
    if tag == "" then "" else EscapedChar(tag[0]) + Escape(tag[1..])
  }

  lemma {:induction false} EscapeConcat(a: string, b: string)
    ensures Escape(a + b) == Escape(a) + Escape(b)
  {
    if a == "" {
      assert a + b == b;
    } else {
      assert (a + b)[1..] == a[1..] + b;
      EscapeConcat(a[1..], b);
    }
  }

  method EscapeLike(tag: string) returns (s: string)
    ensures s == Escape(tag)
  {
    s := "";
    for i := 0 to |tag|
      invariant s == Escape(tag[..i])
    {
      assert tag[..i + 1] == tag[..i] + [tag[i]];
      EscapeConcat(tag[..i], [tag[i]]);
      if tag[i] == '\\' || tag[i] == '%' || tag[i] == '_' {
        s := s + "\\";
      }
      s := s + [tag[i]];
    }
    assert tag[..|tag|] == tag;
  }

  /** An escaped literal matches itself and nothing else, whatever metacharacters it holds. */
  lemma {:induction false} LikeLiteral(q: string, p: string, s: string)
    requires Folded(q) && Folded(s)
    ensures Like(Escape(q) + p, s) <==> q <= s && Like(p, s[|q|..])
  {
    EscapeHead(q);
    hide Like, Escape;
    if q == "" {
      assert Escape(q) + p == p && s[0..] == s;
    } else {
      var rest := Escape(q[1..]) + p;
      assert Escape(q) + p == EscapedChar(q[0]) + rest;
      LikeChar(q[0], rest, s);
      if s != "" {
        LikeLiteral(q[1..], p, s[1..]);
        assert q == [q[0]] + q[1..] && s == [s[0]] + s[1..];
        if q[1..] <= s[1..] { assert s[1..][|q| - 1..] == s[|q|..]; }
      }
    }
  }

  lemma EscapeHead(q: string)
    ensures Escape(q) == if q == "" then "" else EscapedChar(q[0]) + Escape(q[1..])
  {}

  function EscapedChar(c: char): string {
    if IsMeta(c) then ['\\', c] else [c]
  }

  lemma LikeChar(c: char, rest: string, s: string)
    requires Folded([c]) && Folded(s)
    ensures Like(EscapedChar(c) + rest, s) <==> s != "" && s[0] == c && Like(rest, s[1..])
  {
    var p := EscapedChar(c) + rest;
    if IsMeta(c) { assert p[2..] == rest; } else { assert p[1..] == rest; }
  }

  lemma {:induction false} LikeAnyPrefix(p: string, s: string)
    ensures Like("%" + p, s) <==> exists k | 0 <= k <= |s| :: Like(p, s[k..])
  {
    assert ("%" + p)[1..] == p && s[0..] == s;
    if s != "" {
      LikeAnyPrefix(p, s[1..]);
      forall k | 0 <= k <= |s| - 1 ensures s[1..][k..] == s[k + 1..] {}
      if exists k | 0 <= k <= |s| :: Like(p, s[k..]) {
        var k :| 0 <= k <= |s| && Like(p, s[k..]);
        if k > 0 { assert s[1..][k - 1..] == s[k..]; }
      }
    }
  }

  lemma LikePercent(s: string)
    ensures Like("%", s)
  {
    LikeAnyPrefix("", s);
    assert s[|s|..] == "" && "%" + "" == "%";
  }

  lemma LikeExactly(q: string, s: string)
    requires Folded(q) && Folded(s)
    ensures Like(Escape(q), s) <==> s == q
  {
    LikeLiteral(q, "", s);
    assert Escape(q) + "" == Escape(q);
    if q <= s && s[|q|..] == "" { assert s == q + s[|q|..]; }
  }

  lemma LikePrefix(q: string, s: string)
    requires Folded(q) && Folded(s)
    ensures Like(Escape(q) + "%", s) <==> q <= s
  {
    LikeLiteral(q, "%", s);
    if q <= s { LikePercent(s[|q|..]); }
  }

  lemma LikeSuffix(q: string, s: string)
    requires Folded(q) && Folded(s)
    ensures Like("%" + Escape(q), s) <==> |q| <= |s| && s[|s| - |q|..] == q
  {
    var e := Escape(q);
    LikeAnyPrefix(e, s);
    if k :| 0 <= k <= |s| && Like(e, s[k..]) {
      LikeExactly(q, s[k..]);
    }
    if |q| <= |s| {
      LikeExactly(q, s[|s| - |q|..]);
    }
  }

  lemma LikeInfix(q: string, s: string)
    requires Folded(q) && Folded(s)
    ensures Like("%" + Escape(q) + "%", s) <==> exists k | 0 <= k <= |s| :: q <= s[k..]
  {
    assert "%" + Escape(q) + "%" == "%" + (Escape(q) + "%");
    LikeAnyPrefix(Escape(q) + "%", s);
    forall k | 0 <= k <= |s| ensures Like(Escape(q) + "%", s[k..]) <==> q <= s[k..] { LikePrefix(q, s[k..]); }
  }

  /** The four patterns, read as string conditions. */
  ghost predicate FourWayPlain(q: string, tag: string) {
    || tag == q
    || q + "/" <= tag
    || (|q| + 1 <= |tag| && tag[|tag| - |q| - 1..] == "/" + q)
    || exists k | 0 <= k <= |tag| :: "/" + q + "/" <= tag[k..]
  }

  lemma EscapedPatterns(q: string)
    ensures Escape(q) + "/%" == Escape(q + "/") + "%"
    ensures "%/" + Escape(q) == "%" + Escape("/" + q)
    ensures "%/" + Escape(q) + "/%" == "%" + Escape("/" + q + "/") + "%"
  {
    assert Escape("/") == "/";
    hide Escape;
    EscapeConcat(q, "/");
    EscapeConcat("/", q);
    EscapeConcat("/" + q, "/");
    Regroup(Escape(q));
  }

  lemma Regroup(e: string)
    ensures e + "/%" == e + "/" + "%"
    ensures "%/" + e == "%" + ("/" + e)
    ensures "%/" + e + "/%" == "%" + ("/" + e + "/") + "%"
  {}

  lemma FourWayMeans(q: string, tag: string)
    requires Folded(q) && Folded(tag)
    ensures FourWay(q, tag) <==> FourWayPlain(q, tag)
  {
    EscapedPatterns(q);
    assert Folded(q + "/") && Folded("/" + q) && Folded("/" + q + "/");
    LikePrefix(q + "/", tag);
    LikeSuffix("/" + q, tag);
    LikeInfix("/" + q + "/", tag);
  }

  // ---------- what the filter means ----------

  /** `run` occurs in `path` as consecutive elements. */
  ghost predicate IsRun(run: seq<string>, path: seq<string>) {
    exists i :: RunAt(run, path, i)
  }

  ghost predicate RunAt(run: seq<string>, path: seq<string>, i: int) {
    0 <= i <= i + |run| <= |path| && path[i..i + |run|] == run
  }

  predicate FourWay(q: string, tag: string) {
    || tag == q
    || Like(Escape(q) + "/%", tag)
    || Like("%/" + Escape(q), tag)
    || Like("%/" + Escape(q) + "/%", tag)
  }

  lemma RunAtEnd(a: string, t: string, q: string)
    requires IsRun(Split(q, '/'), Split(t, '/'))
    ensures IsRun(Split(q, '/'), Split(a + ['/'] + t, '/'))
  {
    hide Split;
    SplitConcat(a, t, '/');
    RunAfter(Split(q, '/'), Split(a, '/'), Split(t, '/'));
  }

  lemma RunAfter(run: seq<string>, before: seq<string>, path: seq<string>)
    requires IsRun(run, path)
    ensures IsRun(run, before + path)
  {
    var i :| RunAt(run, path, i);
    assert (before + path)[|before| + i..|before| + i + |run|] == path[i..i + |run|];
    assert RunAt(run, before + path, |before| + i);
  }

  lemma RunAtStart(q: string, b: string)
    ensures IsRun(Split(q, '/'), Split(q, '/'))
    ensures IsRun(Split(q, '/'), Split(q + ['/'] + b, '/'))
  {
    var qs := Split(q, '/');
    assert qs[0..|qs|] == qs;
    assert RunAt(qs, qs, 0);
    SplitConcat(q, b, '/');
    assert (qs + Split(b, '/'))[0..|qs|] == qs;
    assert RunAt(qs, qs + Split(b, '/'), 0);
  }

  lemma CutPrefix(q: string, tag: string)
    requires q + "/" <= tag
    ensures tag == q + ['/'] + tag[|q| + 1..]
  {
  }

  lemma PlainImpliesRun(q: string, tag: string)
    requires FourWayPlain(q, tag)
    ensures IsRun(Split(q, '/'), Split(tag, '/'))
  {
    RunAtStart(q, "");
    if tag == q {
    } else if q + "/" <= tag {
      CutPrefix(q, tag);
      RunAtStart(q, tag[|q| + 1..]);
    } else if |q| + 1 <= |tag| && tag[|tag| - |q| - 1..] == "/" + q {
      var a := tag[..|tag| - |q| - 1];
      RunAtEnd(a, q, q);
      CutSuffix(a, "/" + q, q, tag);
    } else {
      var k :| 0 <= k <= |tag| && "/" + q + "/" <= tag[k..];
      var t := tag[k + 1..];
      CutMiddle(q, tag, k);
      CutPrefix(q, t);
      RunAtStart(q, t[|q| + 1..]);
      RunAtEnd(tag[..k], t, q);
    }
  }

  lemma CutSuffix(a: string, sq: string, q: string, tag: string)
    requires |sq| <= |tag| && sq == "/" + q && a == tag[..|tag| - |sq|] && tag[|tag| - |sq|..] == sq
    ensures tag == a + ['/'] + q
  {
    assert tag == a + sq;
  }

  lemma CutMiddle(q: string, tag: string, k: nat)
    requires k <= |tag| && "/" + q + "/" <= tag[k..]
    ensures k < |tag| && tag == tag[..k] + ['/'] + tag[k + 1..] && q + "/" <= tag[k + 1..]
  {
    var w := "/" + q + "/";
    assert tag[k] == tag[k..][0] == w[0];
    assert tag[k + 1..][..|q| + 1] == tag[k..][..|w|][1..] == w[1..] == q + "/";
  }

  lemma RunImpliesPlain(q: string, tag: string)
    requires IsRun(Split(q, '/'), Split(tag, '/'))
    ensures FourWayPlain(q, tag)
  {
    hide Split, Join, FourWayPlain;
    var qs, ts := Split(q, '/'), Split(tag, '/');
    var i :| RunAt(qs, ts, i);
    JoinSplit(q, '/');
    JoinSplit(tag, '/');
    assert ts == ts[..i] + qs + ts[i + |qs|..];
    JoinAround(ts[..i], qs, ts[i + |qs|..]);
    Assemble(q, tag, i > 0, Join(ts[..i], "/"), ts[i + |qs|..] != [], Join(ts[i + |qs|..], "/"));
  }

  lemma Assemble(q: string, tag: string, left: bool, a: string, right: bool, b: string)
    requires tag == (if left then a + "/" else "") + q + (if right then "/" + b else "")
    ensures FourWayPlain(q, tag)
  {
    if left && right {
      assert tag[|a|..] == "/" + q + "/" + b;
      assert "/" + q + "/" <= tag[|a|..];
    } else if left {
      assert tag[|tag| - |q| - 1..] == "/" + q;
    } else if right {
      assert q + "/" <= tag;
    } else {
      assert tag == q;
    }
  }

  lemma JoinAround(a: seq<string>, q: seq<string>, b: seq<string>)
    requires q != []
    ensures Join(a + q + b, "/") ==
            (if a == [] then "" else Join(a, "/") + "/") + Join(q, "/") + (if b == [] then "" else "/" + Join(b, "/"))
  {
    if b == [] { assert q + b == q; } else { JoinConcat(q, b, "/"); }
    assert a + q + b == a + (q + b);
    if a == [] { assert a + (q + b) == q + b; } else { JoinConcat(a, q + b, "/"); }
  }

  /** The filter's promise, for every query and every stored tag, metacharacters and empty segments included. */
  lemma FourWayIsSegmentRun(q: string, tag: string)
    requires Folded(q) && Folded(tag)
    ensures FourWay(q, tag) <==> IsRun(Split(q, '/'), Split(tag, '/'))
  {
    FourWayMeans(q, tag);
    if FourWayPlain(q, tag) { PlainImpliesRun(q, tag); }
    if IsRun(Split(q, '/'), Split(tag, '/')) { RunImpliesPlain(q, tag); }
  }

  // ---------- building the WHERE clauses ----------

  /** One appended `AND …` clause; each number is a 1-based `?n` parameter. */
  datatype Clause =
    | LangIn(arg: nat)
    | TagIn(exact: nat, atStart: nat, atEnd: nat, inMid: nat)
    | TagExactly(exactOnly: nat)
  {
    predicate Numbered(n: nat) {
      match this
      case LangIn(a) => 1 <= a <= n
      case TagIn(e, s, t, m) => 1 <= e <= n && 1 <= s <= n && 1 <= t <= n && 1 <= m <= n
      case TagExactly(a) => 1 <= a <= n
    }

    /** Whether a block with these `block_tags` and `block_langs` rows passes the clause. */
    ghost predicate Holds(args: seq<string>, tags: set<string>, langs: set<string>)
      requires Numbered(|args|)
    {
      match this
      case LangIn(a) => args[a - 1] in langs
      case TagIn(e, s, t, m) =>
        exists tag | tag in tags ::
          tag == args[e - 1] || Like(args[s - 1], tag) || Like(args[t - 1], tag) || Like(args[m - 1], tag)
      case TagExactly(a) => args[a - 1] in tags
    }
  }

  ghost predicate AllNumbered(sql: seq<Clause>, n: nat) {
    forall i | 0 <= i < |sql| :: sql[i].Numbered(n)
  }

  ghost predicate Passes(sql: seq<Clause>, args: seq<string>, tags: set<string>, langs: set<string>)
    requires AllNumbered(sql, |args|)
  {
    forall i | 0 <= i < |sql| :: sql[i].Holds(args, tags, langs)
  }

  datatype Query = Query(lang: Option<string>, tags: seq<string>, tagsExact: seq<string>)

  /** Every queried tag is met by some stored tag as a run of whole segments. */
  ghost predicate TagsMet(queried: seq<string>, lower: string -> string, tags: set<string>) {
    forall i | 0 <= i < |queried| ::
      exists tag | tag in tags :: IsRun(Split(lower(queried[i]), '/'), Split(tag, '/'))
  }

  ghost predicate ExactMet(queried: seq<string>, lower: string -> string, tags: set<string>) {
    forall i | 0 <= i < |queried| :: lower(queried[i]) in tags
  }

  lemma PassesAppend(sql: seq<Clause>, args: seq<string>, c: Clause, more: seq<string>, tags: set<string>,
                     langs: set<string>)
    requires AllNumbered(sql, |args|) && c.Numbered(|args + more|)
    ensures AllNumbered(sql + [c], |args + more|)
    ensures Passes(sql + [c], args + more, tags, langs)
            <==> Passes(sql, args, tags, langs) && c.Holds(args + more, tags, langs)
  {
    var sql', args' := sql + [c], args + more;
    forall i | 0 <= i < |sql| ensures sql'[i].Holds(args', tags, langs) <==> sql[i].Holds(args, tags, langs) {
      assert sql'[i] == sql[i] && sql[i].Numbered(|args|);
      assert args'[..|args|] == args;
      assert forall k | 0 <= k < |args| :: args'[k] == args[k];
    }
    assert sql'[|sql|] == c;
    if Passes(sql', args', tags, langs) {
      forall i | 0 <= i < |sql| ensures sql[i].Holds(args, tags, langs) { assert sql'[i].Holds(args', tags, langs); }
    }
  }

  /** The clauses and arguments appended for a query mean exactly the query, for every row set `tags`, `langs`. */
  method PushFilters(sql0: seq<Clause>, args0: seq<string>, query: Query, lower: string -> string,
                     ghost tags: set<string>, ghost langs: set<string>)
    returns (sql: seq<Clause>, args: seq<string>)
    requires AllNumbered(sql0, |args0|)
    requires forall s :: Folded(lower(s))
    requires forall t | t in tags :: Folded(t)
    ensures sql0 <= sql && args0 <= args && AllNumbered(sql, |args|)
    ensures Passes(sql, args, tags, langs) <==>
              && Passes(sql0, args0, tags, langs)
              && (query.lang.Some? ==> lower(query.lang.value) in langs)
              && TagsMet(query.tags, lower, tags)
              && ExactMet(query.tagsExact, lower, tags)
  {
    hide Passes, TagsMet, ExactMet, Escape;
    EmptyMet(lower, tags);
    assert query.tags[..0] == [] && query.tagsExact[..0] == [];
    sql, args := sql0, args0;
    if query.lang.Some? {
      ghost var before := (sql, args);
      args := args + [lower(query.lang.value)];
      sql := sql + [LangIn(|args|)];
      PassesAppend(before.0, before.1, LangIn(|args|), [lower(query.lang.value)], tags, langs);
      assert LangIn(|args|).Holds(args, tags, langs) <==> lower(query.lang.value) in langs;
    }
    ghost var langOk := query.lang.Some? ==> lower(query.lang.value) in langs;
    for i := 0 to |query.tags|
      invariant sql0 <= sql && args0 <= args && AllNumbered(sql, |args|)
      invariant Passes(sql, args, tags, langs) <==>
                Passes(sql0, args0, tags, langs) && langOk && TagsMet(query.tags[..i], lower, tags)
    {
      ghost var before := (sql, args);
      var tag := lower(query.tags[i]);
      var esc := EscapeLike(tag);
      args := args + [tag];
      var exact := |args|;
      args := args + [esc + "/%"];
      var atStart := |args|;
      args := args + ["%/" + esc];
      var atEnd := |args|;
      args := args + ["%/" + esc + "/%"];
      var inMid := |args|;
      var clause := TagIn(exact, atStart, atEnd, inMid);
      sql := sql + [clause];
      assert args == before.1 + [tag, esc + "/%", "%/" + esc, "%/" + esc + "/%"];
      PassesAppend(before.0, before.1, clause, [tag, esc + "/%", "%/" + esc, "%/" + esc + "/%"], tags, langs);
      TagClauseMeans(args, clause, tag, tags, langs);
      TagsMetSnoc(query.tags, i, lower, tags);
    }
    assert query.tags[..|query.tags|] == query.tags;
    for i := 0 to |query.tagsExact|
      invariant sql0 <= sql && args0 <= args && AllNumbered(sql, |args|)
      invariant Passes(sql, args, tags, langs) <==>
                Passes(sql0, args0, tags, langs) && langOk && TagsMet(query.tags, lower, tags)
                && ExactMet(query.tagsExact[..i], lower, tags)
    {
      ghost var before := (sql, args);
      args := args + [lower(query.tagsExact[i])];
      sql := sql + [TagExactly(|args|)];
      PassesAppend(before.0, before.1, TagExactly(|args|), [lower(query.tagsExact[i])], tags, langs);
      assert TagExactly(|args|).Holds(args, tags, langs) <==> lower(query.tagsExact[i]) in tags;
      ExactMetSnoc(query.tagsExact, i, lower, tags);
    }
    assert query.tagsExact[..|query.tagsExact|] == query.tagsExact;
  }

  lemma TagClauseMeans(args: seq<string>, c: Clause, q: string, tags: set<string>, langs: set<string>)
    requires c.TagIn? && c.Numbered(|args|) && Folded(q) && forall t | t in tags :: Folded(t)
    requires args[c.exact - 1] == q && args[c.atStart - 1] == Escape(q) + "/%"
    requires args[c.atEnd - 1] == "%/" + Escape(q) && args[c.inMid - 1] == "%/" + Escape(q) + "/%"
    ensures c.Holds(args, tags, langs) <==> exists tag | tag in tags :: IsRun(Split(q, '/'), Split(tag, '/'))
  {
    forall tag | tag in tags ensures FourWay(q, tag) <==> IsRun(Split(q, '/'), Split(tag, '/')) {
      FourWayIsSegmentRun(q, tag);
    }
    if c.Holds(args, tags, langs) {
      var tag :| tag in tags &&
        (tag == args[c.exact - 1] || Like(args[c.atStart - 1], tag) || Like(args[c.atEnd - 1], tag)
          || Like(args[c.inMid - 1], tag));
      assert FourWay(q, tag);
    }
    if exists tag | tag in tags :: IsRun(Split(q, '/'), Split(tag, '/')) {
      var tag :| tag in tags && IsRun(Split(q, '/'), Split(tag, '/'));
      assert FourWay(q, tag);
    }
  }

  lemma EmptyMet(lower: string -> string, tags: set<string>)
    ensures TagsMet([], lower, tags) && ExactMet([], lower, tags)
  {}

  lemma ExactMetSnoc(queried: seq<string>, i: nat, lower: string -> string, tags: set<string>)
    requires i < |queried|
    ensures ExactMet(queried[..i + 1], lower, tags)
            <==> ExactMet(queried[..i], lower, tags) && lower(queried[i]) in tags
  {
    var upTo := queried[..i + 1];
    assert upTo[i] == queried[i];
    forall j | 0 <= j < i ensures upTo[j] == queried[..i][j] {}
    if ExactMet(upTo, lower, tags) {
      forall j | 0 <= j < i ensures lower(queried[..i][j]) in tags { assert lower(upTo[j]) in tags; }
    }
  }

  lemma TagsMetSnoc(queried: seq<string>, i: nat, lower: string -> string, tags: set<string>)
    requires i < |queried|
    ensures TagsMet(queried[..i + 1], lower, tags) <==>
            TagsMet(queried[..i], lower, tags)
            && exists tag | tag in tags :: IsRun(Split(lower(queried[i]), '/'), Split(tag, '/'))
  {
    var upTo := queried[..i + 1];
    assert forall j | 0 <= j < i :: upTo[j] == queried[..i][j];
    assert upTo[i] == queried[i];
    if TagsMet(upTo, lower, tags) {
      forall j | 0 <= j < i
        ensures exists tag | tag in tags :: IsRun(Split(lower(queried[..i][j]), '/'), Split(tag, '/'))
      {
        assert exists tag | tag in tags :: IsRun(Split(lower(upTo[j]), '/'), Split(tag, '/'));
      }
    }
  }
}
