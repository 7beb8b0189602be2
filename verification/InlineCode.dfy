/** Reading lines with one backtick, which hides nothing, and with two, which hide what is between them. */
module InlineCode {
  import opened Prelude
  import opened Text
  import opened Wiki
  import opened CodeMask
  import opened Extraction
  import opened Reading
  import opened Seams
  import opened Edits
  import opened Outside

  predicate NoTickFrom(s: string, p: nat) { forall i | p <= i < |s| :: s[i] != '`' }

  lemma {:induction false} NoMoreTicks(s: string, p: nat)
    requires p <= |s| && NoTickFrom(s, p)
    ensures NextTick(s, p) == |s| && SpansUntilUnclosed(s, p) == []
    decreases |s| - p
  {
    if p < |s| { NoMoreTicks(s, p + 1); }
  }

  lemma {:induction false} NextTickIs(s: string, p: nat, a: nat)
    requires p <= a < |s| && Tick(s, a) && forall i | p <= i < a :: s[i] != '`'
    ensures NextTick(s, p) == a
    decreases a - p
  {
    if p < a { NextTickIs(s, p + 1, a); }
  }

  lemma SingleRun(s: string, a: nat)
    requires Tick(s, a) && !Tick(s, a + 1)
    ensures RunEnd(s, a) == a + 1
  {
    assert RunEnd(s, a + 1) == a + 1;
  }

  /** One backtick. */
  lemma OneTick(s: string, a: nat)
    requires a < |s| && s[a] == '`' && (forall i | 0 <= i < |s| && i != a :: s[i] != '`')
    ensures SpansUntilUnclosed(s, 0) == []
  {
    NextTickIs(s, 0, a);
    SingleRun(s, a);
    NoMoreTicks(s, a + 1);
  }

  /** Two, not next to each other. */
  lemma TwoTicks(s: string, a: nat, b: nat)
    requires a + 1 < b < |s| && s[a] == '`' && s[b] == '`'
    requires (forall i | 0 <= i < |s| && i != a && i != b :: s[i] != '`')
    ensures SpansUntilUnclosed(s, 0) == [(a, b + 1)]
  {
    NextTickIs(s, 0, a);
    SingleRun(s, a);
    NextTickIs(s, a + 1, b);
    SingleRun(s, b);
    assert Closer(s, a + 1, 1) == Some(b + 1);
    NoMoreTicks(s, b + 1);
  }

  // ---------- scanning in pieces ----------

  /** Text that starts no match. */
  predicate Bare(s: string) { forall k | 0 <= k < |s| :: s[k] != '[' && s[k] != '!' }

  lemma {:induction false} ScanBare(s: string, rest: string, f: seq<bool>, g: seq<bool>)
    requires Bare(s) && |f| == |s| && |g| == |rest|
    ensures Scan(s + rest, f + g) == Chars(s) + Scan(rest, g)
  {
    hide Match, RefOf, Scan, Chars;
    if s == "" {
      assert s + rest == rest && f + g == g;
      CharsCons(s);
      assert Chars(s) + Scan(rest, g) == Scan(rest, g);
    } else {
      var t, h := s + rest, f + g;
      assert t[1..] == s[1..] + rest && h[1..] == f[1..] + g;
      ScanBare(s[1..], rest, f[1..], g);
      BareStart(t);
      ScanCons(t, h);
      CharsCons(s);
      assert [Ch(s[0])] + (Chars(s[1..]) + Scan(rest, g)) == [Ch(s[0])] + Chars(s[1..]) + Scan(rest, g);
    }
  }

  lemma CharsCons(s: string)
    ensures Chars(s) == if s == "" then [] else [Ch(s[0])] + Chars(s[1..])
  {
  }

  lemma BareStart(t: string)
    requires t != "" && t[0] != '[' && t[0] != '!'
    ensures Match(t).None?
  {
  }

  lemma ScanMatch(src: string, rest: string, f: seq<bool>, g: seq<bool>)
    requires Match(src) == Some(|src|) && |f| == |src| && |g| == |rest|
    ensures Scan(src + rest, f + g)
            == (if f[0] || RefOf(src).target == "" then Chars(src) else [RefOf(src)]) + Scan(rest, g)
  {
    hide RefOf;
    MatchConcat(src, rest);
    ScanCons(src + rest, f + g);
    assert (src + rest)[|src|..] == rest && (f + g)[|src|..] == g && (src + rest)[..|src|] == src;
  }

  /** A directive of the program's own between texts that start no match, with its flag. */
  lemma ScanEmbed(before: string, id: BlockId, after: string, flags: seq<bool>)
    requires Bare(before) && Bare(after) && |flags| == |before + EmbedOf(id).src + after|
    ensures var at := |before|;
            Scan(before + EmbedOf(id).src + after, flags)
            == Chars(before) + (if flags[at] then Chars(EmbedOf(id).src) else [EmbedOf(id)]) + Chars(after)
  {
    EmbedSource(id);
    NoScan();
    hide *;
    var src := EmbedOf(id).src;
    OwnMatch(id, "!");
    OwnRef(id, "!");
    var f, g, h := flags[..|before|], flags[|before|..|before| + |src|], flags[|before| + |src|..];
    assert flags == f + (g + h) && before + src + after == before + (src + after);
    ScanBare(before, src + after, f, g + h);
    ScanMatch(src, after, g, h);
    ScanBare(after, "", h, []);
    assert after + "" == after && h + [] == h && Chars(after) + [] == Chars(after);
    assert g[0] == flags[|before|];
  }

  lemma EmbedSource(id: BlockId)
    ensures EmbedOf(id).src == "!" + "[[" + id + "]]" && EmbedOf(id) == Ref(true, id, None, EmbedOf(id).src)
  {}

  lemma NoScan()
    ensures Scan("", []) == []
  {}

  // ---------- lines ----------

  predicate Ordinary(s: string) { Bare(s) && Plain(s) && forall k | 0 <= k < |s| :: s[k] != '\n' }

  lemma EmbedOrdinary(id: BlockId)
    ensures |EmbedOf(id).src| == 31 && forall k | 0 <= k < 31 :: EmbedOf(id).src[k] != '`' && EmbedOf(id).src[k] != '\n'
  {
    var src := EmbedOf(id).src;
    forall k | 0 <= k < |src| ensures src[k] != '`' && src[k] != '\n' {
      if 3 <= k < 29 { assert src[k] == id[k - 3] && IsAsciiAlnum(id[k - 3]); }
    }
  }

  lemma OneLineReads(text: string)
    requires text != "" && HeadLine(text) == text && !IsFence(text)
    ensures Read(text) == Scan(text, LineFlags(text, false))
  {
    hide IsFence;
    FlagsOneLine(text, false);
  }

  /** One backtick in front of an embed, or behind it, hides nothing. */
  lemma TickBefore(id: BlockId)
    ensures Read("`" + EmbedOf(id).src) == [Ch('`'), EmbedOf(id)]
  {
    var text := "`" + EmbedOf(id).src;
    EmbedOrdinary(id);
    OpenLine(text);
    assert text[1] == '!' && TrimStart(text) == text;
    OneTick(text, 0);
    assert text == "`" + EmbedOf(id).src + "";
    ScanEmbed("`", id, "", LineFlags(text, false));
    assert Chars("`") + [EmbedOf(id)] + Chars("") == [Ch('`'), EmbedOf(id)];
    OneLineReads(text);
  }

  lemma OpenLine(text: string)
    requires forall k | 0 <= k < |text| :: text[k] != '\n'
    ensures HeadLine(text) == text
  {
    assert text[..|text|] == text;
    IndexOfIs(text, '\n', |text|);
  }

  lemma TickAfter(id: BlockId, tail: string)
    requires Ordinary(tail)
    ensures Read(EmbedOf(id).src + ("`" + tail)) == [EmbedOf(id)] + Chars("`" + tail)
  {
    hide EmbedOf, Bare, Plain;
    SourceStart(id);
    var src, after := EmbedOf(id).src, "`" + tail;
    var text := src + after;
    EmbedOrdinary(id);
    forall k | 0 <= k < |text| ensures text[k] != '\n' && (k != 31 ==> text[k] != '`') {
      if k > 31 { assert text[k] == tail[k - 32]; TailPlain(tail, k - 32); }
        else if k < 31 { assert text[k] == src[k]; }
    }
    OpenLine(text);
    BangNoFence(text);
    OneTick(text, 31);
    assert text == "" + src + after;
    AfterBare(tail);
    ScanEmbed("", id, after, LineFlags(text, false));
    assert Chars("") + [EmbedOf(id)] + Chars(after) == [EmbedOf(id)] + Chars(after);
    OneLineReads(text);
  }

  lemma SourceStart(id: BlockId)
    ensures EmbedOf(id).Ref? && |EmbedOf(id).src| == 31 && EmbedOf(id).src[0] == '!'
  {
  }

  lemma TailPlain(tail: string, k: nat)
    requires Ordinary(tail) && k < |tail|
    ensures tail[k] != '`' && tail[k] != '\n'
  {
  }

  lemma AfterBare(tail: string)
    requires Ordinary(tail)
    ensures Bare("`" + tail) && Bare("")
  {
  }

  lemma BangNoFence(text: string)
    requires text != "" && text[0] == '!'
    ensures !IsFence(text)
  {
    assert TrimStart(text) == text;
  }

  /** Between two backticks an embed is text. */
  lemma TicksAround(front: string, id: BlockId, tail: string)
    requires Ordinary(front) && Ordinary(tail)
    ensures Read(front + "`" + EmbedOf(id).src + ("`" + tail)) == Chars(front + "`" + EmbedOf(id).src + ("`" + tail))
  {
    var src, before, after := EmbedOf(id).src, front + "`", "`" + tail;
    var text := before + src + after;
    var a, b := |front|, |front| + 32;
    EmbedOrdinary(id);
    forall k | 0 <= k < |text| ensures text[k] != '\n' && (k != a && k != b ==> text[k] != '`') {
      if k < a { assert text[k] == front[k]; }
      else if a < k < b { assert text[k] == src[k - a - 1]; }
      else if k > b { assert text[k] == tail[k - b - 1]; }
    }
    OpenLine(text);
    NotFence(front, src + after);
    assert text == front + "`" + (src + after);
    TwoTicks(text, a, b);
    var f := LineFlags(text, false);
    assert f[a + 1] by { FlagBetween(text, a, b); }
    ScanEmbed(before, id, after, f);
    CharsConcat(before, src);
    CharsConcat(before + src, after);
    OneLineReads(text);
  }

  lemma FlagBetween(text: string, a: nat, b: nat)
    requires a + 1 < b < |text| && SpansUntilUnclosed(text, 0) == [(a, b + 1)]
    ensures LineFlags(text, false)[a + 1]
  {
    var spans := SpansUntilUnclosed(text, 0);
    assert spans[0] == (a, b + 1);
    assert InSpans(spans, a + 1);
  }

  lemma NotFence(front: string, rest: string)
    requires Plain(front) && rest != "" && rest[0] == '!'
    ensures !IsFence(front + "`" + rest)
  {
    var text := "`" + rest;
    assert front + "`" + rest == front + text;
    if TrimStart(front) == "" {
      TrimStartBlank(front, text);
      assert TrimStart(text) == text && text[1] == '!';
    } else {
      TrimStartAppend(front, text);
      TrimStartEnds(front);
      var t := TrimStart(front);
      assert t[0] == front[|front| - |t|] && (t + text)[0] == t[0];
      assert "```"[0] == '`' && "~~~"[0] == '~';
    }
  }
}
