/** What a directive written in a text stands for, and how it is shown. */
module Directives {
  import opened Prelude
  import opened Text
  import opened Wiki
  import opened CodeMask
  import opened Extraction
  import opened Reading
  import opened Seams
  import opened InlineCode

  // ---------- written ----------

  /** `[[target]]` or `[[target|alias]]`, with `!` in front for an embed. */
  function Written(embed: bool, target: string, alias: Option<string>): string {
    (if embed then "!" else "") + "[[" + target + (if alias.Some? then "|" + alias.value else "") + "]]"
  }

  /**
   What can be written so: no bracket closes the directive early, no bar the target, and the target says something.
   */
  predicate Writable(target: string, alias: Option<string>) {
    && (forall k | 0 <= k < |target| :: target[k] != ']' && target[k] != '\n' && target[k] != '|')
    && (alias.Some? ==> forall k | 0 <= k < |alias.value| :: alias.value[k] != ']' && alias.value[k] != '\n')
    && Trim(target) != ""
  }

  /** What it means: the words before the bar are the target, those behind it the alias. */
  function Meant(embed: bool, target: string, alias: Option<string>): Atom {
    Ref(embed, Trim(target), if alias.Some? then Some(Trim(alias.value)) else None, Written(embed, target, alias))
  }

  function Between(target: string, alias: Option<string>): string {
    target + if alias.Some? then "|" + alias.value else ""
  }

  lemma {:induction false} InnerStopsAt(s: string, rest: string)
    requires (forall k | 0 <= k < |s| :: s[k] != ']' && s[k] != '\n') && rest != "" && rest[0] == ']'
    ensures Inner(s + rest) == |s|
  {
    if s == "" {
      assert s + rest == rest;
    } else {
      assert (s + rest)[1..] == s[1..] + rest;
      InnerStopsAt(s[1..], rest);
    }
  }

  lemma WrittenParts(embed: bool, target: string, alias: Option<string>)
    requires Writable(target, alias)
    ensures var s, b := Written(embed, target, alias), if embed then 3 else 2;
            && |s| == b + |Between(target, alias)| + 2 && Between(target, alias) != ""
            && s[b..] == Between(target, alias) + "]]" && s[b..|s| - 2] == Between(target, alias)
            && s[b - 2] == '[' && s[b - 1] == '[' && Bang(s) == b - 2
            && forall k | 0 <= k < |Between(target, alias)| ::
              Between(target, alias)[k] != ']' && Between(target, alias)[k] != '\n'
  {
    var t := Between(target, alias);
    assert Written(embed, target, alias) == (if embed then "!" else "") + "[[" + t + "]]";
    assert target == "" ==> Trim(target) == "";
  }

  lemma WrittenMatches(embed: bool, target: string, alias: Option<string>)
    requires Writable(target, alias)
    ensures Match(Written(embed, target, alias)) == Some(|Written(embed, target, alias)|)
  {
    var s, t := Written(embed, target, alias), Between(target, alias);
    WrittenParts(embed, target, alias);
    var b := Bang(s) + 2;
    InnerStopsAt(t, "]]");
    assert s[b + |t|] == s[b..][|t|] && s[b + |t| + 1] == s[b..][|t| + 1];
  }

  lemma WrittenMeans(embed: bool, target: string, alias: Option<string>)
    requires Writable(target, alias)
    ensures |Written(embed, target, alias)| >= 5
    ensures RefOf(Written(embed, target, alias)) == Meant(embed, target, alias)
  {
    WrittenParts(embed, target, alias);
    var t := Between(target, alias);
    assert t[..|target|] == target;
    IndexOfIs(t, '|', |target|);
    if alias.Some? { assert t[|target| + 1..] == alias.value; }
  }

  /** Where the scan meets it outside code, it is taken as a whole and means that. */
  lemma DirectiveScanned(embed: bool, target: string, alias: Option<string>, rest: string, flags: seq<bool>)
    requires Writable(target, alias)
    requires |flags| == |Written(embed, target, alias) + rest| && |flags| > 0 && !flags[0]
    ensures Scan(Written(embed, target, alias) + rest, flags)
            == [Meant(embed, target, alias)] + Scan(rest, flags[|Written(embed, target, alias)|..])
  {
    hide Match, RefOf, Written, Trim, Scan;
    var s := Written(embed, target, alias);
    WrittenMatches(embed, target, alias);
    WrittenMeans(embed, target, alias);
    var n := |s|;
    assert flags == flags[..n] + flags[n..];
    ScanMatch(s, rest, flags[..n], flags[n..]);
  }

  lemma SpansLater(s: string)
    requires s != "" && s[0] != '`'
    ensures !InSpans(SpansUntilUnclosed(s, 0), 0)
  {
    assert NextTick(s, 0) == NextTick(s, 1);
    assert SpansUntilUnclosed(s, 0) == SpansUntilUnclosed(s, 1);
    UntilBeyond(s, 1);
  }

  /** A directive by itself is read as exactly that directive. */
  lemma DirectiveRead(embed: bool, target: string, alias: Option<string>)
    requires Writable(target, alias)
    ensures Read(Written(embed, target, alias)) == [Meant(embed, target, alias)]
  {
    hide Match, RefOf, Scan, SpansUntilUnclosed, InSpans, Trim;
    var s := Written(embed, target, alias);
    WrittenParts(embed, target, alias);
    WrittenOpen(embed, target, alias);
    assert s[0] != '`' && TrimStart(s) == s;
    assert !IsFence(s);
    OneLineReads(s);
    SpansLater(s);
    assert s + "" == s;
    DirectiveScanned(embed, target, alias, "", LineFlags(s, false));
    ScanNothing(LineFlags(s, false)[|s|..]);
  }

  lemma WrittenOpen(embed: bool, target: string, alias: Option<string>)
    requires Writable(target, alias)
    ensures HeadLine(Written(embed, target, alias)) == Written(embed, target, alias)
  {
    WrittenParts(embed, target, alias);
    var s, t := Written(embed, target, alias), Between(target, alias);
    forall k | 0 <= k < |s| ensures s[k] != '\n' {
      var b := Bang(s) + 2;
      if b <= k < b + |t| { assert s[k] == s[b..][k - b]; }
    }
    OpenLine(s);
  }

  /** Behind text that starts no match, outside code, it is read so whatever follows. */
  lemma DirectiveReadWithin(before: string, embed: bool, target: string, alias: Option<string>, after: string)
    requires Writable(target, alias) && Bare(before)
    requires !Flags(before + Written(embed, target, alias) + after, false)[|before|]
    ensures var n := |before + Written(embed, target, alias)|;
            Read(before + Written(embed, target, alias) + after)
            == Chars(before) + [Meant(embed, target, alias)]
               + Scan(after, Flags(before + Written(embed, target, alias) + after, false)[n..])
  {
    hide Match, RefOf, Scan, Flags, Trim;
    var s := Written(embed, target, alias);
    WrittenParts(embed, target, alias);
    var text := before + s + after;
    var flags := Flags(text, false);
    var f, g := flags[..|before|], flags[|before|..];
    assert text == before + (s + after) && flags == f + g;
    ScanBare(before, s + after, f, g);
    DirectiveScanned(embed, target, alias, after, g);
    assert g[|s|..] == flags[|before + s|..];
  }
}
