/** Reading what was written: every field comes back, and runs of edits change the fields they name and no others. */
module BlockFileLaws {
  import opened Prelude
  import opened Text
  import opened Fields
  import opened BlockFile

  // ---------- one line ----------

  ghost predicate IsKey(k: string) {
    k != "" && forall i | 0 <= i < |k| :: IsAsciiAlnum(k[i]) || k[i] == '_' || k[i] == '-'
  }

  ghost predicate IsText(q: string) { q != "" && Trimmed(q) && NoBreakIn(q) }

  ghost predicate ValidEntry(e: (string, string)) { IsKey(e.0) && IsText(e.1) }

  ghost predicate ValidEntries(es: Entries) { forall i | 0 <= i < |es| :: ValidEntry(es[i]) }

  lemma LineShape(e: (string, string))
    requires ValidEntry(e)
    ensures IsText(EntryLine(e)) && EntryLine(e)[0] == e.0[0]
    ensures forall i | 0 <= i < |e.0| ::
            EntryLine(e)[i] == e.0[i] && EntryLine(e)[i] != ':' && !IsSpace(EntryLine(e)[i])
    ensures |EntryLine(e)| > |e.0| + 2 && EntryLine(e)[|e.0|] == ':' && EntryLine(e)[|e.0| + 1..] == " " + e.1
  {
    var l := EntryLine(e);
    assert l[|l| - 1] == e.1[|e.1| - 1];
    forall i | 0 <= i < |l| ensures l[i] != '\n' {
      if i >= |e.0| + 2 { assert l[i] == e.1[i - |e.0| - 2]; }
    }
    forall i | 0 <= i < |e.0| ensures !IsSpace(e.0[i]) && e.0[i] != ':' {
      assert IsAsciiAlnum(e.0[i]) || e.0[i] == '_' || e.0[i] == '-';
    }
  }

  lemma LineAfterKey(e: (string, string), key: string)
    requires ValidEntry(e) && IsKey(key)
    ensures AfterKey(EntryLine(e), key) == if e.0 == key then Some(" " + e.1) else None
  {
    LineShape(e);
    var l := EntryLine(e);
    TrimEnds(l);
    var p := key + ":";
    if p <= l {
      assert l[|key|] == p[|key|] == ':';
      assert |key| == |e.0|;
      assert key == l[..|key|] == e.0;
    }
    if e.0 == key { assert p <= l; }
  }

  // ---------- the text as lines ----------

  function LinesOf(es: Entries): seq<string> {
    if es == [] then [] else [EntryLine(es[0])] + LinesOf(es[1..])
  }

  lemma IndexOfBreak(l: string, rest: string)
    requires NoBreakIn(l)
    ensures IndexOf(l + "\n" + rest, '\n') == |l|
  {
    var s := l + "\n" + rest;
    assert s[..|l|] == l;
    IndexOfIs(s, '\n', |l|);
  }

  lemma {:induction false} RenderLines(es: Entries)
    requires ValidEntries(es)
    ensures Lines(Render(es)) == LinesOf(es)
  {
    if es != [] {
      RenderLines(es[1..]);
      LineShape(es[0]);
      var l, rest := EntryLine(es[0]), Render(es[1..]);
      hide EntryLine, Trimmed;
      IndexOfBreak(l, rest);
      var s := l + "\n" + rest;
      assert s[..|l|] == l && s[|l| + 1..] == rest;
      NoCr(l);
    }
  }

  lemma NoCr(l: string)
    requires IsText(l)
    ensures StripCr(l) == l && TrimEol(l + "\n") == l
  {
    assert (l + "\n")[..|l|] == l;
  }

  lemma {:induction false} CloseFound(es: Entries, after: string)
    requires ValidEntries(es)
    ensures FindClose(Render(es) + "---\n" + after) == Some((|Render(es)|, |Render(es)| + 4))
    decreases |es|
  {
    hide EntryLine, Render, FindClose, ValidEntry;
    var s := Render(es) + "---\n" + after;
    if es == [] {
      RenderNone();
      assert s == "---\n" + after;
      CloseHere(after);
    } else {
      assert ValidEntry(es[0]);
      var l, rest := EntryLine(es[0]), Render(es[1..]) + "---\n" + after;
      CloseFound(es[1..], after);
      NotClosing(es[0]);
      RenderCons(es);
      assert s == l + "\n" + rest;
      CloseLater(l, rest);
    }
  }

  lemma RenderNone()
    ensures Render([]) == ""
  {}

  lemma NotClosing(e: (string, string))
    requires ValidEntry(e)
    ensures IsText(EntryLine(e)) && EntryLine(e) != "---"
  {
    LineShape(e);
    assert EntryLine(e)[|e.0|] == ':';
  }

  lemma CloseHere(after: string)
    ensures FindClose("---\n" + after) == Some((0, 4))
  {
    var s := "---\n" + after;
    IndexOfBreak("---", after);
    assert s == "---" + "\n" + after && s[..4] == "---\n";
    assert TrimEol("---\n") == "---" by { assert "---\n"[..3] == "---"; }
  }

  lemma CloseLater(l: string, rest: string)
    requires IsText(l) && l != "---"
    ensures FindClose(l + "\n" + rest) == Shifted(FindClose(rest), |l| + 1)
  {
    hide TrimEol, Trimmed;
    var s := l + "\n" + rest;
    IndexOfBreak(l, rest);
    assert s[..|l| + 1] == l + "\n" && s[|l| + 1..] == rest;
    NoCr(l);
  }

  lemma RenderCons(es: Entries)
    requires es != []
    ensures Render(es) == EntryLine(es[0]) + "\n" + Render(es[1..])
  {}

  lemma WrittenSplits(es: Entries, body: string)
    requires ValidEntries(es)
    ensures SplitFrontmatter("---\n" + Render(es) + "---\n\n" + TrimNlStart(body))
            == (Some(Render(es)), TrimNlStart(body))
  {
    hide Render, FindClose, TrimNlStart, ValidEntry;
    var b := TrimNlStart(body);
    var s := "---\n" + Render(es) + "---\n\n" + b;
    var rest := Render(es) + "---\n" + ("\n" + b);
    assert s == "---" + "\n" + rest;
    IndexOfBreak("---", rest);
    assert s[4..] == rest && "---\n" <= s;
    CloseFound(es, "\n" + b);
    var n := |Render(es)|;
    assert rest[..n] == Render(es) && rest[n + 4..] == "\n" + b;
    assert ("\n" + b)[1..] == b;
  }

  // ---------- field by field ----------

  ghost predicate HasKey(es: Entries, key: string) {
    exists i | 0 <= i < |es| :: es[i].0 == key
  }

  lemma {:induction false} ScalarAbsent(es: Entries, key: string)
    requires ValidEntries(es) && IsKey(key) && !HasKey(es, key)
    ensures NamedScalar(LinesOf(es), key) == None
  {
    if es != [] {
      hide IsKey, AfterKey, EntryLine;
      assert es[0].0 != key;
      LineAfterKey(es[0], key);
      forall i | 0 <= i < |es[1..]| ensures es[1..][i].0 != key { assert es[i + 1].0 != key; }
      ScalarAbsent(es[1..], key);
      assert LinesOf(es)[1..] == LinesOf(es[1..]);
    }
  }

  lemma {:induction false} ScalarPresent(a: Entries, key: string, value: string, b: Entries)
    requires ValidEntries(a + [(key, YamlScalar(value))] + b) && IsKey(key) && !HasKey(a, key) && value != ""
    ensures NamedScalar(LinesOf(a + [(key, YamlScalar(value))] + b), key) == Some(value)
  {
    var es := a + [(key, YamlScalar(value))] + b;
    hide IsKey, AfterKey, EntryLine, YamlScalar, ParseScalar, IsText;
    assert ValidEntry(es[0]);
    LineAfterKey(es[0], key);
    assert LinesOf(es)[0] == EntryLine(es[0]) && LinesOf(es)[1..] == LinesOf(es[1..]);
    if a == [] {
      ScalarRoundTrip(value);
    } else {
      assert es[0] == a[0] && a[0].0 != key;
      assert es[1..] == a[1..] + [(key, YamlScalar(value))] + b;
      forall i | 0 <= i < |a[1..]| ensures a[1..][i].0 != key { assert a[i + 1].0 != key; }
      ScalarPresent(a[1..], key, value, b);
    }
  }

  lemma {:induction false} LockAbsent(es: Entries)
    requires ValidEntries(es) && !HasKey(es, "locked")
    ensures !BlockFile.LockFlag(LinesOf(es))
  {
    if es != [] {
      hide AfterKey, EntryLine, IsText;
      assert es[0].0 != "locked";
      LineAfterKey(es[0], "locked");
      forall i | 0 <= i < |es[1..]| ensures es[1..][i].0 != "locked" { assert es[i + 1].0 != "locked"; }
      LockAbsent(es[1..]);
      assert LinesOf(es)[1..] == LinesOf(es[1..]);
    }
  }

  lemma {:induction false} LockPresent(a: Entries, b: Entries)
    requires ValidEntries(a + LockEntry(true) + b) && !HasKey(a, "locked")
    ensures BlockFile.LockFlag(LinesOf(a + LockEntry(true) + b))
  {
    var es := a + LockEntry(true) + b;
    hide AfterKey, EntryLine, ParseScalar, IsText, IsTruthy;
    assert ValidEntry(es[0]) && IsKey("locked");
    LineAfterKey(es[0], "locked");
    assert LinesOf(es)[0] == EntryLine(es[0]) && LinesOf(es)[1..] == LinesOf(es[1..]);
    if a == [] {
      TrueReads();
    } else {
      assert es[0] == a[0] && a[0].0 != "locked";
      assert es[1..] == a[1..] + LockEntry(true) + b;
      forall i | 0 <= i < |a[1..]| ensures a[1..][i].0 != "locked" { assert a[i + 1].0 != "locked"; }
      LockPresent(a[1..], b);
    }
  }

  lemma TrueReads()
    ensures IsTruthy(ParseScalar(" " + "true"))
  {
    TrimPad("true");
    TrimEnds("true");
    SelfNoCase("true");
  }

  // ---------- tags ----------

  /** A tag that the flow form `[a, b]` gives back as it is. */
  ghost predicate CanonTag(t: string) {
    && t != "" && Trim(t) == t && (forall i | 0 <= i < |t| :: t[i] != ',' && t[i] != '\n')
    && !IsQuote(t[0]) && !IsQuote(t[|t| - 1]) && t[0] != '[' && t[|t| - 1] != ']'
  }

  ghost predicate CanonTags(tags: seq<string>) {
    forall i | 0 <= i < |tags| :: CanonTag(tags[i])
  }

  lemma NoComma(s: string)
    requires forall i | 0 <= i < |s| :: s[i] != ','
    ensures Split(s, ',') == [s]
  {
    assert s[..|s|] == s;
    IndexOfIs(s, ',', |s|);
  }

  /** Splitting at the commas and stripping gives the tags back. */
  lemma {:induction false} JoinedTags(tags: seq<string>, pad: string)
    requires tags != [] && CanonTags(tags) && (pad == "" || pad == " ")
    ensures TagsOf(Split(pad + Join(tags, ", "), ',')) == tags
  {
    hide TagOf, CanonTag, Split, Join, TagsOf;
    assert CanonTag(tags[0]);
    if |tags| == 1 {
      JoinOne(tags);
      PaddedTag(tags[0], pad);
      TagsOfOne(pad + tags[0]);
    } else {
      JoinMore(tags);
      PaddedTag(tags[0], pad);
      SplitAfter(pad, tags[0], Join(tags[1..], ", "));
      JoinedTags(tags[1..], " ");
      TagsOfCons(pad + tags[0], Split(" " + Join(tags[1..], ", "), ','));
      assert [tags[0]] + tags[1..] == tags;
    }
  }

  lemma PaddedTag(t: string, pad: string)
    requires CanonTag(t) && (pad == "" || pad == " ")
    ensures TagOf(pad + t) == [t] && Split(pad + t, ',') == [pad + t]
  {
    assert pad == "" ==> pad + t == t;
    forall i | 0 <= i < |pad + t| ensures (pad + t)[i] != ',' {}
    NoComma(pad + t);
  }

  lemma SplitAfter(pad: string, t: string, rest: string)
    requires Split(pad + t, ',') == [pad + t]
    ensures Split(pad + (t + ", " + rest), ',') == [pad + t] + Split(" " + rest, ',')
  {
    hide Split;
    assert pad + (t + ", " + rest) == (pad + t) + [','] + (" " + rest);
    SplitConcat(pad + t, " " + rest, ',');
  }

  lemma JoinOne(tags: seq<string>)
    requires |tags| == 1
    ensures Join(tags, ", ") == tags[0]
  {}

  lemma JoinMore(tags: seq<string>)
    requires |tags| > 1
    ensures Join(tags, ", ") == tags[0] + ", " + Join(tags[1..], ", ")
  {}

  lemma TagsOfOne(s: string)
    ensures TagsOf([s]) == TagOf(s)
  {
    assert [s][1..] == [];
    assert TagOf(s) + [] == TagOf(s);
  }

  lemma TagsOfCons(s: string, rest: seq<string>)
    ensures TagsOf([s] + rest) == TagOf(s) + TagsOf(rest)
  {
    assert ([s] + rest)[1..] == rest;
  }

  lemma {:induction false} JoinEnds(tags: seq<string>)
    requires tags != [] && CanonTags(tags)
    ensures Join(tags, ", ") != "" && Join(tags, ", ")[0] != '[' && Join(tags, ", ")[|Join(tags, ", ")| - 1] != ']'
    ensures NoBreakIn(Join(tags, ", "))
  {
    assert CanonTag(tags[0]);
    if |tags| > 1 {
      JoinEnds(tags[1..]);
      var j, t, rest := Join(tags, ", "), tags[0], Join(tags[1..], ", ");
      assert j == t + ", " + rest;
      assert j[|j| - 1] == rest[|rest| - 1] && j[0] == t[0];
      forall i | 0 <= i < |j| ensures j[i] != '\n' {
        if i >= |t| + 2 { assert j[i] == rest[i - |t| - 2]; }
      }
    }
  }

  lemma FlowReads(tags: seq<string>)
    requires tags != [] && CanonTags(tags)
    ensures FlowTags("[" + Join(tags, ", ") + "]") == tags
    ensures IsText("[" + Join(tags, ", ") + "]")
  {
    hide *;
    JoinEnds(tags);
    FlowOf(tags, Join(tags, ", "));
  }

  lemma FlowOf(tags: seq<string>, j: string)
    requires tags != [] && CanonTags(tags) && j == Join(tags, ", ")
    requires j != "" && j[0] != '[' && j[|j| - 1] != ']' && NoBreakIn(j)
    ensures FlowTags("[" + j + "]") == tags && IsText("[" + j + "]")
  {
    hide *;
    FlowIs("[" + j + "]");
    Bracketed(j);
    BracketsDropped(j);
    JoinedTags(tags, "");
    assert "" + j == j;
  }

  lemma FlowIs(rest: string)
    ensures FlowTags(rest) == TagsOf(Split(DropClose(DropOpen(rest)), ','))
  {}

  lemma Bracketed(j: string)
    requires NoBreakIn(j)
    ensures IsText("[" + j + "]")
  {
    var s := "[" + j + "]";
    forall i | 0 <= i < |s| ensures s[i] != '\n' {
      if 0 < i < |s| - 1 { assert s[i] == j[i - 1]; }
    }
  }

  // A tag that is not canonical does not come back.

  ghost predicate NoCommaIn(s: string) { forall i | 0 <= i < |s| :: s[i] != ',' }

  lemma {:induction false} QuotesShorten(s: string)
    ensures |TrimQuotesStart(s)| <= |s| && (s != "" && IsQuote(s[0]) ==> |TrimQuotesStart(s)| < |s|)
    ensures NoCommaIn(s) ==> NoCommaIn(TrimQuotesStart(s))
    ensures s == "" || IsQuote(s[0]) || TrimQuotesStart(s) == s
  {
    if s != "" && IsQuote(s[0]) { QuotesShorten(s[1..]); }
  }

  lemma {:induction false} QuotesShortenEnd(s: string)
    ensures |TrimQuotesEnd(s)| <= |s| && (s != "" && IsQuote(s[|s| - 1]) ==> |TrimQuotesEnd(s)| < |s|)
    ensures NoCommaIn(s) ==> NoCommaIn(TrimQuotesEnd(s))
    decreases |s|
  {
    if s != "" && IsQuote(s[|s| - 1]) { QuotesShortenEnd(s[..|s| - 1]); }
  }

  lemma TrimShortens(s: string)
    ensures |Trim(s)| <= |s| && (NoCommaIn(s) ==> NoCommaIn(Trim(s)))
  {
    TrimStartEnds(s);
    TrimEndEnds(TrimStart(s));
  }

  /** What a part gives is no longer than the part, has no comma it had not, and lost its outer quotes. */
  lemma TagShortens(s: string)
    ensures TagOf(s) != [] ==> |TagOf(s)[0]| <= |Trim(s)| <= |s| && (NoCommaIn(s) ==> NoCommaIn(TagOf(s)[0]))
    ensures TagOf(s) != [] && Trim(s) != "" && (IsQuote(Trim(s)[0]) || IsQuote(Trim(s)[|Trim(s)| - 1])) ==>
              |TagOf(s)[0]| < |Trim(s)|
  {
    var a := Trim(s);
    var b := TrimQuotesStart(a);
    TrimShortens(s);
    QuotesShorten(a);
    QuotesShortenEnd(b);
    TrimShortens(TrimQuotesEnd(b));
    hide Trim, TrimQuotesStart, TrimQuotesEnd;
  }

  lemma {:induction false} PartsShort(s: string)
    ensures forall k | 0 <= k < |Split(s, ',')| :: |Split(s, ',')[k]| <= |s| && NoCommaIn(Split(s, ',')[k])
    decreases |s|
  {
    var i := IndexOf(s, ',');
    if i < |s| { PartsShort(s[i + 1..]); }
    forall k | 0 <= k < i ensures s[k] != ',' { assert s[k] == s[..i][k]; }
  }

  lemma {:induction false} FromPart(parts: seq<string>, k: nat)
    requires k < |TagsOf(parts)|
    ensures exists m | 0 <= m < |parts| :: TagOf(parts[m]) == [TagsOf(parts)[k]]
  {
    hide TagOf;
    TagOfOne(parts[0]);
    if k >= |TagOf(parts[0])| {
      FromPart(parts[1..], k - |TagOf(parts[0])|);
      var m :| 0 <= m < |parts[1..]| && TagOf(parts[1..][m]) == [TagsOf(parts[1..])[k - |TagOf(parts[0])|]];
      assert TagOf(parts[m + 1]) == [TagsOf(parts)[k]];
    } else {
      assert TagOf(parts[0]) == [TagsOf(parts)[k]];
    }
  }

  lemma TagOfOne(s: string)
    ensures |TagOf(s)| <= 1
  {}

  lemma BracketsDropped(t: string)
    requires t != ""
    ensures DropClose(DropOpen("[" + t + "]")) == t <==> t[0] != '[' && t[|t| - 1] != ']'
    ensures !(t[0] != '[' && t[|t| - 1] != ']') ==> |DropClose(DropOpen("[" + t + "]"))| < |t|
  {
    var s := "[" + t + "]";
    assert s[1..] == t + "]" && DropOpen(s) == DropOpen(t + "]");
    OpenShortens(t + "]");
    var u := DropOpen(t + "]");
    CloseShortens(u);
    if t[0] != '[' {
      assert u == t + "]" && u[..|t|] == t;
      CloseShortens(t);
    } else if u != "" {
      CloseShortens(u[..|u| - 1]);
    }
  }

  lemma {:induction false} OpenShortens(s: string)
    ensures |DropOpen(s)| <= |s| && (s != "" && s[0] == '[' ==> |DropOpen(s)| < |s|)
    ensures DropOpen(s) == "" || DropOpen(s)[|DropOpen(s)| - 1] == s[|s| - 1]
  {
    if s != "" && s[0] == '[' { OpenShortens(s[1..]); }
  }

  lemma {:induction false} CloseShortens(s: string)
    ensures |DropClose(s)| <= |s|
    ensures s != "" && s[|s| - 1] == ']' ==> |DropClose(s)| < |s| && DropClose(s) == DropClose(s[..|s| - 1])
    ensures s != "" && s[|s| - 1] != ']' ==> DropClose(s) == s
    decreases |s|
  {
    if s != "" && s[|s| - 1] == ']' { CloseShortens(s[..|s| - 1]); }
  }

  /** A trimmed one-line tag comes back from the flow form if and only if it is canonical. */
  lemma OneTagIff(t: string)
    requires t != "" && Trim(t) == t && NoBreakIn(t)
    ensures FlowTags("[" + t + "]") == [t] <==> CanonTag(t)
  {
    if CanonTag(t) {
      FlowReads([t]);
      assert Join([t], ", ") == t;
    }
    if FlowTags("[" + t + "]") == [t] { OnlyCanon(t); }
  }

  lemma OnlyCanon(t: string)
    requires t != "" && Trim(t) == t && NoBreakIn(t) && FlowTags("[" + t + "]") == [t]
    ensures CanonTag(t)
  {
    FlowIs("[" + t + "]");
    hide TagOf, TagsOf, Split, DropClose, DropOpen, FlowTags, Trim;
    var inner := DropClose(DropOpen("[" + t + "]"));
    var parts := Split(inner, ',');
    PartsShort(inner);
    FromPart(parts, 0);
    var m :| 0 <= m < |parts| && TagOf(parts[m]) == [TagsOf(parts)[0]];
    TagShortens(parts[m]);
    InnerIs(t, inner);
    TagShortens(t);
    NoComma(t);
    assert parts == [t];
  }

  lemma InnerIs(t: string, inner: string)
    requires t != "" && inner == DropClose(DropOpen("[" + t + "]")) && |t| <= |inner|
    ensures inner == t && t[0] != '[' && t[|t| - 1] != ']'
  {
    BracketsDropped(t);
  }

  lemma {:induction false} TagsAbsent(es: Entries)
    requires ValidEntries(es) && !HasKey(es, "tags")
    ensures FmTags(LinesOf(es)) == []
  {
    if es != [] {
      hide AfterKey, EntryLine, IsText;
      assert es[0].0 != "tags";
      LineAfterKey(es[0], "tags");
      forall i | 0 <= i < |es[1..]| ensures es[1..][i].0 != "tags" { assert es[i + 1].0 != "tags"; }
      TagsAbsent(es[1..]);
      assert LinesOf(es)[1..] == LinesOf(es[1..]);
    }
  }

  lemma {:induction false} TagsPresent(a: Entries, tags: seq<string>, b: Entries)
    requires ValidEntries(a + TagsEntry(tags) + b) && !HasKey(a, "tags") && !HasKey(b, "tags")
    requires CanonTags(tags) && tags != []
    ensures FmTags(LinesOf(a + TagsEntry(tags) + b)) == tags
  {
    var es := a + TagsEntry(tags) + b;
    hide AfterKey, EntryLine, FlowTags, Join, CanonTag, Trim, BlockTags;
    assert ValidEntry(es[0]) && IsKey("tags");
    LineAfterKey(es[0], "tags");
    assert LinesOf(es)[0] == EntryLine(es[0]) && LinesOf(es)[1..] == LinesOf(es[1..]);
    if a == [] {
      var q := "[" + Join(tags, ", ") + "]";
      FlowReads(tags);
      TrimPad(q);
      TrimEnds(q);
      assert es[1..] == b;
      forall i | 0 <= i < |b| ensures ValidEntry(b[i]) { assert b[i] == es[i + 1]; }
      TagsAbsent(b);
      assert tags + [] == tags;
    } else {
      assert es[0] == a[0] && a[0].0 != "tags";
      assert es[1..] == a[1..] + TagsEntry(tags) + b;
      forall i | 0 <= i < |a[1..]| ensures a[1..][i].0 != "tags" { assert a[i + 1].0 != "tags"; }
      TagsPresent(a[1..], tags, b);
    }
  }

  // ---------- properties ----------

  lemma PropReads(k: string, v: string)
    requires IsPropKey(k) && v != ""
    ensures ValidEntry((k, YamlScalar(v)))
    ensures PropOf(EntryLine((k, YamlScalar(v)))) == if IsManagedKey(k) then None else Some((k, v))
  {
    ScalarShape(v);
    hide YamlScalar, ParseScalar, IsManagedKey;
    var e := (k, YamlScalar(v));
    LineShape(e);
    var l := EntryLine(e);
    assert l[..|k|] == k;
    IndexOfIs(l, ':', |k|);
    TrimEnds(k);
    ScalarRoundTrip(v);
    assert !IsSpace(k[0]) && !IsSpace(k[|k| - 1]) && l[0] != ' ' && l[0] != '\t';
  }

  lemma ManagedReads(k: string, q: string)
    requires ValidEntry((k, q)) && IsManagedKey(k)
    ensures PropOf(EntryLine((k, q))) == None
  {
    hide ParseScalar, IsManagedKey;
    LineShape((k, q));
    var l := EntryLine((k, q));
    assert l[..|k|] == k;
    IndexOfIs(l, ':', |k|);
    assert !IsSpace(l[0]) && !IsSpace(l[|k| - 1]);
    TrimEnds(k);
  }

  lemma {:induction false} SkipManaged(a: Entries, b: Entries, props: Props)
    requires ValidEntries(a) && forall i | 0 <= i < |a| :: IsManagedKey(a[i].0)
    ensures FmProps(LinesOf(a + b), props) == FmProps(LinesOf(b), props)
  {
    if a == [] {
      assert a + b == b;
    } else {
      hide IsManagedKey, PropOf, ValidEntry, EntryLine;
      assert ValidEntry(a[0]) && IsManagedKey(a[0].0);
      ManagedReads(a[0].0, a[0].1);
      assert (a + b)[1..] == a[1..] + b && LinesOf(a + b)[1..] == LinesOf(a[1..] + b);
      SkipManaged(a[1..], b, props);
    }
  }

  lemma {:induction false} TakeProps(props: Props, seen: Props)
    requires CanonProps(seen + props)
    ensures FmProps(LinesOf(Scalars(props)), seen) == seen + props
  {
    hide PropOf, YamlScalar, EntryLine, CanonProps, Find;
    if props == [] {
      assert seen + props == seen;
    } else {
      var p := props[0];
      NextProp(seen, props);
      PropReads(p.0, p.1);
      assert seen + props == (seen + [p]) + props[1..];
      assert Scalars(props) == [(p.0, YamlScalar(p.1))] + Scalars(props[1..]);
      assert Scalars(props)[1..] == Scalars(props[1..]);
      assert LinesOf(Scalars(props))[1..] == LinesOf(Scalars(props[1..]));
      TakeProps(props[1..], seen + [p]);
    }
  }

  lemma NextProp(seen: Props, props: Props)
    requires CanonProps(seen + props) && props != []
    ensures GoodProp(props[0]) && Find(seen, props[0].0) == |seen|
  {
    hide EqNoCase, IsPropKey, IsManagedKey;
    var all := seen + props;
    assert all[|seen|] == props[0];
    forall j | 0 <= j < |seen| ensures !EqNoCase(seen[j].0, props[0].0) { assert all[j] == seen[j]; }
  }

  lemma {:induction false} WritableCanon(props: Props)
    requires CanonProps(props)
    ensures Writable(props) == props
  {
    hide IsManagedKey, IsPropKey, EqNoCase, CanonProps, Trim;
    if props != [] {
      CanonHead(props);
      KeyTrims(props[0].0);
      WritableCanon(props[1..]);
      assert [(props[0].0, props[0].1)] + props[1..] == props;
    }
  }

  lemma KeyTrims(k: string)
    requires IsPropKey(k)
    ensures Trim(k) == k
  {
    assert !IsSpace(k[0]) && !IsSpace(k[|k| - 1]);
    TrimEnds(k);
  }

  lemma {:induction false} NonblankCanon(tags: seq<string>)
    requires CanonTags(tags)
    ensures Nonblank(tags) == tags
  {
    if tags != [] {
      assert CanonTag(tags[0]);
      hide CanonTag, Trim;
      forall i | 0 <= i < |tags[1..]| ensures tags[1..][i] == tags[i + 1] {}
      NonblankCanon(tags[1..]);
    }
  }

  // ---------- the whole file ----------

  lemma ValidConcat(a: Entries, b: Entries)
    ensures ValidEntries(a + b) <==> ValidEntries(a) && ValidEntries(b)
  {
    hide ValidEntry;
    if ValidEntries(a + b) {
      forall i | 0 <= i < |a| ensures ValidEntry(a[i]) { assert (a + b)[i] == a[i]; }
      forall i | 0 <= i < |b| ensures ValidEntry(b[i]) { assert (a + b)[|a| + i] == b[i]; }
    }
  }

  lemma HasKeyConcat(a: Entries, b: Entries, key: string)
    ensures HasKey(a + b, key) <==> HasKey(a, key) || HasKey(b, key)
  {
    if HasKey(a, key) { var i :| 0 <= i < |a| && a[i].0 == key; assert (a + b)[i].0 == key; }
    if HasKey(b, key) { var i :| 0 <= i < |b| && b[i].0 == key; assert (a + b)[|a| + i].0 == key; }
  }

  lemma {:induction false} ScalarsKeys(props: Props, key: string)
    requires CanonProps(props)
    ensures ValidEntries(Scalars(props))
    ensures IsManagedKey(key) ==> !HasKey(Scalars(props), key)
  {
    hide YamlScalar, IsPropKey, IsManagedKey, EqNoCase, ValidEntry, HasKey, CanonProps;
    if props != [] {
      var e := (props[0].0, YamlScalar(props[0].1));
      CanonHead(props);
      PropReads(props[0].0, props[0].1);
      ScalarsKeys(props[1..], key);
      ValidConcat([e], Scalars(props[1..]));
      HasKeyConcat([e], Scalars(props[1..]), key);
      HasKeyOne(e, key);
    } else {
      HasKeyOne(("", ""), key);
    }
  }

  lemma HasKeyOne(e: (string, string), key: string)
    ensures HasKey([e], key) <==> e.0 == key
    ensures !HasKey([], key)
  {
    assert [e][0] == e;
  }

  lemma ManagedKeys()
    ensures IsManagedKey("title") && IsManagedKey("tags") && IsManagedKey("locked") && IsManagedKey("updated")
    ensures IsKey("title") && IsKey("tags") && IsKey("locked") && IsKey("updated")
  {}

  lemma StoredShape(s: Option<string>)
    ensures StoredTitle(s).Some? ==> StoredTitle(s).value != "" && Trim(StoredTitle(s).value) == StoredTitle(s).value
  {
    if s.Some? { TrimEnds(s.value); TrimEnds(Trim(s.value)); }
  }

  lemma ScalarBack(a: Entries, key: string, value: Option<string>, b: Entries)
    requires ValidEntries(a + ScalarEntry(key, value) + b) && IsKey(key) && !HasKey(a, key) && !HasKey(b, key)
    requires value.Some? ==> value.value != ""
    ensures NamedScalar(LinesOf(a + ScalarEntry(key, value) + b), key) == value
  {
    hide NamedScalar, ValidEntries, HasKey, IsKey, YamlScalar;
    if value.Some? {
      ScalarPresent(a, key, value.value, b);
    } else {
      HasKeyConcat(a, [], key);
      HasKeyConcat(a + [], b, key);
      HasKeyOne(("", ""), key);
      ScalarAbsent(a + [] + b, key);
    }
  }

  lemma TagsBack(a: Entries, tags: seq<string>, b: Entries)
    requires ValidEntries(a + TagsEntry(tags) + b) && !HasKey(a, "tags") && !HasKey(b, "tags") && CanonTags(tags)
    ensures FmTags(LinesOf(a + TagsEntry(tags) + b)) == tags
  {
    hide FmTags, ValidEntries, HasKey, CanonTags;
    if tags != [] {
      TagsPresent(a, tags, b);
    } else {
      HasKeyConcat(a, [], "tags");
      HasKeyConcat(a + [], b, "tags");
      HasKeyOne(("", ""), "tags");
      TagsAbsent(a + [] + b);
    }
  }

  lemma LockBack(a: Entries, locked: bool, b: Entries)
    requires ValidEntries(a + LockEntry(locked) + b) && !HasKey(a, "locked") && !HasKey(b, "locked")
    ensures BlockFile.LockFlag(LinesOf(a + LockEntry(locked) + b)) == locked
  {
    hide BlockFile.LockFlag, ValidEntries, HasKey;
    if locked {
      LockPresent(a, b);
    } else {
      HasKeyConcat(a, [], "locked");
      HasKeyConcat(a + [], b, "locked");
      HasKeyOne(("", ""), "locked");
      LockAbsent(a + [] + b);
    }
  }

  /** The five parts of a frontmatter: well formed, each with its own keys. */
  ghost predicate Parts(t: Entries, g: Entries, l: Entries, u: Entries, p: Entries) {
    && ValidEntries(t) && ValidEntries(g) && ValidEntries(l) && ValidEntries(u) && ValidEntries(p)
    && !HasKey(t, "tags") && !HasKey(t, "locked") && !HasKey(t, "updated")
    && !HasKey(g, "title") && !HasKey(g, "locked") && !HasKey(g, "updated")
    && !HasKey(l, "title") && !HasKey(l, "tags") && !HasKey(l, "updated")
    && !HasKey(u, "title") && !HasKey(u, "tags") && !HasKey(u, "locked")
    && !HasKey(p, "title") && !HasKey(p, "tags") && !HasKey(p, "locked") && !HasKey(p, "updated")
  }

  lemma MakeParts(title: Option<string>, tags: seq<string>, locked: bool, updated: Option<string>, props: Props)
    requires CanonTags(tags) && CanonProps(props)
    ensures Parts(ScalarEntry("title", StoredTitle(title)), TagsEntry(tags), LockEntry(locked),
                  ScalarEntry("updated", StoredTitle(updated)), Scalars(props))
  {
    hide CanonProps, CanonTags, IsKey, ValidEntries, HasKey, Scalars, ScalarEntry, TagsEntry, LockEntry,
      StoredTitle, IsManagedKey;
    ManagedKeys();
    ScalarPart("title", StoredTitle(title));
    TagsPart(tags);
    LockPart(locked);
    ScalarPart("updated", StoredTitle(updated));
    ScalarsKeys(props, "title");
    ScalarsKeys(props, "tags");
    ScalarsKeys(props, "locked");
    ScalarsKeys(props, "updated");
  }

  /** A part has the key it is named after and no other. */
  ghost predicate Only(part: Entries, name: string) {
    ValidEntries(part) && forall key | HasKey(part, key) :: key == name
  }

  lemma ScalarPart(name: string, value: Option<string>)
    requires IsKey(name)
    ensures Only(ScalarEntry(name, value), name)
  {
    if value.Some? { ScalarShape(value.value); }
    hide YamlScalar;
    forall key | HasKey(ScalarEntry(name, value), key) ensures key == name {}
  }

  lemma TagsPart(tags: seq<string>)
    requires CanonTags(tags)
    ensures Only(TagsEntry(tags), "tags")
  {
    if tags != [] { FlowReads(tags); }
    hide Join, CanonTags;
    forall key | HasKey(TagsEntry(tags), key) ensures key == "tags" {}
  }

  lemma LockPart(locked: bool)
    ensures Only(LockEntry(locked), "locked")
  {
    forall key | HasKey(LockEntry(locked), key) ensures key == "locked" {}
  }

  lemma PartsBack(title: Option<string>, tags: seq<string>, locked: bool, updated: Option<string>, props: Props)
    requires CanonTags(tags) && CanonProps(props)
    ensures
      var es := EntriesOf(title, tags, locked, updated, props);
      && ValidEntries(es)
      && NamedScalar(LinesOf(es), "title") == StoredTitle(title)
      && FmTags(LinesOf(es)) == tags
      && BlockFile.LockFlag(LinesOf(es)) == locked
      && NamedScalar(LinesOf(es), "updated") == StoredTitle(updated)
  {
    hide CanonTags, CanonProps, LinesOf, NamedScalar, FmTags, BlockFile.LockFlag, ValidEntries, HasKey, IsKey,
      StoredTitle, Scalars, TagsEntry, LockEntry, ScalarEntry;
    var t, g, l := ScalarEntry("title", StoredTitle(title)), TagsEntry(tags), LockEntry(locked);
    var u, p := ScalarEntry("updated", StoredTitle(updated)), Scalars(props);
    NonblankCanon(tags);
    WritableCanon(props);
    MakeParts(title, tags, locked, updated, props);
    StoredShape(title);
    StoredShape(updated);
    ManagedKeys();
    var es := t + g + l + u + p;
    ValidParts(t, g, l, u, p);
    Elsewhere(t, g, l, u, p);
    assert es == [] + t + (g + l + u + p);
    ScalarBack([], "title", StoredTitle(title), g + l + u + p);
    assert es == t + g + (l + u + p);
    TagsBack(t, tags, l + u + p);
    assert es == (t + g) + l + (u + p);
    LockBack(t + g, locked, u + p);
    assert es == (t + g + l) + u + p;
    ScalarBack(t + g + l, "updated", StoredTitle(updated), p);
  }

  lemma ValidParts(t: Entries, g: Entries, l: Entries, u: Entries, p: Entries)
    requires Parts(t, g, l, u, p)
    ensures ValidEntries(t + g + l + u + p)
  {
    hide ValidEntries, HasKey;
    ValidConcat(t, g);
    ValidConcat(t + g, l);
    ValidConcat(t + g + l, u);
    ValidConcat(t + g + l + u, p);
  }

  lemma Elsewhere(t: Entries, g: Entries, l: Entries, u: Entries, p: Entries)
    requires Parts(t, g, l, u, p)
    ensures !HasKey([], "title") && !HasKey(g + l + u + p, "title")
    ensures !HasKey(l + u + p, "tags")
    ensures !HasKey(t + g, "locked") && !HasKey(u + p, "locked")
    ensures !HasKey(t + g + l, "updated")
  {
    hide ValidEntries, HasKey;
    HasKeyOne(("", ""), "title");
    HasKeyConcat(g, l, "title");
    HasKeyConcat(g + l, u, "title");
    HasKeyConcat(g + l + u, p, "title");
    HasKeyConcat(l, u, "tags");
    HasKeyConcat(l + u, p, "tags");
    HasKeyConcat(t, g, "locked");
    HasKeyConcat(u, p, "locked");
    HasKeyConcat(t, g, "updated");
    HasKeyConcat(t + g, l, "updated");
  }

  lemma PropsBack(title: Option<string>, tags: seq<string>, locked: bool, updated: Option<string>, props: Props)
    requires CanonTags(tags) && CanonProps(props)
    ensures FmProps(LinesOf(EntriesOf(title, tags, locked, updated, props)), []) == props
  {
    hide CanonTags, CanonProps, LinesOf, FmProps, ValidEntries, HasKey, IsKey, StoredTitle, Scalars, YamlScalar,
      IsManagedKey, Join;
    var t, g, l := ScalarEntry("title", StoredTitle(title)), TagsEntry(tags), LockEntry(locked);
    var u, p := ScalarEntry("updated", StoredTitle(updated)), Scalars(props);
    NonblankCanon(tags);
    WritableCanon(props);
    MakeParts(title, tags, locked, updated, props);
    ManagedKeys();
    assert t + g + l + u + p == t + (g + (l + (u + p)));
    SkipManaged(t, g + (l + (u + p)), []);
    SkipManaged(g, l + (u + p), []);
    SkipManaged(l, u + p, []);
    SkipManaged(u, p, []);
    assert [] + props == props;
    TakeProps(props, []);
  }

  /** A file written with some metadata reads back as what was written. */
  lemma WrittenReadsBack(title: Option<string>, tags: seq<string>, locked: bool, updated: Option<string>,
                         props: Props, body: string)
    requires CanonTags(tags) && CanonProps(props)
    requires StoredTitle(title).Some? || tags != [] || locked || StoredTitle(updated).Some? || props != []
    ensures ParseBlock(WriteBlock(title, tags, locked, updated, props, body))
         == Parsed(StoredTitle(title), tags, locked, StoredTitle(updated), props, TrimNlStart(body))
  {
    hide CanonTags, CanonProps, LinesOf, NamedScalar, FmTags, BlockFile.LockFlag, FmProps, ValidEntries,
      TrimNlStart, SplitFrontmatter, Render, EntriesOf, Lines, StoredTitle;
    var es := EntriesOf(title, tags, locked, updated, props);
    PartsBack(title, tags, locked, updated, props);
    PropsBack(title, tags, locked, updated, props);
    SomeEntries(title, tags, locked, updated, props);
    WrittenSplits(es, body);
    RenderLines(es);
    StoredShape(title);
  }

  lemma SomeEntries(title: Option<string>, tags: seq<string>, locked: bool, updated: Option<string>, props: Props)
    requires CanonTags(tags) && CanonProps(props)
    requires StoredTitle(title).Some? || tags != [] || locked || StoredTitle(updated).Some? || props != []
    ensures EntriesOf(title, tags, locked, updated, props) != []
  {
    hide CanonTags, CanonProps, StoredTitle, Writable, Nonblank, ScalarEntry, TagsEntry, LockEntry, Scalars;
    NonblankCanon(tags);
    WritableCanon(props);
    NoEntries(StoredTitle(title), tags, locked, StoredTitle(updated), props);
  }

  // ---------- edits ----------

  /** What a caller asks of the writers. */
  datatype FileEdit =
    | PutBody(title: Option<string>, body: string)
    | PutTags(tags: seq<string>)
    | PutLock(locked: bool)
    | MergePairs(pairs: Props)
    | DropKeys(keys: seq<string>)

  function RetitledBy(title: Option<string>, edit: FileEdit): Option<string> {
    if edit.PutBody? && edit.title.Some? then edit.title else title
  }

  function TagsBy(tags: seq<string>, edit: FileEdit): seq<string> {
    if edit.PutTags? then Cleaned(edit.tags, |edit.tags|) else tags
  }

  /** An error when a pair is refused, which leaves the file alone. */
  function PropsBy(props: Props, edit: FileEdit): Result<Props> {
    match edit
    case MergePairs(pairs) => MergedProps(props, pairs)
    case DropKeys(keys) => Ok(KeepProps(props, keys))
    case _ => Ok(props)
  }

  function EditFile(source: string, edit: FileEdit, now: string): string {
    var p := ParseBlock(source);
    var props := PropsBy(p.props, edit);
    if props.Err? then source else
    WriteBlock(RetitledBy(p.title, edit), TagsBy(p.tags, edit), if edit.PutLock? then edit.locked else p.locked,
               Some(now), props.value, if edit.PutBody? then edit.body else p.body)
  }

  /**
   The fields an edit names are replaced and the time is stamped; titles are trimmed and bodies lose leading newlines.
   */
  function FieldsAfter(p: Parsed, edit: FileEdit, now: string): Parsed {
    var props := PropsBy(p.props, edit);
    if props.Err? then p else
    Parsed(StoredTitle(RetitledBy(p.title, edit)), TagsBy(p.tags, edit), if edit.PutLock? then edit.locked
      else p.locked,
           Some(now), props.value, TrimNlStart(if edit.PutBody? then edit.body else p.body))
  }

  /** A time stamp without outer white space, and tags that can be written one by one. */
  ghost predicate GoodEdit(edit: FileEdit, now: string) {
    && now != "" && Trim(now) == now
    && (edit.PutTags? ==> forall i | 0 <= i < |edit.tags| && Trim(edit.tags[i]) != "" :: CanonTag(Trim(edit.tags[i])))
  }

  lemma TagsByCanon(tags: seq<string>, edit: FileEdit, now: string)
    requires CanonTags(tags) && GoodEdit(edit, now)
    ensures CanonTags(TagsBy(tags, edit))
  {
    hide CanonTag, Trim, Cleaned;
    if edit.PutTags? {
      CleanedIs(edit.tags, |edit.tags|);
      assert edit.tags[..|edit.tags|] == edit.tags;
      var clean := Cleaned(edit.tags, |edit.tags|);
      forall i | 0 <= i < |clean| ensures CanonTag(clean[i]) { assert IsFrom(clean[i], edit.tags); }
    }
  }

  lemma PropsByCanon(props: Props, edit: FileEdit)
    requires CanonProps(props)
    ensures PropsBy(props, edit).Ok? ==> CanonProps(PropsBy(props, edit).value)
  {
    hide CanonProps, AnyRefused, Merged, KeepProps;
    match edit
    case MergePairs(pairs) => if !AnyRefused(pairs) { MergedCanon(props, pairs, |pairs|); }
    case DropKeys(keys) => KeepCanon(props, keys);
    case _ =>
  }

  lemma {:induction false} ReadPropsCanon(lines: seq<string>, props: Props)
    requires CanonProps(props)
    ensures CanonProps(FmProps(lines, props))
  {
    if lines != [] {
      hide PropOf, EqNoCase, IsPropKey, IsManagedKey;
      var p := PropOf(lines[0]);
      if p.None? || Find(props, p.value.0) < |props| {
        ReadPropsCanon(lines[1..], props);
      } else {
        forall i, j | 0 <= i < j < |props + [p.value]|
          ensures !EqNoCase((props + [p.value])[i].0, (props + [p.value])[j].0) {}
        ReadPropsCanon(lines[1..], props + [p.value]);
      }
    }
  }

  /** One edit, read back. */
  lemma EditReadsBack(source: string, edit: FileEdit, now: string)
    requires CanonTags(ParseBlock(source).tags) && GoodEdit(edit, now)
    ensures ParseBlock(EditFile(source, edit, now)) == FieldsAfter(ParseBlock(source), edit, now)
    ensures CanonTags(FieldsAfter(ParseBlock(source), edit, now).tags)
  {
    ParsedProps(source);
    hide ParseBlock, WriteBlock, CanonTags, CanonProps, TrimNlStart, GoodEdit, PropsBy, TagsBy;
    var p := ParseBlock(source);
    var props := PropsBy(p.props, edit);
    PropsByCanon(p.props, edit);
    TagsByCanon(p.tags, edit, now);
    StampedNow(edit, now);
    if props.Ok? {
      WrittenReadsBack(RetitledBy(p.title, edit), TagsBy(p.tags, edit), if edit.PutLock? then edit.locked else p.locked,
                       Some(now), props.value, if edit.PutBody? then edit.body else p.body);
    }
  }

  lemma StampedNow(edit: FileEdit, now: string)
    requires GoodEdit(edit, now)
    ensures StoredTitle(Some(now)) == Some(now)
  {
  }

  lemma ParsedProps(source: string)
    ensures CanonProps(ParseBlock(source).props)
  {
    hide FmProps, SplitFrontmatter, Lines, FmTags, BlockFile.LockFlag, NamedScalar;
    if SplitFrontmatter(source).0.Some? { ReadPropsCanon(Lines(SplitFrontmatter(source).0.value), []); }
  }

  function EditRun(source: string, edits: seq<(FileEdit, string)>): string
    decreases |edits|
  {
    if edits == [] then source
      else EditFile(EditRun(source, edits[..|edits| - 1]), edits[|edits| - 1].0, edits[|edits| - 1].1)
  }

  function FieldRun(p: Parsed, edits: seq<(FileEdit, string)>): Parsed
    decreases |edits|
  {
    if edits == [] then p
      else FieldsAfter(FieldRun(p, edits[..|edits| - 1]), edits[|edits| - 1].0, edits[|edits| - 1].1)
  }

  /** Editing files and reading the last one is reading the first and editing its fields. */
  lemma {:induction false} RunReadsBack(source: string, edits: seq<(FileEdit, string)>)
    requires CanonTags(ParseBlock(source).tags) && forall i | 0 <= i < |edits| :: GoodEdit(edits[i].0, edits[i].1)
    ensures ParseBlock(EditRun(source, edits)) == FieldRun(ParseBlock(source), edits)
    ensures CanonTags(FieldRun(ParseBlock(source), edits).tags)
    decreases |edits|
  {
    hide ParseBlock, EditFile, FieldsAfter, CanonTags, GoodEdit;
    if edits != [] {
      var n := |edits| - 1;
      RunReadsBack(source, edits[..n]);
      EditReadsBack(EditRun(source, edits[..n]), edits[n].0, edits[n].1);
    }
  }

  /**
   So a field that no edit of a run names is what it was, a title up to outer white space, a body up to leading
   newlines.
   */
  lemma {:induction false} RunKeepsUnnamed(source: string, edits: seq<(FileEdit, string)>)
    requires CanonTags(ParseBlock(source).tags) && forall i | 0 <= i < |edits| :: GoodEdit(edits[i].0, edits[i].1)
    ensures
      var p, q := ParseBlock(source), ParseBlock(EditRun(source, edits));
      && ((forall i | 0 <= i < |edits| :: !edits[i].0.PutTags?) ==> q.tags == p.tags)
      && ((forall i | 0 <= i < |edits| :: !edits[i].0.PutLock?) ==> q.locked == p.locked)
      && ((forall i | 0 <= i < |edits| :: !edits[i].0.MergePairs? && !edits[i].0.DropKeys?) ==> q.props == p.props)
      && ((forall i | 0 <= i < |edits| :: edits[i].0.PutBody? ==> edits[i].0.title.None?) ==>
            StoredTitle(q.title) == StoredTitle(p.title))
      && ((forall i | 0 <= i < |edits| :: !edits[i].0.PutBody?) ==> TrimNlStart(q.body) == TrimNlStart(p.body))
    decreases |edits|
  {
    hide ParseBlock, EditFile, CanonTags, GoodEdit, TrimNlStart, StoredTitle, MergedProps, KeepProps, Cleaned;
    if edits != [] {
      var n := |edits| - 1;
      RunKeepsUnnamed(source, edits[..n]);
      RunReadsBack(source, edits[..n]);
      var mid := EditRun(source, edits[..n]);
      EditReadsBack(mid, edits[n].0, edits[n].1);
      StoredTwice(RetitledBy(ParseBlock(mid).title, edits[n].0));
      DropTwice(ParseBlock(mid).body);
    }
  }

  /** A property of that name is set or removed. */
  predicate NamesKey(edit: FileEdit, k: string) {
    match edit
    case MergePairs(pairs) => Value(Named(pairs), k).Some?
    case DropKeys(keys) => Dropped(keys, k)
    case _ => false
  }

  /** Properties are never replaced as a whole: one that no edit of a run names has the value it had. */
  lemma {:induction false} RunKeepsProperty(source: string, edits: seq<(FileEdit, string)>, k: string)
    requires CanonTags(ParseBlock(source).tags) && forall i | 0 <= i < |edits| :: GoodEdit(edits[i].0, edits[i].1)
    requires forall i | 0 <= i < |edits| :: !NamesKey(edits[i].0, k)
    ensures Value(ParseBlock(EditRun(source, edits)).props, k) == Value(ParseBlock(source).props, k)
    decreases |edits|
  {
    hide ParseBlock, EditFile, CanonTags, GoodEdit, TrimNlStart, StoredTitle, NamesKey, Value, PropsBy, TagsBy;
    if edits != [] {
      var n := |edits| - 1;
      RunKeepsProperty(source, edits[..n], k);
      RunReadsBack(source, edits[..n]);
      var mid := EditRun(source, edits[..n]);
      EditReadsBack(mid, edits[n].0, edits[n].1);
      EditKeepsProperty(ParseBlock(mid).props, edits[n].0, k);
    }
  }

  lemma EditKeepsProperty(props: Props, edit: FileEdit, k: string)
    requires !NamesKey(edit, k)
    ensures PropsBy(props, edit).Ok? ==> Value(PropsBy(props, edit).value, k) == Value(props, k)
  {
    hide Value, Merged, KeepProps, AnyRefused, Named, Dropped;
    match edit
    case MergePairs(pairs) =>
      MergedValue(props, pairs, |pairs|, k);
      assert pairs[..|pairs|] == pairs;
    case DropKeys(keys) => KeepValue(props, keys, k);
    case _ =>
  }

  lemma StoredTwice(s: Option<string>)
    ensures StoredTitle(StoredTitle(s)) == StoredTitle(s)
  {
    StoredShape(s);
  }

  lemma DropTwice(s: string)
    ensures TrimNlStart(TrimNlStart(s)) == TrimNlStart(s)
  {
    TrimNlStartEnds(s);
  }
}
