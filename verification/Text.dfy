/** The string operations of Rust's standard library that the model needs, on sequences of characters. */
module Text {
  import opened Prelude

  /** Unicode White_Space, what `char::is_whitespace` answers. */
  predicate IsSpace(c: char) {
    '\t' <= c <= '\r' || c == ' ' || c == '\U{0085}' || c == '\U{00A0}' || c == '\U{1680}'
    || '\U{2000}' <= c <= '\U{200A}' || c == '\U{2028}' || c == '\U{2029}' || c == '\U{202F}'
    || c == '\U{205F}' || c == '\U{3000}'
  }

  predicate IsAsciiAlpha(c: char) { 'a' <= c <= 'z' || 'A' <= c <= 'Z' }

  predicate IsAsciiAlnum(c: char) { IsAsciiAlpha(c) || '0' <= c <= '9' }

  function AsciiLower(c: char): char {
    if 'A' <= c <= 'Z' then (c as int + 32) as char else c
  }

  function TrimStart(s: string): string {
    if s != "" && IsSpace(s[0]) then TrimStart(s[1..]) else s
  }

  function TrimEnd(s: string): string
    decreases |s|
  {
    if s != "" && IsSpace(s[|s| - 1]) then TrimEnd(s[..|s| - 1]) else s
  }

  /** `str::trim`. */
  function Trim(s: string): string { TrimEnd(TrimStart(s)) }

  /** A trimmed text, unless that is empty: how titles and time stamps are stored. */
  function StoredTitle(s: Option<string>): Option<string> {
    if s.Some? && Trim(s.value) != "" then Some(Trim(s.value)) else None
  }

  predicate Trimmed(s: string) {
    s == "" || (!IsSpace(s[0]) && !IsSpace(s[|s| - 1]))
  }

  function TrimNlStart(s: string): string {
    if s != "" && s[0] == '\n' then TrimNlStart(s[1..]) else s
  }

  function TrimNlEnd(s: string): string
    decreases |s|
  {
    if s != "" && s[|s| - 1] == '\n' then TrimNlEnd(s[..|s| - 1]) else s
  }

  /** `trim_matches('\n')`. */
  function TrimNl(s: string): string { TrimNlEnd(TrimNlStart(s)) }

  predicate NoOuterNl(s: string) {
    s == "" || (s[0] != '\n' && s[|s| - 1] != '\n')
  }

  lemma {:induction false} TrimStartEnds(s: string)
    ensures TrimStart(s) == "" || !IsSpace(TrimStart(s)[0])
    ensures |TrimStart(s)| <= |s| && TrimStart(s) == s[|s| - |TrimStart(s)|..]
  {
    if s != "" && IsSpace(s[0]) { TrimStartEnds(s[1..]); }
  }

  lemma {:induction false} TrimEndEnds(s: string)
    ensures TrimEnd(s) <= s
    ensures TrimEnd(s) == "" || !IsSpace(TrimEnd(s)[|TrimEnd(s)| - 1])
    decreases |s|
  {
    if s != "" && IsSpace(s[|s| - 1]) { TrimEndEnds(s[..|s| - 1]); }
  }

  lemma TrimEnds(s: string)
    ensures Trimmed(Trim(s))
    ensures Trimmed(s) ==> Trim(s) == s
  {
    TrimStartEnds(s);
    TrimEndEnds(TrimStart(s));
  }

  lemma {:induction false} TrimNlStartEnds(s: string)
    ensures TrimNlStart(s) == "" || TrimNlStart(s)[0] != '\n'
  {
    if s != "" && s[0] == '\n' { TrimNlStartEnds(s[1..]); }
  }

  lemma {:induction false} TrimNlEndEnds(s: string)
    ensures TrimNlEnd(s) <= s
    ensures TrimNlEnd(s) == "" || TrimNlEnd(s)[|TrimNlEnd(s)| - 1] != '\n'
    decreases |s|
  {
    if s != "" && s[|s| - 1] == '\n' { TrimNlEndEnds(s[..|s| - 1]); }
  }

  lemma TrimNlEnds(s: string)
    ensures NoOuterNl(TrimNl(s))
    ensures NoOuterNl(s) ==> TrimNl(s) == s
  {
    TrimNlStartEnds(s);
    TrimNlEndEnds(TrimNlStart(s));
  }

  /** Position of the first `c`, or the length when there is none. */
  function IndexOf(s: string, c: char): (i: nat)
    ensures i <= |s| && c !in s[..i]
    ensures i < |s| ==> s[i] == c
  {
    if s == "" || s[0] == c then 0 else
    var i := 1 + IndexOf(s[1..], c);
    assert s[..i] == [s[0]] + s[1..][..i - 1];
    i
  }

  /** `str::split(c)`: always at least one part. */
  function Split(s: string, c: char): (parts: seq<string>)
    ensures |parts| >= 1
    ensures forall i | 0 <= i < |parts| :: c !in parts[i]
    decreases |s|
  {
    var i := IndexOf(s, c);
    if i == |s| then assert s[..i] == s; [s] else [s[..i]] + Split(s[i + 1..], c)
  }

  function Join(parts: seq<string>, sep: string): string {
    if parts == [] then "" else if |parts| == 1 then parts[0] else parts[0] + sep + Join(parts[1..], sep)
  }

  function StripCr(s: string): string {
    if s != "" && s[|s| - 1] == '\r' then s[..|s| - 1] else s
  }

  /** `str::lines`: terminated by `\n` or `\r\n`, the last terminator optional. */
  function Lines(s: string): (ls: seq<string>)
    ensures forall i | 0 <= i < |ls| :: '\n' !in ls[i]
    decreases |s|
  {
    if s == "" then [] else
    var i := IndexOf(s, '\n');
    if i == |s| then assert s[..i] == s; [s] else [StripCr(s[..i])] + Lines(s[i + 1..])
  }

  function Spaces(n: nat): (s: string)
    ensures |s| == n && forall i | 0 <= i < n :: s[i] == ' '
  {
    seq(n, _ => ' ')
  }

  lemma {:induction false} IndexOfIs(s: string, c: char, i: nat)
    requires i <= |s| && c !in s[..i] && (i < |s| ==> s[i] == c)
    ensures IndexOf(s, c) == i
  {
    if i > 0 {
      assert s[0] == s[..i][0] && s[..i] == [s[0]] + s[1..][..i - 1];
      IndexOfIs(s[1..], c, i - 1);
    }
  }

  lemma {:induction false} SplitConcat(a: string, b: string, c: char)
    ensures Split(a + [c] + b, c) == Split(a, c) + Split(b, c)
    decreases |a|
  {
    var s := a + [c] + b;
    var k := IndexOf(a, c);
    assert s[..k] == a[..k];
    IndexOfIs(s, c, k);
    if k == |a| {
      assert a[..k] == a && s[k + 1..] == b;
    } else {
      assert s[k + 1..] == a[k + 1..] + [c] + b;
      SplitConcat(a[k + 1..], b, c);
    }
  }

  lemma {:induction false} JoinSplit(s: string, c: char)
    ensures Join(Split(s, c), [c]) == s
    decreases |s|
  {
    var i := IndexOf(s, c);
    if i < |s| {
      JoinSplit(s[i + 1..], c);
      assert Split(s, c)[1..] == Split(s[i + 1..], c);
      assert s == s[..i] + [c] + s[i + 1..];
    } else {
      assert s[..i] == s;
    }
  }

  lemma {:induction false} JoinConcat(a: seq<string>, b: seq<string>, sep: string)
    requires a != [] && b != []
    ensures Join(a + b, sep) == Join(a, sep) + sep + Join(b, sep)
  {
    assert (a + b)[1..] == a[1..] + b;
    if |a| > 1 { JoinConcat(a[1..], b, sep); }
  }
}
