/** The managed fields of a block as the writers change them: tag lists and property lists. */
module Fields {
  import opened Prelude
  import opened Text

  /** `eq_ignore_ascii_case`. */
  predicate EqNoCase(a: string, b: string) {
    |a| == |b| && forall i | 0 <= i < |a| :: AsciiLower(a[i]) == AsciiLower(b[i])
  }

  predicate IsPropKey(k: string) {
    k != "" && IsAsciiAlpha(k[0]) && forall i | 0 <= i < |k| :: IsAsciiAlnum(k[i]) || k[i] == '_' || k[i] == '-'
  }

  /** Keys that have fields of their own and are never properties. */
  predicate IsManagedKey(k: string) {
    EqNoCase(k, "title") || EqNoCase(k, "tags") || EqNoCase(k, "locked") || EqNoCase(k, "created")
      || EqNoCase(k, "updated")
  }

  lemma EqNoCaseTransitive(a: string, b: string, c: string)
    requires EqNoCase(a, b) && EqNoCase(b, c)
    ensures EqNoCase(a, c)
  {
    forall i | 0 <= i < |a| ensures AsciiLower(a[i]) == AsciiLower(c[i]) {
      assert AsciiLower(a[i]) == AsciiLower(b[i]);
    }
  }

  lemma EqNoCaseSymmetric(a: string, b: string)
    ensures EqNoCase(a, b) <==> EqNoCase(b, a)
  {}

  // ---------- tags ----------

  predicate HasTag(tags: seq<string>, t: string) {
    exists i | 0 <= i < |tags| :: EqNoCase(tags[i], t)
  }

  method ContainsTag(tags: seq<string>, t: string) returns (found: bool)
    ensures found == HasTag(tags, t)
  {
    for i := 0 to |tags|
      invariant forall j | 0 <= j < i :: !EqNoCase(tags[j], t)
    {
      if EqNoCase(tags[i], t) { return true; }
    }
    return false;
  }

  ghost predicate AllFrom(clean: seq<string>, tags: seq<string>) {
    forall i | 0 <= i < |clean| :: clean[i] != "" && IsFrom(clean[i], tags)
  }

  ghost predicate IsFrom(t: string, tags: seq<string>) {
    exists j | 0 <= j < |tags| :: t == Trim(tags[j])
  }

  ghost predicate Distinct(clean: seq<string>) {
    forall i, j | 0 <= i < j < |clean| :: !EqNoCase(clean[i], clean[j])
  }

  ghost predicate Covers(clean: seq<string>, tags: seq<string>) {
    forall j | 0 <= j < |tags| && Trim(tags[j]) != "" :: HasTag(clean, Trim(tags[j]))
  }

  /** `clean` is what `tags` asks for: trimmed, no blanks, no name twice in any letter case, none left out. */
  ghost predicate SameTags(clean: seq<string>, tags: seq<string>) {
    AllFrom(clean, tags) && Distinct(clean) && Covers(clean, tags)
  }

  /** Not blank, and the first to spell its name, in any letter case. */
  predicate FirstTag(tags: seq<string>, j: nat)
    requires j < |tags|
  {
    Trim(tags[j]) != "" && forall i | 0 <= i < j :: !EqNoCase(Trim(tags[i]), Trim(tags[j]))
  }

  /** The first tag of each name among the first `n`, trimmed, in order. */
  function Cleaned(tags: seq<string>, n: nat): seq<string>
    requires n <= |tags|
  {
    if n == 0 then [] else Cleaned(tags, n - 1) + if FirstTag(tags, n - 1) then [Trim(tags[n - 1])] else []
  }

  /** Trimmed, blank ones dropped, each name kept where it is first seen in any letter case. */
  method CleanTags(tags: seq<string>) returns (clean: seq<string>)
    ensures clean == Cleaned(tags, |tags|) && SameTags(clean, tags)
    ensures IsClean(tags) ==> clean == tags
  {
    hide EqNoCase, Trim, SameTags, IsClean, HasTag, FirstTag;
    clean := [];
    for k := 0 to |tags|
      invariant clean == Cleaned(tags, k)
    {
      var t := Trim(tags[k]);
      var found := ContainsTag(clean, t);
      CleanedIs(tags, k);
      FirstUnseen(tags, k);
      if t != "" && !found { clean := clean + [t]; }
    }
    CleanedIs(tags, |tags|);
    assert tags[..|tags|] == tags;
  }

  /** The list built so far tells whether a tag is the first of its name. */
  lemma FirstUnseen(tags: seq<string>, k: nat)
    requires k < |tags| && SameTags(Cleaned(tags, k), tags[..k])
    ensures FirstTag(tags, k) <==> Trim(tags[k]) != "" && !HasTag(Cleaned(tags, k), Trim(tags[k]))
  {
    hide Cleaned, Trim, EqNoCase, SameTags, HasTag;
    forall j | 0 <= j < k && EqNoCase(Trim(tags[j]), Trim(tags[k])) && Trim(tags[k]) != ""
      ensures HasTag(Cleaned(tags, k), Trim(tags[k]))
    {
      assert tags[..k][j] == tags[j];
      SeenIsHad(Cleaned(tags, k), tags[..k], j, Trim(tags[k]));
    }
    if HasTag(Cleaned(tags, k), Trim(tags[k])) {
      var j := HadIsSeen(Cleaned(tags, k), tags[..k], Trim(tags[k]));
      assert tags[..k][j] == tags[j];
    }
  }

  lemma SeenIsHad(clean: seq<string>, tags: seq<string>, j: nat, t: string)
    requires SameTags(clean, tags) && j < |tags| && EqNoCase(Trim(tags[j]), t) && t != ""
    ensures HasTag(clean, t)
  {
    hide Trim, EqNoCase;
    NotBlankAlike(Trim(tags[j]), t);
    assert HasTag(clean, Trim(tags[j]));
    var i :| 0 <= i < |clean| && EqNoCase(clean[i], Trim(tags[j]));
    EqNoCaseTransitive(clean[i], Trim(tags[j]), t);
  }

  lemma HadIsSeen(clean: seq<string>, tags: seq<string>, t: string) returns (j: nat)
    requires SameTags(clean, tags) && HasTag(clean, t)
    ensures j < |tags| && EqNoCase(Trim(tags[j]), t)
  {
    hide Trim, EqNoCase;
    var i :| 0 <= i < |clean| && EqNoCase(clean[i], t);
    assert IsFrom(clean[i], tags);
    j :| 0 <= j < |tags| && clean[i] == Trim(tags[j]);
  }

  lemma NotBlankAlike(a: string, b: string)
    requires EqNoCase(a, b)
    ensures a == "" <==> b == ""
  {}

  /** The cleaned list is what was asked for; a clean one is left as it is. */
  lemma {:induction false} CleanedIs(tags: seq<string>, n: nat)
    requires n <= |tags|
    ensures SameTags(Cleaned(tags, n), tags[..n])
    ensures IsClean(tags) ==> Cleaned(tags, n) == tags[..n]
  {
    hide EqNoCase, Trim, SameTags, IsClean, HasTag, FirstTag;
    if n == 0 {
      NoTags(tags);
    } else {
      CleanedIs(tags, n - 1);
      FirstUnseen(tags, n - 1);
      TagStep(Cleaned(tags, n - 1), tags, n - 1, Trim(tags[n - 1]));
      CleanStep(tags, n - 1);
      assert tags[..n] == tags[..n - 1] + [tags[n - 1]];
      assert Cleaned(tags, n - 1) + [] == Cleaned(tags, n - 1);
    }
  }

  lemma NoTags(tags: seq<string>)
    ensures SameTags([], tags[..0])
  {}

  lemma FromMore(t: string, tags: seq<string>, k: nat)
    requires k < |tags|
    ensures IsFrom(t, tags[..k]) || t == Trim(tags[k]) ==> IsFrom(t, tags[..k + 1])
  {
    hide Trim;
    assert tags[..k + 1][k] == tags[k];
    if j :| 0 <= j < k && t == Trim(tags[..k][j]) { assert tags[..k + 1][j] == tags[..k][j]; }
  }

  lemma HasMore(clean: seq<string>, t: string, x: string)
    ensures HasTag(clean, x) || EqNoCase(t, x) ==> HasTag(clean + [t], x)
  {
    hide EqNoCase;
    if i :| 0 <= i < |clean| && EqNoCase(clean[i], x) { assert (clean + [t])[i] == clean[i]; }
    assert (clean + [t])[|clean|] == t;
  }

  /** One more tag looked at. */
  lemma TagStep(clean: seq<string>, tags: seq<string>, k: nat, t: string)
    requires k < |tags| && SameTags(clean, tags[..k]) && t == Trim(tags[k])
    ensures SameTags(if t != "" && !HasTag(clean, t) then clean + [t] else clean, tags[..k + 1])
  {
    SelfNoCase(t);
    hide EqNoCase, Trim, IsFrom, HasTag;
    forall x ensures IsFrom(x, tags[..k]) || x == t ==> IsFrom(x, tags[..k + 1]) { FromMore(x, tags, k); }
    if t != "" && !HasTag(clean, t) {
      forall x ensures HasTag(clean, x) || EqNoCase(t, x) ==> HasTag(clean + [t], x) { HasMore(clean, t, x); }
      NotHad(clean, t);
      FromMore(t, tags, k);
      var next := clean + [t];
      assert AllFrom(next, tags[..k + 1]) by {
        forall i | 0 <= i < |next| ensures next[i] != "" && IsFrom(next[i], tags[..k + 1]) {
          assert i < |clean| ==> next[i] == clean[i];
        }
      }
      assert Distinct(next) by {
        forall i, j | 0 <= i < j < |next| ensures !EqNoCase(next[i], next[j]) {
          assert next[i] == clean[i] && (j < |clean| ==> next[j] == clean[j]);
        }
      }
    } else {
    }
  }

  lemma NotHad(clean: seq<string>, t: string)
    requires !HasTag(clean, t)
    ensures forall i | 0 <= i < |clean| :: !EqNoCase(clean[i], t)
  {}

  lemma CleanStep(tags: seq<string>, k: nat)
    requires k < |tags|
    ensures IsClean(tags) ==> tags[k] != "" && Trim(tags[k]) == tags[k] && !HasTag(tags[..k], tags[k])
  {
    hide EqNoCase, Trim;
  }

  predicate IsClean(tags: seq<string>) {
    && (forall i | 0 <= i < |tags| :: tags[i] != "" && Trim(tags[i]) == tags[i])
    && (forall i, j | 0 <= i < j < |tags| :: !EqNoCase(tags[i], tags[j]))
  }

  lemma SelfNoCase(t: string)
    ensures EqNoCase(t, t)
  {}

  // ---------- properties ----------

  type Props = seq<(string, string)>

  /** Properties a file can hold: well-formed unmanaged keys, no two alike in any letter case, no empty values. */
  ghost predicate CanonProps(props: Props) {
    && (forall i | 0 <= i < |props| :: IsPropKey(props[i].0) && !IsManagedKey(props[i].0) && props[i].1 != "")
    && (forall i, j | 0 <= i < j < |props| :: !EqNoCase(props[i].0, props[j].0))
  }

  /** Position of the first property with this key in any letter case, or the length. */
  function Find(props: Props, key: string): (i: nat)
    ensures i <= |props| && (i < |props| ==> EqNoCase(props[i].0, key))
    ensures forall j | 0 <= j < i :: !EqNoCase(props[j].0, key)
  {
    if props == [] || EqNoCase(props[0].0, key) then 0 else 1 + Find(props[1..], key)
  }

  function Value(props: Props, key: string): Option<string> {
    var i := Find(props, key);
    if i < |props| then Some(props[i].1) else None
  }

  /** `Option::or`. */
  function Or(a: Option<string>, b: Option<string>): Option<string> {
    if a.Some? then a else b
  }

  function Upsert(props: Props, key: string, value: string): Props {
    var i := Find(props, key);
    if i < |props| then props[i := (props[i].0, value)] else props + [(key, value)]
  }

  lemma FindIs(props: Props, key: string, i: nat)
    requires i < |props| && EqNoCase(props[i].0, key) && forall j | 0 <= j < i :: !EqNoCase(props[j].0, key)
    ensures Find(props, key) == i
  {}

  /** Setting one key leaves the value of every other key. */
  lemma UpsertValue(props: Props, key: string, value: string, k: string)
    ensures Value(Upsert(props, key, value), k) == if EqNoCase(k, key) then Some(value) else Value(props, k)
  {
    var r := Upsert(props, key, value);
    var i := Find(props, key);
    EqNoCaseSymmetric(k, key);
    forall j | 0 <= j < |props| ensures r[j].0 == props[j].0 {}
    if EqNoCase(k, key) {
      forall j | 0 <= j < |props| ensures EqNoCase(props[j].0, k) <==> EqNoCase(props[j].0, key) {
        if EqNoCase(props[j].0, k) { EqNoCaseTransitive(props[j].0, k, key); }
        if EqNoCase(props[j].0, key) { EqNoCaseTransitive(props[j].0, key, k); }
      }
      if i < |props| { EqNoCaseTransitive(props[i].0, key, k); } else { EqNoCaseSymmetric(key, k); }
      FindIs(r, k, i);
    } else {
      var f := Find(props, k);
      if f < |props| {
        if f == i {
          EqNoCaseSymmetric(props[i].0, k);
          EqNoCaseTransitive(k, props[i].0, key);
          assert false;
        }
        FindIs(r, k, f);
      } else {
        EqNoCaseSymmetric(key, k);
      }
    }
  }

  /** Why a key-value pair is refused, if it is. Blank keys are passed over instead. */
  function Refusal(key: string, value: string): Option<string> {
    if !IsPropKey(Trim(key)) then Some("invalid property key")
    else if IsManagedKey(Trim(key)) then Some("reserved property key")
    else if Trim(value) == "" then Some("empty value for property")
    else None
  }

  /** Some pair of `props` with a non-blank key is refused. */
  predicate AnyRefused(props: Props) {
    exists i | 0 <= i < |props| :: Trim(props[i].0) != "" && Refusal(props[i].0, props[i].1).Some?
  }

  /** The pairs with their keys trimmed, blank keys left out. */
  function Named(props: Props): Props {
    if props == [] then [] else
    (if Trim(props[0].0) == "" then [] else [(Trim(props[0].0), props[0].1)]) + Named(props[1..])
  }

  lemma {:induction false} NamedSnoc(props: Props, k: nat)
    requires k < |props|
    ensures Named(props[..k + 1]) == Named(props[..k]) + Named([props[k]])
  {
    hide Trim;
    if k == 0 {
      assert props[..1] == [props[0]] && props[..0] == [];
    } else {
      assert props[..k + 1][1..] == props[1..][..k] && props[..k][1..] == props[1..][..k - 1]
              && props[1..][k - 1] == props[k];
      NamedSnoc(props[1..], k - 1);
      assert props[..k + 1][0] == props[..k][0] == props[0];
    }
  }

  lemma ValueSnoc(props: Props, p: (string, string), k: string)
    ensures Value(props + [p], k) == Or(Value(props, k), if EqNoCase(p.0, k) then Some(p.1) else None)
  {
    var i := Find(props, k);
    if i < |props| {
      FindIs(props + [p], k, i);
    } else if EqNoCase(p.0, k) {
      FindIs(props + [p], k, |props|);
    }
  }

  /** Some key among the first `n`, trimmed, is `k` in some letter case. */
  predicate KeyBefore(props: Props, n: nat, k: string)
    requires n <= |props|
  {
    exists i | 0 <= i < n :: EqNoCase(Trim(props[i].0), k)
  }

  /** The pairs of the first `n` whose key is not blank and comes up for the first time, set one after the other. */
  function Merged(existing: Props, props: Props, n: nat): Props
    requires n <= |props|
  {
    if n == 0 then existing else
    var merged, k := Merged(existing, props, n - 1), Trim(props[n - 1].0);
    if k == "" || KeyBefore(props, n - 1, k) then merged else Upsert(merged, k, props[n - 1].1)
  }

  /** What setting properties makes of a list: nothing if a pair is refused. */
  function MergedProps(existing: Props, props: Props): Result<Props> {
    if AnyRefused(props) then Err("refused") else Ok(Merged(existing, props, |props|))
  }

  /** The first pair of a key is set, in place or at the end; one bad pair and nothing is. */
  method MergeProps(existing: Props, props: Props) returns (r: Result<Props>)
    ensures r.Err? <==> MergedProps(existing, props).Err?
    ensures r.Ok? ==> r == MergedProps(existing, props)
  {
    hide EqNoCase, Trim, Refusal, Upsert, KeyBefore, HasTag;
    var merged := existing;
    var seen: seq<string> := [];
    NoKeys(props);
    for n := 0 to |props|
      invariant forall i | 0 <= i < n :: Trim(props[i].0) == "" || Refusal(props[i].0, props[i].1).None?
      invariant forall k | k != "" :: HasTag(seen, k) <==> KeyBefore(props, n, k)
      invariant merged == Merged(existing, props, n)
    {
      var (key, v) := props[n];
      var k := Trim(key);
      forall x | x != "" ensures KeyBefore(props, n + 1, x) <==> KeyBefore(props, n, x) || (k != "" && EqNoCase(k, x)) {
        KeyAlso(props, n, x);
      }
      if k != "" {
        var refusal := Refusal(key, v);
        if refusal.Some? { return Err(refusal.value); }
        var again := ContainsTag(seen, k);
        if again {
          forall x | EqNoCase(k, x) ensures KeyBefore(props, n, x) { KeyAlike(props, n, k, x); }
        } else {
          forall x ensures HasTag(seen + [k], x) <==> HasTag(seen, x) || EqNoCase(k, x) { HasSnoc(seen, k, x); }
          seen := seen + [k];
          merged := Upsert(merged, k, v);
        }
      }
    }
    r := Ok(merged);
  }

  lemma NoKeys(props: Props)
    ensures forall k :: !KeyBefore(props, 0, k) && !HasTag([], k)
  {}

  lemma KeyAlso(props: Props, n: nat, x: string)
    requires n < |props| && x != ""
    ensures KeyBefore(props, n + 1, x)
            <==> KeyBefore(props, n, x) || (Trim(props[n].0) != "" && EqNoCase(Trim(props[n].0), x))
  {
    hide Trim;
  }

  lemma KeyAlike(props: Props, n: nat, k: string, x: string)
    requires n <= |props| && KeyBefore(props, n, k) && EqNoCase(k, x)
    ensures KeyBefore(props, n, x)
  {
    hide Trim, EqNoCase;
    var i :| 0 <= i < n && EqNoCase(Trim(props[i].0), k);
    EqNoCaseTransitive(Trim(props[i].0), k, x);
  }

  /** The first value given for a key wins, every key not named keeps its value, and keys keep place and spelling. */
  lemma {:induction false} MergedValue(existing: Props, props: Props, n: nat, k: string)
    requires n <= |props|
    ensures Value(Merged(existing, props, n), k) == Or(Value(Named(props[..n]), k), Value(existing, k))
    ensures Value(Named(props[..n]), k).Some? <==> k != "" && KeyBefore(props, n, k)
    ensures |existing| <= |Merged(existing, props, n)|
    ensures forall i | 0 <= i < |existing| :: Merged(existing, props, n)[i].0 == existing[i].0
    decreases n
  {
    hide EqNoCase, Trim, Value, Upsert, KeyBefore;
    NoValue();
    if n == 0 {
      NoKeys(props);
      assert props[..0] == [];
    } else {
      var merged, named := Merged(existing, props, n - 1), Named(props[..n - 1]);
      var key, v := Trim(props[n - 1].0), props[n - 1].1;
      MergedValue(existing, props, n - 1, k);
      MergedValue(existing, props, n - 1, key);
      NamedSnoc(props, n - 1);
      NamedOne(props[n - 1]);
      UpsertKeys(merged, key, v);
      UpsertValue(merged, key, v, k);
      if k != "" { KeyAlso(props, n - 1, k); }
      if key != "" {
        ValueSnoc(named, (key, v), k);
        EqNoCaseSymmetric(key, k);
        if EqNoCase(k, key) { NotBlankAlike(k, key); SameValue(named, k, key); }
      } else {
        assert Named(props[..n]) == named;
      }
    }
  }

  /** Both spellings of a key have the same value. */
  lemma SameValue(props: Props, a: string, b: string)
    requires EqNoCase(a, b)
    ensures Value(props, a) == Value(props, b)
  {
    hide EqNoCase;
    var i, j := Find(props, a), Find(props, b);
    EqNoCaseSymmetric(a, b);
    if i < |props| { EqNoCaseTransitive(props[i].0, a, b); }
    if j < |props| { EqNoCaseTransitive(props[j].0, b, a); }
  }

  /** A list a file can hold stays one. */
  lemma {:induction false} MergedCanon(existing: Props, props: Props, n: nat)
    requires n <= |props| && CanonProps(existing) && !AnyRefused(props)
    ensures CanonProps(Merged(existing, props, n))
    decreases n
  {
    hide EqNoCase, Trim, Refusal, Upsert, KeyBefore, CanonProps;
    if n > 0 {
      MergedCanon(existing, props, n - 1);
      var (key, v) := props[n - 1];
      if Trim(key) != "" { UpsertCanon(Merged(existing, props, n - 1), key, v); }
    }
  }

  lemma NoValue()
    ensures forall k :: Value(Named([]), k) == None && !HasTag([], k)
  {
    forall k ensures Value(Named([]), k) == None { assert Named([]) == []; }
  }

  lemma NamedOne(p: (string, string))
    ensures Named([p]) == if Trim(p.0) == "" then [] else [(Trim(p.0), p.1)]
  {
    assert [p][1..] == [];
  }

  lemma HasSnoc(seen: seq<string>, k: string, x: string)
    ensures HasTag(seen + [k], x) <==> HasTag(seen, x) || EqNoCase(k, x)
  {
    hide EqNoCase;
    if HasTag(seen, x) {
      var i :| 0 <= i < |seen| && EqNoCase(seen[i], x);
      assert (seen + [k])[i] == seen[i];
    }
    assert (seen + [k])[|seen|] == k;
  }

  lemma UpsertCanon(props: Props, key: string, v: string)
    requires CanonProps(props) && Refusal(key, v).None?
    ensures CanonProps(Upsert(props, Trim(key), v))
  {
    hide EqNoCase, IsManagedKey, IsPropKey;
    var k := Trim(key);
    var r, i := Upsert(props, k, v), Find(props, k);
    forall j | 0 <= j < |r| ensures IsPropKey(r[j].0) && !IsManagedKey(r[j].0) && r[j].1 != "" {}
    forall a, b | 0 <= a < b < |r| ensures !EqNoCase(r[a].0, r[b].0) {}
  }

  ghost predicate GoodProp(p: (string, string)) { IsPropKey(p.0) && !IsManagedKey(p.0) && p.1 != "" }

  /** A list a file can hold, taken apart. */
  lemma CanonHead(props: Props)
    requires props != []
    ensures CanonProps(props) <==>
              GoodProp(props[0]) && CanonProps(props[1..]) && forall p | p in props[1..] :: !EqNoCase(props[0].0, p.0)
  {
    hide EqNoCase, IsManagedKey, IsPropKey;
    var rest := props[1..];
    forall i | 0 <= i < |rest| ensures rest[i] == props[i + 1] {}
    if CanonProps(props) {
      forall p | p in rest ensures !EqNoCase(props[0].0, p.0) {
        var i :| 0 <= i < |rest| && rest[i] == p;
        assert props[i + 1] == p;
      }
    }
    if GoodProp(props[0]) && CanonProps(rest) && forall p | p in rest :: !EqNoCase(props[0].0, p.0) {
      forall i | 0 <= i < |props| ensures IsPropKey(props[i].0) && !IsManagedKey(props[i].0) && props[i].1 != "" {
        if i > 0 { assert props[i] == rest[i - 1]; }
      }
      forall i, j | 0 <= i < j < |props| ensures !EqNoCase(props[i].0, props[j].0) {
        assert props[j] == rest[j - 1] && props[j] in rest;
        if i > 0 { assert props[i] == rest[i - 1]; }
      }
    }
  }

  /** What is kept of a list a file can hold is one too. */
  lemma {:induction false} KeepCanon(props: Props, keys: seq<string>)
    requires CanonProps(props)
    ensures CanonProps(KeepProps(props, keys))
  {
    hide EqNoCase, Dropped, GoodProp, CanonProps;
    if props != [] {
      CanonHead(props);
      KeepCanon(props[1..], keys);
      var rest := KeepProps(props[1..], keys);
      if Dropped(keys, props[0].0) {
        assert KeepProps(props, keys) == rest;
      } else {
        var r := [props[0]] + rest;
        assert KeepProps(props, keys) == r && r[1..] == rest;
        CanonHead(r);
      }
    } else {
      assert KeepProps(props, keys) == props;
    }
  }

  lemma UpsertKeys(props: Props, k: string, v: string)
    ensures |props| <= |Upsert(props, k, v)| && forall i | 0 <= i < |props| :: Upsert(props, k, v)[i].0 == props[i].0
  {}

  predicate Dropped(keys: seq<string>, k: string) {
    exists i | 0 <= i < |keys| :: EqNoCase(Trim(keys[i]), k)
  }

  function KeepProps(props: Props, keys: seq<string>): (r: Props)
    ensures forall p :: p in r <==> p in props && !Dropped(keys, p.0)
  {
    if props == [] then [] else
    (if Dropped(keys, props[0].0) then [] else [props[0]]) + KeepProps(props[1..], keys)
  }

  /** Removing keys leaves every other key's value. */
  lemma {:induction false} KeepValue(props: Props, keys: seq<string>, k: string)
    ensures Value(KeepProps(props, keys), k) == if Dropped(keys, k) then None else Value(props, k)
  {
    hide EqNoCase, Dropped, Value, Trim;
    if props == [] {
      NoValue();
      assert Named([]) == [];
    } else {
      var rest := KeepProps(props[1..], keys);
      KeepValue(props[1..], keys, k);
      ValueCons(props[0], props[1..], k);
      ValueCons(props[0], rest, k);
      assert props == [props[0]] + props[1..];
      if EqNoCase(props[0].0, k) { DroppedAlike(keys, props[0].0, k); }
      assert KeepProps(props, keys) == if Dropped(keys, props[0].0) then rest else [props[0]] + rest;
    }
  }

  lemma ValueCons(p: (string, string), rest: Props, k: string)
    ensures Value([p] + rest, k) == if EqNoCase(p.0, k) then Some(p.1) else Value(rest, k)
  {
    assert ([p] + rest)[1..] == rest;
  }

  lemma DroppedAlike(keys: seq<string>, a: string, b: string)
    requires EqNoCase(a, b)
    ensures Dropped(keys, a) <==> Dropped(keys, b)
  {
    hide Trim;
    EqNoCaseSymmetric(a, b);
    forall i | 0 <= i < |keys| ensures EqNoCase(Trim(keys[i]), a) <==> EqNoCase(Trim(keys[i]), b) {
      if EqNoCase(Trim(keys[i]), a) { EqNoCaseTransitive(Trim(keys[i]), a, b); }
      if EqNoCase(Trim(keys[i]), b) { EqNoCaseTransitive(Trim(keys[i]), b, a); }
    }
  }
}
