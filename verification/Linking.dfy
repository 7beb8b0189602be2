/** Placing and removing directives in a body, and the reachability test that guards embeds. */
module Linking {
  import opened Prelude
  import opened Wiki
  import opened Edits

  // ---------- the directives of a body, in order ----------

  function Refs(body: Body): seq<Atom> {
    if body == [] then [] else (if body[0].Ref? then [body[0]] else []) + Refs(body[1..])
  }

  lemma {:induction false} RefsConcat(a: Body, b: Body)
    ensures Refs(a + b) == Refs(a) + Refs(b)
  {
    NoRefs();
    hide Refs;
    if a == [] {
      assert a + b == b;
    } else {
      assert (a + b)[1..] == a[1..] + b;
      RefsHead(a);
      RefsHead(a + b);
      RefsConcat(a[1..], b);
    }
  }

  lemma NoRefs()
    ensures Refs([]) == []
  {}

  lemma RefsHead(a: Body)
    requires a != []
    ensures Refs(a) == (if a[0].Ref? then [a[0]] else []) + Refs(a[1..])
  {}

  lemma {:induction false} RefsNone(body: Body)
    requires forall k | 0 <= k < |body| :: body[k].Ch?
    ensures Refs(body) == []
  {
    if body != [] { RefsNone(body[1..]); }
  }

  lemma {:induction false} RefsMember(body: Body, a: Atom)
    ensures a in Refs(body) <==> a in body && a.Ref?
  {
    if body != [] {
      RefsMember(body[1..], a);
      assert body == [body[0]] + body[1..];
    }
  }

  lemma {:induction false} RefsTrimEnd(body: Body)
    ensures Refs(TrimBodyEnd(body)) == Refs(body)
    decreases |body|
  {
    if body != [] && IsBlank(body[|body| - 1]) {
      var n := |body| - 1;
      RefsTrimEnd(body[..n]);
      assert body == body[..n] + [body[n]];
      RefsConcat(body[..n], [body[n]]);
      RefsNone([body[n]]);
    }
  }

  lemma {:induction false} RefsTrimStart(body: Body)
    ensures Refs(TrimBodyStart(body)) == Refs(body)
  {
    if body != [] && IsBlank(body[0]) { RefsTrimStart(body[1..]); }
  }

  lemma {:induction false} RefsDropNl(body: Body)
    ensures Refs(DropNl(body)) == Refs(body)
  {
    if body != [] && body[0] == Ch('\n') { RefsDropNl(body[1..]); }
  }

  // ---------- placing a directive ----------

  datatype Placement = Append | Anchor(anchor: BlockId, after: bool) | Offset(at: nat)

  function Gap(): Body { Chars("\n\n") }

  function Newline(): Body { Chars("\n") }

  function Appended(body: Body, d: Atom): Body {
    TrimBodyEnd(body) + Gap() + [d] + Newline()
  }

  predicate Targets(v: Vault, a: Atom, id: BlockId) {
    a.Ref? && (a.target == id || v.Resolve(a.target) == Some(id))
  }

  function FirstTarget(v: Vault, body: Body, id: BlockId): (k: Option<nat>)
    ensures k.Some? ==> k.value < |body|
  {
    if body == [] then None
    else if Targets(v, body[0], id) then Some(0)
    else var k := FirstTarget(v, body[1..], id); if k.Some? then Some(k.value + 1) else None
  }

  /** Start of the line that position `k` is on. */
  function LineStart(body: Body, k: nat): (s: nat)
    requires k <= |body|
    ensures s <= k
  {
    if k == 0 || body[k - 1] == Ch('\n') then k else LineStart(body, k - 1)
  }

  /** End of that line, before its newline. */
  function LineEnd(body: Body, k: nat): (e: nat)
    requires k <= |body|
    ensures k <= e <= |body|
    decreases |body| - k
  {
    if k == |body| || body[k] == Ch('\n') then k else LineEnd(body, k + 1)
  }

  function Anchored(v: Vault, body: Body, d: Atom, anchor: BlockId, after: bool): Body {
    var k := FirstTarget(v, body, anchor);
    if k.None? then Appended(body, d)
    else if after then
      var e := LineEnd(body, k.value + 1);
      TrimBodyEnd(body[..e]) + Gap() + [d] + body[e..]
    else
      var s := LineStart(body, k.value);
      body[..s] + [d] + Gap() + TrimBodyStart(body[s..])
  }

  function Spliced(body: Body, d: Atom, at: nat): Body {
    var off := if at < |body| then at else |body|;
    var head, tail := TrimBodyEnd(body[..off]), TrimBodyStart(body[off..]);
    (if head == [] then [] else head + Gap()) + [d] + (if tail == [] then [] else Gap() + tail) + Newline()
  }

  function Placed(v: Vault, body: Body, d: Atom, place: Placement): Body {
    match place
    case Append => Appended(body, d)
    case Anchor(anchor, after) => Anchored(v, body, d, anchor, after)
    case Offset(at) => Spliced(body, d, at)
  }

  lemma RefsBlanks()
    ensures Refs(Gap()) == [] && Refs(Newline()) == [] && Refs([]) == []
  {
    RefsNone(Gap());
    RefsNone(Newline());
  }

  /** Two pieces of a body with the new directive between them, whatever blank space is trimmed or added. */
  lemma RefsAround(head: Body, d: Atom, tail: Body)
    requires d.Ref?
    ensures Refs(head + [d] + tail) == Refs(head) + [d] + Refs(tail)
  {
    RefsConcat(head + [d], tail);
    RefsConcat(head, [d]);
    assert [d][1..] == [];
  }

  /** For a block of the vault, to target it is to resolve to it. */
  lemma TargetsIs(v: Vault, a: Atom, id: BlockId)
    requires id in v.blocks
    ensures Targets(v, a, id) <==> a.Ref? && v.Resolve(a.target) == Some(id)
  {
    ResolveId(v, id);
  }

  // ---------- reachability ----------

  /** Depth-first search over embeds: does `start` transclude its way to `goal`? */
  method TransclusionReaches(v: Vault, start: BlockId, goal: BlockId) returns (r: bool)
    ensures r <==> v.Reaches(start, goal)
  {
    var stack := [start];
    var seen: set<BlockId> := {};
    v.ReachesSelf(start);
    while stack != []
      invariant forall x | x in stack || x in seen :: v.Reaches(start, x)
      invariant start in seen || start in stack
      invariant goal !in seen
      invariant forall a, b | a in seen && v.Edge(a, b) :: b in seen || b in stack
      invariant forall x | x in stack :: x == start || x in v.blocks
      invariant seen <= v.blocks.Keys + {start}
      decreases (v.blocks.Keys + {start}) - seen, |stack|
    {
      var n := |stack| - 1;
      var id := stack[n];
      assert stack == stack[..n] + [id];
      stack := stack[..n];
      if id == goal { return true; }
      if id in seen { continue; }
      assert id in v.blocks.Keys + {start} - seen;
      seen := seen + {id};
      var children := v.Children(id);
      forall x | x in children ensures v.Reaches(start, x) { v.ReachesSnoc(start, id, x); }
      stack := stack + children;
    }
    if v.Reaches(start, goal) {
      var p :| v.PathFromTo(p, start, goal);
      v.ClosedReach(seen, p);
    }
    return false;
  }


  datatype LinkOutcome = Reference | Transclusion | DowngradedToReference

  /** A requested embed is downgraded exactly when the source is the target or lies below it. */
  method ChooseDirective(v: Vault, source: BlockId, target: BlockId, embed: bool)
    returns (d: Atom, outcome: LinkOutcome)
    ensures outcome == DowngradedToReference <==> embed && v.Reaches(target, source)
    ensures outcome == Reference <==> !embed
    ensures d == if outcome == Transclusion then EmbedOf(target) else ReferenceTo(target)
  {
    var effective := embed;
    if embed {
      v.ReachesSelf(target);
      var reaches := TransclusionReaches(v, target, source);
      if source == target || reaches { effective := false; }
    }
    d := if effective then EmbedOf(target) else ReferenceTo(target);
    outcome := if !embed then Reference else if effective then Transclusion else DowngradedToReference;
  }
}
