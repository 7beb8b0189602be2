/** Where a link puts its directive, and that it loses no text: for each way to say the place. */
module Placing {
  import opened Prelude
  import opened Text
  import opened Wiki
  import opened Reading
  import opened Seams
  import opened Edits
  import opened Linking

  // ---------- the text but for white space ----------

  function Solid(body: Body): Body {
    if body == [] then [] else (if IsBlank(body[0]) then [] else [body[0]]) + Solid(body[1..])
  }

  lemma {:induction false} SolidConcat(a: Body, b: Body)
    ensures Solid(a + b) == Solid(a) + Solid(b)
  {
    if a == [] {
      assert a + b == b;
    } else {
      assert (a + b)[1..] == a[1..] + b;
      SolidConcat(a[1..], b);
    }
  }

  lemma {:induction false} SolidTrimStart(body: Body)
    ensures Solid(TrimBodyStart(body)) == Solid(body)
  {
    if body != [] && IsBlank(body[0]) { SolidTrimStart(body[1..]); }
  }

  lemma {:induction false} SolidTrimEnd(body: Body)
    ensures Solid(TrimBodyEnd(body)) == Solid(body)
    decreases |body|
  {
    if body != [] && IsBlank(body[|body| - 1]) {
      var n := |body| - 1;
      SolidTrimEnd(body[..n]);
      assert body == body[..n] + [body[n]];
      SolidConcat(body[..n], [body[n]]);
      assert [body[n]][1..] == [];
    }
  }

  lemma SolidBlanks()
    ensures Solid(Gap()) == [] && Solid(Newline()) == [] && Solid([]) == []
  {
    assert Gap()[1..] == Newline() && Newline()[1..] == [];
  }

  lemma {:induction false} SolidRefs(body: Body)
    ensures Refs(Solid(body)) == Refs(body)
  {
    if body != [] {
      SolidRefs(body[1..]);
      if !IsBlank(body[0]) { assert ([body[0]] + Solid(body[1..]))[1..] == Solid(body[1..]); }
      assert [] + Solid(body[1..]) == Solid(body[1..]);
    }
  }

  // ---------- the place ----------

  ghost predicate FirstHit(v: Vault, body: Body, anchor: BlockId, k: nat) {
    k < |body| && Targets(v, body[k], anchor) && forall j | 0 <= j < k :: !Targets(v, body[j], anchor)
  }

  ghost predicate LineEndsAt(body: Body, k: nat, at: nat) {
    k < at <= |body| && (forall i | k <= i < at :: body[i] != Ch('\n')) && (at == |body| || body[at] == Ch('\n'))
  }

  ghost predicate LineStartsAt(body: Body, k: nat, at: nat) {
    at <= k < |body| && (forall i | at <= i <= k :: body[i] != Ch('\n')) && (at == 0 || body[at - 1] == Ch('\n'))
  }

  /**
   At the end; at the offset, or the end if that is beyond; behind the line of the first directive to the anchor or in
   front of it, and at the end if there is none.
   */
  ghost predicate GoesAt(v: Vault, body: Body, place: Placement, at: nat) {
    match place
    case Append => at == |body|
    case Offset(o) => at == if o < |body| then o else |body|
    case Anchor(anchor, after) =>
      if forall k | 0 <= k < |body| :: !Targets(v, body[k], anchor) then at == |body|
      else exists k: nat ::
        FirstHit(v, body, anchor, k) && if after then LineEndsAt(body, k, at) else LineStartsAt(body, k, at)
  }

  /** A line that holds the directive and nothing else. */
  ghost predicate OnOwnLine(body: Body, d: Atom, at: nat) {
    && at < |body| && body[at] == d
    && (at == 0 || body[at - 1] == Ch('\n')) && (at + 1 == |body| || body[at + 1] == Ch('\n'))
  }

  /** The directive goes exactly there, on a line of its own, between all that was before and all that was behind. */
  lemma PlacedExactly(v: Vault, body: Body, d: Atom, place: Placement) returns (at: nat, line: nat)
    requires d.Ref?
    ensures at <= |body| && GoesAt(v, body, place, at)
    ensures Solid(Placed(v, body, d, place)) == Solid(body[..at]) + [d] + Solid(body[at..])
    ensures Refs(Placed(v, body, d, place)) == Refs(body[..at]) + [d] + Refs(body[at..])
    ensures OnOwnLine(Placed(v, body, d, place), d, line)
    ensures Solid(Placed(v, body, d, place)[..line]) == Solid(body[..at])
  {
    hide Solid, Refs, TrimBodyEnd, TrimBodyStart, Targets, LineStart, LineEnd;
    var front, back;
    match place {
      case Append =>
        at := |body|;
        front, back := AppendParts(body, d);
      case Offset(o) =>
        at := if o < |body| then o else |body|;
        front, back := SpliceParts(body, d, o, at);
      case Anchor(anchor, after) =>
        FirstFound(v, body, anchor);
        var k := FirstTarget(v, body, anchor);
        if k.None? {
          at := |body|;
          front, back := AppendParts(body, d);
        } else {
          at := if after then LineEnd(body, k.value + 1) else LineStart(body, k.value);
          AnchorLine(v, body, anchor, after, k.value, at);
          front, back := AnchorParts(v, body, d, anchor, after, k.value, at);
        }
    }
    PartsPlaced(body, at, front, d, back);
    line := |front|;
    assert (front + [d] + back)[..line] == front;
  }

  lemma {:induction false} FirstFound(v: Vault, body: Body, anchor: BlockId)
    ensures FirstTarget(v, body, anchor).Some? ==>
              FirstHit(v, body, anchor, FirstTarget(v, body, anchor).value)
                && body[FirstTarget(v, body, anchor).value].Ref?
    ensures FirstTarget(v, body, anchor).None? ==> forall k | 0 <= k < |body| :: !Targets(v, body[k], anchor)
  {
    if body != [] {
      FirstFound(v, body[1..], anchor);
      assert forall k | 1 <= k < |body| :: body[k] == body[1..][k - 1];
    }
  }

  lemma AnchorLine(v: Vault, body: Body, anchor: BlockId, after: bool, k: nat, at: nat)
    requires FirstHit(v, body, anchor, k) && body[k].Ref?
    requires at == if after then LineEnd(body, k + 1) else LineStart(body, k)
    ensures at <= |body| && GoesAt(v, body, Anchor(anchor, after), at)
    ensures after ==> at == |body| || body[at] == Ch('\n')
    ensures !after ==> at == 0 || body[at - 1] == Ch('\n')
  {
    hide Targets;
    LineEndIs(body, k + 1);
    LineStartIs(body, k);
    if after { assert LineEndsAt(body, k, at); } else { assert LineStartsAt(body, k, at); }
  }

  /** What stands in front of the directive and behind it, in terms of what did. */
  ghost predicate Surround(body: Body, at: nat, front: Body, back: Body)
    requires at <= |body|
  {
    && Solid(front) == Solid(body[..at]) && Solid(back) == Solid(body[at..])
    && (front == [] || front[|front| - 1] == Ch('\n')) && (back == [] || back[0] == Ch('\n'))
  }

  lemma PartsPlaced(body: Body, at: nat, front: Body, d: Atom, back: Body)
    requires at <= |body| && d.Ref? && Surround(body, at, front, back)
    ensures Solid(front + [d] + back) == Solid(body[..at]) + [d] + Solid(body[at..])
    ensures Refs(front + [d] + back) == Refs(body[..at]) + [d] + Refs(body[at..])
    ensures OnOwnLine(front + [d] + back, d, |front|)
  {
    hide Refs, Solid;
    SolidConcat(front + [d], back);
    SolidConcat(front, [d]);
    SolidOne(d);
    RefsAround(front, d, back);
    SolidRefs(front);
    SolidRefs(back);
    SolidRefs(body[..at]);
    SolidRefs(body[at..]);
  }

  lemma SolidOne(d: Atom)
    requires d.Ref?
    ensures Solid([d]) == [d]
  {
    assert [d][1..] == [];
  }

  lemma GapAround(a: Body)
    ensures Solid(a + Gap()) == Solid(a) && Solid(Gap() + a) == Solid(a) && Solid(a + Newline()) == Solid(a)
    ensures (a + Gap())[|a| + 1] == Ch('\n') && (Gap() + a)[0] == Ch('\n') && |a + Gap()| == |a| + 2
  {
    hide Solid;
    SolidBlanks();
    SolidConcat(a, Gap());
    SolidConcat(Gap(), a);
    SolidConcat(a, Newline());
  }

  lemma AppendParts(body: Body, d: Atom) returns (front: Body, back: Body)
    ensures Surround(body, |body|, front, back) && Appended(body, d) == front + [d] + back
  {
    hide Solid, TrimBodyEnd;
    SolidBlanks();
    SolidTrimEnd(body);
    GapAround(TrimBodyEnd(body));
    front, back := TrimBodyEnd(body) + Gap(), Newline();
    assert body[..|body|] == body && body[|body|..] == [];
  }

  lemma SpliceParts(body: Body, d: Atom, o: nat, at: nat) returns (front: Body, back: Body)
    requires at == if o < |body| then o else |body|
    ensures Surround(body, at, front, back) && Spliced(body, d, o) == front + [d] + back
  {
    hide Solid, TrimBodyEnd, TrimBodyStart;
    var head, tail := TrimBodyEnd(body[..at]), TrimBodyStart(body[at..]);
    SolidBlanks();
    SolidTrimEnd(body[..at]);
    SolidTrimStart(body[at..]);
    GapAround(head);
    GapAround(tail);
    GapAround(Gap() + tail);
    front := if head == [] then [] else head + Gap();
    var more := if tail == [] then [] else Gap() + tail;
    back := more + Newline();
    GapAround(more);
    assert Spliced(body, d, o) == front + [d] + back;
  }

  lemma AnchorParts(v: Vault, body: Body, d: Atom, anchor: BlockId, after: bool, k: nat, at: nat)
    returns (front: Body, back: Body)
    requires FirstTarget(v, body, anchor) == Some(k)
    requires at <= |body| && at == if after then LineEnd(body, k + 1) else LineStart(body, k)
    requires after ==> at == |body| || body[at] == Ch('\n')
    requires !after ==> at == 0 || body[at - 1] == Ch('\n')
    ensures Surround(body, at, front, back) && Anchored(v, body, d, anchor, after) == front + [d] + back
  {
    hide Solid, TrimBodyEnd, TrimBodyStart, LineStart, LineEnd, FirstTarget;
    if after {
      front, back := TrimBodyEnd(body[..at]) + Gap(), body[at..];
      SolidTrimEnd(body[..at]);
      GapAround(TrimBodyEnd(body[..at]));
    } else {
      front, back := body[..at], Gap() + TrimBodyStart(body[at..]);
      SolidTrimStart(body[at..]);
      GapAround(TrimBodyStart(body[at..]));
      assert body[..at] + [d] + Gap() + TrimBodyStart(body[at..]) == front + [d] + back;
    }
  }

  /** Every directive of the body placed was there, or is the new one. */
  lemma PlacedMember(v: Vault, body: Body, d: Atom, place: Placement, a: Atom)
    requires d.Ref? && a.Ref? && a in Placed(v, body, d, place)
    ensures a in body || a == d
  {
    hide Placed, Refs, Solid, GoesAt, OnOwnLine;
    var at, line := PlacedExactly(v, body, d, place);
    RefsMember(Placed(v, body, d, place), a);
    RefsMember(body[..at], a);
    RefsMember(body[at..], a);
  }
}
