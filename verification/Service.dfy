/**
 The service in front of the engine: who may do what, the lock on human-only blocks, optimistic concurrency, and
 the operations that edit several blocks. Clock readings and new ids come in as arguments.
 */
module Service {
  import opened Prelude
  import opened Text
  import opened Wiki
  import opened Store
  import opened Sync
  import opened Coherence
  import opened Fields
  import opened Edits
  import opened TextEdits
  import opened Layout
  import opened Linking
  import opened Unlinking
  import opened Acyclic

  // ---------- scopes ----------

  datatype Capability = Read | Write | ManageLocks

  datatype Scope = Scope(read: bool, write: bool, manageLocks: bool) {
    predicate Can(cap: Capability) {
      match cap
      case Read => read
      case Write => write
      case ManageLocks => manageLocks
    }
  }

  const NONE := Scope(false, false, false)
  const AGENT := Scope(true, true, false)
  const APP := Scope(true, true, true)

  datatype Caller = Local | LocalApp | Authenticated(principal: string) | Remote(principal: string)

  /** The scope each kind of caller is given; only the app may manage locks. */
  function ScopeOf(caller: Caller): (s: Scope)
    ensures s.manageLocks <==> caller.LocalApp?
    ensures caller.Remote? ==> forall cap :: !s.Can(cap)
  {
    match caller
    case Local => AGENT
    case LocalApp => APP
    case Authenticated(_) => AGENT
    case Remote(_) => NONE
  }

  function Authorize(scope: Scope, cap: Capability): Result<()> {
    if scope.Can(cap) then Ok(()) else Err("unauthorized")
  }

  // ---------- versions ----------

  const HEX := "0123456789abcdef"

  function Digits(n: nat): string {
    if n < 16 then [HEX[n]] else Digits(n / 16) + [HEX[n % 16]]
  }

  function Zeros(n: nat): string { seq(n, _ => '0') }

  /** `{:016x}`. */
  function FormatVersion(h: nat): string {
    var d := Digits(h);
    if |d| < 16 then Zeros(16 - |d|) + d else d
  }

  function ValueOf(s: string): nat {
    if s == "" then 0 else 16 * ValueOf(s[..|s| - 1]) + Digit(s[|s| - 1])
  }

  function Digit(c: char): nat {
    if '0' <= c <= '9' then (c - '0') as nat else if 'a' <= c <= 'f' then (c - 'a') as nat + 10 else 0
  }

  lemma {:induction false} DigitsValue(n: nat)
    ensures ValueOf(Digits(n)) == n
  {
    if n < 16 {
      assert Digits(n)[..0] == "";
      assert Digit(HEX[n]) == n;
    } else {
      DigitsValue(n / 16);
      var d := Digits(n);
      assert d[..|d| - 1] == Digits(n / 16) && d[|d| - 1] == HEX[n % 16];
      assert Digit(HEX[n % 16]) == n % 16;
    }
  }

  lemma {:induction false} ZerosValue(n: nat, d: string)
    ensures ValueOf(Zeros(n) + d) == ValueOf(d)
    decreases n + |d|
  {
    var s := Zeros(n) + d;
    if d != "" {
      assert s[..|s| - 1] == Zeros(n) + d[..|d| - 1];
      ZerosValue(n, d[..|d| - 1]);
    } else if n > 0 {
      assert s[..|s| - 1] == Zeros(n - 1) + "";
      ZerosValue(n - 1, "");
    } else {
      assert s == "";
    }
  }

  lemma FormatValue(h: nat)
    ensures ValueOf(FormatVersion(h)) == h
  {
    hide ValueOf, Digits;
    DigitsValue(h);
    if |Digits(h)| < 16 { ZerosValue(16 - |Digits(h)|, Digits(h)); }
  }

  /** A version token stands for one hash. */
  lemma VersionInjective(a: nat, b: nat)
    requires FormatVersion(a) == FormatVersion(b)
    ensures a == b
  {
    hide FormatVersion, ValueOf;
    FormatValue(a);
    FormatValue(b);
  }

  // ---------- what every request keeps ----------

  ghost predicate LockedIn(e: Env, files: map<BlockId, string>, id: BlockId) {
    id in files && e.parse(id, files[id]).meta.locked
  }

  /** Locked blocks keep their source, and with it their lock. */
  ghost predicate LocksHeld(e: Env, before: map<BlockId, string>, after: map<BlockId, string>) {
    forall id | LockedIn(e, before, id) :: Get(after, id) == Get(before, id)
  }

  ghost predicate InStep(s: State) { s.src == s.world.disk }

  /** The engine's invariant; with no outside edits pending, none made pending and no id taken but `unused`. */
  ghost predicate Orderly(e: Env, a: State, b: State, unused: set<BlockId>) {
    Kept(e, a, b) && (InStep(a) ==> InStep(b) && b.src.Keys <= a.src.Keys + unused)
  }

  /** And no lock broken. */
  ghost predicate Guarded(e: Env, a: State, b: State, unused: set<BlockId>) {
    Orderly(e, a, b, unused) && (InStep(a) ==> LocksHeld(e, a.src, b.src))
  }

  /** A caller who may write, and a block that is there and not locked. */
  ghost predicate May(e: Env, s: State, scope: Scope, id: BlockId) {
    scope.write && id in s.src && !LockedIn(e, s.src, id)
  }

  /** One source rewritten, all others as they were. */
  ghost predicate Edited(e: Env, a: State, b: State, id: BlockId, source: string) {
    Guarded(e, a, b, {}) && id in a.src && b.src == a.src[id := source]
  }

  /** Only ids in `changed` were written or deleted. */
  ghost predicate Touches(a: State, b: State, changed: set<BlockId>) {
    && (InStep(a) ==> InStep(b))
    && forall id | id !in changed :: Get(b.src, id) == Get(a.src, id)
  }

  lemma WroteTouches(e: Env, a: State, b: State, id: BlockId, source: string)
    requires Wrote(e, a, b, id, source)
    ensures Touches(a, b, {id}) && Kept(e, a, b) && b.src == a.src[id := source]
  {
    hide Inv, AllLinked, Kept;
    SettledKept(e, a, b, a.src[id := source]);
  }

  lemma DeletedTouches(e: Env, a: State, b: State, id: BlockId)
    requires Deleted(e, a, b, id)
    ensures Touches(a, b, {id}) && Kept(e, a, b) && b.src == a.src - {id}
  {
    hide Inv, AllLinked, Kept;
    SettledKept(e, a, b, a.src - {id});
  }

  lemma TouchesChain(e: Env, a: State, b: State, c: State, s: set<BlockId>, t: set<BlockId>)
    requires Touches(a, b, s) && Kept(e, a, b) && Touches(b, c, t) && Kept(e, b, c)
    ensures Touches(a, c, s + t) && Kept(e, a, c)
  {
    hide Inv, Synced, Get;
  }

  /** Changing unlocked and new blocks only is within the rules. */
  lemma TouchesGuarded(e: Env, a: State, b: State, changed: set<BlockId>, unused: set<BlockId>)
    requires Inv(e, a) && Touches(a, b, changed) && Kept(e, a, b)
    requires forall id | id in changed ::
            id in a.src || id in b.src ==> if id in a.src then !LockedIn(e, a.src, id) else id in unused
    ensures Guarded(e, a, b, unused)
  {
    hide Inv, Kept, LockedIn;
    forall id | id in b.src ensures id in a.src.Keys + unused {
      if id !in changed { assert Get(b.src, id) == Get(a.src, id); }
    }
    forall id | LockedIn(e, a.src, id) ensures Get(b.src, id) == Get(a.src, id) {
      LockedKnown(e, a.src, id);
      if id !in changed { assert Get(b.src, id) == Get(a.src, id); }
    }
  }

  lemma LockedKnown(e: Env, files: map<BlockId, string>, id: BlockId)
    requires LockedIn(e, files, id)
    ensures id in files
  {}

  lemma NothingGuarded(e: Env, a: State)
    requires Inv(e, a)
    ensures Guarded(e, a, a, {})
  {}

  /** The lock flag in the vault is the one in the source. */
  lemma LockFlag(e: Env, s: State, id: BlockId)
    requires Inv(e, s)
    ensures id in s.vault.blocks <==> id in s.src
    ensures id in s.src ==> (s.vault.blocks[id].meta.locked <==> LockedIn(e, s.src, id))
  {
    hide Sound, SafeLog, Remembers;
    assert TracksAt(e, s, id);
  }

  // ---------- the service ----------

  datatype UpdateOutcome = Applied(version: string) | Conflict(title: Option<string>, body: string, version: string)

  /** The token the engine's in-memory hash stands for. */
  function VersionOf(hashes: map<BlockId, Hash>, id: BlockId): Option<string> {
    if id in hashes then Some(FormatVersion(hashes[id])) else None
  }

  class Service {
    const engine: SyncEngine

    constructor (engine: SyncEngine)
      ensures this.engine == engine
    {
      this.engine := engine;
    }

    ghost predicate Ready()
      reads engine
    {
      engine.env.Injective() && Inv(engine.env, engine.Now())
    }

    /** Blocks every write to a locked block, whoever asks. */
    method EnsureWritable(id: BlockId) returns (r: Result<()>)
      requires Ready()
      ensures r.Err? <==> LockedIn(engine.env, engine.src, id)
    {
      LockFlag(engine.env, engine.Now(), id);
      if id in engine.vault.blocks && engine.vault.blocks[id].meta.locked { return Err("block is locked"); }
      return Ok(());
    }

    /** Every write to an existing block starts like this. */
    method Admit(scope: Scope, id: BlockId) returns (r: Result<()>)
      requires Ready()
      ensures r.Ok? <==> scope.write && !LockedIn(engine.env, engine.src, id)
      ensures id in engine.vault.blocks <==> id in engine.src
    {
      hide Inv, LockedIn;
      LockFlag(engine.env, engine.Now(), id);
      r := Authorize(scope, Capability.Write);
      if r.Ok? { r := EnsureWritable(id); }
    }

    method SetLock(scope: Scope, id: BlockId, locked: bool, now: string) returns (r: Result<()>)
      requires Ready()
      modifies engine
      ensures Orderly(engine.env, old(engine.Now()), engine.Now(), {})
      ensures r.Ok? <==> scope.manageLocks && id in old(engine.src)
      ensures r.Err? ==> engine.Now() == old(engine.Now())
      ensures r.Ok? ==> engine.src == old(engine.src)[id := LockSource(engine.env, old(engine.Now()), id, locked, now)]
    {
      hide Inv, Kept, Settled, Wrote, Orderly;
      ghost var e, a := engine.env, engine.Now();
      NothingOrderly(e, a);
      LockFlag(e, a, id);
      var auth := Authorize(scope, ManageLocks);
      if auth.Err? { return auth; }
      r := engine.SetLock(id, locked, now);
      if r.Ok? { WroteOrderly(e, a, engine.Now(), id, LockSource(e, a, id, locked, now)); }
    }

    method CreateBlock(scope: Scope, id: BlockId, title: Option<string>, body: string,
                       now: string) returns (r: Result<BlockId>)
      requires Ready() && id !in engine.src
      modifies engine
      ensures Guarded(engine.env, old(engine.Now()), engine.Now(), {id})
      ensures r.Ok? <==> scope.write
      ensures r.Ok? ==> r.value == id && engine.src == old(engine.src)[id := NewSource(engine.env, title, body, now)]
      ensures r.Err? ==> engine.Now() == old(engine.Now())
    {
      hide Inv, Kept, Settled, Wrote, Guarded, Touches, LockedIn;
      ghost var e, a := engine.env, engine.Now();
      NothingGuardedFor(e, a, {id});
      var auth := Authorize(scope, Capability.Write);
      if auth.Err? { return Err(auth.error); }
      engine.CreateBlock(id, title, body, now);
      WroteTouches(e, a, engine.Now(), id, NewSource(e, title, body, now));
      TouchesGuarded(e, a, engine.Now(), {id}, {id});
      r := Ok(id);
    }

    method DeleteBlock(scope: Scope, id: BlockId) returns (r: Result<()>)
      requires Ready()
      modifies engine
      ensures Guarded(engine.env, old(engine.Now()), engine.Now(), {})
      ensures r.Ok? <==> scope.write && !LockedIn(engine.env, old(engine.src), id)
      ensures if r.Ok? then engine.src == old(engine.src) - {id} else engine.Now() == old(engine.Now())
    {
      hide Inv, Kept, Guarded, Touches, LockedIn;
      ghost var e, a := engine.env, engine.Now();
      NothingGuarded(e, a);
      var free := Admit(scope, id);
      if free.Err? { return free; }
      engine.DeleteBlock(id);
      DeletedTouches(e, a, engine.Now(), id);
      TouchesGuarded(e, a, engine.Now(), {id}, {});
      r := Ok(());
    }

    method SetTags(scope: Scope, id: BlockId, tags: seq<string>, now: string) returns (r: Result<()>)
      requires Ready()
      modifies engine
      ensures Guarded(engine.env, old(engine.Now()), engine.Now(), {})
      ensures r.Ok? <==> May(engine.env, old(engine.Now()), scope, id)
      ensures r.Err? ==> engine.Now() == old(engine.Now())
      ensures r.Ok? ==> Edited(engine.env, old(engine.Now()), engine.Now(), id,
                TagSource(engine.env, old(engine.Now()), id, Cleaned(tags, |tags|), now))
    {
      hide Inv, Kept, Settled, Wrote, Guarded, Edited, LockedIn, Cleaned;
      ghost var e, a := engine.env, engine.Now();
      NothingGuarded(e, a);
      var free := Admit(scope, id);
      if free.Err? { return free; }
      r := engine.SetTags(id, tags, now);
      if r.Ok? { OneWriteEdited(e, a, engine.Now(), id, TagSource(e, a, id, Cleaned(tags, |tags|), now)); }
    }

    method SetProps(scope: Scope, id: BlockId, props: Props, now: string) returns (r: Result<()>)
      requires Ready()
      modifies engine
      ensures Guarded(engine.env, old(engine.Now()), engine.Now(), {})
      ensures r.Ok? <==>
                && May(engine.env, old(engine.Now()), scope, id)
                && MergedProps(old(engine.vault).blocks[id].meta.props, props).Ok?
      ensures r.Err? ==> engine.Now() == old(engine.Now())
      ensures r.Ok? ==>
                var merged := MergedProps(old(engine.vault).blocks[id].meta.props, props).value;
                Edited(engine.env, old(engine.Now()), engine.Now(), id,
                       PropSource(engine.env, old(engine.Now()), id, merged, now))
    {
      hide Inv, Kept, Settled, Wrote, Guarded, Edited, LockedIn, MergedProps;
      ghost var e, a := engine.env, engine.Now();
      NothingGuarded(e, a);
      var free := Admit(scope, id);
      if free.Err? { return free; }
      r := engine.SetProps(id, props, now);
      if r.Ok? {
        ghost var merged := MergedProps(a.vault.blocks[id].meta.props, props).value;
        OneWriteEdited(e, a, engine.Now(), id, PropSource(e, a, id, merged, now));
      }
    }

    method UnsetProps(scope: Scope, id: BlockId, keys: seq<string>, now: string) returns (r: Result<()>)
      requires Ready()
      modifies engine
      ensures Guarded(engine.env, old(engine.Now()), engine.Now(), {})
      ensures r.Ok? <==> May(engine.env, old(engine.Now()), scope, id)
      ensures r.Err? ==> engine.Now() == old(engine.Now())
      ensures r.Ok? ==> Edited(engine.env, old(engine.Now()), engine.Now(), id,
                PropSource(engine.env, old(engine.Now()), id,
                  KeepProps(old(engine.vault).blocks[id].meta.props, keys), now))
    {
      hide Inv, Kept, Settled, Wrote, Guarded, Edited, LockedIn, KeepProps;
      ghost var e, a := engine.env, engine.Now();
      NothingGuarded(e, a);
      var free := Admit(scope, id);
      if free.Err? { return free; }
      r := engine.UnsetProps(id, keys, now);
      if r.Ok? {
        OneWriteEdited(e, a, engine.Now(), id,
          PropSource(e, a, id, KeepProps(a.vault.blocks[id].meta.props, keys), now));
      }
    }

    /** Replace the body of an unlocked block. */
    method Rewrite(id: BlockId, title: Option<string>, body: string, now: string)
      requires Ready() && id in engine.vault.blocks && !LockedIn(engine.env, engine.src, id)
      modifies engine
      ensures Kept(engine.env, old(engine.Now()), engine.Now()) && Touches(old(engine.Now()), engine.Now(), {id})
      ensures
        var source := BodySource(engine.env, old(engine.Now()), id, title, body, now);
        && Edited(engine.env, old(engine.Now()), engine.Now(), id, source)
        && engine.vault == Reparsed(engine.env, old(engine.vault), id, source)
        && engine.hashes == old(engine.hashes)[id := engine.env.hash(source)]
    {
      hide Inv, Kept, Settled, Guarded, Edited, Touches, LockedIn;
      ghost var e, a := engine.env, engine.Now();
      LockFlag(e, a, id);
      var r := engine.UpdateBlock(id, title, body, now);
      ghost var source := BodySource(e, a, id, title, body, now);
      WroteTouches(e, a, engine.Now(), id, source);
      OneWriteEdited(e, a, engine.Now(), id, source);
    }

    // ---------- optimistic concurrency ----------

    method BlockVersion(scope: Scope, id: BlockId) returns (r: Result<Option<string>>)
      requires Ready()
      ensures r.Ok? <==> scope.read
      ensures r.Ok? && id in engine.src ==> r.value == Some(FormatVersion(engine.env.hash(engine.src[id])))
    {
      VersionOfSource(engine.env, engine.Now(), id);
      var auth := Authorize(scope, Read);
      if auth.Err? { return Err(auth.error); }
      return Ok(VersionOf(engine.hashes, id));
    }

    /**
     Overwrite title and body. A `base` version that is not the current one is answered with the current state and
     nothing is written; one that is means that the source overwritten is the very one the version was read for.
     */
    method UpdateBlock(scope: Scope, id: BlockId, title: Option<string>, body: string, force: bool,
                       base: Option<string>, now: string)
      returns (r: Result<UpdateOutcome>)
      requires Ready()
      modifies engine
      ensures Guarded(engine.env, old(engine.Now()), engine.Now(), {})
      ensures !(r.Ok? && r.value.Applied?) ==> engine.Now() == old(engine.Now())
      ensures r.Ok? && r.value.Applied? <==>
                && May(engine.env, old(engine.Now()), scope, id)
                && (base.Some? ==> VersionOf(old(engine.hashes), id) == base)
                && (force || !Destructive(Raw(old(engine.vault).blocks[id].body), body))
      ensures r.Ok? && r.value.Conflict? <==>
                && scope.write && !LockedIn(engine.env, old(engine.src), id)
                && base.Some? && VersionOf(old(engine.hashes), id) != base
      ensures r.Ok? && r.value.Conflict? && id in old(engine.src) ==>
                && r.value.title == old(engine.vault).blocks[id].title
                && r.value.body == engine.env.own(id, old(engine.vault).blocks[id]).content
                && r.value.version == FormatVersion(engine.env.hash(old(engine.src)[id]))
      ensures r.Ok? && r.value.Applied? ==>
                && Edited(engine.env, old(engine.Now()), engine.Now(), id,
                          BodySource(engine.env, old(engine.Now()), id, title, body, now))
                && r.value.version == FormatVersion(engine.env.hash(engine.src[id]))
      ensures r.Ok? && r.value.Applied? && base.Some? ==>
                forall read | FormatVersion(engine.env.hash(read)) == base.value ::
                  Get(old(engine.src), id) == Some(read)
    {
      hide Inv, Kept, Orderly, LocksHeld, Touches, LockedIn, Destructive, FormatVersion;
      ghost var e, a := engine.env, engine.Now();
      NothingGuarded(e, a);
      VersionOfSource(e, a, id);
      RecordKnown(e, a, id);
      var free := Admit(scope, id);
      if free.Err? { return Err(free.error); }
      var current := VersionOf(engine.hashes, id);
      if base.Some? && current != base {
        var slot := engine.world.At(id);
        if slot.rec.Some? {
          var t := if id in engine.vault.blocks then engine.vault.blocks[id].title else None;
          return Ok(Conflict(t, slot.rec.value.own.content, if current.Some? then current.value else ""));
        }
        return Ok(Conflict(None, "", ""));
      }
      if id !in engine.vault.blocks { return Err("unknown block"); }
      if !force && Destructive(Raw(engine.vault.blocks[id].body), body) { return Err("refusing to update"); }
      Rewrite(id, title, body, now);
      var v := VersionOf(engine.hashes, id);
      r := Ok(Applied(if v.Some? then v.value else ""));
      if base.Some? { VersionsTell(e, a, id, base.value); }
    }

    // ---------- text edits ----------

    /** Replace `from` by `to`, which must occur exactly `count` times. */
    method ReplaceInBlock(scope: Scope, id: BlockId, from: string, to: string, count: nat, force: bool,
                          now: string) returns (r: Result<()>)
      requires Ready()
      modifies engine
      ensures Guarded(engine.env, old(engine.Now()), engine.Now(), {})
      ensures r.Err? ==> engine.Now() == old(engine.Now())
      ensures r.Ok? <==>
                && May(engine.env, old(engine.Now()), scope, id) && from != "" && count >= 1
                && Matches(Raw(old(engine.vault).blocks[id].body), from) == count
                && var before := Raw(old(engine.vault).blocks[id].body);
                   ReplaceAll(before, from, to) == before || force || !Destructive(before, ReplaceAll(before, from, to))
      ensures r.Ok? ==>
                var after := ReplaceAll(Raw(old(engine.vault).blocks[id].body), from, to);
                if after == Raw(old(engine.vault).blocks[id].body) then engine.Now() == old(engine.Now())
                else Edited(engine.env, old(engine.Now()), engine.Now(), id,
                            BodySource(engine.env, old(engine.Now()), id, None, after, now))
    {
      hide Inv, Kept, Orderly, LocksHeld, Touches, LockedIn, Destructive, Matches, ReplaceAll;
      NothingGuarded(engine.env, engine.Now());
      var free := Admit(scope, id);
      if free.Err? { return free; }
      if id !in engine.vault.blocks { return Err("unknown block"); }
      if from == "" { return Err("the search string must not be empty"); }
      if count == 0 { return Err("expect_count must be at least 1"); }
      var before := Raw(engine.vault.blocks[id].body);
      if Matches(before, from) != count { return Err("unexpected number of occurrences"); }
      var after := ReplaceAll(before, from, to);
      if after == before { return Ok(()); }
      if !force && Destructive(before, after) { return Err("refusing to edit"); }
      Rewrite(id, None, after, now);
      r := Ok(());
    }

    method AppendToBlock(scope: Scope, id: BlockId, text: string, now: string) returns (r: Result<()>)
      requires Ready()
      modifies engine
      ensures Guarded(engine.env, old(engine.Now()), engine.Now(), {})
      ensures r.Ok? <==> May(engine.env, old(engine.Now()), scope, id)
      ensures r.Err? ==> engine.Now() == old(engine.Now())
      ensures r.Ok? ==> Edited(engine.env, old(engine.Now()), engine.Now(), id,
                BodySource(engine.env, old(engine.Now()), id, None,
                  AppendText(Raw(old(engine.vault).blocks[id].body), text), now))
    {
      hide Inv, Kept, Orderly, LocksHeld, Touches, LockedIn, AppendText;
      NothingGuarded(engine.env, engine.Now());
      var free := Admit(scope, id);
      if free.Err? { return free; }
      if id !in engine.vault.blocks { return Err("unknown block"); }
      Rewrite(id, None, AppendText(Raw(engine.vault.blocks[id].body), text), now);
      r := Ok(());
    }

    // ---------- edits over several blocks ----------

    method CarveBlock(scope: Scope, parent: BlockId, title: Option<string>, body: string, child: BlockId,
                      now: string) returns (r: Result<BlockId>)
      requires Ready() && child !in engine.src
      modifies engine
      ensures Guarded(engine.env, old(engine.Now()), engine.Now(), {child})
      ensures r.Ok? <==> May(engine.env, old(engine.Now()), scope, parent)
      ensures r.Err? ==> engine.Now() == old(engine.Now())
      ensures r.Ok? ==>
                var embed := Appended(old(engine.vault).blocks[parent].body, EmbedOf(child));
                engine.src == old(engine.src)[child := NewSource(engine.env, title, body, now)]
                                             [parent := AtomSource(engine.env, old(engine.Now()), parent, embed, now)]
    {
      hide Inv, Kept, Guarded, Touches, LockedIn, Wrote, Settled;
      ghost var e, a := engine.env, engine.Now();
      NothingGuardedFor(e, a, {child});
      var free := Admit(scope, parent);
      if free.Err? { return Err(free.error); }
      if parent !in engine.vault.blocks { return Err("unknown block"); }
      engine.CreateBlock(child, title, body, now);
      ghost var b := engine.Now();
      WroteTouches(e, a, b, child, NewSource(e, title, body, now));
      StillUnlocked(e, a, b, child, parent);
      var p := engine.vault.blocks[parent];
      Rewrite(parent, p.title, Raw(Appended(p.body, EmbedOf(child))), now);
      TwoWrites(e, a, b, engine.Now(), child, parent);
      r := Ok(child);
    }

    /** Move a range of the parent's body into the new block `child` and leave an embed where it was. */
    method CarveSelection(scope: Scope, parent: BlockId, i: nat, j: nat, child: BlockId,
                          now: string) returns (r: Result<BlockId>)
      requires Ready() && child !in engine.src
      modifies engine
      ensures Guarded(engine.env, old(engine.Now()), engine.Now(), {child})
      ensures r.Ok? <==>
                && scope.write && !LockedIn(engine.env, old(engine.src), parent)
                && Carve(old(engine.vault), parent, i, j, child, now).Ok?
      ensures r.Err? ==> engine.Now() == old(engine.Now())
      ensures r.Ok? ==>
                var body := old(engine.vault).blocks[parent].body;
                && i < j <= |body|
                && var left := CarvedBody(body, i, j, child);
                engine.src == old(engine.src)[child := NewSource(engine.env, None, Raw(TrimBody(body[i..j])), now)]
                                             [parent := AtomSource(engine.env, old(engine.Now()), parent, left, now)]
      ensures r.Ok? && CarveParsesBack(engine.env, old(engine.vault), parent, i, j, child, now) ==>
                engine.vault == Carve(old(engine.vault), parent, i, j, child, now).value
    {
      hide Inv, Kept, Guarded, Touches, LockedIn, Wrote, Settled, TrimBody;
      ghost var e, a := engine.env, engine.Now();
      NothingGuardedFor(e, a, {child});
      var free := Admit(scope, parent);
      if free.Err? { return Err(free.error); }
      if parent !in engine.vault.blocks { return Err("unknown block"); }
      var body := engine.vault.blocks[parent].body;
      if i >= j || j > |body| { return Err("invalid carve selection range"); }
      var selected := TrimBody(body[i..j]);
      if selected == [] { return Err("carve selection is empty"); }
      engine.CreateBlock(child, None, Raw(selected), now);
      ghost var b := engine.Now();
      WroteTouches(e, a, b, child, NewSource(e, None, Raw(selected), now));
      StillUnlocked(e, a, b, child, parent);
      Rewrite(parent, engine.vault.blocks[parent].title, Raw(CarvedBody(body, i, j, child)), now);
      TwoWrites(e, a, b, engine.Now(), child, parent);
      r := Ok(child);
    }

    /** Inline the only embed of `child` into `parent` and delete `child`. */
    method FlattenBlock(scope: Scope, parent: BlockId, child: BlockId, now: string) returns (r: Result<()>)
      requires Ready()
      modifies engine
      ensures Guarded(engine.env, old(engine.Now()), engine.Now(), {})
      ensures r.Ok? <==>
                && scope.write && !LockedIn(engine.env, old(engine.src), parent)
                && !LockedIn(engine.env, old(engine.src), child)
                && Flatten(old(engine.vault), parent, child, now).Ok?
      ensures r.Err? ==> engine.Now() == old(engine.Now())
      ensures r.Ok? ==>
                && LastRef(old(engine.vault), old(engine.vault).blocks[parent].body, child).Some?
                && var inlined := FlattenedBody(old(engine.vault), parent, child);
                engine.src == old(engine.src)[parent := AtomSource(engine.env, old(engine.Now()), parent, inlined,
                  now)] - {child}
      ensures r.Ok? && FlattenParsesBack(engine.env, old(engine.vault), parent, child, now) ==>
                engine.vault == Flatten(old(engine.vault), parent, child, now).value
    {
      hide Inv, Kept, Guarded, Touches, LockedIn, Inlined, CountAll, LastRef, Settled;
      ghost var e, a := engine.env, engine.Now();
      NothingGuarded(e, a);
      var free := Admit(scope, parent);
      if free.Err? { return free; }
      free := Admit(scope, child);
      if free.Err? { return free; }
      if parent !in engine.vault.blocks || child !in engine.vault.blocks { return Err("unknown block"); }
      var body := engine.vault.blocks[parent].body;
      var total, here := CountReferences(engine.vault, parent, child);
      if total != 1 { return Err("flatten requires exactly one reference"); }
      if here.None? { return Err("its only reference is not in the parent"); }
      if !body[here.value].embed { return Err("its single reference is not an embed"); }
      Rewrite(parent, engine.vault.blocks[parent].title, Raw(FlattenedBody(engine.vault, parent, child)), now);
      ghost var b := engine.Now();
      KeptStep(e, a, b);
      engine.DeleteBlock(child);
      DeletedTouches(e, b, engine.Now(), child);
      WroteThenDeleted(e, a, b, engine.Now(), parent, child);
      r := Ok(());
    }

    /** Link or embed `target` in `source`; an embed that would close a cycle becomes a reference. */
    method PlaceLink(scope: Scope, source: BlockId, target: BlockId, embed: bool, place: Placement,
                     now: string) returns (r: Result<LinkOutcome>)
      requires Ready()
      modifies engine
      ensures Guarded(engine.env, old(engine.Now()), engine.Now(), {})
      ensures r.Ok? <==> May(engine.env, old(engine.Now()), scope, source) && target in old(engine.src)
      ensures r.Err? ==> engine.Now() == old(engine.Now())
      ensures r.Ok? ==> (r.value == DowngradedToReference <==> embed && old(engine.vault).Reaches(target, source))
      ensures r.Ok? ==> (r.value == Reference <==> !embed)
      ensures r.Ok? ==>
                var text := LinkedText(old(engine.vault), source, target, embed, place);
                && Edited(engine.env, old(engine.Now()), engine.Now(), source,
                          BodySource(engine.env, old(engine.Now()), source, old(engine.vault).blocks[source].title,
                            text, now))
                && (PutParsesBack(engine.env, old(engine.vault), source, text, now) ==>
                      engine.vault == Step(old(engine.vault), PutLink(source, target, embed, place), now))
    {
      hide Inv, Kept, Orderly, LocksHeld, Touches, LockedIn, Placed;
      NothingGuarded(engine.env, engine.Now());
      LockFlag(engine.env, engine.Now(), target);
      var free := Admit(scope, source);
      if free.Err? { return Err(free.error); }
      if source !in engine.vault.blocks { return Err("unknown source block"); }
      if target !in engine.vault.blocks { return Err("unknown target block"); }
      var d, outcome := ChooseDirective(engine.vault, source, target, embed);
      var b := engine.vault.blocks[source];
      Rewrite(source, b.title, Raw(Placed(engine.vault, b.body, d, place)), now);
      r := Ok(outcome);
    }

    /** Remove every directive to `target` from `source`; a slice that panics leaves everything as it was. */
    method UnlinkBlocks(scope: Scope, source: BlockId, target: BlockId, now: string) returns (r: Result<bool>)
      requires Ready()
      modifies engine
      ensures Guarded(engine.env, old(engine.Now()), engine.Now(), {})
      ensures r.Ok? <==>
                && May(engine.env, old(engine.Now()), scope, source)
                && Unlinked(old(engine.vault), old(engine.vault).blocks[source].body, target).Ok?
      ensures r.Ok? ==>
                (r.value <==> Unlinked(old(engine.vault), old(engine.vault).blocks[source].body, target).value.Some?)
      ensures !(r.Ok? && r.value) ==> engine.Now() == old(engine.Now())
      ensures r.Ok? && r.value ==>
                var text := Unlinked(old(engine.vault), old(engine.vault).blocks[source].body, target).value.value;
                && Edited(engine.env, old(engine.Now()), engine.Now(), source,
                          BodySource(engine.env, old(engine.Now()), source, old(engine.vault).blocks[source].title,
                            text, now))
                && (PutParsesBack(engine.env, old(engine.vault), source, text, now) ==>
                      engine.vault == Step(old(engine.vault), Unlink(source, target), now))
    {
      hide Inv, Kept, Orderly, LocksHeld, Touches, LockedIn, Unlinked, Raw;
      NothingGuarded(engine.env, engine.Now());
      var free := Admit(scope, source);
      if free.Err? { return Err(free.error); }
      if source !in engine.vault.blocks { return Err("unknown source block"); }
      var b := engine.vault.blocks[source];
      var cut := RemoveDirectivesTo(engine.vault, b.body, target);
      if cut.Err? { return Err(cut.error); }
      if cut.value.None? { return Ok(false); }
      Rewrite(source, b.title, cut.value.value, now);
      r := Ok(true);
    }

    // ---------- passes ----------

    method Reconcile(scope: Scope) returns (r: Result<Report>)
      requires Ready()
      modifies engine
      ensures Guarded(engine.env, old(engine.Now()), engine.Now(), {})
      ensures if scope.write then InStep(engine.Now()) && engine.world.disk == old(engine.world).disk
              else engine.Now() == old(engine.Now())
    {
      hide Inv, Kept, Guarded, Restartable, Reconciled;
      ghost var e, a, seeded := engine.env, engine.Now(), engine.seeded;
      NothingGuarded(e, a);
      var auth := Authorize(scope, Capability.Write);
      if auth.Err? { return Err(auth.error); }
      InvRestartable(e, a);
      var report := engine.Reconcile();
      PassKept(e, a, seeded, engine.Now(), report);
      ReadGuarded(e, a, engine.Now());
      r := Ok(report);
    }

    method Rebuild(scope: Scope) returns (r: Result<Report>)
      requires Ready()
      modifies engine
      ensures Guarded(engine.env, old(engine.Now()), engine.Now(), {})
      ensures if scope.write then InStep(engine.Now()) && engine.world.disk == old(engine.world).disk
              else engine.Now() == old(engine.Now())
    {
      hide Inv, Kept, Guarded, SafeLog, Synced;
      ghost var e, a := engine.env, engine.Now();
      NothingGuarded(e, a);
      var auth := Authorize(scope, Capability.Write);
      if auth.Err? { return Err(auth.error); }
      InvLog(e, a);
      var report := engine.Rebuild();
      RebuiltKept(e, a, engine.Now());
      ReadGuarded(e, a, engine.Now());
      r := Ok(report);
    }
  }

  // ---------- what is written ----------

  /** The same with the block's own title, and the body given as atoms. */
  function AtomSource(e: Env, s: State, id: BlockId, body: Body, now: string): string
    requires id in s.vault.blocks
  {
    BodySource(e, s, id, s.vault.blocks[id].title, Raw(body), now)
  }

  // ---------- what is written is parsed back ----------

  /**
   The file written for a new text of `id` parses as the block with that text: what `BlockFileLaws` shows of the codec.
   */
  ghost predicate PutParsesBack(e: Env, v: Vault, id: BlockId, text: string, now: string) {
    && id in v.blocks
    && var b := v.blocks[id];
    e.parse(id, e.write(NewTitle(b.title, b.title), b.meta.(updated := Some(now)), text)) == Rewritten(b, text, now)
  }

  ghost predicate CarveParsesBack(e: Env, v: Vault, parent: BlockId, i: nat, j: nat, child: BlockId, now: string) {
    parent in v.blocks && i < j <= |v.blocks[parent].body| &&
    var body := v.blocks[parent].body;
    var selected := Raw(TrimBody(body[i..j]));
    && e.parse(child, e.write(None, Meta([], false, Some(now), []), selected)) == NewBlock(selected, now)
    && PutParsesBack(e, v, parent, Raw(CarvedBody(body, i, j, child)), now)
  }

  ghost predicate FlattenParsesBack(e: Env, v: Vault, parent: BlockId, child: BlockId, now: string) {
    && parent in v.blocks && child in v.blocks && LastRef(v, v.blocks[parent].body, child).Some?
    && PutParsesBack(e, v, parent, Raw(FlattenedBody(v, parent, child)), now)
  }

  /** All directives of the vault that resolve to `child`, and the last of them in `parent`. */
  method CountReferences(v: Vault, parent: BlockId, child: BlockId) returns (total: nat, here: Option<nat>)
    requires parent in v.blocks
    ensures total == CountAll(v, child)
    ensures here == LastRef(v, v.blocks[parent].body, child)
  {
    total, here := CountOver(v, SortedIds(v.blocks.Keys), parent, child);
  }

  method CountOver(v: Vault, ids: seq<BlockId>, parent: BlockId, child: BlockId) returns (total: nat, here: Option<nat>)
    requires parent in v.blocks && parent in ids && forall id | id in ids :: id in v.blocks
    ensures total == CountIn(v, ids, child)
    ensures here == LastRef(v, v.blocks[parent].body, child)
  {
    hide RefersTo, Count, CountIn, LastRef;
    total, here := 0, None;
    assert ids[0..] == ids;
    for n := 0 to |ids|
      invariant total + CountIn(v, ids[n..], child) == CountIn(v, ids, child)
      invariant forall k | 0 <= k < n && ids[k] == parent :: here == LastRef(v, v.blocks[parent].body, child)
    {
      var id := ids[n];
      assert id in ids;
      CountStep(v, ids, n, child);
      var found, last := CountInBody(v, v.blocks[id].body, child);
      total := total + found;
      if id == parent { here := last; }
    }
    CountNone(v, ids[|ids|..], child);
  }

  lemma CountStep(v: Vault, ids: seq<BlockId>, n: nat, child: BlockId)
    requires n < |ids| && ids[n] in v.blocks
    ensures CountIn(v, ids[n..], child) == Count(v, v.blocks[ids[n]].body, child) + CountIn(v, ids[n + 1..], child)
  {
    hide Count;
    assert ids[n..][0] == ids[n] && ids[n..][1..] == ids[n + 1..];
  }

  lemma CountNone(v: Vault, ids: seq<BlockId>, child: BlockId)
    requires |ids| == 0
    ensures CountIn(v, ids, child) == 0
  {}

  method CountInBody(v: Vault, body: Body, child: BlockId) returns (found: nat, last: Option<nat>)
    ensures found == Count(v, body, child) && last == LastRef(v, body, child)
  {
    hide RefersTo;
    found, last := 0, None;
    assert body[..0] == [];
    for k := 0 to |body|
      invariant found + Count(v, body[k..], child) == Count(v, body, child)
      invariant last == LastRef(v, body[..k], child)
    {
      assert body[k..][0] == body[k] && body[k..][1..] == body[k + 1..];
      assert body[..k + 1][..k] == body[..k] && body[..k + 1][k] == body[k];
      if RefersTo(v, body[k], child) { found, last := found + 1, Some(k); }
    }
    assert body[|body|..] == [] && body[..|body|] == body;
  }

  lemma StillUnlocked(e: Env, a: State, b: State, id: BlockId, other: BlockId)
    requires Kept(e, a, b) && Touches(a, b, {id}) && id != other && Inv(e, a)
    ensures LockedIn(e, b.src, other) <==> LockedIn(e, a.src, other)
    ensures other in b.vault.blocks <==> other in b.src
    ensures Get(b.vault.blocks, other) == Get(a.vault.blocks, other)
  {
    hide Sound, SafeLog, Remembers, Synced;
    assert Get(b.src, other) == Get(a.src, other);
    assert TracksAt(e, a, other) && TracksAt(e, b, other);
  }

  lemma TwoWrites(e: Env, a: State, b: State, c: State, child: BlockId, parent: BlockId)
    requires Inv(e, a) && child !in a.src && parent in a.src && !LockedIn(e, a.src, parent)
    requires Touches(a, b, {child}) && Kept(e, a, b) && Touches(b, c, {parent}) && Kept(e, b, c)
    ensures Guarded(e, a, c, {child})
  {
    hide Inv, Kept, LockedIn, Touches, Guarded;
    TouchesChain(e, a, b, c, {child}, {parent});
    TouchesGuarded(e, a, c, {child} + {parent}, {child});
  }

  lemma WroteThenDeleted(e: Env, a: State, b: State, c: State, parent: BlockId, child: BlockId)
    requires Inv(e, a) && parent in a.src && child in a.src && !LockedIn(e, a.src, parent) && !LockedIn(e, a.src, child)
    requires Touches(a, b, {parent}) && Kept(e, a, b) && Touches(b, c, {child}) && Kept(e, b, c)
    ensures Guarded(e, a, c, {})
  {
    hide Inv, Kept, LockedIn, Touches, Guarded;
    TouchesChain(e, a, b, c, {parent}, {child});
    TouchesGuarded(e, a, c, {parent} + {child}, {});
  }

  lemma ReadGuarded(e: Env, a: State, b: State)
    requires Kept(e, a, b) && b.src == b.world.disk == a.world.disk
    ensures Guarded(e, a, b, {})
  {
    hide Kept;
  }

  lemma VersionOfSource(e: Env, s: State, id: BlockId)
    requires Inv(e, s)
    ensures id in s.src ==> VersionOf(s.hashes, id) == Some(FormatVersion(e.hash(s.src[id])))
  {
    hide FormatVersion;
    if id in s.src { InvCaught(e, s, id); }
  }

  lemma RecordKnown(e: Env, s: State, id: BlockId)
    requires Inv(e, s)
    ensures id in s.src ==>
              id in s.vault.blocks && s.world.At(id).rec.Some?
                && s.world.At(id).rec.value.own == e.own(id, s.vault.blocks[id])
  {
    if id in s.src { InvCaught(e, s, id); }
  }

  lemma VersionsTell(e: Env, s: State, id: BlockId, base: string)
    requires e.Injective() && Inv(e, s) && id in s.src && VersionOf(s.hashes, id) == Some(base)
    ensures forall read | FormatVersion(e.hash(read)) == base :: Get(s.src, id) == Some(read)
  {
    VersionOfSource(e, s, id);
    hide FormatVersion, Inv;
    forall read | FormatVersion(e.hash(read)) == base ensures Get(s.src, id) == Some(read) {
      VersionInjective(e.hash(read), e.hash(s.src[id]));
    }
  }

  lemma NothingOrderly(e: Env, a: State)
    requires Inv(e, a)
    ensures Orderly(e, a, a, {})
  {}

  lemma WroteOrderly(e: Env, a: State, b: State, id: BlockId, source: string)
    requires Inv(e, a) && id in a.src && Wrote(e, a, b, id, source)
    ensures Orderly(e, a, b, {}) && b.src == a.src[id := source]
  {
    hide Inv, Kept, AllLinked;
    WroteTouches(e, a, b, id, source);
  }

  lemma NothingGuardedFor(e: Env, a: State, unused: set<BlockId>)
    requires Inv(e, a)
    ensures Guarded(e, a, a, unused)
  {}

  lemma OneWriteEdited(e: Env, a: State, b: State, id: BlockId, source: string)
    requires Inv(e, a) && id in a.src && !LockedIn(e, a.src, id) && Wrote(e, a, b, id, source)
    ensures Edited(e, a, b, id, source) && Guarded(e, a, b, {})
  {
    WroteOrderly(e, a, b, id, source);
    hide Inv, Wrote, Touches, LockedIn, Kept, Guarded;
    WroteTouches(e, a, b, id, source);
    TouchesGuarded(e, a, b, {id}, {});
  }

  // ---------- requests ----------

  /**
   The requests that can change something; the reading ones are all alike here. The id of a block to be created comes
   with its request.
   */
  datatype Request =
    | CreateBlockRequest(id: BlockId, title: Option<string>, body: string)
    | UpdateBlockRequest(id: BlockId, title: Option<string>, body: string, force: bool, base: Option<string>)
    | ReplaceInBlockRequest(id: BlockId, from: string, to: string, count: nat, force: bool)
    | AppendToBlockRequest(id: BlockId, text: string)
    | SetTagsRequest(id: BlockId, tags: seq<string>)
    | SetPropsRequest(id: BlockId, props: Props)
    | UnsetPropsRequest(id: BlockId, keys: seq<string>)
    | DeleteBlockRequest(id: BlockId)
    | CarveBlockRequest(parent: BlockId, title: Option<string>, body: string, id: BlockId)
    | CarveSelectionRequest(parent: BlockId, i: nat, j: nat, id: BlockId)
    | FlattenBlockRequest(parent: BlockId, child: BlockId)
    | LinkBlocksRequest(source: BlockId, target: BlockId, embed: bool, place: Placement)
    | UnlinkBlocksRequest(source: BlockId, target: BlockId)
    | SetLockRequest(id: BlockId, locked: bool)
    | ReconcileRequest
    | RebuildRequest
    | ReadRequest

  datatype Response =
    | Done
    | NewId(id: BlockId)
    | Overwrote(outcome: UpdateOutcome)
    | LinkedAs(how: LinkOutcome)
    | Failed(message: string)

  function NewIds(req: Request): set<BlockId> {
    if req.CreateBlockRequest? || req.CarveBlockRequest? || req.CarveSelectionRequest? then {req.id} else {}
  }

  function Reply<T>(r: Result<T>): Response {
    if r.Ok? then Done else Failed(r.error)
  }

  /** The one request that may change a lock: `SetLock` from the app. */
  predicate ManagesLocks(caller: Caller, req: Request) { caller.LocalApp? && req.SetLockRequest? }

  method Handle(service: Service, caller: Caller, req: Request, now: string) returns (resp: Response)
    requires service.Ready() && NewIds(req) !! service.engine.src.Keys
    modifies service.engine
    ensures service.Ready()
    ensures Orderly(service.engine.env, old(service.engine.Now()), service.engine.Now(), NewIds(req))
    ensures !ManagesLocks(caller, req) ==>
              Guarded(service.engine.env, old(service.engine.Now()), service.engine.Now(), NewIds(req))
  {
    hide Inv, Kept, Guarded, Orderly, LockedIn, Carve, Flatten, CarveParsesBack, FlattenParsesBack, PutParsesBack,
      Synced, Destructive;
    var scope := ScopeOf(caller);
    ghost var e, a := service.engine.env, service.engine.Now();
    NothingGuardedFor(e, a, NewIds(req));
    if req.SetLockRequest? {
      var r := service.SetLock(scope, req.id, req.locked, now);
      OrderlyStep(e, a, service.engine.Now(), {});
      return Reply(r);
    }
    if req.ReadRequest? {
      GuardedStep(e, a, a, NewIds(req));
      return Done;
    }
    resp := HandleWrite(service, scope, req, now);
    GuardedStep(e, a, service.engine.Now(), NewIds(req));
  }

  method HandleWrite(service: Service, scope: Scope, req: Request, now: string) returns (resp: Response)
    requires service.Ready() && NewIds(req) !! service.engine.src.Keys && !req.SetLockRequest? && !req.ReadRequest?
    modifies service.engine
    ensures Guarded(service.engine.env, old(service.engine.Now()), service.engine.Now(), NewIds(req))
  {
    hide Inv, Kept, Guarded, LockedIn, Carve, Flatten, CarveParsesBack, FlattenParsesBack, PutParsesBack,
      Synced, Destructive;
    match req {
      case CreateBlockRequest(id, title, body) =>
        var r := service.CreateBlock(scope, id, title, body, now);
        resp := if r.Ok? then NewId(r.value) else Failed(r.error);
      case UpdateBlockRequest(id, title, body, force, base) =>
        var r := service.UpdateBlock(scope, id, title, body, force, base, now);
        resp := if r.Ok? then Overwrote(r.value) else Failed(r.error);
      case ReplaceInBlockRequest(id, from, to, count, force) =>
        var r := service.ReplaceInBlock(scope, id, from, to, count, force, now);
        resp := Reply(r);
      case AppendToBlockRequest(id, text) =>
        var r := service.AppendToBlock(scope, id, text, now);
        resp := Reply(r);
      case SetTagsRequest(id, tags) =>
        var r := service.SetTags(scope, id, tags, now);
        resp := Reply(r);
      case SetPropsRequest(id, props) =>
        var r := service.SetProps(scope, id, props, now);
        resp := Reply(r);
      case UnsetPropsRequest(id, keys) =>
        var r := service.UnsetProps(scope, id, keys, now);
        resp := Reply(r);
      case DeleteBlockRequest(id) =>
        var r := service.DeleteBlock(scope, id);
        resp := Reply(r);
      case CarveBlockRequest(parent, title, body, id) =>
        var r := service.CarveBlock(scope, parent, title, body, id, now);
        resp := if r.Ok? then NewId(r.value) else Failed(r.error);
      case CarveSelectionRequest(parent, i, j, id) =>
        var r := service.CarveSelection(scope, parent, i, j, id, now);
        resp := if r.Ok? then NewId(r.value) else Failed(r.error);
      case FlattenBlockRequest(parent, child) =>
        var r := service.FlattenBlock(scope, parent, child, now);
        resp := Reply(r);
      case LinkBlocksRequest(source, target, embed, place) =>
        var r := service.PlaceLink(scope, source, target, embed, place, now);
        resp := if r.Ok? then LinkedAs(r.value) else Failed(r.error);
      case UnlinkBlocksRequest(source, target) =>
        var r := service.UnlinkBlocks(scope, source, target, now);
        resp := Reply(r);
      case ReconcileRequest =>
        var r := service.Reconcile(scope);
        resp := Reply(r);
      case RebuildRequest =>
        var r := service.Rebuild(scope);
        resp := Reply(r);
    }
  }

  lemma OrderlyStep(e: Env, a: State, b: State, unused: set<BlockId>)
    requires Orderly(e, a, b, unused)
    ensures Inv(e, b)
  {}

  lemma GuardedStep(e: Env, a: State, b: State, unused: set<BlockId>)
    requires Guarded(e, a, b, unused)
    ensures Inv(e, b) && Orderly(e, a, b, unused)
  {}

  lemma OrderlyChain(e: Env, a: State, b: State, c: State, s: set<BlockId>, t: set<BlockId>)
    requires Orderly(e, a, b, s) && Orderly(e, b, c, t)
    ensures Orderly(e, a, c, s + t)
    ensures InStep(a) && LocksHeld(e, a.src, b.src) && LocksHeld(e, b.src, c.src) ==> LocksHeld(e, a.src, c.src)
  {
    hide Inv, Synced;
    if LocksHeld(e, a.src, b.src) && LocksHeld(e, b.src, c.src) {
      forall id | LockedIn(e, a.src, id) ensures Get(c.src, id) == Get(a.src, id) {
        assert Get(b.src, id) == Get(a.src, id);
        assert LockedIn(e, b.src, id);
      }
    }
  }

  // ---------- runs of requests ----------

  /** New ids are new: to the vault, and to the requests before. */
  predicate AllNew(known: set<BlockId>, reqs: seq<(Caller, Request, string)>)
    decreases |reqs|
  {
    reqs == [] || (NewIds(reqs[0].1) !! known && AllNew(known + NewIds(reqs[0].1), reqs[1..]))
  }

  /** No lock is managed in this run. */
  predicate LeavesLocks(reqs: seq<(Caller, Request, string)>) {
    forall i | 0 <= i < |reqs| :: !ManagesLocks(reqs[i].0, reqs[i].1)
  }

  /**
   Any number of requests, with no file edited behind the engine's back. The engine stays in step with the disk; and
   unless the app manages a lock, every block locked at the start keeps its file, byte for byte, and with it its lock.
   */
  method Serve(service: Service, reqs: seq<(Caller, Request, string)>)
    requires service.Ready() && InStep(service.engine.Now()) && AllNew(service.engine.src.Keys, reqs)
    modifies service.engine
    ensures service.Ready() && InStep(service.engine.Now())
    ensures LeavesLocks(reqs) ==>
              forall id | LockedIn(service.engine.env, old(service.engine.world).disk, id) ::
                Get(service.engine.world.disk, id) == Get(old(service.engine.world).disk, id)
  {
    hide Inv, Guarded, Orderly, LockedIn, LocksHeld, Get, ManagesLocks;
    ghost var e, a := service.engine.env, service.engine.Now();
    ghost var drawn: set<BlockId> := {};
    NothingGuarded(e, a);
    GuardedParts(e, a, a, {});
    assert a.src.Keys + drawn == a.src.Keys && reqs[0..] == reqs;
    for i := 0 to |reqs|
      invariant service.Ready() && Orderly(e, a, service.engine.Now(), drawn)
      invariant LeavesLocks(reqs) ==> LocksHeld(e, a.src, service.engine.src)
      invariant AllNew(a.src.Keys + drawn, reqs[i..])
    {
      ghost var b := service.engine.Now();
      assert reqs[i..][0] == reqs[i] && reqs[i..][1..] == reqs[i + 1..];
      OrderlyRun(e, a, b, drawn);
      var _ := Handle(service, reqs[i].0, reqs[i].1, reqs[i].2);
      ghost var c := service.engine.Now();
      if !ManagesLocks(reqs[i].0, reqs[i].1) { GuardedParts(e, b, c, NewIds(reqs[i].1)); }
      OrderlyChain(e, a, b, c, drawn, NewIds(reqs[i].1));
      assert a.src.Keys + drawn + NewIds(reqs[i].1) == a.src.Keys + (drawn + NewIds(reqs[i].1));
      drawn := drawn + NewIds(reqs[i].1);
    }
    OrderlyRun(e, a, service.engine.Now(), drawn);
    if LeavesLocks(reqs) { HeldFiles(e, a.src, service.engine.src); }
  }

  lemma GuardedParts(e: Env, a: State, b: State, unused: set<BlockId>)
    requires Guarded(e, a, b, unused) && InStep(a)
    ensures Orderly(e, a, b, unused) && LocksHeld(e, a.src, b.src)
  {}

  lemma OrderlyRun(e: Env, a: State, b: State, drawn: set<BlockId>)
    requires Orderly(e, a, b, drawn) && InStep(a)
    ensures InStep(b) && b.src.Keys <= a.src.Keys + drawn
  {}

  lemma HeldFiles(e: Env, before: map<BlockId, string>, after: map<BlockId, string>)
    requires LocksHeld(e, before, after)
    ensures forall id | LockedIn(e, before, id) :: Get(after, id) == Get(before, id)
  {}

  /**
   One client reads a version, others do what they like, then it writes: applied only over what it read, and nothing but
   this block's source changes; else the engine stays exactly as the others left it.
   */
  method Interleaved(service: Service, reader: Caller, id: BlockId, others: seq<(Caller, Request, string)>,
                     title: Option<string>, body: string, force: bool, now: string)
    returns (seen: Result<Option<string>>, r: Result<UpdateOutcome>, ghost read: Option<string>, ghost left: State)
    requires service.Ready() && InStep(service.engine.Now()) && AllNew(service.engine.src.Keys, others)
    modifies service.engine
    ensures read == Get(old(service.engine.src), id)
    ensures seen.Ok? && seen.value.Some? && read.Some? && r.Ok? && r.value.Applied? ==> Get(left.src, id) == read
    ensures !(r.Ok? && r.value.Applied?) ==> service.engine.Now() == left
    ensures r.Ok? && r.value.Applied? ==>
              && id in left.src && id in service.engine.src
              && service.engine.src == left.src[id := service.engine.src[id]]
              && r.value.version == FormatVersion(service.engine.env.hash(service.engine.src[id]))
  {
    hide Inv, Guarded, LockedIn, Kept, FormatVersion, Destructive;
    read := Get(service.engine.src, id);
    var scope := ScopeOf(reader);
    seen := service.BlockVersion(scope, id);
    Serve(service, others);
    left := service.engine.Now();
    r := service.UpdateBlock(scope, id, title, body, force, if seen.Ok? then seen.value else None, now);
  }
}
