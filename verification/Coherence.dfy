/**
 What the engine's passes and writes add up to: recovery after a crash, agreement with a rebuild, cold starts,
 and runs that mix writes, outside edits, passes, restarts and crashes.
 */
module Coherence {
  import opened Prelude
  import opened Wiki
  import opened Store
  import opened Sync
  import opened Fields

  // ---------- single passes ----------

  /** After a pass every block with a file has vault entry, hash, record and embedding of that file. */
  lemma PassCatchesFiles(e: Env, a: State, known: map<BlockId, Hash>, b: State, report: Report)
    requires Reconciled(e, a, known, b, report)
    ensures forall id | id in a.world.disk :: Caught(e, b, id, a.world.disk[id])
  {
    hide Caught;
    forall id | id in a.world.disk ensures Caught(e, b, id, a.world.disk[id]) { InvCaught(e, b, id); }
  }

  /** A pass over files that are all known does nothing and says so. */
  lemma SecondPassIsEmpty(e: Env, a: State, known: map<BlockId, Hash>, b: State, report: Report)
    requires Reconciled(e, a, known, b, report) && Tracks(e, a) && a.src == a.world.disk
    requires forall id | id in a.hashes :: Get(known, id) == Some(a.hashes[id])
    ensures report.IsEmpty() && b.world == a.world
  {
    hide Inv, AllLinked;
    forall x ensures x !in report.changed {
      if x in a.src { assert TracksAt(e, a, x); }
    }
    SomeElement(report.changed);
    SomeElement(report.removed);
  }

  /** Nothing was reported, so nothing had changed. */
  lemma EmptyReportSameFiles(e: Env, a: State, known: map<BlockId, Hash>, b: State, report: Report)
    requires e.Injective() && Reconciled(e, a, known, b, report) && Tracks(e, a) && report.IsEmpty()
    requires forall id | id in a.hashes :: Get(known, id) == Some(a.hashes[id])
    ensures forall id | id in a.src :: Get(a.world.disk, id) == Some(a.src[id])
  {
    hide Inv, AllLinked;
    forall id | id in a.src ensures Get(a.world.disk, id) == Some(a.src[id]) {
      assert TracksAt(e, a, id) && id !in report.removed && id !in report.changed;
      assert id in b.world.disk;
    }
  }

  /** From a state in step with its sources, a pass leaves what a rebuild from the same disk leaves. */
  lemma WarmPassIsRebuild(e: Env, a: State, known: map<BlockId, Hash>, b: State, report: Report)
    requires e.Injective() && Reconciled(e, a, known, b, report) && Inv(e, a) && Synced(e, a.src, a.world)
    requires forall id | id in a.hashes :: Get(known, id) == Some(a.hashes[id])
    ensures Synced(e, b.world.disk, b.world)
  {
    hide Caught, SafeLog, Survivable, Linked, Readable, Expected;
    assert Clean(e, b) by {
      forall x | x !in b.src ensures Readable(e, b.world.At(x)) == BLANK {
        ReadableBlank(e);
        assert Readable(e, a.world.At(x)) == Expected(e, a.src, x);
        if x !in a.src { ExpectedBlank(e, a.src, x); }
      }
    }
    if report.IsEmpty() {
      EmptyReportSameFiles(e, a, known, b, report);
      NothingNew(e, a, b, report);
    }
    hide Synced, Inv, AllLinked, Clean;
    if !report.IsEmpty() { InvSynced(e, b); }
  }

  /** If no block that lost its file left rows behind, a pass that reports anything puts the index in step. */
  lemma PassRepairs(e: Env, a: State, known: map<BlockId, Hash>, b: State, report: Report)
    requires Reconciled(e, a, known, b, report) && Consistent(e, a) && Clean(e, a)
    ensures Clean(e, b) && (!report.IsEmpty() ==> Synced(e, b.src, b.world))
  {
    hide Readable, AllLinked, Inv, Relinked;
    ReadableBlank(e);
    assert Clean(e, b) by {
      forall x | x !in b.src ensures Readable(e, b.world.At(x)) == BLANK { assert x in a.vault.blocks <==> x in a.src; }
    }
    hide Synced, Clean;
    if !report.IsEmpty() { InvSynced(e, b); }
  }

  lemma ReadableBlank(e: Env)
    ensures Readable(e, BLANK) == BLANK
  {}

  lemma ExpectedBlank(e: Env, files: map<BlockId, string>, x: BlockId)
    ensures x !in files ==> Expected(e, files, x) == BLANK
  {}

  lemma NothingNew(e: Env, a: State, b: State, report: Report)
    requires Synced(e, a.src, a.world) && b.world == a.world && Clean(e, b) && b.src == b.world.disk
    requires forall id | id in a.src :: Get(a.world.disk, id) == Some(a.src[id])
    requires Inv(e, b)
    ensures Synced(e, b.world.disk, b.world)
  {
    forall x | x in b.world.disk ensures x in a.src {
      InvCaught(e, b, x);
      assert Readable(e, a.world.At(x)) == Expected(e, a.src, x);
    }
    assert a.src == b.world.disk;
  }

  /** Shut down in step, start again: the index agrees with a rebuild exactly when no block lost its file meanwhile. */
  lemma ColdPassIff(e: Env, files: map<BlockId, string>, a: State, known: map<BlockId, Hash>, b: State, report: Report)
    requires e.Injective() && Reconciled(e, a, known, b, report) && known == Persisted(e, a.world)
    requires a.vault.blocks == map[] && Synced(e, files, a.world)
    ensures Synced(e, b.world.disk, b.world) <==> files.Keys <= b.world.disk.Keys
  {
    hide Caught, Linked, Readable, Expected, Inv, AllLinked;
    if files.Keys <= b.world.disk.Keys {
      ColdPassSynced(e, files, a, known, b, report);
    } else {
      var x :| x in files && x !in b.world.disk;
      assert Readable(e, a.world.At(x)) == Expected(e, files, x) && b.world.At(x) == a.world.At(x);
      ExpectedBlank(e, b.world.disk, x);
      ExpectedFull(e, files, x);
    }
  }

  lemma ExpectedFull(e: Env, files: map<BlockId, string>, x: BlockId)
    requires x in files
    ensures Expected(e, files, x) != BLANK
  {}

  lemma ColdPassSynced(e: Env, files: map<BlockId, string>, a: State, known: map<BlockId, Hash>, b: State,
                       report: Report)
    requires e.Injective() && Reconciled(e, a, known, b, report) && known == Persisted(e, a.world)
    requires a.vault.blocks == map[] && Synced(e, files, a.world) && files.Keys <= b.world.disk.Keys
    ensures Synced(e, b.world.disk, b.world)
  {
    hide Caught, SafeLog, Survivable, Linked, Readable, Expected;
    assert Clean(e, b) by {
      forall x | x !in b.src ensures Readable(e, b.world.At(x)) == BLANK {
        assert Readable(e, a.world.At(x)) == Expected(e, files, x);
        ExpectedBlank(e, files, x);
      }
    }
    if report.IsEmpty() {
      forall x | x in b.world.disk ensures x in files && files[x] == b.world.disk[x] {
        assert x !in report.changed && Get(known, x) == Some(e.hash(b.world.disk[x]));
        assert Readable(e, a.world.At(x)) == Expected(e, files, x);
        PersistedKnown(e, files, a.world, x);
      }
      assert files == b.world.disk;
    }
    hide Synced, Inv, AllLinked, Clean;
    if !report.IsEmpty() { InvSynced(e, b); }
  }

  lemma PersistedKnown(e: Env, files: map<BlockId, string>, w: World, x: BlockId)
    requires Readable(e, w.At(x)) == Expected(e, files, x) && x in Persisted(e, w)
    ensures x in files && Persisted(e, w)[x] == e.hash(files[x])
  {}

  // ---------- runs ----------

  datatype Op =
    | Create(id: BlockId, title: Option<string>, body: string)
    | Update(id: BlockId, title: Option<string>, body: string)
    | Tags(id: BlockId, tags: seq<string>)
    | Lock(id: BlockId, locked: bool)
    | SetProperties(id: BlockId, props: Props)
    | UnsetProperties(id: BlockId, keys: seq<string>)
    | Delete(id: BlockId)
    | Pass
    | RebuildAll

  /** `Crash` lets the operation get as far as its `k`-th persisted call and then starts the daemon again. */
  datatype Event =
    | Perform(op: Op, now: string)
    | Edit(id: BlockId, content: Option<string>)
    | Restart
    | Crash(op: Op, now: string, k: nat)

  /**
   Every call inside an operation leaves something a restart can cope with; the operation itself keeps the index in
   step.
   */
  ghost predicate Kept(e: Env, a: State, b: State) {
    Inv(e, b) && (Synced(e, a.src, a.world) ==> Synced(e, b.src, b.world))
  }

  lemma SettledKept(e: Env, a: State, b: State, src: map<BlockId, string>)
    requires Settled(e, a, b, src)
    ensures Kept(e, a, b) && (FilesThere(a) ==> FilesThere(b))
    ensures Clean(e, a) ==> Clean(e, b) && Synced(e, b.src, b.world)
  {
    hide Readable, Expected, AllLinked, Inv, FilesThere;
    if Clean(e, a) { SettledSynced(e, a, b, src); }
    if Synced(e, a.src, a.world) {
      assert Clean(e, a) by {
        forall x | x !in a.src ensures Readable(e, a.world.At(x)) == BLANK {
          assert Readable(e, a.world.At(x)) == Expected(e, a.src, x);
          ExpectedBlank(e, a.src, x);
        }
      }
      SettledSynced(e, a, b, src);
    }
  }

  lemma SameKept(e: Env, a: State)
    requires Inv(e, a)
    ensures Kept(e, a, a)
  {}

  lemma InvRestartable(e: Env, s: State)
    requires Inv(e, s)
    ensures Restartable(e, s)
  {
    SoundSurvives(e, s.world, s.world.disk);
  }

  lemma PassKept(e: Env, a: State, seeded: bool, b: State, report: Report)
    requires e.Injective() && Inv(e, a) && Reconciled(e, a, Known(e, a, seeded), b, report)
    ensures Kept(e, a, b) && b.src == b.world.disk == a.world.disk
    ensures Clean(e, a) ==> Clean(e, b)
  {
    if Clean(e, a) { PassRepairs(e, a, Known(e, a, seeded), b, report); }
    if Synced(e, a.src, a.world) {
      WarmPassIsRebuild(e, a, Known(e, a, seeded), b, report);
    }
  }

  method Write(engine: SyncEngine, op: Op, now: string)
    requires engine.env.Injective() && Inv(engine.env, engine.Now()) && !op.Pass? && !op.RebuildAll?
    modifies engine
    ensures Kept(engine.env, old(engine.Now()), engine.Now()) && engine.gaps == old(engine.gaps)
    ensures FilesThere(old(engine.Now())) ==> FilesThere(engine.Now())
    ensures Clean(engine.env, old(engine.Now())) ==> Clean(engine.env, engine.Now())
    ensures Clean(engine.env, old(engine.Now())) && (op.Create? || op.Delete?) ==>
              Synced(engine.env, engine.src, engine.world)
  {
    hide Clean, Inv, Kept, Synced, Settled, Cleaned, MergedProps, KeepProps;
    ghost var e, a := engine.env, engine.Now();
    SameKept(e, a);
    var r: Result<()> := Ok(());
    match op {
      case Create(id, title, body) => engine.CreateBlock(id, title, body, now);
      case Update(id, title, body) => r := engine.UpdateBlock(id, title, body, now);
      case Tags(id, tags) => r := engine.SetTags(id, tags, now);
      case Lock(id, locked) => r := engine.SetLock(id, locked, now);
      case SetProperties(id, props) => r := engine.SetProps(id, props, now);
      case UnsetProperties(id, keys) => r := engine.UnsetProps(id, keys, now);
      case Delete(id) => engine.DeleteBlock(id);
    }
    if r.Ok? { SettledKept(e, a, engine.Now(), engine.src); }
  }

  method Do(engine: SyncEngine, op: Op, now: string)
    requires engine.env.Injective() && Inv(engine.env, engine.Now())
    modifies engine
    ensures Kept(engine.env, old(engine.Now()), engine.Now())
    ensures engine.gaps == old(engine.gaps) + if op.RebuildAll? then ClearGaps(old(engine.world)) else []
    ensures op.Pass? || op.RebuildAll? ==> engine.src == engine.world.disk == old(engine.world).disk
    ensures op.RebuildAll? ==> Synced(engine.env, engine.src, engine.world)
    ensures FilesThere(old(engine.Now())) ==> FilesThere(engine.Now())
    ensures Clean(engine.env, old(engine.Now())) ==> Clean(engine.env, engine.Now())
    ensures Clean(engine.env, old(engine.Now())) && (op.Create? || op.Delete?) ==>
              Synced(engine.env, engine.src, engine.world)
  {
    hide Clean, Inv, Kept, Synced, Reconciled, Passed, Restartable;
    ghost var e, a, seeded := engine.env, engine.Now(), engine.seeded;
    if op.Pass? {
      InvRestartable(e, a);
      var report := engine.Reconcile();
      PassKept(e, a, seeded, engine.Now(), report);
    } else if op.RebuildAll? {
      InvLog(e, a);
      var report := engine.Rebuild();
      RebuiltKept(e, a, engine.Now());
    } else {
      Write(engine, op, now);
    }
  }

  lemma InvLog(e: Env, s: State)
    requires Inv(e, s)
    ensures SafeLog(e, s.log)
  {}

  lemma RebuiltKept(e: Env, a: State, b: State)
    requires Inv(e, b) && b.src == b.world.disk && Synced(e, b.world.disk, b.world)
    ensures Kept(e, a, b) && Clean(e, b)
  {
    hide Readable, Expected;
    forall x | x !in b.src ensures Readable(e, b.world.At(x)) == BLANK {
      ExpectedBlank(e, b.src, x);
      assert Readable(e, b.world.At(x)) == Expected(e, b.src, x);
    }
  }

  /** No block without a file has rows that can be read. */
  ghost predicate NoLeftovers(e: Env, w: World) {
    forall id | id !in w.disk :: Readable(e, w.At(id)) == BLANK
  }

  /**
   A daemon started on whatever is persisted, after its first pass. From any index, it is known which files' slots are
   right; where hashes could be trusted all of them are, and the engine's invariant holds.
   */
  method Start(e: Env, w: World) returns (engine: SyncEngine)
    requires e.Injective()
    ensures fresh(engine) && engine.env == e && engine.src == engine.world.disk == w.disk
    ensures forall id | id in w.disk :: Good(e, engine.world.At(id), id, w.disk[id]) <==> Recovers(e, w, id)
    ensures Survivable(e, w) ==> Inv(e, engine.Now())
    ensures Survivable(e, w) ==>
              forall id | id in w.disk ::
                Good(e, engine.world.At(id), id, w.disk[id]) && Hashed(e, engine.world.At(id), w.disk[id])
    ensures Survivable(e, w) ==>
              forall files | Synced(e, files, w) :: Synced(e, w.disk, engine.world) <==> files.Keys <= w.disk.Keys
    ensures Clean(e, engine.Now()) <==> NoLeftovers(e, w)
  {
    hide Clean, NoLeftovers, Reconciled, Passed, Consistent, Restartable, Synced, Inv, Good, Hashed, Recovers,
      Survivable;
    engine := new SyncEngine(e, w);
    ghost var a := engine.Now();
    StartConsistent(e, a);
    var report := engine.Reconcile();
    ghost var b := engine.Now();
    Recovered(e, a, b, report);
    if Survivable(e, w) {
      Started(e, a, b, report);
    }
  }

  lemma StartConsistent(e: Env, s: State)
    requires s.vault == Vault(e.lower, map[]) && s.hashes == map[] && s.src == map[] && s.log == []
    ensures Consistent(e, s) && (Survivable(e, s.world) ==> Restartable(e, s))
  {}

  /** After the first pass of a start, on any index. */
  lemma Recovered(e: Env, a: State, b: State, report: Report)
    requires e.Injective() && Passed(e, a, Known(e, a, false), b, report) && a.vault.blocks == map[]
    requires a.hashes == map[]
    ensures b.src == b.world.disk == a.world.disk
    ensures Clean(e, b) <==> NoLeftovers(e, a.world)
    ensures forall id | id in a.world.disk ::
            Good(e, b.world.At(id), id, a.world.disk[id]) <==> Recovers(e, a.world, id)
  {
    hide VecIs, OwnIs, Relinked;
    LeftoversStay(e, a, b, report);
    assert Known(e, a, false) == Persisted(e, a.world);
    assert report.removed == [] by { SomeElement(report.removed); }
    assert report.IsEmpty() <==> AllHashed(e, a.world) by {
      SomeElement(report.changed);
      forall x | x in a.world.disk ensures x in report.changed <==> !Hashed(e, a.world.At(x), a.world.disk[x]) {}
    }
    forall id | id in a.world.disk ensures Good(e, b.world.At(id), id, a.world.disk[id]) <==> Recovers(e, a.world, id) {
      assert PassedAt(e, a, b, report, id) && TracksAt(e, b, id);
      RelinkedParts(e, b.vault, a.world.At(id), id);
    }
  }

  lemma LeftoversStay(e: Env, a: State, b: State, report: Report)
    requires Passed(e, a, Known(e, a, false), b, report) && a.vault.blocks == map[]
    ensures Clean(e, b) <==> NoLeftovers(e, a.world)
  {
    hide Readable;
  }

  lemma RelinkedParts(e: Env, v: Vault, slot: Slot, id: BlockId)
    requires id in v.blocks
    ensures OwnIs(e, Relinked(e, v, slot, id), id, v.blocks[id])
    ensures VecIs(e, Relinked(e, v, slot, id), id, v.blocks[id]) <==> VecIs(e, slot, id, v.blocks[id])
  {}

  lemma Started(e: Env, a: State, b: State, report: Report)
    requires e.Injective() && Reconciled(e, a, Known(e, a, false), b, report) && a.vault.blocks == map[]
    requires a.hashes == map[]
    ensures Inv(e, b) && b.src == b.world.disk == a.world.disk
    ensures forall id | id in a.world.disk ::
              Good(e, b.world.At(id), id, a.world.disk[id]) && Hashed(e, b.world.At(id), a.world.disk[id])
    ensures forall files | Synced(e, files, a.world) ::
            Synced(e, a.world.disk, b.world) <==> files.Keys <= a.world.disk.Keys
  {
    var known := Known(e, a, false);
    assert known == Persisted(e, a.world);
    PassCatchesFiles(e, a, known, b, report);
    forall id | id in a.world.disk
      ensures Good(e, b.world.At(id), id, a.world.disk[id]) && Hashed(e, b.world.At(id), a.world.disk[id])
    {
      assert Caught(e, b, id, a.world.disk[id]);
    }
    hide Synced, Reconciled;
    forall files | Synced(e, files, a.world) ensures Synced(e, a.world.disk, b.world)
      <==> files.Keys <= a.world.disk.Keys {
      ColdPassIff(e, files, a, known, b, report);
    }
  }

  /**
   Let an operation run until its `k`-th persisted call, or to its end, and start again on what is there. Only the
   states between the statements of `clear` are not among those calls; `CrashInClear` has them.
   */
  method CrashDuring(engine: SyncEngine, op: Op, now: string, k: nat) returns (next: SyncEngine)
    requires engine.env.Injective() && Inv(engine.env, engine.Now())
    modifies engine
    ensures fresh(next) && next.env == engine.env && Inv(next.env, next.Now()) && next.src == next.world.disk
    ensures forall id | id in next.world.disk :: Good(next.env, next.world.At(id), id, next.world.disk[id])
    ensures engine.gaps == old(engine.gaps) + if op.RebuildAll? then ClearGaps(old(engine.world)) else []
    ensures Clean(next.env, next.Now())
            <==> NoLeftovers(engine.env, if k < |engine.log| then engine.log[k] else engine.world)
  {
    hide Clean, NoLeftovers, Inv, Kept, Survivable, Good, Hashed, Synced, Recovers;
    LogCut(engine.env, engine.Now());
    engine.log := [];
    ghost var a := engine.Now();
    Do(engine, op, now);
    KeptSafe(engine.env, a, engine.Now());
    var point := if k < |engine.log| then engine.log[k] else engine.world;
    next := Start(engine.env, point);
  }

  /**
   Stop a rebuild between two statements of its `clear` and start again. After the first two, records are recovered if
   and only if some file's hash is not in the index, for then all are rewritten; after the third, with an embedder,
   the very files whose hash is there lose their embedding. An engine that has read all files loses every one.
   */
  method CrashInClear(engine: SyncEngine, k: nat) returns (next: SyncEngine)
    requires engine.env.Injective() && Inv(engine.env, engine.Now()) && k < 3
    ensures fresh(next) && next.env == engine.env && next.src == next.world.disk == engine.world.disk
    ensures forall id | id in engine.world.disk ::
              Good(next.env, next.world.At(id), id, engine.world.disk[id])
              <==> if k == 2 && engine.env.model.Some? then
                !Hashed(engine.env, engine.world.At(id), engine.world.disk[id])
                   else !AllHashed(engine.env, engine.world)
    ensures engine.src == engine.world.disk ==>
              forall id | id in engine.world.disk :: !Good(next.env, next.world.At(id), id, engine.world.disk[id])
  {
    hide Clean, NoLeftovers, Inv, Survivable, Good, Hashed, Synced, Recovers, ClearGaps, AllHashed;
    var e, w := engine.env, engine.world;
    InvSurvives(e, engine.Now());
    GapDisk(w, k);
    next := Start(e, ClearGaps(w)[k]);
    forall id | id in w.disk
      ensures Recovers(e, ClearGaps(w)[k], id)
              <==> if k == 2 && e.model.Some? then !Hashed(e, w.At(id), w.disk[id]) else !AllHashed(e, w)
    {
      GapRecovers(e, w, k, id);
    }
    if engine.src == w.disk { InStepHashed(e, engine.Now()); }
  }

  lemma GapDisk(w: World, k: nat)
    requires k < 3
    ensures |ClearGaps(w)| == 3 && ClearGaps(w)[k].disk == w.disk
  {}

  lemma InStepHashed(e: Env, s: State)
    requires Inv(e, s) && s.src == s.world.disk
    ensures AllHashed(e, s.world) && forall x | x in s.world.disk :: Hashed(e, s.world.At(x), s.world.disk[x])
  {
    forall x | x in s.world.disk ensures Hashed(e, s.world.At(x), s.world.disk[x]) {
      assert TracksAt(e, s, x) && RemembersAt(e, s, x);
    }
  }

  lemma LogCut(e: Env, s: State)
    requires Inv(e, s)
    ensures Inv(e, s.(log := []))
  {
    hide SoundSlot;
    var t := s.(log := []);
    forall x ensures TracksAt(e, t, x) { assert TracksAt(e, s, x); }
    forall x ensures RemembersAt(e, t, x) { assert RemembersAt(e, s, x); }
  }

  lemma KeptSafe(e: Env, a: State, b: State)
    requires Kept(e, a, b)
    ensures Survivable(e, b.world) && forall k | 0 <= k < |b.log| :: Survivable(e, b.log[k])
  {
    SoundSurvives(e, b.world, b.world.disk);
    hide Survivable;
  }

  /** A block file was deleted from outside, and no pass has followed. */
  predicate FilePending(events: seq<Event>)
    decreases |events|
  {
    events != [] &&
    var last := events[|events| - 1];
    !Reads(last) && ((last.Edit? && last.content.None?) || FilePending(events[..|events| - 1]))
  }

  /**
   When the index is in step after a run: a rebuild puts it in step, a crash may put it out of step, and so may a
   restart that comes before a pass has seen a deletion; all else keeps it.
   */
  predicate Steady(start: bool, events: seq<Event>)
    decreases |events|
  {
    if events == [] then start else
    var before, last := events[..|events| - 1], events[|events| - 1];
    (last.Perform? && last.op.RebuildAll?)
      || (Steady(start, before) && !last.Crash? && (last.Restart? ==> !FilePending(before)))
  }

  /**
   A daemon's life from any index whose hashes can be trusted, through writes, edits from outside, restarts and
   crashes. The engine's invariant always holds; in a steady run the index is in step with the engine's sources, and
   after a last pass, rebuild or restart these are the files on the disk.
   */
  method Live(e: Env, w: World, events: seq<Event>) returns (engine: SyncEngine)
    requires e.Injective() && Survivable(e, w)
    ensures fresh(engine) && engine.env == e && Inv(e, engine.Now())
    ensures Steady(exists files :: Synced(e, files, w) && files.Keys <= w.disk.Keys, events) ==>
              Synced(e, engine.src, engine.world)
    ensures events != [] && Reads(events[|events| - 1]) ==> engine.src == engine.world.disk
  {
    hide Clean, NoLeftovers, Inv, Kept, Survivable, Good, Hashed, Synced, Recovers, Steady, FilePending;
    engine := Start(e, w);
    ghost var inStep := exists files :: Synced(e, files, w) && files.Keys <= w.disk.Keys;
    NoEvents(inStep);
    for i := 0 to |events|
      invariant fresh(engine) && engine.env == e && Inv(e, engine.Now())
      invariant Steady(inStep, events[..i]) ==> Synced(e, engine.src, engine.world)
      invariant !FilePending(events[..i]) ==> FilesThere(engine.Now())
      invariant i > 0 && Reads(events[i - 1]) ==> engine.src == engine.world.disk
    {
      OneMore(inStep, events, i);
      ghost var a := engine.Now();
      match events[i] {
        case Perform(op, now) =>
          Do(engine, op, now);
          KeptStep(e, a, engine.Now());
        case Edit(id, content) =>
          engine.EditFile(id, content);
          EditKept(e, a, engine.Now());
        case Restart =>
          InvSurvives(e, a);
          engine := Start(e, engine.world);
        case Crash(op, now, k) =>
          engine := CrashDuring(engine, op, now, k);
      }
    }
    assert events[..|events|] == events;
  }

  lemma NoEvents(start: bool)
    ensures Steady(start, []) == start && !FilePending([])
  {}

  lemma OneMore(start: bool, events: seq<Event>, i: nat)
    requires i < |events|
    ensures var before, last := events[..i], events[i];
            && Steady(start, events[..i + 1])
               == ((last.Perform? && last.op.RebuildAll?)
                   || (Steady(start, before) && !last.Crash? && (last.Restart? ==> !FilePending(before))))
            && FilePending(events[..i + 1])
              == (!Reads(last) && ((last.Edit? && last.content.None?) || FilePending(before)))
  {
    var now := events[..i + 1];
    assert now[..|now| - 1] == events[..i] && now[|now| - 1] == events[i];
  }

  predicate Reads(ev: Event) {
    ev.Restart? || ev.Crash? || (ev.Perform? && (ev.op.Pass? || ev.op.RebuildAll?))
  }

  lemma KeptStep(e: Env, a: State, b: State)
    requires Kept(e, a, b)
    ensures Inv(e, b) && (Synced(e, a.src, a.world) ==> Synced(e, b.src, b.world))
  {}

  lemma InvSurvives(e: Env, s: State)
    requires Inv(e, s)
    ensures Survivable(e, s.world)
  {
    SoundSurvives(e, s.world, s.world.disk);
  }

  lemma EditKept(e: Env, a: State, b: State)
    requires Inv(e, a) && b == a.(world := a.world.(disk := b.world.disk))
    ensures Inv(e, b) && (Synced(e, a.src, a.world) ==> Synced(e, b.src, b.world))
  {
    hide SafeLog, SoundSlot, Readable, Expected;
    forall x ensures TracksAt(e, b, x) { assert TracksAt(e, a, x); }
    forall x ensures RemembersAt(e, b, x) { assert RemembersAt(e, a, x); }
    forall x ensures b.world.At(x) == a.world.At(x) {}
    forall x ensures SoundSlot(e, b.world.At(x), x) { assert SoundSlot(e, a.world.At(x), x); }
    if Synced(e, a.src, a.world) {
      forall x ensures Readable(e, b.world.At(x)) == Expected(e, b.src, x) {
        assert Readable(e, a.world.At(x)) == Expected(e, a.src, x);
      }
    }
  }
}
