/**
 Any number of starts of the process, each of which may die after any durable action and forgets its
 memory: what a start leaves for the next one (memory/preparation.py, `_prepare` from call to call).
 */
module Restarts {
  import opened Wrappers
  import opened Knowledge
  import opened Recovery
  import opened Stages
  import opened Recoverable
  import opened Selection
  import opened Preparation
  import opened FreshPreparation

  // ---------------------------------------------------------------- an attempt without a journal

  /** The choice, apart from its warning. */
  predicate SameChoice(a: Result<Choice, Problem>, b: Result<Choice, Problem>) {
    a.Ok? && b.Ok? && a.value == b.value.(warned := a.value.warned)
  }

  /** There is no canonical database, and the archive of this attempt got its first entry. */
  predicate Blocks(base: Store, faults: nat) {
    BundleAt(base.files, Canonical) == map[] && faults >= 2
  }

  /** What an attempt that wrote no journal leaves: its archive, and the answer the next start gets. */
  ghost predicate AttemptLeft(db: Sqlite, base: Store, now: Store, id: nat, faults: nat) {
    if ArchiveDir(id) in base.dirs then now == base
    else
      && ArchiveLeft(now, id, faults) && now.pending.None?
      && if Blocks(base, faults) then Select(db, now) == Err(EvidenceUnverified)
         else SameChoice(Select(db, now), Select(db, base))
  }

  lemma NoNewEvidence(base: Store, now: Store, id: nat, nextInode: nat, faults: nat)
    requires now == base || StagedOver(base, now, id, nextInode)
    requires ArchiveLeft(now, id, faults) && faults < 2 && !PriorEvidence(base)
    ensures !PriorEvidence(now)
  {
    forall d | d in now.dirs && d.ArchiveDir? ensures !NonEmptyArchive(now, d.id) {
      if d.id != id {
        assert d in base.dirs && !NonEmptyArchive(base, d.id);
        assert forall p :: p in now.files && ArchiveOf(p) == Some(d.id) ==> p in base.files;
        assert forall name: Source :: EntryDir(d.id, name) in now.dirs ==> EntryDir(d.id, name) in base.dirs;
      }
    }
  }

  lemma SameBundlesSelect(db: Sqlite, base: Store, now: Store)
    requires forall name: Source :: BundleAt(now.files, name) == BundleAt(base.files, name)
    requires Select(db, base).Ok? && (BundleAt(base.files, Canonical) == map[] ==> !PriorEvidence(now))
    ensures SameChoice(Select(db, now), Select(db, base))
  {
    var legacy, canonical := BundleAt(base.files, Legacy), BundleAt(base.files, Canonical);
    SelectIs(db, base, legacy, canonical);
    SelectIs(db, now, legacy, canonical);
    ChoiceIgnoresWarning(db, legacy, canonical, AuditWarning(now), AuditWarning(base));
  }

  lemma SelectIs(db: Sqlite, s: Store, legacy: Bundle, canonical: Bundle)
    requires legacy == BundleAt(s.files, Legacy) && canonical == BundleAt(s.files, Canonical)
    ensures Select(db, s).Ok? ==> !Orphaned(legacy) && !Orphaned(canonical)
    ensures !Orphaned(legacy) && !Orphaned(canonical) && !(canonical == map[] && PriorEvidence(s)) ==>
              Select(db, s) == Choose(db, legacy, canonical, AuditWarning(s))
    ensures canonical == map[] && PriorEvidence(s) ==> Select(db, s).Err?
  {
  }

  lemma ChoiceIgnoresWarning(db: Sqlite, legacy: Bundle, canonical: Bundle, now: bool, before: bool)
    requires !Orphaned(legacy) && !Orphaned(canonical) && Choose(db, legacy, canonical, before).Ok?
    ensures SameChoice(Choose(db, legacy, canonical, now), Choose(db, legacy, canonical, before))
  {
  }

  lemma AttemptLeaves(db: Sqlite, base: Store, now: Store, id: nat, nextInode: nat, faults: nat)
    requires now == base || StagedOver(base, now, id, nextInode)
    requires base.pending.None? && Select(db, base).Ok? && (id in base.manifests ==> ArchiveDir(id) in base.dirs)
    requires if ArchiveDir(id) in base.dirs then now == base else ArchiveLeft(now, id, faults)
    ensures AttemptLeft(db, base, now, id, faults)
  {
    if ArchiveDir(id) !in base.dirs {
      if now != base { LiveUnchanged(base, now, id, nextInode); }
      if Blocks(base, faults) {
        AbandonedArchiveBlocks(db, now, id);
      } else {
        if BundleAt(base.files, Canonical) == map[] { NoNewEvidence(base, now, id, nextInode, faults); }
        SameBundlesSelect(db, base, now);
      }
    }
  }

  // ---------------------------------------------------------------- starts in a row

  /** One start: the archive id it draws, the durable actions it lives for, and what it found and left. */
  datatype Start = Start(id: nat, faults: nat, before: Store, after: Store, outcome: Outcome, prepared: Option<Store>)

  /** A disk whose journal, if there is one, is that of a migration of ours. */
  ghost predicate Ours(db: Sqlite, s: Store) {
    s.pending.Some? ==> CrashState(db, s)
  }

  /** What one start does with its disk. */
  ghost predicate Lived(db: Sqlite, t: Start) {
    && t.before.files.Values <= t.after.files.Values && Ours(db, t.after)
    && (NothingToDo(db, t.before).Some? ==> t.after == t.before && t.outcome == Done(NothingToDo(db, t.before).value))
    && (t.before.pending.None? && Select(db, t.before).Err? ==>
          t.after == t.before && t.outcome == Failed(Select(db, t.before).error))
    && (MustMigrate(db, t.before) && t.prepared.None? ==>
          AttemptLeft(db, t.before, t.after, t.id, t.faults) && !t.outcome.Done?)
    && (t.prepared.Some? ==> CrashState(db, t.after) && !t.outcome.Failed?)
    && (t.before.pending.Some? ==> CrashState(db, t.after) && !t.outcome.Failed?)
    && (t.before.pending.Some? && t.outcome.Died? ==> CutShort(t.before, t.after, t.faults))
    && (t.outcome.Done? ==> DoneAgain(db, t.after, t.outcome.report))
  }

  ghost function Lives(db: Sqlite): Start -> bool {
    t => Lived(db, t)
  }

  function LastDisk(disk: Store, starts: seq<Start>): Store {
    if starts == [] then disk else starts[|starts| - 1].after
  }

  /** Each start does what starts do, on what the one before it left. */
  ghost predicate Chain(lived: Start -> bool, disk: Store, starts: seq<Start>) {
    starts == [] ||
    var n := |starts| - 1;
    Chain(lived, disk, starts[..n]) && lived(starts[n]) && starts[n].before == LastDisk(disk, starts[..n])
  }

  /** A disk to start on, with the next inode. */
  ghost predicate Startable(db: Sqlite, s: Store, nextInode: nat) {
    Physical(s, nextInode) && Ours(db, s)
  }

  lemma UnpreparedLeft(db: Sqlite, base: Store, before: nat, now: Store, id: nat, nextInode: nat, faults: nat)
    requires MustMigrate(db, base) && Physical(base, before) && Unprepared(base, now, id, faults, nextInode)
    ensures AttemptLeft(db, base, now, id, faults) && now.pending.None?
  {
    hide Select, ArchiveLeft, AttemptLeft;
    AttemptLeaves(db, base, now, id, nextInode, faults);
  }

  lemma SomethingOrNothing(db: Sqlite, s: Store)
    requires s.pending.None? && Select(db, s).Ok?
    ensures NothingToDo(db, s).Some? || MustMigrate(db, s)
  {
  }

  /** One start of the process on the disk the last one left: only the disk survives. */
  method StartOnce(db: Sqlite, disk: Store, nextInode: nat, id: nat, faults: nat)
    returns (outcome: Outcome, after: Store, inode: nat, ghost t: Start)
    requires StagesCurrentSchema(db) && Startable(db, disk, nextInode)
    ensures t == Start(id, faults, disk, after, outcome, t.prepared) && Lived(db, t) && Sound(after, inode)
    // it does the job, unless the selection is refused: with a faithful SQLite, a fresh archive and a long enough life
    ensures Faithful(db) && ArchiveDir(id) !in disk.dirs && faults >= LONG_LIFE ==>
              (disk.pending.Some? || Select(db, disk).Ok? ==> outcome.Done?)
  {
    hide Faithful, StagesCurrentSchema, Select, NothingToDo, MustMigrate, CrashState, CutShort, Begun, Unprepared,
      DoneAgain, AttemptLeft, Physical, IsFinal;
    if disk.pending.None? && Select(db, disk).Ok? { SomethingOrNothing(db, disk); }
    var op := new Operation(db, disk, faults, nextInode);
    ghost var prepared;
    outcome, prepared := Prepare(op, id);
    after, inode := op.disk, op.nextInode;
    t := Start(id, faults, disk, after, outcome, prepared);
    if MustMigrate(db, disk) && prepared.None? {
      UnpreparedLeft(db, disk, nextInode, after, id, inode, faults);
    }
  }

  lemma LivedStarts(db: Sqlite, t: Start, inode: nat)
    requires Lived(db, t) && Sound(t.after, inode)
    ensures Lives(db)(t) && Startable(db, t.after, inode)
  {
  }

  method StartNext(db: Sqlite, disk: Store, nextInode: nat, id: nat, faults: nat)
    returns (outcome: Outcome, after: Store, inode: nat, ghost t: Start)
    requires StagesCurrentSchema(db) && Startable(db, disk, nextInode)
    ensures t == Start(id, faults, disk, after, outcome, t.prepared) && Lives(db)(t) && Startable(db, after, inode)
  {
    outcome, after, inode, t := StartOnce(db, disk, nextInode, id, faults);
    LivedStarts(db, t, inode);
  }

  lemma ChainGrows(lived: Start -> bool, disk: Store, starts: seq<Start>, t: Start)
    requires Chain(lived, disk, starts) && lived(t) && t.before == LastDisk(disk, starts)
    ensures Chain(lived, disk, starts + [t]) && LastDisk(disk, starts + [t]) == t.after
  {
    assert (starts + [t])[..|starts|] == starts;
  }

  /** The starts ran with these ids and lifetimes, and ended so. */
  ghost predicate RanWith(starts: seq<Start>, lives: seq<(nat, nat)>, outcomes: seq<Outcome>) {
    |outcomes| == |starts| == |lives| &&
    forall i :: 0 <= i < |starts| ==>
        starts[i].outcome == outcomes[i] && starts[i].id == lives[i].0 && starts[i].faults == lives[i].1
  }

  /** A chain of starts with these ids, lifetimes and outcomes. */
  ghost predicate ChainRan(lived: Start -> bool, disk: Store, starts: seq<Start>, lives: seq<(nat, nat)>,
                           outcomes: seq<Outcome>) {
    Chain(lived, disk, starts) && RanWith(starts, lives, outcomes)
  }

  lemma ChainRanGrows(lived: Start -> bool, disk: Store, starts: seq<Start>, lives: seq<(nat, nat)>,
                      outcomes: seq<Outcome>, t: Start)
    requires |starts| < |lives| && ChainRan(lived, disk, starts, lives[..|starts|], outcomes)
    requires lived(t) && t.before == LastDisk(disk, starts) && (t.id, t.faults) == lives[|starts|]
    ensures ChainRan(lived, disk, starts + [t], lives[..|starts| + 1], outcomes + [t.outcome])
    ensures LastDisk(disk, starts + [t]) == t.after
  {
    ChainGrows(lived, disk, starts, t);
    assert lives[..|starts| + 1] == lives[..|starts|] + [lives[|starts|]];
  }

  /** Start after start, with the ids and lifetimes given. */
  method StartRepeatedly(db: Sqlite, disk: Store, nextInode: nat, lives: seq<(nat, nat)>)
    returns (outcomes: seq<Outcome>, last: Store, ghost starts: seq<Start>)
    requires StagesCurrentSchema(db) && Startable(db, disk, nextInode)
    ensures ChainRan(Lives(db), disk, starts, lives, outcomes) && last == LastDisk(disk, starts)
  {
    outcomes, last, starts := [], disk, [];
    var inode, i := nextInode, 0;
    while i < |lives|
      invariant |starts| == i <= |lives| && ChainRan(Lives(db), disk, starts, lives[..i], outcomes)
      invariant last == LastDisk(disk, starts) && Startable(db, last, inode)
    {
      var outcome;
      ghost var t, before := Start(0, 0, disk, disk, Died, None), starts;
      outcome, last, inode, t := StartNext(db, last, inode, lives[i].0, lives[i].1);
      ChainRanGrows(Lives(db), disk, before, lives, outcomes, t);
      outcomes, starts, i := outcomes + [outcome], before + [t], i + 1;
    }
    assert lives[..|lives|] == lives;
  }

  // ---------------------------------------------------------------- what holds of every row of starts

  lemma {:induction false} ChainAt(lived: Start -> bool, disk: Store, starts: seq<Start>, k: nat)
    requires Chain(lived, disk, starts) && k < |starts|
    ensures lived(starts[k]) && starts[k].before == if k == 0 then disk else starts[k - 1].after
  {
    var n := |starts| - 1;
    if k < n {
      ChainAt(lived, disk, starts[..n], k);
    }
  }

  lemma ChainLink(lived: Start -> bool, disk: Store, starts: seq<Start>, i: nat)
    requires Chain(lived, disk, starts) && i + 1 < |starts|
    ensures lived(starts[i]) && starts[i + 1].before == starts[i].after
  {
    ChainAt(lived, disk, starts, i);
    ChainAt(lived, disk, starts, i + 1);
  }

  /** What one start keeps, every start after it keeps, and what it does because of it, they do. */
  lemma {:induction false} Persists(lived: Start -> bool, disk: Store, starts: seq<Start>, i: nat, k: nat,
                                    kept: Store -> bool, does: Start -> bool)
    requires Chain(lived, disk, starts) && i <= k < |starts| && kept(starts[i].before)
    requires forall t :: lived(t) && kept(t.before) ==> kept(t.after) && does(t)
    ensures kept(starts[k].after) && does(starts[k])
    decreases k
  {
    ChainAt(lived, disk, starts, k);
    if k > i {
      Persists(lived, disk, starts, i, k - 1, kept, does);
    }
  }

  lemma PersistsAfter(lived: Start -> bool, disk: Store, starts: seq<Start>, i: nat, k: nat, kept: Store -> bool,
                      does: Start -> bool)
    requires Chain(lived, disk, starts) && i < k < |starts| && kept(starts[i].after)
    requires forall t :: lived(t) && kept(t.before) ==> kept(t.after) && does(t)
    ensures kept(starts[k].after) && does(starts[k])
  {
    ChainLink(lived, disk, starts, i);
    Persists(lived, disk, starts, i + 1, k, kept, does);
  }

  /** No start loses a file. */
  lemma {:induction false} StartsKeepFiles(db: Sqlite, disk: Store, starts: seq<Start>)
    requires Chain(Lives(db), disk, starts)
    ensures disk.files.Values <= LastDisk(disk, starts).files.Values
  {
    if starts != [] {
      StartsKeepFiles(db, disk, starts[..|starts| - 1]);
    }
  }

  lemma IdleStep(db: Sqlite, t: Start)
    requires Lives(db)(t) && NothingToDo(db, t.before).Some?
    ensures t.after == t.before && t.outcome == Done(NothingToDo(db, t.before).value)
  {
  }

  lemma Stays(lived: Start -> bool, disk: Store, starts: seq<Start>, i: nat, k: nat, s: Store, outcome: Outcome)
    requires Chain(lived, disk, starts) && i <= k < |starts| && starts[i].before == s
    requires forall t :: lived(t) && t.before == s ==> t.after == s && t.outcome == outcome
    ensures starts[k].after == s && starts[k].outcome == outcome
  {
    Persists(lived, disk, starts, i, k, (here: Store) => here == s, (t: Start) => t.after == s && t.outcome == outcome);
  }

  lemma StaysAfter(lived: Start -> bool, disk: Store, starts: seq<Start>, i: nat, k: nat, s: Store, outcome: Outcome)
    requires Chain(lived, disk, starts) && i < k < |starts| && starts[i].after == s
    requires forall t :: lived(t) && t.before == s ==> t.after == s && t.outcome == outcome
    ensures starts[k].after == s && starts[k].outcome == outcome
  {
    PersistsAfter(lived, disk, starts, i, k, (here: Store) => here == s,
                  (t: Start) => t.after == s && t.outcome == outcome);
  }

  predicate SameReport(a: Outcome, b: Outcome) {
    a.Done? && b.Done? && a.report.count == b.report.count && a.report.digest == b.report.digest
  }

  lemma DoneStep(db: Sqlite, t: Start) returns (again: Report)
    requires Lives(db)(t) && t.outcome.Done?
    ensures NothingToDo(db, t.after) == Some(again) && SameReport(Done(again), t.outcome)
  {
    again := NothingToDo(db, t.after).value;
  }

  /** Once a start is done, every later one is done, changes nothing, and reports the same count and digest. */
  lemma DoneForGood(db: Sqlite, disk: Store, starts: seq<Start>, i: nat, k: nat)
    requires Chain(Lives(db), disk, starts) && i < k < |starts| && starts[i].outcome.Done?
    ensures starts[k].after == starts[i].after && starts[k].outcome.Done?
    ensures starts[k].outcome.report.count == starts[i].outcome.report.count
    ensures starts[k].outcome.report.digest == starts[i].outcome.report.digest
  {
    ChainAt(Lives(db), disk, starts, i);
    var again := DoneStep(db, starts[i]);
    var s := starts[i].after;
    forall t | Lives(db)(t) && t.before == s ensures t.after == s && t.outcome == Done(again) {
      IdleStep(db, t);
    }
    StaysAfter(Lives(db), disk, starts, i, k, s, Done(again));
  }

  lemma RefusedStep(db: Sqlite, t: Start)
    requires Lives(db)(t) && t.before.pending.None? && Select(db, t.before).Err?
    ensures t.after == t.before && t.outcome == Failed(Select(db, t.before).error)
  {
  }

  /** A refused selection is refused for good. */
  lemma RefusedForGood(db: Sqlite, disk: Store, starts: seq<Start>, i: nat, k: nat, problem: Problem)
    requires Chain(Lives(db), disk, starts) && i <= k < |starts|
    requires starts[i].before.pending.None? && Select(db, starts[i].before) == Err(problem)
    ensures starts[k].after == starts[i].before && starts[k].outcome == Failed(problem)
  {
    var s := starts[i].before;
    forall t | Lives(db)(t) && t.before == s ensures t.after == s && t.outcome == Failed(problem) {
      RefusedStep(db, t);
    }
    Stays(Lives(db), disk, starts, i, k, s, Failed(problem));
  }

  /** The start had a migration to do, a fresh archive, and wrote no journal. */
  ghost predicate Abandoned(db: Sqlite, t: Start) {
    MustMigrate(db, t.before) && t.prepared.None? && ArchiveDir(t.id) !in t.before.dirs
  }

  lemma AbandonedStep(db: Sqlite, t: Start)
    requires Lives(db)(t) && Abandoned(db, t)
    ensures t.after.pending.None? && ArchiveLeft(t.after, t.id, t.faults)
    ensures if Blocks(t.before, t.faults) then Select(db, t.after) == Err(EvidenceUnverified)
            else SameChoice(Select(db, t.after), Select(db, t.before))
  {
  }

  /**
   An attempt that ends without a journal has every later start refused exactly when there is no
   canonical database and it lived for two durable actions, the second of which puts an entry into its
   archive.  Otherwise the next start has the same choice before it.
   */
  lemma AbandonedForGood(db: Sqlite, disk: Store, starts: seq<Start>, i: nat, k: nat)
    requires Chain(Lives(db), disk, starts) && i < k < |starts| && Abandoned(db, starts[i])
    ensures Blocks(starts[i].before, starts[i].faults) <==> Select(db, starts[i].after).Err?
    ensures Blocks(starts[i].before, starts[i].faults) ==>
              starts[k].outcome == Failed(EvidenceUnverified) && starts[k].after == starts[i].after
    ensures !Blocks(starts[i].before, starts[i].faults) ==>
              var again, first := Select(db, starts[i].after), Select(db, starts[i].before);
              && again.Ok? && first.Ok? && again.value.selected == first.value.selected
              && again.value.legacy == first.value.legacy && again.value.canonical == first.value.canonical
              && again.value.histories == first.value.histories
  {
    ChainAt(Lives(db), disk, starts, i);
    AbandonedStep(db, starts[i]);
    var s := starts[i].after;
    if Blocks(starts[i].before, starts[i].faults) {
      forall t | Lives(db)(t) && t.before == s ensures t.after == s && t.outcome == Failed(EvidenceUnverified) {
        RefusedStep(db, t);
      }
      StaysAfter(Lives(db), disk, starts, i, k, s, Failed(EvidenceUnverified));
    }
  }

  lemma LegacyDisk(content: nat, disk: Store)
    requires disk == Store(map[Live(Legacy, Main) := Fingerprint(content, 0)], {}, None, map[])
    ensures Physical(disk, 1) && !PriorEvidence(disk)
    ensures BundleAt(disk.files, Legacy) == map[Main := Fingerprint(content, 0)]
    ensures BundleAt(disk.files, Canonical) == map[]
  {
  }

  lemma LegacyHistories(db: Sqlite, content: nat, legacy: Bundle)
    requires legacy == map[Main := Fingerprint(content, 0)] && Validate(db, map[Main := content]).Ok?
    ensures Histories(db, legacy, map[]).Ok?
    ensures var histories := Histories(db, legacy, map[]).value; Legacy in histories && Canonical !in histories
  {
    assert Contents(legacy) == map[Main := content];
    assert Main in legacy;
    assert Inspect(db, Canonical, map[]) == Ok(map[]);
  }

  lemma LegacyAlone(db: Sqlite, content: nat, disk: Store)
    requires disk == Store(map[Live(Legacy, Main) := Fingerprint(content, 0)], {}, None, map[])
    requires Validate(db, map[Main := content]).Ok?
    ensures Physical(disk, 1) && MustMigrate(db, disk) && BundleAt(disk.files, Canonical) == map[]
    ensures BundleAt(disk.files, Legacy) == map[Main := Fingerprint(content, 0)]
    ensures DeadBefore(Select(db, disk).value) == 2
  {
    LegacyDisk(content, disk);
    LegacyHistories(db, content, map[Main := Fingerprint(content, 0)]);
    SelectIs(db, disk, map[Main := Fingerprint(content, 0)], map[]);
  }

  lemma EntryLeft(db: Sqlite, base: Store, now: Store, id: nat, nextInode: nat)
    requires MustMigrate(db, base) && BundleAt(base.files, Canonical) == map[] && ArchiveDir(id) !in base.dirs
    requires id !in base.manifests
    requires Unprepared(base, now, id, 2, nextInode)
    ensures now.pending.None? && Select(db, now) == Err(EvidenceUnverified)
    ensures Startable(db, now, nextInode) && BundleAt(now.files, Legacy) == BundleAt(base.files, Legacy)
  {
    AttemptLeaves(db, base, now, id, nextInode, 2);
    StagingPreserves(base, now, id, nextInode);
  }

  /** A process that has a legacy database alone to migrate and dies after two durable actions. */
  method DieStaging(op: Operation, id: nat) returns (r: Outcome)
    requires StagesCurrentSchema(op.db) && Physical(op.disk, op.nextInode) && op.faults == 2
    requires MustMigrate(op.db, op.disk) && DeadBefore(Select(op.db, op.disk).value) == 2
    requires BundleAt(op.disk.files, Canonical) == map[] && ArchiveDir(id) !in op.disk.dirs
    modifies op
    ensures r == Died
    ensures op.disk.pending.None? && Select(op.db, op.disk) == Err(EvidenceUnverified)
    ensures Startable(op.db, op.disk, op.nextInode)
    ensures BundleAt(op.disk.files, Legacy) == BundleAt(old(op.disk).files, Legacy)
  {
    ghost var base, prepared := op.disk, None;
    r, prepared := Prepare(op, id);
    EntryLeft(op.db, base, op.disk, id, op.nextInode);
  }

  /**
   A legacy database alone, and a process that lives for two durable actions: it makes its archive and
   the entry of the snapshot, and every later start is refused although the database is where it was.
   */
  method AbandonedExample(db: Sqlite, content: nat, id: nat, lives: seq<(nat, nat)>)
    returns (first: Outcome, later: seq<Outcome>, last: Store)
    requires StagesCurrentSchema(db) && Validate(db, map[Main := content]).Ok?
    ensures first == Died
    ensures |later| == |lives| && forall k :: 0 <= k < |later| ==> later[k] == Failed(EvidenceUnverified)
    ensures BundleAt(last.files, Legacy) == map[Main := Fingerprint(content, 0)]
  {
    var disk := Store(map[Live(Legacy, Main) := Fingerprint(content, 0)], {}, None, map[]);
    LegacyAlone(db, content, disk);
    var op := new Operation(db, disk, 2, 1);
    first := DieStaging(op, id);
    ghost var starts;
    later, last, starts := StartRepeatedly(db, op.disk, op.nextInode, lives);
    if lives != [] { ChainAt(Lives(db), op.disk, starts, 0); }
    forall k | 0 <= k < |later| ensures later[k] == Failed(EvidenceUnverified) && starts[k].after == op.disk {
      RefusedForGood(db, op.disk, starts, 0, k, EvidenceUnverified);
    }
  }

  // ---------------------------------------------------------------- from the durable journal on

  lemma CrashStateEnded(db: Sqlite, s: Store)
    requires CrashState(db, s) && s.pending.None?
    ensures NothingToDo(db, s).Some?
  {
    var s0: Store, k: nat :| WellPrepared(db, s0) && Readable(s0) && s == Run(s0, k);
    EndIsIdle(db, s0, k);
  }

  lemma CrashStep(db: Sqlite, t: Start)
    requires Lives(db)(t) && CrashState(db, t.before)
    ensures CrashState(db, t.after) && !t.outcome.Failed?
  {
    if t.before.pending.None? { CrashStateEnded(db, t.before); }
  }

  lemma JournalStep(db: Sqlite, t: Start)
    requires Lives(db)(t) && (t.prepared.Some? || CrashState(db, t.before))
    ensures CrashState(db, t.after) && !t.outcome.Failed?
  {
    if t.prepared.None? { CrashStep(db, t); }
  }

  /** Once a journal is durable, no start is refused, however often the process dies. */
  lemma NeverRefused(db: Sqlite, disk: Store, starts: seq<Start>, i: nat, k: nat)
    requires Chain(Lives(db), disk, starts) && i < k < |starts|
    requires starts[i].prepared.Some? || CrashState(db, starts[i].before)
    ensures CrashState(db, starts[k].after) && !starts[k].outcome.Failed?
  {
    ChainAt(Lives(db), disk, starts, i);
    JournalStep(db, starts[i]);
    var kept := (s: Store) => CrashState(db, s);
    forall t | Lives(db)(t) && kept(t.before) ensures kept(t.after) && !t.outcome.Failed? {
      CrashStep(db, t);
    }
    PersistsAfter(Lives(db), disk, starts, i, k, kept, (t: Start) => !t.outcome.Failed?);
    assert kept(starts[k].after);
  }

  /** A crash state with at most this many durable actions to go. */
  ghost predicate InSight(db: Sqlite, s: Store, left: int) {
    exists s0: Store, k: nat :: WellPrepared(db, s0) && Readable(s0) && s == Run(s0, k) && Total(s0) <= k + left
  }

  /** The migration is over, or has its journal and at most this many durable actions to go. */
  ghost predicate Left(db: Sqlite, s: Store, left: int) {
    NothingToDo(db, s).Some? || (s.pending.Some? && InSight(db, s, left))
  }

  /** All durable actions of a start but the one it may die in, or repeat, count. */
  function Work(faults: nat): nat {
    if faults == 0 then 0 else faults - 1
  }

  function WorkFrom(starts: seq<Start>, i: nat, k: nat): nat
    requires i <= k < |starts|
    decreases k
  {
    if k == i then 0 else WorkFrom(starts, i, k - 1) + Work(starts[k].faults)
  }

  lemma InSightIsCrashState(db: Sqlite, s: Store, left: int)
    requires InSight(db, s, left)
    ensures CrashState(db, s)
  {
    var s0: Store, k: nat :| WellPrepared(db, s0) && Readable(s0) && s == Run(s0, k) && Total(s0) <= k + left;
  }

  lemma CutShortLeft(db: Sqlite, before: Store, after: Store, faults: nat, left: int)
    requires InSight(db, before, left) && CutShort(before, after, faults)
    ensures Left(db, after, left - Work(faults))
  {
    hide Step, Next, Run, Total, NothingToDo;
    var s0: Store, k: nat :| WellPrepared(db, s0) && Readable(s0) && before == Run(s0, k) && Total(s0) <= k + left;
    var n: nat :| after == Run(before, n) && faults <= n + 1;
    RunSplit(s0, k, n);
    assert after == Run(s0, k + n) && Total(s0) <= k + n + (left - Work(faults));
  }

  lemma WorkStep(db: Sqlite, t: Start, left: int)
    requires Lives(db)(t) && Left(db, t.before, left)
    ensures Left(db, t.after, left - Work(t.faults))
  {
    if NothingToDo(db, t.before).Some? {
      IdleStep(db, t);
    } else {
      InSightIsCrashState(db, t.before, left);
      CrashStep(db, t);
      if t.outcome.Done? {
        var again := DoneStep(db, t);
      } else {
        CutShortLeft(db, t.before, t.after, t.faults, left);
      }
    }
  }

  lemma LeftEnds(db: Sqlite, s: Store, left: int)
    requires LeftBy(db)(s, left) && left <= 0
    ensures NothingToDo(db, s).Some?
  {
    if s.pending.Some? {
      hide Step, Next, Run, WellPrepared, Total, NothingToDo;
      var s0: Store, k: nat :| WellPrepared(db, s0) && Readable(s0) && s == Run(s0, k) && Total(s0) <= k + left;
      PendingEarly(db, s0, k);
    }
  }

  lemma {:induction false} WorkAdds(lived: Start -> bool, disk: Store, starts: seq<Start>, i: nat, k: nat, bound: int,
                                    left: (Store, int) -> bool)
    requires Chain(lived, disk, starts) && i <= k < |starts| && left(starts[i].after, bound)
    requires forall t, b :: lived(t) && left(t.before, b) ==> left(t.after, b - Work(t.faults))
    ensures left(starts[k].after, bound - WorkFrom(starts, i, k))
    decreases k
  {
    if k > i {
      WorkAdds(lived, disk, starts, i, k - 1, bound, left);
      ChainLink(lived, disk, starts, k - 1);
      ChainAt(lived, disk, starts, k);
    }
  }

  lemma CrashStateLeft(db: Sqlite, s: Store)
    requires CrashState(db, s)
    ensures Left(db, s, MOST_ACTIONS)
  {
    hide Run, WellPrepared, Total, NothingToDo;
    if s.pending.None? {
      CrashStateEnded(db, s);
    } else {
      var s0: Store, k: nat :| WellPrepared(db, s0) && Readable(s0) && s == Run(s0, k);
      PendingEarly(db, s0, k);
      assert Total(s0) <= k + MOST_ACTIONS;
    }
  }

  lemma LeftAfterJournal(db: Sqlite, disk: Store, starts: seq<Start>, i: nat)
    requires Chain(Lives(db), disk, starts) && i < |starts|
    requires starts[i].prepared.Some? || CrashState(db, starts[i].before)
    ensures LeftBy(db)(starts[i].after, MOST_ACTIONS)
  {
    ChainAt(Lives(db), disk, starts, i);
    JournalStep(db, starts[i]);
    CrashStateLeft(db, starts[i].after);
  }

  ghost function LeftBy(db: Sqlite): (Store, int) -> bool {
    (s, left) => Left(db, s, left)
  }

  lemma WorkSteps(db: Sqlite)
    ensures forall t, b :: Lives(db)(t) && LeftBy(db)(t.before, b) ==> LeftBy(db)(t.after, b - Work(t.faults))
  {
    forall t, b | Lives(db)(t) && LeftBy(db)(t.before, b) ensures LeftBy(db)(t.after, b - Work(t.faults)) {
      WorkStep(db, t, b);
    }
  }

  /** What is left after more starts. */
  lemma LeftAfter(db: Sqlite, disk: Store, starts: seq<Start>, i: nat, k: nat, bound: int)
    requires Chain(Lives(db), disk, starts) && i <= k < |starts| && LeftBy(db)(starts[i].after, bound)
    ensures LeftBy(db)(starts[k].after, bound - WorkFrom(starts, i, k))
  {
    WorkSteps(db);
    WorkAdds(Lives(db), disk, starts, i, k, bound, LeftBy(db));
  }

  /**
   Once a journal is durable, starts that between them live for 31 durable actions more than there are
   starts finish the migration, wherever they die.
   */
  lemma FinishesInTheEnd(db: Sqlite, disk: Store, starts: seq<Start>, i: nat, k: nat)
    requires Chain(Lives(db), disk, starts) && i <= k < |starts|
    requires starts[i].prepared.Some? || CrashState(db, starts[i].before)
    requires WorkFrom(starts, i, k) >= MOST_ACTIONS
    ensures NothingToDo(db, starts[k].after).Some?
  {
    LeftAfterJournal(db, disk, starts, i);
    LeftAfter(db, disk, starts, i, k, MOST_ACTIONS);
    LeftEnds(db, starts[k].after, MOST_ACTIONS - WorkFrom(starts, i, k));
  }

  lemma {:induction false} WorkContains(starts: seq<Start>, i: nat, n: nat, k: nat)
    requires i < n <= k < |starts|
    ensures WorkFrom(starts, i, k) >= Work(starts[n].faults)
    decreases k
  {
    if n < k { WorkContains(starts, i, n, k - 1); }
  }

  /** In particular one start that lives for 32 durable actions does, however many died before it. */
  lemma OneLongLifeSuffices(db: Sqlite, disk: Store, starts: seq<Start>, i: nat, n: nat, k: nat)
    requires Chain(Lives(db), disk, starts) && i < n <= k < |starts| && starts[n].faults >= 32
    requires starts[i].prepared.Some? || CrashState(db, starts[i].before)
    ensures NothingToDo(db, starts[k].after).Some?
  {
    WorkContains(starts, i, n, k);
    FinishesInTheEnd(db, disk, starts, i, k);
  }
}
