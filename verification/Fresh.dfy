/**
 A preparation from scratch (`_prepare`, memory/preparation.py): selection, snapshots, the staged
 candidate, the PREPARED journal, then `_resume`.  Until the journal is durable only new files appear.
 */
module FreshPreparation {
  import opened Wrappers
  import opened RowDigest
  import opened Knowledge
  import opened Recovery
  import opened Stages
  import opened Recoverable
  import opened Selection
  import opened Verification
  import opened Trust
  import opened Evidence
  import opened Preparation
  import opened CompletedMigration

  ghost predicate Placed(files: Files, dirs: set<Directory>, nextInode: nat) {
    && DistinctInodes(files)
    && (forall p :: p in files ==> files[p].inode < nextInode)
    && (forall p :: p in files && ArchiveOf(p).Some? ==> ArchiveDir(ArchiveOf(p).value) in dirs)
  }

  /** What a filesystem guarantees: one inode per path, and no file, entry or manifest outside an archive directory. */
  ghost predicate Physical(s: Store, nextInode: nat) {
    && Placed(s.files, s.dirs, nextInode)
    && (forall id :: id in s.manifests ==> ArchiveDir(id) in s.dirs)
    && (forall d :: d in s.dirs ==> ArchiveDir(d.id) in s.dirs)
  }

  /** The pending journal writes to its own archive, which exists. */
  ghost predicate Anchored(s: Store) {
    s.pending.Some? ==>
      var j := s.pending.value;
      && ArchiveDir(j.id) in s.dirs && j.candidate == Candidate(j.id)
      && forall m :: m in j.moves ==> m.destination.Original? && m.destination.id == j.id
  }

  lemma RenamePlaced(files: Files, dirs: set<Directory>, a: Path, b: Path, nextInode: nat)
    requires Placed(files, dirs, nextInode) && a in files
    requires ArchiveOf(b).Some? ==> ArchiveDir(ArchiveOf(b).value) in dirs
    ensures Placed(Rename(files, a, b), dirs, nextInode)
  {
  }

  /** A disk a filesystem can have, with a journal that writes to its own archive. */
  ghost predicate Sound(s: Store, nextInode: nat) {
    Physical(s, nextInode) && Anchored(s)
  }

  /** The moves of a journal go to its own archive. */
  ghost predicate OwnArchive(id: nat, moves: seq<Move>) {
    forall m :: m in moves ==> m.destination.Original? && m.destination.id == id
  }

  lemma FlagKeepsArchive(id: nat, moves: seq<Move>, i: nat, m: Move)
    requires OwnArchive(id, moves) && i < |moves| && m.destination == moves[i].destination
    ensures OwnArchive(id, moves[i := m])
  {
    var next := moves[i := m];
    assert moves[i] in moves;
    forall x | x in next ensures x.destination.Original? && x.destination.id == id {
      var k :| 0 <= k < |next| && next[k] == x;
      assert k != i ==> moves[k] in moves;
    }
  }

  lemma JournalSound(s: Store, j: Journal, next: Journal, nextInode: nat)
    requires Sound(s, nextInode) && s.pending == Some(j)
    requires next.id == j.id && next.candidate == j.candidate && OwnArchive(next.id, next.moves)
    ensures Sound(s.(pending := Some(next)), nextInode)
  {
  }

  lemma RenameSound(s: Store, a: Path, b: Path, nextInode: nat)
    requires Sound(s, nextInode) && a in s.files
    requires ArchiveOf(b).Some? ==> ArchiveDir(ArchiveOf(b).value) in s.dirs
    ensures Sound(s.(files := Rename(s.files, a, b)), nextInode)
  {
    RenamePlaced(s.files, s.dirs, a, b, nextInode);
  }

  lemma ManifestSound(s: Store, j: Journal, nextInode: nat)
    requires Sound(s, nextInode) && s.pending == Some(j)
    ensures Sound(s.(manifests := s.manifests[j.id := j]), nextInode)
  {
  }

  lemma UnlinkSound(s: Store, nextInode: nat)
    requires Sound(s, nextInode)
    ensures Sound(s.(pending := None), nextInode)
  {
  }

  lemma RetireSound(s: Store, j: Journal, i: nat, nextInode: nat)
    requires Sound(s, nextInode) && s.pending == Some(j) && AllRecorded(j) && i < |j.moves|
    requires Retire(s, j, i).Continue?
    ensures Sound(Retire(s, j, i).next, nextInode)
  {
    var m := j.moves[i];
    assert m in j.moves && OwnArchive(j.id, j.moves);
    if !m.intent {
      FlagKeepsArchive(j.id, j.moves, i, m.(intent := true));
      JournalSound(s, j, WithIntent(j, i), nextInode);
    } else if m.source in s.files {
      RenameSound(s, m.source, m.destination, nextInode);
    } else {
      FlagKeepsArchive(j.id, j.moves, i, m.(done := true));
      JournalSound(s, j, WithDone(j, i), nextInode);
    }
  }

  /** Publishing writes the journal or renames the candidate. */
  lemma PublishShape(s: Store, j: Journal)
    requires Publish(s, j).Continue?
    ensures var next := Publish(s, j).next;
            || next == s.(pending := Some(j.(publicationIntent := true)))
            || next == s.(pending := Some(j.(phase := Published)))
            || (j.candidate in s.files && next == s.(files := Rename(s.files, j.candidate, Live(Canonical, Main))))
  {
  }

  lemma PublishSound(s: Store, j: Journal, nextInode: nat)
    requires Sound(s, nextInode) && s.pending == Some(j) && Publish(s, j).Continue?
    ensures Sound(Publish(s, j).next, nextInode)
  {
    PublishShape(s, j);
    JournalSound(s, j, j.(publicationIntent := true), nextInode);
    JournalSound(s, j, j.(phase := Published), nextInode);
    if j.candidate in s.files { RenameSound(s, j.candidate, Live(Canonical, Main), nextInode); }
  }

  lemma CloseSound(s: Store, j: Journal, nextInode: nat)
    requires Sound(s, nextInode) && s.pending == Some(j)
    ensures Close(s, j).Continue? && Sound(Close(s, j).next, nextInode)
  {
    JournalSound(s, j, j.(phase := Completed), nextInode);
    ManifestSound(s, j, nextInode);
    UnlinkSound(s, nextInode);
  }

  /** A durable action leaves the disk one a filesystem can have. */
  lemma ActionSound(s: Store, nextInode: nat)
    requires Readable(s) && Sound(s, nextInode) && Next(s).Continue?
    ensures Sound(Next(s).next, nextInode)
  {
    var j := s.pending.value;
    var i := FirstUndone(j.moves);
    if j.phase == Prepared {
      JournalSound(s, j, j.(phase := Retiring), nextInode);
    } else if i < |j.moves| {
      RetireSound(s, j, i, nextInode);
    } else if j.phase == Retiring {
      PublishSound(s, j, nextInode);
    } else {
      CloseSound(s, j, nextInode);
    }
  }

  lemma StepSound(s: Store, nextInode: nat)
    requires Readable(s) && Sound(s, nextInode)
    ensures Sound(Step(s), nextInode)
  {
    if Next(s).Continue? { ActionSound(s, nextInode); }
  }

  lemma {:induction false} IterateKeeps<T(!new)>(step: T -> T, kept: T -> bool, x: T, n: nat)
    requires kept(x) && forall y :: kept(y) ==> kept(step(y))
    ensures kept(Iterate(step, x, n))
    decreases n
  {
    if n > 0 {
      IterateKeeps(step, kept, x, n - 1);
    }
  }

  lemma RunSound(s: Store, nextInode: nat, n: nat)
    requires Readable(s) && Sound(s, nextInode)
    ensures Sound(Run(s, n), nextInode)
  {
    var kept := (t: Store) => Readable(t) && Sound(t, nextInode);
    forall t | kept(t) ensures kept(Step(t)) {
      StepReadable(t);
      StepSound(t, nextInode);
    }
    IterateKeeps(Step, kept, s, n);
    assert kept(Run(s, n));
  }

  lemma PreparedAnchored(db: Sqlite, s: Store)
    requires WellPrepared(db, s)
    ensures Anchored(s)
  {
    PlannedMovesExact(s.pending.value.id, s.pending.value.sources, s.pending.value.retained);
  }

  /** What the staging of a candidate relies on SQLite for: the added column, and an empty fresh table. */
  ghost predicate StagesCurrentSchema(db: Sqlite) {
    && (forall base, upgraded {:trigger db.stage(base, upgraded)} ::
          match Validate(db, map[Main := db.stage(base, upgraded)])
          case Err(_) => true
          case Ok(h) => base.None? || upgraded || SchemaKept(db, base.value) ==> h.schema == Schema14)
    && (match Validate(db, map[Main := db.stage(None, false)]) case Err(_) => true case Ok(h) => h.count == 0)
  }

  ghost predicate SchemaKept(db: Sqlite, content: nat) {
    match Validate(db, map[Main := content]) case Err(_) => false case Ok(h) => h.schema == Schema14
  }

  /**
   SQLite does its work: a backup reads as what it was taken of, and a staged candidate as its base, with the
   added column if asked for, or as an empty table.
   */
  ghost predicate Faithful(db: Sqlite) {
    && (forall contents {:trigger db.backup(contents)} ::
          db.read(contents).Some? ==> db.read(map[Main := db.backup(contents)]) == db.read(contents))
    && (forall base, upgraded {:trigger db.stage(Some(base), upgraded)} ::
          StageReads(db, db.read(map[Main := base]), upgraded, db.read(map[Main := db.stage(Some(base), upgraded)])))
    && db.read(map[Main := db.stage(None, false)]) == Some(Table(Schema14, []))
  }

  /** The column can be added once only. */
  ghost predicate StageReads(db: Sqlite, base: Option<Table>, upgraded: bool, candidate: Option<Table>) {
    base.Some? && (upgraded ==> base.value.schema == Schema13) ==>
      candidate == Some(if upgraded then AddArtifactsColumn(base.value) else base.value)
  }

  /** There is such a SQLite, with a database to upgrade. */
  lemma FaithfulExample(row: Row, json: Row -> seq<Byte>) returns (db: Sqlite)
    ensures Faithful(db) && StagesCurrentSchema(db) && db.json == json
    ensures db.read(map[Main := 1]) == Some(Table(Schema13, [row]))
  {
    var table := Table(Schema13, [row]);
    var read := (contents: map<Suffix, nat>) =>
      if contents == map[Main := 0] then Some(Table(Schema14, []))
      else if contents == map[Main := 1] then Some(table)
      else if contents == map[Main := 2] then Some(AddArtifactsColumn(table)) else None;
    var backup := (contents: map<Suffix, nat>) => if Main in contents then contents[Main] else 0;
    var stage := (base: Option<nat>, upgraded: bool) =>
      if base.None? then 0 else if base.value == 1 && upgraded then 2 else base.value;
    db := Sqlite(read, backup, stage, json);
    forall i: nat, k: nat | map[Main := i] == map[Main := k] ensures i == k {
      assert map[Main := i][Main] == map[Main := k][Main];
    }
  }

  lemma FaithfulSnapshot(db: Sqlite, contents: map<Suffix, nat>, history: History)
    requires Faithful(db) && Validate(db, contents) == Ok(history)
    ensures Validate(db, map[Main := db.backup(contents)]) == Ok(history)
  {
  }

  /** The histories of a choice are those of its bundles. */
  ghost predicate Validated(db: Sqlite, choice: Choice) {
    forall name :: name in choice.histories ==>
        Validate(db, Contents(choice.BundleOf(name))) == Ok(choice.histories[name])
  }

  /** Only new files: nothing that existed has moved or changed. */
  ghost predicate OnlyAdded(before: Files, after: Files) {
    forall p :: p in before ==> p in after && after[p] == before[p]
  }

  /** The journal fields fixed by the selection. */
  function SourcesOf(choice: Choice): map<Source, Bundle> {
    map name: Source | choice.BundleOf(name) != map[] :: choice.BundleOf(name)
  }

  function StatusOf(choice: Choice): Status {
    if choice.selected.None? then Created
    else if |choice.histories| == 2 then Reconciled
    else if choice.selected == Some(Canonical) then Kept
    else Migrated
  }

  /** The moves planned for the first n slots. */
  ghost predicate MovesTo(id: nat, sources: map<Source, Bundle>, retained: bool, n: nat, moves: seq<Move>) {
    n <= 8 && moves == MovesOver(id, sources, retained, Slots()[..n])
  }

  lemma MovesNext(id: nat, sources: map<Source, Bundle>, retained: bool, k: nat, x: nat, moves: seq<Move>, name: Source)
    requires k < 2 && x < 4 && name == (if k == 0 then Legacy else Canonical)
    requires MovesTo(id, sources, retained, 4 * k + x, moves)
    ensures var slot := (name, SUFFIXES[x]);
            MovesTo(id, sources, retained, 4 * k + x + 1,
                    if Displaced(sources, retained, slot) then moves + [PlannedMove(id, slot)] else moves)
  {
    var n := 4 * k + x;
    assert n % 4 == x;
    assert Slots()[..n + 1][..n] == Slots()[..n] && Slots()[n] == SlotAt(n) == (name, SUFFIXES[x]);
  }

  lemma MovesAll(id: nat, sources: map<Source, Bundle>, retained: bool, moves: seq<Move>)
    requires MovesTo(id, sources, retained, 8, moves)
    ensures moves == PlannedMoves(id, sources, retained)
  {
    assert Slots()[..8] == Slots();
  }

  /** The inner loop over the suffixes of one database. */
  method PlanDatabase(id: nat, sources: map<Source, Bundle>, retained: bool, name: Source, ghost k: nat,
                      planned: seq<Move>)
    returns (moves: seq<Move>)
    requires k < 2 && name == (if k == 0 then Legacy else Canonical) && MovesTo(id, sources, retained, 4 * k, planned)
    ensures MovesTo(id, sources, retained, 4 * k + 4, moves)
  {
    hide MovesTo, Displaced, PlannedMove;
    moves := planned;
    for x := 0 to |SUFFIXES|
      invariant MovesTo(id, sources, retained, 4 * k + x, moves)
    {
      MovesNext(id, sources, retained, k, x, moves, name);
      var slot := (name, SUFFIXES[x]);
      if Displaced(sources, retained, slot) {
        moves := moves + [PlannedMove(id, slot)];
      }
    }
  }

  /** The moves, collected database by database and suffix by suffix. */
  method PlanMoves(id: nat, sources: map<Source, Bundle>, retained: bool) returns (moves: seq<Move>)
    ensures moves == PlannedMoves(id, sources, retained)
  {
    moves := PlanDatabase(id, sources, retained, Legacy, 0, []);
    moves := PlanDatabase(id, sources, retained, Canonical, 1, moves);
    MovesAll(id, sources, retained, moves);
  }

  /** Staging over `base`: the disk gained only snapshots and a candidate in the new archive. */
  ghost predicate StagedOver(base: Store, now: Store, id: nat, nextInode: nat) {
    && Physical(now, nextInode)
    && OnlyAdded(base.files, now.files)
    && (forall p :: p in now.files && p !in base.files ==> (p.Snapshot? && p.id == id) || p == Candidate(id))
    && now.pending == None && now.manifests == base.manifests
    && ArchiveDir(id) in now.dirs && base.dirs <= now.dirs
    && (forall d :: d in now.dirs && d !in base.dirs ==> d.id == id)
  }

  lemma NewFileStaged(base: Store, now: Store, id: nat, nextInode: nat, p: Path, content: nat)
    requires StagedOver(base, now, id, nextInode)
    requires p !in now.files && ((p.Snapshot? && p.id == id) || p == Candidate(id))
    ensures StagedOver(base, now.(files := now.files[p := Fingerprint(content, nextInode)]), id, nextInode + 1)
    ensures OnlyAdded(now.files, now.files[p := Fingerprint(content, nextInode)])
  {
  }

  lemma EntryStaged(base: Store, now: Store, id: nat, nextInode: nat, name: Source)
    requires StagedOver(base, now, id, nextInode)
    ensures StagedOver(base, now.(dirs := now.dirs + {EntryDir(id, name)}), id, nextInode)
    ensures NonEmptyArchive(now.(dirs := now.dirs + {EntryDir(id, name)}), id)
  {
  }

  lemma StagedManifests(base: Store, now: Store, id: nat, nextInode: nat)
    requires StagedOver(base, now, id, nextInode)
    ensures now.manifests == base.manifests && now.pending == None
  {
  }

  /** A step of the staging that puts something into the archive, if the process lives to its first durable action. */
  ghost predicate Marked(before: Store, after: Store, id: nat, faults: nat) {
    && before.dirs <= after.dirs && OnlyAdded(before.files, after.files)
    && if faults == 0 then after == before else NonEmptyArchive(after, id)
  }

  /** A stretch of at most `cost` durable actions, which a process with that many left survives. */
  ghost predicate Within(r: Option<Outcome>, before: nat, after: nat, cost: nat) {
    after <= before <= after + cost && (r == Some(Died) ==> before < cost)
  }

  /** Nothing but the end of the process stops it. */
  ghost predicate Unstopped(r: Option<Outcome>) {
    r.Some? ==> r == Some(Died)
  }

  lemma AddedNothing(files: Files)
    ensures OnlyAdded(files, files)
  {
  }

  lemma FileInArchive(s: Store, p: Path, id: nat, fingerprint: Fingerprint)
    requires ArchiveOf(p) == Some(id)
    ensures NonEmptyArchive(s.(files := s.files[p := fingerprint]), id)
  {
  }

  /** One verified snapshot: backed up from the private copy, validated, compared. */
  method StageSnapshot(op: Operation, ghost base: Store, id: nat, name: Source, bundle: Bundle, history: History)
    returns (r: Option<Outcome>, record: SnapshotRecord)
    requires StagedOver(base, op.disk, id, op.nextInode) && Snapshot(id, name) !in op.disk.files
    modifies op`disk, op`faults, op`nextInode
    ensures r.Some? ==> !r.value.Done?
    ensures StagedOver(base, op.disk, id, op.nextInode) && OnlyAdded(old(op.disk).files, op.disk.files)
    ensures forall p :: p in op.disk.files && p !in old(op.disk).files ==> p == Snapshot(id, name)
    ensures r.None? ==>
              && record.path == Snapshot(id, name)
              && record.history == history
              && SnapshotProven(op.db, op.disk.files, record)
    ensures r == Some(Died) ==> op.faults == 0
    ensures Marked(old(op.disk), op.disk, id, old(op.faults)) && Within(r, old(op.faults), op.faults, 2)
    ensures old(op.faults) <= 1 ==> r == Some(Died)
    ensures Faithful(op.db) && Validate(op.db, Contents(bundle)) == Ok(history) ==> Unstopped(r)
  {
    hide StagedOver, Faithful, NonEmptyArchive, Validate, OnlyAdded;
    AddedNothing(op.disk.files);
    if Faithful(op.db) && Validate(op.db, Contents(bundle)) == Ok(history) {
      FaithfulSnapshot(op.db, Contents(bundle), history);
    }
    EntryStaged(base, op.disk, id, op.nextInode, name);
    var content := op.db.backup(Contents(bundle));
    record := SnapshotRecord(Snapshot(id, name), Fingerprint(content, op.nextInode), history);
    var alive := op.MakeDirectory(EntryDir(id, name));
    if !alive { return Some(Died), record; }
    NewFileStaged(base, op.disk, id, op.nextInode, Snapshot(id, name), content);
    FileInArchive(op.disk, Snapshot(id, name), id, Fingerprint(content, op.nextInode));
    var fingerprint;
    alive, fingerprint := op.CreateFile(Snapshot(id, name), content);
    if !alive { return Some(Died), record; }
    match Validate(op.db, map[Main := content]) {
      case Err(problem) => r := Some(Failed(problem));
      case Ok(actual) => r := if actual != history then Some(Failed(SnapshotHistoryChanged)) else None;
    }
  }

  ghost predicate SnapshotsTaken(db: Sqlite, files: Files, id: nat, histories: map<Source, History>,
                                 snapshots: map<Source, SnapshotRecord>) {
    forall name :: name in snapshots ==>
      name in histories && snapshots[name].path == Snapshot(id, name) && snapshots[name].history == histories[name]
      && SnapshotProven(db, files, snapshots[name])
  }

  lemma SnapshotsKept(db: Sqlite, before: Files, after: Files, id: nat, histories: map<Source, History>,
                      snapshots: map<Source, SnapshotRecord>)
    requires SnapshotsTaken(db, before, id, histories, snapshots) && OnlyAdded(before, after)
    ensures SnapshotsTaken(db, after, id, histories, snapshots)
  {
  }

  lemma SnapshotAdded(db: Sqlite, files: Files, id: nat, histories: map<Source, History>,
                      taken: map<Source, SnapshotRecord>, name: Source, record: SnapshotRecord)
    requires SnapshotsTaken(db, files, id, histories, taken) && name in histories
    requires record.path == Snapshot(id, name) && record.history == histories[name] && SnapshotProven(db, files, record)
    ensures SnapshotsTaken(db, files, id, histories, taken[name := record])
  {
  }

  /** The snapshot of one database, if it exists, beside those already taken. */
  method TakeSnapshot(op: Operation, ghost base: Store, id: nat, choice: Choice, name: Source,
                      taken: map<Source, SnapshotRecord>)
    returns (r: Option<Outcome>, snapshots: map<Source, SnapshotRecord>)
    requires StagedOver(base, op.disk, id, op.nextInode) && Snapshot(id, name) !in op.disk.files
    requires name in choice.histories <==> choice.BundleOf(name) != map[]
    requires SnapshotsTaken(op.db, op.disk.files, id, choice.histories, taken)
    modifies op`disk, op`faults, op`nextInode
    ensures r.Some? ==> !r.value.Done?
    ensures StagedOver(base, op.disk, id, op.nextInode)
    ensures forall p :: p in op.disk.files && p !in old(op.disk).files ==> p == Snapshot(id, name)
    ensures r.None? ==> SnapshotsTaken(op.db, op.disk.files, id, choice.histories, snapshots)
    ensures r.None? ==> snapshots.Keys == taken.Keys + (if name in choice.histories then {name} else {})
    ensures r == Some(Died) ==> op.faults == 0
    ensures if name in choice.histories
            then Marked(old(op.disk), op.disk, id, old(op.faults)) && (old(op.faults) <= 1 ==> r == Some(Died))
            else r.None? && op.disk == old(op.disk) && op.faults == old(op.faults)
    ensures Within(r, old(op.faults), op.faults, 2)
    ensures Faithful(op.db) && Validated(op.db, choice) ==> Unstopped(r)
  {
    hide StagedOver, Marked, Faithful, SnapshotsTaken, SnapshotProven, NonEmptyArchive;
    r, snapshots := None, taken;
    if choice.BundleOf(name) != map[] {
      ghost var before := op.disk.files;
      var record;
      r, record := StageSnapshot(op, base, id, name, choice.BundleOf(name), choice.histories[name]);
      SnapshotsKept(op.db, before, op.disk.files, id, choice.histories, taken);
      if r.None? {
        SnapshotAdded(op.db, op.disk.files, id, choice.histories, taken, name, record);
        snapshots := taken[name := record];
      }
    }
  }

  lemma NoneTaken(db: Sqlite, files: Files, id: nat, histories: map<Source, History>)
    ensures SnapshotsTaken(db, files, id, histories, map[])
  {
  }

  lemma AnySource<T>(m: map<Source, T>)
    ensures m != map[] <==> Legacy in m || Canonical in m
  {
    if m != map[] {
      var name :| name in m;
      assert name == Legacy || name == Canonical;
    }
  }

  lemma SameSources<T, U>(m: map<Source, T>, n: map<Source, U>)
    requires (Legacy in m <==> Legacy in n) && (Canonical in m <==> Canonical in n)
    ensures m.Keys == n.Keys
  {
    forall name: Source ensures name in m.Keys <==> name in n.Keys {
      assert name == Legacy || name == Canonical;
    }
  }

  lemma MarkedTwice(a: Store, b: Store, c: Store, id: nat, faults: nat, left: nat)
    requires Marked(a, b, id, faults) && Marked(b, c, id, left) && faults > 0 && b.manifests == c.manifests
    ensures Marked(a, c, id, faults)
  {
    if left > 0 { MarkedKeeps(b, c, id, left); }
  }

  /** A snapshot of every existing database, winner or not. */
  method StageSnapshots(op: Operation, ghost base: Store, id: nat, choice: Choice)
    returns (r: Option<Outcome>, snapshots: map<Source, SnapshotRecord>)
    requires StagedOver(base, op.disk, id, op.nextInode)
    requires forall p :: p in op.disk.files ==> ArchiveOf(p) != Some(id)
    requires forall name :: name in choice.histories <==> choice.BundleOf(name) != map[]
    modifies op`disk, op`faults, op`nextInode
    ensures r.Some? ==> !r.value.Done?
    ensures StagedOver(base, op.disk, id, op.nextInode) && Candidate(id) !in op.disk.files
    ensures r.None? ==>
              && snapshots.Keys == choice.histories.Keys
              && SnapshotsTaken(op.db, op.disk.files, id, choice.histories, snapshots)
    ensures r == Some(Died) ==> op.faults == 0
    ensures if choice.histories != map[]
            then Marked(old(op.disk), op.disk, id, old(op.faults)) && (old(op.faults) <= 1 ==> r == Some(Died))
            else r.None? && op.disk == old(op.disk) && op.faults == old(op.faults)
    ensures Within(r, old(op.faults), op.faults, 4)
    ensures Faithful(op.db) && Validated(op.db, choice) ==> Unstopped(r)
  {
    hide StagedOver, Marked, Faithful, SnapshotsTaken, NonEmptyArchive, Validated;
    AnySource(choice.histories);
    NoneTaken(op.db, op.disk.files, id, choice.histories);
    ghost var before, faults := op.disk, op.faults;
    r, snapshots := TakeSnapshot(op, base, id, choice, Legacy, map[]);
    if r.None? {
      ghost var between, left := op.disk, op.faults;
      StagedManifests(base, op.disk, id, op.nextInode);
      r, snapshots := TakeSnapshot(op, base, id, choice, Canonical, snapshots);
      StagedManifests(base, op.disk, id, op.nextInode);
      if Legacy in choice.histories && Canonical in choice.histories {
        MarkedTwice(before, between, op.disk, id, faults, left);
      }
      if r.None? { SameSources(snapshots, choice.histories); }
    }
  }

  /** The check of a staged candidate: it validates, and holds the winner's count and digest. */
  function CandidateHistory(db: Sqlite, content: nat, winner: Option<History>): (r: Result<History, Problem>)
    ensures r.Ok? ==> Validate(db, map[Main := content]) == Ok(r.value)
    ensures r.Ok? && winner.Some? ==> r.value.count == winner.value.count && r.value.digest == winner.value.digest
  {
    match Validate(db, map[Main := content])
    case Err(problem) => Err(problem)
    case Ok(history) =>
      if winner.Some? && (history.count, history.digest) != (winner.value.count, winner.value.digest)
      then Err(UpgradeHistoryChanged) else Ok(history)
  }

  /** A candidate staged from a snapshot of the winner, or from nothing, has the current schema. */
  lemma CandidateCurrent(db: Sqlite, base: Option<nat>, winner: Option<History>)
    requires StagesCurrentSchema(db) && (base.Some? <==> winner.Some?)
    requires base.Some? ==> Validate(db, map[Main := base.value]) == Ok(winner.value)
    ensures var upgraded := winner.Some? && winner.value.schema == Schema13;
            var r := CandidateHistory(db, db.stage(base, upgraded), winner);
            r.Ok? ==> r.value.schema == Schema14 && (winner.None? ==> r.value.count == 0)
  {
  }

  /** A faithful SQLite stages a candidate with the history of the winner. */
  lemma FaithfulCandidate(db: Sqlite, base: Option<nat>, winner: Option<History>)
    requires Faithful(db) && (base.Some? <==> winner.Some?)
    requires base.Some? ==> Validate(db, map[Main := base.value]) == Ok(winner.value)
    ensures CandidateHistory(db, db.stage(base, winner.Some? && winner.value.schema == Schema13), winner).Ok?
  {
    if base.Some? {
      var table := db.read(map[Main := base.value]).value;
      var upgraded := winner.value.schema == Schema13;
      if upgraded { UpgradeKeepsHistory(db.json, table); }
      assert StageReads(db, Some(table), upgraded, db.read(map[Main := db.stage(Some(base.value), upgraded)]));
    }
  }

  function WinnerHistory(choice: Choice): Option<History>
    requires choice.selected.Some? ==> choice.selected.value in choice.histories
  {
    if choice.selected.None? then None else Some(choice.histories[choice.selected.value])
  }

  /** What the candidate staged for a choice reads as. */
  lemma WinnerStaged(db: Sqlite, files: Files, id: nat, choice: Choice, snapshots: map<Source, SnapshotRecord>,
                     base: Option<nat>, upgraded: bool)
    requires choice.selected.Some? ==> choice.selected.value in choice.histories && choice.selected.value in snapshots
    requires upgraded == (WinnerHistory(choice).Some? && WinnerHistory(choice).value.schema == Schema13)
    requires SnapshotsTaken(db, files, id, choice.histories, snapshots)
    requires base == if choice.selected.None? then None else Some(snapshots[choice.selected.value].fingerprint.content)
    ensures var r := CandidateHistory(db, db.stage(base, upgraded), WinnerHistory(choice));
            && (StagesCurrentSchema(db) && r.Ok? ==>
                  r.value.schema == Schema14 && (choice.selected.None? ==> r.value.count == 0))
            && (Faithful(db) ==> r.Ok?)
  {
    hide Faithful, StagesCurrentSchema, CandidateHistory;
    assert base.Some? ==> SnapshotProven(db, files, snapshots[choice.selected.value]);
    if StagesCurrentSchema(db) { CandidateCurrent(db, base, WinnerHistory(choice)); }
    if Faithful(db) { FaithfulCandidate(db, base, WinnerHistory(choice)); }
  }

  /** The candidate: built from the winner's snapshot or from nothing, validated, compared with the winner. */
  method StageCandidate(op: Operation, ghost base: Store, id: nat, choice: Choice,
                        snapshots: map<Source, SnapshotRecord>, upgraded: bool)
    returns (r: Option<Outcome>, fingerprint: Fingerprint, history: History)
    requires StagedOver(base, op.disk, id, op.nextInode) && Candidate(id) !in op.disk.files
    requires choice.selected.Some? ==> choice.selected.value in choice.histories && choice.selected.value in snapshots
    requires upgraded == (WinnerHistory(choice).Some? && WinnerHistory(choice).value.schema == Schema13)
    requires SnapshotsTaken(op.db, op.disk.files, id, choice.histories, snapshots)
    modifies op`disk, op`faults, op`nextInode
    ensures r.Some? ==> !r.value.Done?
    ensures StagedOver(base, op.disk, id, op.nextInode) && OnlyAdded(old(op.disk).files, op.disk.files)
    ensures r.None? ==>
      && Matches(op.disk.files, Candidate(id), fingerprint)
      && CandidateHistory(op.db, fingerprint.content, WinnerHistory(choice)) == Ok(history)
      && (StagesCurrentSchema(op.db) ==> history.schema == Schema14 && (choice.selected.None? ==> history.count == 0))
    ensures r == Some(Died) ==> op.faults == 0
    ensures Marked(old(op.disk), op.disk, id, old(op.faults)) && (r.None? ==> op.faults < old(op.faults))
    ensures old(op.faults) == 0 ==> r == Some(Died)
    ensures Within(r, old(op.faults), op.faults, 1) && (Faithful(op.db) ==> Unstopped(r))
  {
    hide StagedOver, Faithful, StagesCurrentSchema, SnapshotsTaken, NonEmptyArchive, CandidateHistory;
    r := None;
    history := History(Schema14, 0, []);
    var winner := if choice.selected.None? then None else Some(snapshots[choice.selected.value].fingerprint.content);
    var content := op.db.stage(winner, upgraded);
    WinnerStaged(op.db, op.disk.files, id, choice, snapshots, winner, upgraded);
    FileInArchive(op.disk, Candidate(id), id, Fingerprint(content, op.nextInode));
    NewFileStaged(base, op.disk, id, op.nextInode, Candidate(id), content);
    var alive;
    alive, fingerprint := op.CreateFile(Candidate(id), content);
    if !alive { return Some(Died), fingerprint, history; }
    match CandidateHistory(op.db, content, WinnerHistory(choice)) {
      case Err(problem) => r := Some(Failed(problem));
      case Ok(actual) => history := actual;
    }
  }

  /** The PREPARED journal `_prepare` writes. */
  function NewJournal(id: nat, choice: Choice, retained: bool, upgraded: bool, snapshots: map<Source, SnapshotRecord>,
                      fingerprint: Fingerprint, history: History, moves: seq<Move>): Journal
  {
    Journal(id, Prepared, choice.selected, retained, SourcesOf(choice), snapshots, Candidate(id), fingerprint,
            history, moves, false, StatusOf(choice), upgraded)
  }

  /** The journal is the one `_prepare` builds for this choice. */
  ghost predicate BuiltFor(id: nat, choice: Choice, j: Journal) {
    && (choice.selected.Some? ==> choice.selected.value in choice.histories)
    && var upgraded := choice.selected.Some? && choice.histories[choice.selected.value].schema == Schema13;
    && var retained := choice.selected == Some(Canonical) && !upgraded;
    && j == NewJournal(id, choice, retained, upgraded, j.snapshots, j.candidateFingerprint, j.history,
                       PlannedMoves(id, SourcesOf(choice), retained))
    && j.snapshots.Keys == choice.histories.Keys
    && j.history.schema == Schema14 && (choice.selected.None? ==> j.history.count == 0)
  }

  /** Everything the staging established about the journal it is about to write. */
  ghost predicate StagedFor(db: Sqlite, base: Store, now: Store, id: nat, nextInode: nat, choice: Choice, j: Journal) {
    && StagedOver(base, now, id, nextInode)
    && (forall p :: p in base.files ==> ArchiveOf(p) != Some(id)) && id !in base.manifests
    && Chosen(db, base.files, choice) && !UseCanonical(choice)
    && BuiltFor(id, choice, j)
    && SnapshotsTaken(db, now.files, id, choice.histories, j.snapshots)
    && Matches(now.files, j.candidate, j.candidateFingerprint)
    && CandidateHistory(db, j.candidateFingerprint.content, WinnerHistory(choice)) == Ok(j.history)
  }

  lemma ChosenFact(db: Sqlite, files: Files, choice: Choice, name: Source)
    requires Chosen(db, files, choice)
    ensures choice.BundleOf(name) == BundleAt(files, name)
    ensures name in choice.histories <==> choice.BundleOf(name) != map[]
    ensures name in choice.histories ==>
              && Main in choice.BundleOf(name)
              && Validate(db, Contents(choice.BundleOf(name))) == Ok(choice.histories[name])
  {
    if name == Legacy {
      assert Inspected(db, Legacy, choice.BundleOf(name), choice.histories);
    } else {
      assert Inspected(db, Canonical, choice.BundleOf(name), choice.histories);
    }
  }

  lemma ChosenBundles(db: Sqlite, files: Files, choice: Choice)
    requires Chosen(db, files, choice)
    ensures choice.legacy == BundleAt(files, Legacy) && choice.canonical == BundleAt(files, Canonical)
  {
  }

  lemma ChosenValidated(db: Sqlite, files: Files, choice: Choice)
    requires Chosen(db, files, choice)
    ensures Validated(db, choice)
  {
    forall name | name in choice.histories
      ensures Validate(db, Contents(choice.BundleOf(name))) == Ok(choice.histories[name]) {
      ChosenFact(db, files, choice, name);
    }
  }

  lemma WinnerFacts(histories: map<Source, History>, selected: Option<Source>)
    requires Winner(histories) == Ok(selected)
    ensures selected.Some? ==> selected.value in histories
    ensures selected.None? ==> histories == map[]
  {
    if histories != map[] {
      var name :| name in histories;
      assert name == Legacy || name == Canonical;
    }
  }

  lemma AddedValues(before: Files, after: Files)
    requires OnlyAdded(before, after)
    ensures before.Values <= after.Values
  {
    forall v | v in before.Values ensures v in after.Values {
      var p :| p in before && before[p] == v;
      assert p in after && after[p] == v;
    }
  }

  lemma BundleUnchanged(base: Store, now: Store, id: nat, nextInode: nat, name: Source)
    requires StagedOver(base, now, id, nextInode)
    ensures BundleAt(now.files, name) == BundleAt(base.files, name)
  {
    hide Physical;
    forall x: Suffix ensures Live(name, x) in now.files <==> Live(name, x) in base.files {
    }
  }

  lemma LiveUnchanged(base: Store, now: Store, id: nat, nextInode: nat)
    requires StagedOver(base, now, id, nextInode)
    ensures forall name :: BundleAt(now.files, name) == BundleAt(base.files, name)
    ensures base.files.Values <= now.files.Values
  {
    StagedAdds(base, now, id, nextInode);
    hide StagedOver, OnlyAdded;
    AddedValues(base.files, now.files);
    forall name ensures BundleAt(now.files, name) == BundleAt(base.files, name) {
      BundleUnchanged(base, now, id, nextInode, name);
    }
  }

  lemma StagedAdds(base: Store, now: Store, id: nat, nextInode: nat)
    requires StagedOver(base, now, id, nextInode)
    ensures OnlyAdded(base.files, now.files) && DistinctInodes(now.files) && ArchiveDir(id) in now.dirs
    ensures now.manifests == base.manifests
  {
  }

  lemma SourcesFact(choice: Choice, name: Source)
    ensures name in SourcesOf(choice) <==> choice.BundleOf(name) != map[]
    ensures name in SourcesOf(choice) ==> SourcesOf(choice)[name] == choice.BundleOf(name)
  {
  }

  lemma PlannedAccepted(j: Journal)
    requires j.moves == PlannedMoves(j.id, j.sources, j.retained)
    ensures MovesAsPlanned(j)
  {
  }

  lemma BuiltConsistent(db: Sqlite, id: nat, choice: Choice, files: Files, now: Files, j: Journal)
    requires BuiltFor(id, choice, j) && Chosen(db, files, choice)
    requires SnapshotsTaken(db, now, id, choice.histories, j.snapshots)
    requires CandidateHistory(db, j.candidateFingerprint.content, WinnerHistory(choice)) == Ok(j.history)
    ensures SelectionConsistent(j)
    ensures j.retained ==> j.selected == Some(Canonical) && !j.upgraded && Canonical in j.sources
  {
    WinnerFacts(choice.histories, choice.selected);
    if j.selected.Some? {
      SourcesFact(choice, j.selected.value);
      ChosenFact(db, files, choice, j.selected.value);
      assert j.selected.value in j.snapshots;
    } else {
      forall name ensures name !in j.sources {
        SourcesFact(choice, name);
        ChosenFact(db, files, choice, name);
      }
    }
  }

  lemma BuiltSource(db: Sqlite, id: nat, choice: Choice, files: Files, now: Files, j: Journal, name: Source)
    requires BuiltFor(id, choice, j) && Chosen(db, files, choice)
    requires SnapshotsTaken(db, now, id, choice.histories, j.snapshots)
    ensures name in j.sources <==> name in j.snapshots
    ensures name in j.sources ==> Main in j.sources[name] && j.snapshots[name].path == Snapshot(j.id, name)
    ensures name in j.sources ==> j.sources[name] == choice.BundleOf(name)
    ensures name !in j.sources ==> choice.BundleOf(name) == map[]
  {
    SourcesFact(choice, name);
    ChosenFact(db, files, choice, name);
  }

  lemma NewJournalAccepted(db: Sqlite, id: nat, choice: Choice, files: Files, now: Files, j: Journal)
    requires BuiltFor(id, choice, j) && Chosen(db, files, choice)
    requires SnapshotsTaken(db, now, id, choice.histories, j.snapshots)
    requires CandidateHistory(db, j.candidateFingerprint.content, WinnerHistory(choice)) == Ok(j.history)
    ensures JournalAccepted(j)
  {
    hide MovesAsPlanned, SelectionConsistent, Chosen, SnapshotsTaken, CandidateHistory;
    BuiltConsistent(db, id, choice, files, now, j);
    PlannedAccepted(j);
    BuiltSources(db, id, choice, files, now, j);
  }

  lemma BuiltSources(db: Sqlite, id: nat, choice: Choice, files: Files, now: Files, j: Journal)
    requires BuiltFor(id, choice, j) && Chosen(db, files, choice)
    requires SnapshotsTaken(db, now, id, choice.histories, j.snapshots)
    ensures j.snapshots.Keys == j.sources.Keys
    ensures forall name :: name in j.sources ==>
              Main in j.sources[name] && j.snapshots[name].path == Snapshot(j.id, name)
  {
    hide BuiltFor, Chosen, SnapshotsTaken;
    forall name: Source
      ensures (name in j.sources <==> name in j.snapshots)
              && (name in j.sources ==> Main in j.sources[name] && j.snapshots[name].path == Snapshot(j.id, name))
    {
      BuiltSource(db, id, choice, files, now, j, name);
    }
  }

  lemma BuiltRetained(db: Sqlite, id: nat, choice: Choice, files: Files, j: Journal)
    requires BuiltFor(id, choice, j) && Chosen(db, files, choice) && !UseCanonical(choice)
    requires CandidateHistory(db, j.candidateFingerprint.content, WinnerHistory(choice)) == Ok(j.history)
    ensures RetainedHistory(db, j)
    ensures j.retained ==> Legacy in j.sources
  {
    SourcesFact(choice, Canonical);
    SourcesFact(choice, Legacy);
    ChosenFact(db, files, choice, Canonical);
  }

  lemma BuiltBundle(db: Sqlite, id: nat, choice: Choice, files: Files, now: Files, j: Journal, name: Source)
    requires BuiltFor(id, choice, j) && Chosen(db, files, choice)
    requires BundleAt(now, name) == BundleAt(files, name)
    ensures BundleAt(now, name) == if name in j.sources then j.sources[name] else map[]
  {
    hide Chosen, BundleAt, PlannedMoves;
    ChosenFact(db, files, choice, name);
  }

  lemma BuiltBundles(db: Sqlite, base: Store, now: Store, id: nat, nextInode: nat, choice: Choice, j: Journal)
    requires StagedOver(base, now, id, nextInode) && BuiltFor(id, choice, j) && Chosen(db, base.files, choice)
    ensures forall name: Source :: BundleAt(now.files, name) == if name in j.sources then j.sources[name] else map[]
  {
    LiveUnchanged(base, now, id, nextInode);
    forall name: Source ensures BundleAt(now.files, name) == if name in j.sources then j.sources[name] else map[] {
      BuiltBundle(db, id, choice, base.files, now.files, j, name);
    }
  }

  lemma ArchiveEmpty(base: Store, now: Store, id: nat, nextInode: nat)
    requires StagedOver(base, now, id, nextInode) && (forall p :: p in base.files ==> ArchiveOf(p) != Some(id))
    ensures forall name, x :: Original(id, name, x) !in now.files
  {
  }

  lemma SnapshotsProven(db: Sqlite, files: Files, id: nat, choice: Choice, j: Journal)
    requires SnapshotsTaken(db, files, id, choice.histories, j.snapshots)
    ensures forall name :: name in j.snapshots ==> SnapshotProven(db, files, j.snapshots[name])
  {
  }

  lemma NewJournalPrepared(db: Sqlite, base: Store, now: Store, id: nat, nextInode: nat, choice: Choice, j: Journal)
    requires StagedFor(db, base, now, id, nextInode, choice, j) && JournalAccepted(j)
    ensures WellPrepared(db, now.(pending := Some(j)))
  {
    hide JournalAccepted, StagedOver, OnlyAdded, DistinctInodes, SnapshotsTaken, CandidateHistory, RetainedHistory,
      PlannedMoves, Chosen, CandidateProven, SnapshotProven, BundleAt, Matches, Validate;
    StagedAdds(base, now, id, nextInode);
    BuiltRetained(db, id, choice, base.files, j);
    BuiltBundles(db, base, now, id, nextInode, choice, j);
    ArchiveEmpty(base, now, id, nextInode);
    SnapshotsProven(db, now.files, id, choice, j);
    CandidateIsProven(db, now.files, WinnerHistory(choice), j);
  }

  lemma CandidateIsProven(db: Sqlite, files: Files, winner: Option<History>, j: Journal)
    requires Matches(files, j.candidate, j.candidateFingerprint)
    requires CandidateHistory(db, j.candidateFingerprint.content, winner) == Ok(j.history)
    ensures CandidateProven(db, files, j)
  {
  }

  /** What a crash leaves still carries the history of the prepared journal. */
  lemma PendingHistory(db: Sqlite, s0: Store, k: nat)
    requires WellPrepared(db, s0)
    ensures Readable(s0)
    ensures Run(s0, k).pending.Some? ==> Run(s0, k).pending.value.history == s0.pending.value.history
    ensures Run(s0, k).pending.None? ==> k >= Total(s0)
  {
    PreparedIsStaged(db, s0);
    RunIsAt(s0, k);
  }

  /** No migration takes more durable actions than this after its journal. */
  const MOST_ACTIONS := 31

  /** The most that come before the journal: the archive, two entries with their snapshots, the candidate. */
  const STAGING := 6

  /** Staging, the journal, and everything after it. */
  const LONG_LIFE := STAGING + 1 + MOST_ACTIONS + 1

  lemma {:induction false} FewMoves(id: nat, sources: map<Source, Bundle>, retained: bool, slots: seq<Slot>)
    ensures |MovesOver(id, sources, retained, slots)| <= |slots|
  {
    if slots != [] { FewMoves(id, sources, retained, slots[..|slots| - 1]); }
  }

  /** A run that still has its journal has taken fewer actions than there are. */
  lemma PendingEarly(db: Sqlite, s: Store, n: nat)
    requires WellPrepared(db, s)
    ensures s.pending.Some? && Readable(s) && Total(s) <= MOST_ACTIONS
    ensures Run(s, n).pending.Some? ==> n < Total(s)
  {
    PreparedIsStaged(db, s);
    RunIsAt(s, n);
    var j := s.pending.value;
    FewMoves(j.id, j.sources, j.retained, Slots());
  }

  lemma RunEarly(db: Sqlite, s: Store, k: nat, n: nat)
    requires WellPrepared(db, s)
    ensures Readable(s) && (Run(Run(s, k), n).pending.Some? ==> n < MOST_ACTIONS)
  {
    hide Step, Next, Run, WellPrepared, Total;
    PendingEarly(db, s, k + n);
    RunSplit(s, k, n);
  }

  lemma CutShortEarly(db: Sqlite, base: Store, now: Store, faults: nat)
    requires CrashState(db, base) && CutShort(base, now, faults)
    ensures faults <= MOST_ACTIONS
  {
    var s0: Store, k: nat :| WellPrepared(db, s0) && Readable(s0) && base == Run(s0, k);
    var n: nat :| now == Run(base, n) && faults <= n + 1;
    RunEarly(db, s0, k, n);
  }

  lemma StartIsCrashState(db: Sqlite, s: Store)
    requires WellPrepared(db, s)
    ensures CrashState(db, s)
  {
    PendingHistory(db, s, 0);
    assert s == Run(s, 0);
  }

  /** The report of a preparation with nothing to do, with the count and digest of a history. */
  function Idle(history: History): Report {
    Report(Kept, history.count, history.digest, Some(Canonical), false)
  }

  lemma EndIsIdle(db: Sqlite, s0: Store, k: nat)
    requires WellPrepared(db, s0)
    ensures Readable(s0)
    ensures Run(s0, k).pending.None? ==> NothingToDo(db, Run(s0, k)) == Some(Idle(s0.pending.value.history))
  {
    PendingHistory(db, s0, k);
    if k >= Total(s0) {
      SecondPreparationIdle(db, s0, k);
    }
  }

  /** A resume that ends leaves nothing to do, under the same count and digest. */
  lemma DoneIsIdle(db: Sqlite, s: Store, n: nat)
    requires CrashState(db, s) && s.pending.Some?
    ensures Readable(s)
    ensures Run(s, n).pending.None? ==> NothingToDo(db, Run(s, n)) == Some(Idle(s.pending.value.history))
  {
    var s0: Store, k: nat :| WellPrepared(db, s0) && Readable(s0) && s == Run(s0, k);
    RunSplit(s0, k, n);
    assert s.pending.value.history == s0.pending.value.history by { PendingHistory(db, s0, k); }
    EndIsIdle(db, s0, k + n);
  }

  /** No journal yet, and nothing that existed has moved or changed. */
  ghost predicate Preserved(base: Store, now: Store) {
    && now.pending.None? && OnlyAdded(base.files, now.files) && base.files.Values <= now.files.Values
    && forall name: Source :: BundleAt(now.files, name) == BundleAt(base.files, name)
  }

  lemma StagingPreserves(base: Store, now: Store, id: nat, nextInode: nat)
    requires base.pending.None? && (now == base || StagedOver(base, now, id, nextInode)) && Physical(now, nextInode)
    ensures Preserved(base, now) && Sound(now, nextInode)
  {
    if StagedOver(base, now, id, nextInode) {
      LiveUnchanged(base, now, id, nextInode);
    }
  }

  /** A process with no more durable actions than this dies while it stages. */
  function DeadBefore(choice: Choice): nat {
    if choice.histories == map[] then 1 else 2
  }

  lemma NewJournalReady(db: Sqlite, base: Store, now: Store, id: nat, nextInode: nat, choice: Choice, j: Journal)
    requires StagedFor(db, base, now, id, nextInode, choice, j)
    ensures WellPrepared(db, now.(pending := Some(j))) && Sound(now.(pending := Some(j)), nextInode)
  {
    NewJournalAccepted(db, id, choice, base.files, now.files, j);
    NewJournalPrepared(db, base, now, id, nextInode, choice, j);
    PreparedAnchored(db, now.(pending := Some(j)));
  }

  /** Another preparation would do nothing and report the same count and digest. */
  predicate DoneAgain(db: Sqlite, s: Store, report: Report) {
    && NothingToDo(db, s).Some?
    && NothingToDo(db, s).value.count == report.count
    && NothingToDo(db, s).value.digest == report.digest
  }

  /** What a restart on a crash state leaves: it is not refused, and can be restarted again or is done for good. */
  ghost predicate Restarted(db: Sqlite, now: Store, r: Outcome) {
    && CrashState(db, now) && !r.Failed?
    && (r.Done? ==> DoneAgain(db, now, r.report) && exists s0 :: WellPrepared(db, s0) && IsFinal(s0, now))
  }

  lemma RestartedAfter(db: Sqlite, base: Store, n: nat, r: Outcome)
    requires CrashState(db, base) && base.pending.Some? && Readable(base)
    requires !r.Failed? && CrashState(db, Run(base, n))
    requires r.Done? ==> Run(base, n).pending.None? && r.report == ReportOf(base.pending.value)
    requires r.Done? ==> exists s0 :: WellPrepared(db, s0) && IsFinal(s0, Run(base, n))
    ensures Restarted(db, Run(base, n), r)
  {
    DoneIsIdle(db, base, n);
  }

  /** The process got all but at most one of its durable actions of the run done, and the journal is still there. */
  ghost predicate CutShort(base: Store, now: Store, faults: nat) {
    now.pending.Some? && Readable(base) && exists n: nat :: now == Run(base, n) && faults <= n + 1
  }

  /** What a restart leaves of a disk that is as its journal says, and in step. */
  ghost predicate Recovered(db: Sqlite, start: Store, now: Store, r: Outcome)
    requires start.pending.Some?
  {
    && !r.Failed?
    && if r.Done? then MigratedAsRecorded(start.pending.value, now)
       else Trusted(db, now) && InStep(now.pending.value, now.files)
  }

  lemma RecoveredAfter(db: Sqlite, start: Store, n: nat, r: Outcome)
    requires Trusted(db, start) && InStep(start.pending.value, start.files) && Readable(start)
    requires r.Failed? ==> Next(Run(start, n)).Refused?
    requires r.Done? <==> Run(start, n).pending.None?
    ensures Recovered(db, start, Run(start, n), r)
  {
    hide Next, Run, Trusted, InStep, MigratedAsRecorded;
    TrustedRuns(db, start, n);
    if r.Done? {
      EndedFinished(Run(start, n));
      AlongStopped(db, start, Run(start, n));
    }
  }

  /** A preparation that finds a pending journal. */
  method Restart(op: Operation) returns (r: Outcome)
    requires op.disk.pending.Some?
    modifies op`disk, op`journal, op`durablePhase, op`faults
    ensures old(op.disk).files.Values <= op.disk.files.Values
    // a journal that does not load, or a disk that is not as it says, is refused and left as it was
    ensures Trusted(op.db, old(op.disk)) || (r.Failed? && op.disk == old(op.disk))
    ensures r.Done? ==> Announces(old(op.disk).pending.value, r.report)
    // any disk that is as its journal says, and in step, is migrated or can be restarted again
    ensures Trusted(op.db, old(op.disk)) && InStep(old(op.disk).pending.value, old(op.disk).files) ==>
              Recovered(op.db, old(op.disk), op.disk, r)
    ensures CrashState(op.db, old(op.disk)) ==> Restarted(op.db, op.disk, r)
    ensures r == Died ==> op.faults == 0 && CutShort(old(op.disk), op.disk, old(op.faults))
    ensures Sound(old(op.disk), op.nextInode) ==> Sound(op.disk, op.nextInode)
  {
    hide Step, Run, Retire, Publish, Close, Evident, JournalAccepted, InStep, CrashState, Restarted, Recovered, Sound,
      RecoveryProblem;
    ghost var base := op.disk;
    if CrashState(op.db, base) { CrashStateRuns(op.db, base, 0); }
    if !JournalAccepted(op.disk.pending.value) {
      return Failed(MalformedJournal);
    }
    ghost var n;
    r, n := op.Resume(op.disk.pending.value);
    RunKeepsFiles(base, n);
    if Trusted(op.db, base) && InStep(base.pending.value, base.files) {
      VerifiersMean(op.db, base.pending.value, base.files);
      RecoveredAfter(op.db, base, n, r);
    }
    if Sound(base, op.nextInode) { RunSound(base, op.nextInode, n); }
    if CrashState(op.db, base) { RestartedAfter(op.db, base, n, r); }
  }

  /** No journal was written: at most the new archive, its entries and its files have appeared. */
  ghost predicate Unprepared(base: Store, now: Store, id: nat, faults: nat, nextInode: nat) {
    && Physical(now, nextInode) && (now == base || StagedOver(base, now, id, nextInode))
    && if ArchiveDir(id) in base.dirs then now == base else ArchiveLeft(now, id, faults)
  }

  /** The journal is durable over files of which none has moved or changed. */
  ghost predicate Begun(db: Sqlite, base: Store, start: Store, nextInode: nat) {
    && WellPrepared(db, start) && Sound(start, nextInode) && Describes(db, base.files, start.pending.value)
    && OnlyAdded(base.files, start.files) && base.files.Values <= start.files.Values
  }

  /** What the resume of a durable journal leaves. */
  ghost predicate Resumed(db: Sqlite, start: Store, now: Store, r: Outcome, nextInode: nat)
    requires start.pending.Some?
  {
    && CrashState(db, now) && Sound(now, nextInode) && start.files.Values <= now.files.Values && !r.Failed?
    && (r.Done? ==>
          DoneAgain(db, now, r.report) && IsFinal(start, now) && Announces(start.pending.value, r.report))
  }

  /** The result tells the status, the history, the winner and the upgrade the journal records. */
  ghost predicate Announces(j: Journal, report: Report) {
    && report.status == j.status && report.selected == j.selected && report.upgraded == j.upgraded
    && report.count == j.history.count && report.digest == j.history.digest
  }

  lemma NewJournalBegins(db: Sqlite, base: Store, now: Store, id: nat, nextInode: nat, choice: Choice, j: Journal)
    requires StagedFor(db, base, now, id, nextInode, choice, j)
    ensures Begun(db, base, now.(pending := Some(j)), nextInode)
  {
    NewJournalReady(db, base, now, id, nextInode, choice, j);
    LiveUnchanged(base, now, id, nextInode);
    NewJournalDescribes(db, base, now, id, nextInode, choice, j);
    hide WellPrepared, Sound, OnlyAdded, Describes, StagedFor;
  }

  lemma NewJournalDescribes(db: Sqlite, base: Store, now: Store, id: nat, nextInode: nat, choice: Choice, j: Journal)
    requires StagedFor(db, base, now, id, nextInode, choice, j)
    ensures Describes(db, base.files, j)
  {
    hide StagedOver, Chosen, SnapshotsTaken, CandidateHistory, PlannedMoves, Matches, UseCanonical, HistoryIs, Wins,
      ListsFiles, HoldsWinner, ArchiveOf, StatusOf, StatusFor;
    ChosenMeans(db, base.files, choice);
    SnapshotHistories(db, now.files, id, choice, j);
    JournalLists(db, base.files, id, choice, j);
    JournalHolds(db, id, choice, j);
    StatusMeans(db, base.files, choice);
  }

  lemma SnapshotHistories(db: Sqlite, files: Files, id: nat, choice: Choice, j: Journal)
    requires SnapshotsTaken(db, files, id, choice.histories, j.snapshots) && j.snapshots.Keys == choice.histories.Keys
    ensures forall name :: name in j.snapshots ==> j.snapshots[name].history == choice.histories[name]
    ensures forall name :: SnapshotHistory(j, name) == HistoryIn(choice.histories, name)
  {
  }

  lemma JournalLists(db: Sqlite, files: Files, id: nat, choice: Choice, j: Journal)
    requires BuiltFor(id, choice, j) && Chosen(db, files, choice)
    ensures ListsFiles(files, j)
  {
    hide Chosen, PlannedMoves, StatusOf;
    forall name: Source ensures choice.BundleOf(name) == BundleAt(files, name) {
      ChosenFact(db, files, choice, name);
    }
  }

  lemma JournalHolds(db: Sqlite, id: nat, choice: Choice, j: Journal)
    requires BuiltFor(id, choice, j)
    requires CandidateHistory(db, j.candidateFingerprint.content, WinnerHistory(choice)) == Ok(j.history)
    requires forall name :: name in j.snapshots ==> j.snapshots[name].history == choice.histories[name]
    ensures HoldsWinner(j)
  {
    hide PlannedMoves, StatusOf;
  }

  lemma ChosenPresent(db: Sqlite, files: Files, choice: Choice, name: Source)
    requires Chosen(db, files, choice)
    ensures name in choice.histories <==> Present(files, name)
  {
    hide Chosen, Present;
    ChosenFact(db, files, choice, name);
    PresentMeans(files, name);
  }

  lemma ChosenWins(db: Sqlite, files: Files, choice: Choice)
    requires Chosen(db, files, choice)
    ensures Wins(HistoryIn(choice.histories, Legacy), HistoryIn(choice.histories, Canonical), choice.selected)
  {
    hide Inspected, Wins, BundleAt;
    WinnerWins(choice.histories, choice.selected);
  }

  lemma StatusFits(files: Files, choice: Choice)
    requires Legacy in choice.histories <==> Present(files, Legacy)
    requires Canonical in choice.histories <==> Present(files, Canonical)
    requires Wins(HistoryIn(choice.histories, Legacy), HistoryIn(choice.histories, Canonical), choice.selected)
    ensures StatusOf(choice) == StatusFor(files)
  {
    hide Present;
    CountHistories(choice.histories);
    assert choice.selected.Some? ==> choice.selected.value == Legacy || choice.selected.value == Canonical;
  }

  lemma StatusMeans(db: Sqlite, files: Files, choice: Choice)
    requires Chosen(db, files, choice)
    ensures StatusOf(choice) == StatusFor(files)
  {
    hide Chosen, Present, Wins, StatusOf, StatusFor, HistoryIn;
    ChosenPresent(db, files, choice, Legacy);
    ChosenPresent(db, files, choice, Canonical);
    ChosenWins(db, files, choice);
    StatusFits(files, choice);
  }

  lemma CountHistories(histories: map<Source, History>)
    ensures |histories| == 2 <==> Legacy in histories && Canonical in histories
  {
    assert histories.Keys <= {Legacy, Canonical} by {
      forall name | name in histories ensures name in {Legacy, Canonical} {
        assert name == Legacy || name == Canonical;
      }
    }
    if Legacy in histories && Canonical in histories {
      assert histories.Keys == {Legacy, Canonical};
    } else if Legacy in histories {
      assert histories.Keys == {Legacy};
    } else if Canonical in histories {
      assert histories.Keys == {Canonical};
    } else {
      assert histories.Keys == {};
    }
  }

  /** The journal becomes durable, and is resumed. */
  method Commit(op: Operation, ghost base: Store, ghost id: nat, ghost faults: nat, j: Journal)
    returns (r: Outcome, ghost prepared: Option<Store>)
    requires Unprepared(base, op.disk, id, faults, op.nextInode)
    requires Begun(op.db, base, op.disk.(pending := Some(j)), op.nextInode)
    modifies op`disk, op`journal, op`durablePhase, op`faults
    ensures prepared.None? ==> Unprepared(base, op.disk, id, faults, op.nextInode) && !r.Done?
    ensures prepared.Some? ==>
      && old(op.faults) >= 1 && Begun(op.db, base, prepared.value, op.nextInode)
      && Resumed(op.db, prepared.value, op.disk, r, op.nextInode)
    ensures r == Died ==> op.faults == 0 && old(op.faults) <= MOST_ACTIONS + 1
    ensures prepared.None? ==> r == Died
  {
    hide Unprepared, Resumed, WellPrepared, Sound, OnlyAdded;
    var alive := op.WriteJournal(j);
    if !alive { return Died, None; }
    prepared := Some(op.disk);
    r := Follow(op, j);
  }

  /** The staging, and the journal to begin with. */
  method Attempt(op: Operation, id: nat, choice: Choice) returns (failure: Option<Outcome>, j: Journal)
    requires Physical(op.disk, op.nextInode) && StagesCurrentSchema(op.db)
    requires op.disk.pending.None? && Chosen(op.db, op.disk.files, choice) && !UseCanonical(choice)
    modifies op`disk, op`faults, op`nextInode
    ensures Unprepared(old(op.disk), op.disk, id, old(op.faults), op.nextInode)
    ensures failure.Some? ==> !failure.value.Done?
    ensures failure.None? ==> Begun(op.db, old(op.disk), op.disk.(pending := Some(j)), op.nextInode)
    ensures failure.None? ==> ArchiveDir(id) !in old(op.disk).dirs && op.faults + 2 <= old(op.faults)
    ensures failure == Some(Died) ==> op.faults == 0
    ensures ArchiveDir(id) !in old(op.disk).dirs && old(op.faults) <= DeadBefore(choice) ==> failure == Some(Died)
    ensures Within(failure, old(op.faults), op.faults, STAGING)
    ensures Faithful(op.db) && ArchiveDir(id) !in old(op.disk).dirs ==> Unstopped(failure)
  {
    ghost var base := op.disk;
    WinnerFacts(choice.histories, choice.selected);
    var upgraded := choice.selected.Some? && choice.histories[choice.selected.value].schema == Schema13;
    var retained := choice.selected == Some(Canonical) && !upgraded;
    failure, j := Stage(op, id, choice, upgraded, retained);
    if failure.None? { NewJournalBegins(op.db, base, op.disk, id, op.nextInode, choice, j); }
  }

  /** A preparation that migrates what selection chose. */
  method Migrate(op: Operation, id: nat, choice: Choice) returns (r: Outcome, ghost prepared: Option<Store>)
    requires Physical(op.disk, op.nextInode) && StagesCurrentSchema(op.db)
    requires op.disk.pending.None? && Chosen(op.db, op.disk.files, choice) && !UseCanonical(choice)
    modifies op
    ensures prepared.None? ==> Unprepared(old(op.disk), op.disk, id, old(op.faults), op.nextInode) && !r.Done?
    ensures prepared.Some? ==>
      && Begun(op.db, old(op.disk), prepared.value, op.nextInode)
      && Resumed(op.db, prepared.value, op.disk, r, op.nextInode)
    ensures r == Died ==> op.faults == 0
    ensures prepared.Some? ==> ArchiveDir(id) !in old(op.disk).dirs && old(op.faults) >= 3
    ensures ArchiveDir(id) !in old(op.disk).dirs && old(op.faults) <= DeadBefore(choice) ==> r == Died
    ensures Faithful(op.db) && ArchiveDir(id) !in old(op.disk).dirs && old(op.faults) >= LONG_LIFE ==> r.Done?
  {
    ghost var base, faults := op.disk, op.faults;
    var failure, j := Attempt(op, id, choice);
    if failure.Some? {
      return failure.value, None;
    }
    r, prepared := Commit(op, base, id, faults, j);
  }

  lemma PreparedPending(db: Sqlite, s: Store)
    requires WellPrepared(db, s)
    ensures s.pending.Some?
  {
  }

  lemma IdleReports(history: History)
    ensures Idle(history).count == history.count && Idle(history).digest == history.digest
  {
  }

  lemma ResumedAfter(db: Sqlite, start: Store, nextInode: nat, n: nat, r: Outcome)
    requires WellPrepared(db, start) && Sound(start, nextInode) && Readable(start)
    requires !r.Failed? && CrashState(db, Run(start, n))
    requires r.Done? ==> Run(start, n).pending.None? && r.report == ReportOf(start.pending.value)
    ensures Resumed(db, start, Run(start, n), r, nextInode)
  {
    hide WellPrepared, CrashState, IsFinal, Sound, Next, Step, Run, NothingToDo, Idle;
    PreparedPending(db, start);
    if r.Done? {
      EndedFinished(Run(start, n));
      IdleReports(start.pending.value.history);
    }
    StartIsCrashState(db, start);
    PreparedStops(db, start, n);
    DoneIsIdle(db, start, n);
    RunKeepsFiles(start, n);
    RunSound(start, nextInode, n);
  }

  /** The resume of a journal that has just become durable. */
  method Follow(op: Operation, j: Journal) returns (r: Outcome)
    requires op.disk.pending == Some(j) && WellPrepared(op.db, op.disk) && Sound(op.disk, op.nextInode)
    modifies op`disk, op`journal, op`durablePhase, op`faults
    ensures Resumed(op.db, old(op.disk), op.disk, r, op.nextInode)
    ensures r == Died ==> op.faults == 0 && old(op.faults) <= MOST_ACTIONS
  {
    hide Step, Next, Run, CrashState, Sound, DoneAgain, IsFinal, JournalAccepted;
    ghost var start := op.disk;
    ghost var n;
    StartIsCrashState(op.db, start);
    r, n := op.Resume(j);
    ResumedAfter(op.db, start, op.nextInode, n, r);
    if r.Died? { PendingEarly(op.db, start, n); }
  }

  /** There is no journal and something to do. */
  predicate MustMigrate(db: Sqlite, s: Store) {
    s.pending.None? && match Select(db, s) case Err(_) => false case Ok(choice) => !UseCanonical(choice)
  }

  lemma CrashStateAnchored(db: Sqlite, s: Store)
    requires CrashState(db, s)
    ensures Anchored(s)
  {
    var s0: Store, k: nat :| WellPrepared(db, s0) && Readable(s0) && s == Run(s0, k);
    Recoverability(db, s0, k);
    PreparedIsStaged(db, s0);
    RunIsAt(s0, k);
    if s.pending.Some? {
      AcceptedAnchored(s, s.pending.value);
    }
  }

  lemma AcceptedAnchored(s: Store, j: Journal)
    requires s.pending == Some(j) && JournalAccepted(j) && ArchiveDir(j.id) in s.dirs
    ensures Anchored(s)
  {
    var planned := PlannedMoves(j.id, j.sources, j.retained);
    PlannedMovesExact(j.id, j.sources, j.retained);
    forall m | m in j.moves ensures m.destination.Original? && m.destination.id == j.id {
      var i :| 0 <= i < |j.moves| && j.moves[i] == m;
      assert planned[i] in planned && m.(intent := false, done := false) == planned[i];
    }
  }

  lemma UnpreparedKeeps(base: Store, now: Store, id: nat, faults: nat, nextInode: nat)
    requires Unprepared(base, now, id, faults, nextInode) && base.pending.None?
    ensures base.files.Values <= now.files.Values && Sound(now, nextInode)
  {
    StagingPreserves(base, now, id, nextInode);
  }

  lemma BegunKeeps(db: Sqlite, base: Store, start: Store, now: Store, r: Outcome, nextInode: nat)
    requires Begun(db, base, start, nextInode) && Resumed(db, start, now, r, nextInode)
    ensures base.files.Values <= now.files.Values && Sound(now, nextInode)
    ensures r.Done? ==> DoneAgain(db, now, r.report)
  {
  }

  /**
   `_prepare`.  `prepared` is the disk at the moment the PREPARED journal became durable, if it did.
   */
  method Prepare(op: Operation, id: nat) returns (r: Outcome, ghost prepared: Option<Store>)
    requires Physical(op.disk, op.nextInode) && StagesCurrentSchema(op.db)
    modifies op
    // no file is ever lost, whatever the journal says and wherever the process dies
    ensures old(op.disk).files.Values <= op.disk.files.Values
    // without a journal and with nothing to do, or with a selection that is refused, there is no durable action
    ensures NothingToDo(op.db, old(op.disk)).Some? ==>
      op.disk == old(op.disk) && r == Done(NothingToDo(op.db, old(op.disk)).value)
    ensures old(op.disk).pending.None? && Select(op.db, old(op.disk)).Err? ==>
      op.disk == old(op.disk) && r == Failed(Select(op.db, old(op.disk)).error)
    // before the journal is durable only the new archive appears: empty after one durable action, then not
    ensures MustMigrate(op.db, old(op.disk)) && prepared.None? ==>
      Unprepared(old(op.disk), op.disk, id, old(op.faults), op.nextInode) && !r.Done?
    // afterwards it can only die in a recoverable state or finish in the final one
    ensures prepared.Some? ==>
      && MustMigrate(op.db, old(op.disk)) && ArchiveDir(id) !in old(op.disk).dirs && old(op.faults) >= 3
      && Begun(op.db, old(op.disk), prepared.value, op.nextInode)
      && Resumed(op.db, prepared.value, op.disk, r, op.nextInode)
    // a pending journal that does not load, or a disk that is not as it says, is refused and left as it was
    ensures old(op.disk).pending.Some? ==> Trusted(op.db, old(op.disk)) || (r.Failed? && op.disk == old(op.disk))
    // the result of a restart is the one its journal records
    ensures old(op.disk).pending.Some? && r.Done? ==> Announces(old(op.disk).pending.value, r.report)
    // a restart on any crash state is accepted, and again dies or finishes
    ensures old(op.disk).pending.Some? && CrashState(op.db, old(op.disk)) ==> Restarted(op.db, op.disk, r)
    // fixed point: once it is done, another preparation does nothing and reports the same count and digest
    ensures r.Done? && (old(op.disk).pending.Some? ==> CrashState(op.db, old(op.disk))) ==>
              DoneAgain(op.db, op.disk, r.report)
    // it can be called again
    ensures (old(op.disk).pending.Some? ==> CrashState(op.db, old(op.disk))) ==> Sound(op.disk, op.nextInode)
    // it dies only when the process does, having used its life, and while it stages if the process dies at once
    ensures r == Died ==> op.faults == 0
    ensures r == Died && old(op.disk).pending.Some? ==> CutShort(old(op.disk), op.disk, old(op.faults))
    ensures MustMigrate(op.db, old(op.disk)) && ArchiveDir(id) !in old(op.disk).dirs ==>
              (old(op.faults) <= DeadBefore(Select(op.db, old(op.disk)).value) ==> r == Died)
    // and it does get done: a faithful SQLite, a fresh archive and a long life suffice, or a crash state and that life
    ensures Faithful(op.db) && MustMigrate(op.db, old(op.disk)) && ArchiveDir(id) !in old(op.disk).dirs
      ==> (old(op.faults) >= LONG_LIFE ==> r.Done?)
    ensures old(op.disk).pending.Some? && CrashState(op.db, old(op.disk)) && old(op.faults) > MOST_ACTIONS ==> r.Done?
  {
    hide Sound, CrashState, Restarted, CutShort, Faithful, StagesCurrentSchema, Begun, Resumed, Unprepared, DoneAgain,
      Physical, Select;
    if op.disk.pending.Some? {
      r := RestartOurs(op);
      prepared := None;
    } else {
      r, prepared := Begin(op, id);
    }
  }

  lemma PhysicalSound(s: Store, nextInode: nat)
    requires Physical(s, nextInode) && (s.pending.None? || Anchored(s))
    ensures Sound(s, nextInode)
  {
  }

  lemma RestartedFacts(db: Sqlite, now: Store, r: Outcome)
    requires Restarted(db, now, r)
    ensures !r.Failed? && (r.Done? ==> DoneAgain(db, now, r.report))
  {
  }

  /** A preparation with a journal. */
  method RestartOurs(op: Operation) returns (r: Outcome)
    requires op.disk.pending.Some? && Physical(op.disk, op.nextInode)
    modifies op`disk, op`journal, op`durablePhase, op`faults
    ensures old(op.disk).files.Values <= op.disk.files.Values
    ensures Trusted(op.db, old(op.disk)) || (r.Failed? && op.disk == old(op.disk))
    ensures r.Done? ==> Announces(old(op.disk).pending.value, r.report)
    ensures CrashState(op.db, old(op.disk)) ==>
      && Restarted(op.db, op.disk, r) && Sound(op.disk, op.nextInode)
      && (r.Done? ==> DoneAgain(op.db, op.disk, r.report))
      && (old(op.faults) > MOST_ACTIONS ==> r.Done?)
    ensures r == Died ==> op.faults == 0 && CutShort(old(op.disk), op.disk, old(op.faults))
  {
    hide Sound, CrashState, Restarted, CutShort, DoneAgain, Physical, Anchored;
    ghost var base, faults := op.disk, op.faults;
    if CrashState(op.db, base) {
      CrashStateAnchored(op.db, base);
      PhysicalSound(base, op.nextInode);
    }
    r := Restart(op);
    if CrashState(op.db, base) {
      RestartedFacts(op.db, op.disk, r);
      if r.Died? { CutShortEarly(op.db, base, op.disk, faults); }
    }
  }

  lemma FastPathAgain(db: Sqlite, s: Store, report: Report)
    requires NothingToDo(db, s) == Some(report)
    ensures DoneAgain(db, s, report)
  {
  }

  /** A preparation without a journal. */
  method Begin(op: Operation, id: nat) returns (r: Outcome, ghost prepared: Option<Store>)
    requires op.disk.pending.None? && Physical(op.disk, op.nextInode) && StagesCurrentSchema(op.db)
    modifies op
    ensures old(op.disk).files.Values <= op.disk.files.Values && Sound(op.disk, op.nextInode)
    ensures NothingToDo(op.db, old(op.disk)).Some? ==>
      op.disk == old(op.disk) && r == Done(NothingToDo(op.db, old(op.disk)).value)
    ensures Select(op.db, old(op.disk)).Err? ==>
      op.disk == old(op.disk) && r == Failed(Select(op.db, old(op.disk)).error)
    ensures MustMigrate(op.db, old(op.disk)) && prepared.None? ==>
      Unprepared(old(op.disk), op.disk, id, old(op.faults), op.nextInode) && !r.Done?
    ensures prepared.Some? ==>
      && MustMigrate(op.db, old(op.disk)) && ArchiveDir(id) !in old(op.disk).dirs && old(op.faults) >= 3
      && Begun(op.db, old(op.disk), prepared.value, op.nextInode)
      && Resumed(op.db, prepared.value, op.disk, r, op.nextInode)
    ensures r.Done? ==> DoneAgain(op.db, op.disk, r.report)
    ensures r == Died ==> op.faults == 0
    ensures MustMigrate(op.db, old(op.disk)) && ArchiveDir(id) !in old(op.disk).dirs ==>
      && (old(op.faults) <= DeadBefore(Select(op.db, old(op.disk)).value) ==> r == Died)
      && (Faithful(op.db) && old(op.faults) >= LONG_LIFE ==> r.Done?)
  {
    hide Sound, Faithful, StagesCurrentSchema, Begun, Resumed, Unprepared, DoneAgain, Physical, Select, Chosen;
    prepared := None;
    ghost var base, faults := op.disk, op.faults;
    PhysicalSound(base, op.nextInode);
    var choice;
    match Select(op.db, op.disk) {
      case Err(problem) => return Failed(problem), None;
      case Ok(found) => choice := found;
    }
    if UseCanonical(choice) {
      var history := choice.histories[Canonical];
      var report := Report(Kept, history.count, history.digest, Some(Canonical), false);
      FastPathAgain(op.db, op.disk, report);
      return Done(report), None;
    }
    r, prepared := Migrate(op, id, choice);
    if prepared.None? {
      UnpreparedKeeps(base, op.disk, id, faults, op.nextInode);
    } else {
      BegunKeeps(op.db, base, prepared.value, op.disk, r, op.nextInode);
    }
  }

  /** Everything `_prepare` does between selection and the journal. */
  method Stage(op: Operation, id: nat, choice: Choice, upgraded: bool, retained: bool)
    returns (r: Option<Outcome>, j: Journal)
    requires Physical(op.disk, op.nextInode) && StagesCurrentSchema(op.db)
    requires op.disk.pending.None? && Chosen(op.db, op.disk.files, choice) && !UseCanonical(choice)
    requires choice.selected.Some? ==> choice.selected.value in choice.histories
    requires upgraded == (choice.selected.Some? && choice.histories[choice.selected.value].schema == Schema13)
    requires retained == (choice.selected == Some(Canonical) && !upgraded)
    modifies op`disk, op`faults, op`nextInode
    ensures r.Some? ==> !r.value.Done?
    ensures Unprepared(old(op.disk), op.disk, id, old(op.faults), op.nextInode)
    ensures r.None? ==> StagedFor(op.db, old(op.disk), op.disk, id, op.nextInode, choice, j)
    ensures r == Some(Died) ==> op.faults == 0
    ensures ArchiveDir(id) !in old(op.disk).dirs && old(op.faults) <= DeadBefore(choice) ==> r == Some(Died)
    ensures r.None? ==> ArchiveDir(id) !in old(op.disk).dirs && op.faults + 2 <= old(op.faults)
    ensures Within(r, old(op.faults), op.faults, STAGING)
    ensures Faithful(op.db) && ArchiveDir(id) !in old(op.disk).dirs ==> Unstopped(r)
  {
    hide StagedOver, Physical, Faithful, StagesCurrentSchema, Validated, Unprepared, FilesStaged, StagedFor, Chosen,
      UseCanonical, PlannedMoves;
    ghost var base := op.disk;
    ChosenValidated(op.db, base.files, choice);
    ChosenBundles(op.db, base.files, choice);
    j := NewJournal(id, choice, retained, upgraded, map[], Fingerprint(0, 0), History(Schema14, 0, []), []);
    forall name: Source ensures name in choice.histories <==> choice.BundleOf(name) != map[] {
      ChosenFact(op.db, base.files, choice, name);
    }
    var snapshots, fingerprint, history;
    r, snapshots, fingerprint, history := StageFiles(op, id, choice, upgraded);
    if r.Some? { return; }
    LiveUnchanged(base, op.disk, id, op.nextInode);
    if BundleAt(op.disk.files, Legacy) != choice.legacy || BundleAt(op.disk.files, Canonical) != choice.canonical {
      return Some(Failed(ChangedSource)), j;
    }
    var moves := PlanMoves(id, SourcesOf(choice), retained);
    j := NewJournal(id, choice, retained, upgraded, snapshots, fingerprint, history, moves);
    JournalStaged(op.db, base, op.disk, id, op.nextInode, choice, upgraded, snapshots, fingerprint, history, j);
  }

  lemma JournalStaged(db: Sqlite, base: Store, now: Store, id: nat, nextInode: nat, choice: Choice, upgraded: bool,
                      snapshots: map<Source, SnapshotRecord>, fingerprint: Fingerprint, history: History, j: Journal)
    requires Chosen(db, base.files, choice) && !UseCanonical(choice) && StagedOver(base, now, id, nextInode)
    requires (forall p :: p in base.files ==> ArchiveOf(p) != Some(id)) && id !in base.manifests
    requires choice.selected.Some? ==> choice.selected.value in choice.histories
    requires upgraded == (choice.selected.Some? && choice.histories[choice.selected.value].schema == Schema13)
    requires FilesStaged(db, now, id, choice, snapshots, fingerprint, history)
    requires var retained := choice.selected == Some(Canonical) && !upgraded;
             j == NewJournal(id, choice, retained, upgraded, snapshots, fingerprint, history,
                             PlannedMoves(id, SourcesOf(choice), retained))
    ensures StagedFor(db, base, now, id, nextInode, choice, j)
  {
    hide StagedOver, Chosen, UseCanonical, SnapshotsTaken, CandidateHistory, PlannedMoves, Matches;
  }

  /** What the snapshots and the candidate establish. */
  ghost predicate FilesStaged(db: Sqlite, now: Store, id: nat, choice: Choice, snapshots: map<Source, SnapshotRecord>,
                              fingerprint: Fingerprint, history: History)
    requires choice.selected.Some? ==> choice.selected.value in choice.histories
  {
    && snapshots.Keys == choice.histories.Keys && SnapshotsTaken(db, now.files, id, choice.histories, snapshots)
    && Matches(now.files, Candidate(id), fingerprint)
    && CandidateHistory(db, fingerprint.content, WinnerHistory(choice)) == Ok(history)
    && history.schema == Schema14 && (choice.selected.None? ==> history.count == 0)
  }

  /** The snapshots and the candidate, in an archive that has just been made. */
  method FillArchive(op: Operation, ghost base: Store, id: nat, choice: Choice, upgraded: bool)
    returns (r: Option<Outcome>, snapshots: map<Source, SnapshotRecord>, fingerprint: Fingerprint, history: History)
    requires StagedOver(base, op.disk, id, op.nextInode) && StagesCurrentSchema(op.db)
    requires forall p :: p in op.disk.files ==> ArchiveOf(p) != Some(id)
    requires forall name :: name in choice.histories <==> choice.BundleOf(name) != map[]
    requires choice.selected.Some? ==> choice.selected.value in choice.histories
    requires upgraded == (choice.selected.Some? && choice.histories[choice.selected.value].schema == Schema13)
    modifies op`disk, op`faults, op`nextInode
    ensures r.Some? ==> !r.value.Done?
    ensures StagedOver(base, op.disk, id, op.nextInode) && Marked(old(op.disk), op.disk, id, old(op.faults))
    ensures r.None? ==>
              FilesStaged(op.db, op.disk, id, choice, snapshots, fingerprint, history) && op.faults < old(op.faults)
    ensures r == Some(Died) ==> op.faults == 0
    ensures old(op.faults) < DeadBefore(choice) ==> r == Some(Died)
    ensures Within(r, old(op.faults), op.faults, STAGING - 1)
    ensures Faithful(op.db) && Validated(op.db, choice) ==> Unstopped(r)
  {
    hide StagedOver, Faithful, StagesCurrentSchema, SnapshotsTaken, NonEmptyArchive, CandidateHistory, Marked,
      Validated, Matches, OnlyAdded, SnapshotProven;
    fingerprint, history := Fingerprint(0, 0), History(Schema14, 0, []);
    ghost var before, faults := op.disk, op.faults;
    StagedManifests(base, op.disk, id, op.nextInode);
    r, snapshots := StageSnapshots(op, base, id, choice);
    if r.Some? { return; }
    ghost var taken, left := op.disk, op.faults;
    StagedManifests(base, op.disk, id, op.nextInode);
    r, fingerprint, history := StageCandidate(op, base, id, choice, snapshots, upgraded);
    StagedManifests(base, op.disk, id, op.nextInode);
    if choice.histories != map[] { MarkedTwice(before, taken, op.disk, id, faults, left); }
    if r.None? {
      SnapshotsKept(op.db, taken.files, op.disk.files, id, choice.histories, snapshots);
    }
  }

  lemma FilledArchive(base: Store, made: Store, now: Store, id: nat, nextInode: nat, left: nat)
    requires made.dirs == base.dirs + {ArchiveDir(id)} && ArchiveDir(id) !in base.dirs && !NonEmptyArchive(made, id)
    requires StagedOver(base, now, id, nextInode) && Marked(made, now, id, left)
    ensures Unprepared(base, now, id, left + 1, nextInode)
  {
  }

  lemma NoArchive(base: Store, id: nat, nextInode: nat)
    requires Physical(base, nextInode)
    ensures ArchiveDir(id) in base.dirs || !NonEmptyArchive(base, id) ==> Unprepared(base, base, id, 0, nextInode)
    ensures ArchiveDir(id) in base.dirs ==> forall faults: nat :: Unprepared(base, base, id, faults, nextInode)
  {
  }

  /** The archive directory, the snapshots and the candidate. */
  method StageFiles(op: Operation, id: nat, choice: Choice, upgraded: bool)
    returns (r: Option<Outcome>, snapshots: map<Source, SnapshotRecord>, fingerprint: Fingerprint, history: History)
    requires Physical(op.disk, op.nextInode) && StagesCurrentSchema(op.db)
    requires op.disk.pending.None?
    requires forall name :: name in choice.histories <==> choice.BundleOf(name) != map[]
    requires choice.selected.Some? ==> choice.selected.value in choice.histories
    requires upgraded == (choice.selected.Some? && choice.histories[choice.selected.value].schema == Schema13)
    modifies op`disk, op`faults, op`nextInode
    ensures r.Some? ==> !r.value.Done?
    ensures Unprepared(old(op.disk), op.disk, id, old(op.faults), op.nextInode)
    ensures r.None? ==>
      && StagedOver(old(op.disk), op.disk, id, op.nextInode)
      && (forall p :: p in old(op.disk).files ==> ArchiveOf(p) != Some(id)) && id !in old(op.disk).manifests
      && FilesStaged(op.db, op.disk, id, choice, snapshots, fingerprint, history)
    ensures r == Some(Died) ==> op.faults == 0
    ensures ArchiveDir(id) !in old(op.disk).dirs && old(op.faults) <= DeadBefore(choice) ==> r == Some(Died)
    ensures r.None? ==> ArchiveDir(id) !in old(op.disk).dirs && op.faults + 2 <= old(op.faults)
    ensures Within(r, old(op.faults), op.faults, STAGING)
    ensures Faithful(op.db) && Validated(op.db, choice) && ArchiveDir(id) !in old(op.disk).dirs ==> Unstopped(r)
  {
    hide StagedOver, Physical, Faithful, StagesCurrentSchema, NonEmptyArchive, Marked, Validated, FilesStaged,
      Unprepared;
    ghost var base := op.disk;
    snapshots, fingerprint, history := map[], Fingerprint(0, 0), History(Schema14, 0, []);
    NoArchive(base, id, op.nextInode);
    if ArchiveDir(id) in op.disk.dirs {
      return Some(Failed(ArchiveExists)), snapshots, fingerprint, history;
    }
    NewArchive(base, op.disk, id, op.nextInode);
    var alive := op.MakeDirectory(ArchiveDir(id));
    if !alive { return Some(Died), snapshots, fingerprint, history; }
    ghost var made, left := op.disk, op.faults;
    r, snapshots, fingerprint, history := FillArchive(op, base, id, choice, upgraded);
    FilledArchive(base, made, op.disk, id, op.nextInode, left);
  }

  lemma NewArchive(base: Store, now: Store, id: nat, nextInode: nat)
    requires Physical(base, nextInode) && now == base && base.pending.None? && ArchiveDir(id) !in base.dirs
    ensures StagedOver(base, base.(dirs := base.dirs + {ArchiveDir(id)}), id, nextInode)
    ensures forall p :: p in base.files ==> ArchiveOf(p) != Some(id)
    ensures id !in base.manifests
    ensures !NonEmptyArchive(base, id) && !NonEmptyArchive(base.(dirs := base.dirs + {ArchiveDir(id)}), id)
  {
    forall name: Source ensures EntryDir(id, name) !in base.dirs {
      assert EntryDir(id, name) in base.dirs ==> ArchiveDir(EntryDir(id, name).id) in base.dirs;
    }
  }

  /** How far a process with this many durable actions left gets with its archive. */
  ghost predicate ArchiveLeft(s: Store, id: nat, faults: nat) {
    && (ArchiveDir(id) in s.dirs <==> faults >= 1)
    && (NonEmptyArchive(s, id) <==> faults >= 2)
  }

  lemma MarkedKeeps(before: Store, after: Store, id: nat, faults: nat)
    requires Marked(before, after, id, faults) && before.manifests == after.manifests && NonEmptyArchive(before, id)
    ensures NonEmptyArchive(after, id)
  {
  }
}
