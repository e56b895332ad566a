/**
 Resuming from any disk the verifiers accept (`_resume`, memory/preparation.py), whether or not a crash
 of a migration left it: what the record promises is kept by every durable action, and exactly when the
 journal is not ahead of its candidate, or behind it, the run ends in the migrated disk.
 */
module Trust {
  import opened Wrappers
  import opened RowDigest
  import opened Knowledge
  import opened Recovery
  import opened Verification

  /** The pending journal loads, and the disk is as it says. */
  ghost predicate Trusted(db: Sqlite, s: Store) {
    s.pending.Some? && JournalAccepted(s.pending.value) && Evident(db, s.pending.value, s.files)
  }

  /** As far as the files go. */
  ghost predicate InPlace(j: Journal, files: Files) {
    && JournalAccepted(j) && OriginalsPlaced(j, files) && NothingElseLive(j, files)
    && RetainedAsRecorded(j, files) && CandidatePlaced(j, files)
  }

  ghost predicate CanonicalWaits(j: Journal) {
    exists m :: m in j.moves && m.name == Canonical && m.suffix == Main && !m.done
  }

  /**
   The journal and its candidate agree: a staged candidate is still to be published, over a canonical
   original that is not archived already, and no canonical original waits behind an installed one.
   */
  ghost predicate InStep(j: Journal, files: Files) {
    !j.retained ==>
      if Candidate(j.id) in files then
        && (j.phase == Prepared || j.phase == Retiring)
        && (Live(Canonical, Main) in files ==> Original(j.id, Canonical, Main) !in files)
      else !CanonicalWaits(j)
  }

  // ---------------------------------------------------------------- one action

  lemma FlaggedAccepted(j: Journal, i: nat)
    requires JournalAccepted(j) && i < |j.moves|
    ensures JournalAccepted(WithIntent(j, i))
    ensures j.moves[i].intent ==> JournalAccepted(WithDone(j, i))
  {
    hide PlannedMoves, SelectionConsistent;
    SameSelection(j, WithIntent(j, i));
    SameSelection(j, WithDone(j, i));
  }

  lemma SameSelection(j: Journal, next: Journal)
    requires next == j.(moves := next.moves)
    ensures SelectionConsistent(j) == SelectionConsistent(next)
  {
  }

  lemma PhasedAccepted(j: Journal, phase: Phase, announced: bool)
    requires JournalAccepted(j)
    ensures JournalAccepted(j.(phase := phase, publicationIntent := announced))
  {
  }

  lemma MoveRecorded(j: Journal, files: Files, i: nat)
    requires InPlace(j, files) && i < |j.moves|
    ensures Retires(j, j.moves[i]) && OriginalPlaced(j, files, j.moves[i])
  {
    hide OriginalPlaced, JournalAccepted, Retires;
    AcceptedMovesRetire(j);
    assert j.moves[i] in j.moves;
  }

  /** Flags change, files do not. */
  lemma FlagKeeps(j: Journal, next: Journal, files: Files, i: nat)
    requires InPlace(j, files) && JournalAccepted(next) && i < |j.moves|
    requires next == WithIntent(j, i) || (next == WithDone(j, i) && j.moves[i].intent && j.moves[i].source !in files)
    ensures InPlace(next, files)
  {
    hide JournalAccepted;
    forall m | m in next.moves
      ensures m.name in next.sources && m.suffix in next.sources[m.name] && OriginalPlaced(next, files, m)
    {
      var k :| 0 <= k < |next.moves| && next.moves[k] == m;
      MoveRecorded(j, files, k);
    }
    MoveRecorded(j, files, i);
    if Candidate(j.id) in files && !j.retained && Live(Canonical, Main) in files {
      var m :| m in j.moves && m.name == Canonical && m.suffix == Main && !m.done;
      var k :| 0 <= k < |j.moves| && j.moves[k] == m;
      assert next.moves[k] in next.moves;
    }
  }

  /** A move whose turn it is finds its file as recorded, and its place free. */
  lemma RetireMatches(j: Journal, files: Files, i: nat)
    requires InPlace(j, files) && InStep(j, files) && i < |j.moves| && !j.moves[i].done
    requires j.moves[i].source in files
    ensures Retires(j, j.moves[i])
    ensures files[j.moves[i].source] == j.sources[j.moves[i].name][j.moves[i].suffix]
    ensures j.moves[i].destination !in files
  {
    hide JournalAccepted, NothingElseLive, RetainedAsRecorded;
    MoveRecorded(j, files, i);
    assert j.moves[i] in j.moves;
  }

  /** What one move says of its file stays true when another is renamed. */
  lemma OthersPlaced(j: Journal, files: Files, m: Move, other: Move)
    requires Retires(j, m) && Retires(j, other) && (m.name != other.name || m.suffix != other.suffix)
    requires m.source in files && m.destination !in files && OriginalPlaced(j, files, other)
    requires !j.retained && Candidate(j.id) !in files ==> m.name != Canonical || m.suffix != Main
    requires CandidatePlaced(j, files)
    ensures OriginalPlaced(j, Rename(files, m.source, m.destination), other)
  {
  }

  lemma RetiredPlaced(j: Journal, files: Files, m: Move)
    requires Retires(j, m) && m.intent && m.source in files && m.destination !in files
    requires files[m.source] == j.sources[m.name][m.suffix]
    ensures OriginalPlaced(j, Rename(files, m.source, m.destination), m)
  {
  }

  lemma RetireKeepsOriginals(j: Journal, files: Files, i: nat)
    requires InPlace(j, files) && InStep(j, files) && i < |j.moves| && !j.moves[i].done && j.moves[i].intent
    requires j.moves[i].source in files
    ensures OriginalsPlaced(j, Rename(files, j.moves[i].source, j.moves[i].destination))
  {
    hide JournalAccepted, OriginalPlaced, Retires;
    var m := j.moves[i];
    RetireMatches(j, files, i);
    AcceptedMovesRetire(j);
    forall other | other in j.moves
      ensures other.name in j.sources && other.suffix in j.sources[other.name]
      ensures OriginalPlaced(j, Rename(files, m.source, m.destination), other)
    {
      var k :| 0 <= k < |j.moves| && j.moves[k] == other;
      assert m in j.moves;
      if k == i { RetiredPlaced(j, files, m); } else { OthersPlaced(j, files, m, other); }
    }
  }

  /** An original goes to the archive. */
  lemma RetireKeeps(j: Journal, files: Files, i: nat)
    requires InPlace(j, files) && InStep(j, files) && i < |j.moves| && !j.moves[i].done && j.moves[i].intent
    requires j.moves[i].source in files
    ensures InPlace(j, Rename(files, j.moves[i].source, j.moves[i].destination))
    ensures InStep(j, Rename(files, j.moves[i].source, j.moves[i].destination))
  {
    hide JournalAccepted, OriginalPlaced, OriginalsPlaced;
    RetireMatches(j, files, i);
    RetireKeepsOriginals(j, files, i);
    assert j.moves[i] in j.moves;
  }

  /** The journal moves on in its phase, or announces the publication. */
  lemma PhaseKeeps(j: Journal, files: Files, phase: Phase, announced: bool)
    requires InPlace(j, files) && (j.publicationIntent ==> announced)
    ensures InPlace(j.(phase := phase, publicationIntent := announced), files)
  {
    PhasedAccepted(j, phase, announced);
    hide JournalAccepted;
    var next := j.(phase := phase, publicationIntent := announced);
    forall m | m in next.moves
      ensures m.name in next.sources && m.suffix in next.sources[m.name] && OriginalPlaced(next, files, m)
    {
      assert m in j.moves;
    }
  }

  ghost predicate AllDone(j: Journal) {
    forall m :: m in j.moves ==> m.done
  }

  /** With every move done, the candidate is staged over no canonical bundle at all. */
  lemma StagedOverNothing(j: Journal, files: Files)
    requires InPlace(j, files) && AllDone(j) && !j.retained && Candidate(j.id) in files
    ensures BundleAt(files, Canonical) == map[]
  {
    hide JournalAccepted;
    AcceptedMovesRetire(j);
    forall x: Suffix ensures Live(Canonical, x) !in files {
      if x != Main && Canonical in j.sources && x in j.sources[Canonical] {
        var i := MoveFor(j, Canonical, x);
        MoveRecorded(j, files, i);
        assert j.moves[i] in j.moves;
      }
    }
  }

  /** The candidate becomes the canonical database. */
  lemma InstallKeeps(j: Journal, files: Files)
    requires InPlace(j, files) && AllDone(j) && !j.retained && Candidate(j.id) in files && j.publicationIntent
    ensures InPlace(j, Rename(files, Candidate(j.id), Live(Canonical, Main)))
    ensures InStep(j, Rename(files, Candidate(j.id), Live(Canonical, Main)))
  {
    hide JournalAccepted;
    StagedOverNothing(j, files);
    var next := Rename(files, Candidate(j.id), Live(Canonical, Main));
    forall x: Suffix ensures Live(Canonical, x) !in files {
      assert x !in BundleAt(files, Canonical);
    }
    forall i | 0 <= i < |j.moves|
      ensures OriginalPlaced(j, next, j.moves[i])
    {
      MoveRecorded(j, files, i);
      assert j.moves[i] in j.moves;
    }
    forall m | m in j.moves
      ensures m.name in j.sources && m.suffix in j.sources[m.name] && OriginalPlaced(j, next, m)
    {
      var i :| 0 <= i < |j.moves| && j.moves[i] == m;
      assert OriginalPlaced(j, next, j.moves[i]);
    }
  }

  // ---------------------------------------------------------------- any run

  /** What no action changes of a journal. */
  ghost predicate SameRecord(a: Journal, b: Journal) {
    && a.id == b.id && a.sources == b.sources && a.snapshots == b.snapshots && a.retained == b.retained
    && a.candidateFingerprint == b.candidateFingerprint && a.history == b.history
  }

  /** Every displaced original in the archive, nothing legacy active, and the canonical database as promised. */
  ghost predicate MigratedFiles(j: Journal, files: Files) {
    && (forall name, x :: name in j.sources && x in j.sources[name] && !(j.retained && name == Canonical) ==>
          Holds(files, Original(j.id, name, x), j.sources[name][x]))
    && (forall x: Suffix :: Live(Legacy, x) !in files)
    && RetainedAsRecorded(j, files)
    && (!j.retained ==>
          && Holds(files, Live(Canonical, Main), j.candidateFingerprint) && Candidate(j.id) !in files
          && forall x: Suffix :: x != Main ==> Live(Canonical, x) !in files)
  }

  ghost predicate MigratedAsRecorded(j: Journal, s: Store) {
    && s.pending.None? && MigratedFiles(j, s.files)
    && j.id in s.manifests && s.manifests[j.id].phase == Completed && SameRecord(j, s.manifests[j.id])
  }

  /** The journal that is still pending is on course: it keeps the record, and the disk is as it says. */
  ghost predicate OnCourse(record: Journal, s: Store) {
    && s.pending.Some? && SameRecord(record, s.pending.value)
    && InPlace(s.pending.value, s.files) && InStep(s.pending.value, s.files)
  }

  lemma RecordReadable(s: Store)
    requires s.pending.Some? ==> JournalAccepted(s.pending.value)
    ensures Readable(s)
  {
    if s.pending.Some? { AcceptedMovesRetire(s.pending.value); }
  }

  lemma SettledFiles(j: Journal, files: Files)
    requires InPlace(j, files) && InStep(j, files) && AllDone(j) && j.phase == Completed
    ensures MigratedFiles(j, files)
  {
    hide JournalAccepted, NothingElseLive;
    forall name, x | name in j.sources && x in j.sources[name] && !(j.retained && name == Canonical)
      ensures Holds(files, Original(j.id, name, x), j.sources[name][x])
      ensures name == Legacy ==> Live(name, x) !in files
    {
      var i := MoveFor(j, name, x);
      MoveRecorded(j, files, i);
      assert j.moves[i] in j.moves;
    }
    forall x: Suffix ensures Live(Legacy, x) !in files {
      LegacyRecorded(j, files, x);
    }
  }

  lemma LegacyRecorded(j: Journal, files: Files, x: Suffix)
    requires NothingElseLive(j, files)
    ensures Live(Legacy, x) in files ==> Legacy in j.sources && x in j.sources[Legacy]
  {
  }

  lemma RetireOnCourse(record: Journal, s: Store, i: nat)
    requires OnCourse(record, s) && AllRecorded(s.pending.value)
    requires i < |s.pending.value.moves| && !s.pending.value.moves[i].done
    ensures var v := Retire(s, s.pending.value, i); v.Continue? && OnCourse(record, v.next)
  {
    hide JournalAccepted, InPlace, InStep;
    var j := s.pending.value;
    FlaggedInPlace(j, s.files, i);
    if j.moves[i].intent && j.moves[i].source in s.files {
      RetireMatches(j, s.files, i);
      RetireKeeps(j, s.files, i);
    }
  }

  lemma FlaggedInPlace(j: Journal, files: Files, i: nat)
    requires InPlace(j, files) && InStep(j, files) && i < |j.moves|
    ensures InPlace(WithIntent(j, i), files) && InStep(WithIntent(j, i), files)
    ensures j.moves[i].intent && j.moves[i].source !in files ==>
              InPlace(WithDone(j, i), files) && InStep(WithDone(j, i), files)
  {
    FlaggedAccepted(j, i);
    FlagKeeps(j, WithIntent(j, i), files, i);
    hide JournalAccepted, InPlace;
    FlaggedInStep(j, WithIntent(j, i), files, i);
    if j.moves[i].intent && j.moves[i].source !in files {
      FlagKeeps(j, WithDone(j, i), files, i);
      FlaggedInStep(j, WithDone(j, i), files, i);
    }
  }

  lemma FlaggedInStep(j: Journal, next: Journal, files: Files, i: nat)
    requires InStep(j, files) && i < |j.moves| && (next == WithIntent(j, i) || next == WithDone(j, i))
    ensures InStep(next, files)
  {
    if m :| m in next.moves && m.name == Canonical && m.suffix == Main && !m.done {
      var k :| 0 <= k < |next.moves| && next.moves[k] == m;
      assert j.moves[k] in j.moves;
    }
  }

  lemma PublishOnCourse(record: Journal, s: Store)
    requires OnCourse(record, s) && AllDone(s.pending.value) && s.pending.value.phase == Retiring
    ensures var v := Publish(s, s.pending.value); v.Continue? && OnCourse(record, v.next)
  {
    var j := s.pending.value;
    assert j.candidate == Candidate(j.id);
    hide JournalAccepted;
    PhaseKeeps(j, s.files, Retiring, true);
    PhaseKeeps(j, s.files, Published, j.publicationIntent);
    if j.retained {
      RetainedMeans(j, s.files);
    } else if Candidate(j.id) in s.files {
      StagedOverNothing(j, s.files);
      if j.publicationIntent { InstallKeeps(j, s.files); }
    }
  }

  lemma CloseOnCourse(record: Journal, s: Store)
    requires OnCourse(record, s) && AllDone(s.pending.value)
    requires s.pending.value.phase == Published || s.pending.value.phase == Completed
    ensures var v := Close(s, s.pending.value);
            v.Continue? && (OnCourse(record, v.next) || MigratedAsRecorded(record, v.next))
  {
    hide JournalAccepted;
    var j := s.pending.value;
    if j.phase == Published {
      PhaseKeeps(j, s.files, Completed, j.publicationIntent);
    } else {
      SettledFiles(j, s.files);
    }
  }

  /** On course, no action is refused, and the next disk is on course or the migrated one. */
  lemma NextOnCourse(record: Journal, s: Store)
    requires OnCourse(record, s)
    ensures Readable(s) && Next(s).Continue?
    ensures OnCourse(record, Next(s).next) || MigratedAsRecorded(record, Next(s).next)
  {
    hide OnCourse, MigratedAsRecorded, Retire, Publish, Close;
    OnCourseFacts(record, s);
    var j := s.pending.value;
    var i := FirstUndone(j.moves);
    if j.phase == Prepared {
      StartOnCourse(record, s);
    } else if i < |j.moves| {
      RetireOnCourse(record, s, i);
    } else if j.phase == Retiring {
      PublishOnCourse(record, s);
    } else {
      CloseOnCourse(record, s);
    }
  }

  lemma OnCourseFacts(record: Journal, s: Store)
    requires OnCourse(record, s)
    ensures s.pending.Some? && AllRecorded(s.pending.value)
  {
    RecordReadable(s);
  }

  lemma StartOnCourse(record: Journal, s: Store)
    requires OnCourse(record, s) && s.pending.value.phase == Prepared
    ensures OnCourse(record, s.(pending := Some(s.pending.value.(phase := Retiring))))
  {
    hide JournalAccepted;
    PhaseKeeps(s.pending.value, s.files, Retiring, s.pending.value.publicationIntent);
  }

  ghost predicate SameSnapshots(a: Files, b: Files) {
    forall id, name {:trigger Snapshot(id, name)} ::
      && (Snapshot(id, name) in a <==> Snapshot(id, name) in b)
      && (Snapshot(id, name) in a ==> a[Snapshot(id, name)] == b[Snapshot(id, name)])
  }

  lemma RenameKeepsSnapshots(files: Files, a: Path, b: Path)
    requires a in files && !a.Snapshot? && !b.Snapshot?
    ensures SameSnapshots(files, Rename(files, a, b))
  {
  }

  lemma RetireKeepsSnapshots(s: Store, j: Journal, i: nat)
    requires i < |j.moves| && AllRecorded(j) && Retires(j, j.moves[i]) && Retire(s, j, i).Continue?
    ensures SameSnapshots(s.files, Retire(s, j, i).next.files)
  {
    var m := j.moves[i];
    if m.source in s.files { RenameKeepsSnapshots(s.files, m.source, m.destination); }
  }

  lemma PublishKeepsSnapshots(s: Store, j: Journal)
    requires j.candidate == Candidate(j.id) && Publish(s, j).Continue?
    ensures SameSnapshots(s.files, Publish(s, j).next.files)
  {
    if j.candidate in s.files { RenameKeepsSnapshots(s.files, j.candidate, Live(Canonical, Main)); }
  }

  lemma NextKeepsSnapshots(s: Store)
    requires s.pending.Some? && JournalAccepted(s.pending.value) && Readable(s) && Next(s).Continue?
    ensures SameSnapshots(s.files, Next(s).next.files)
  {
    var j := s.pending.value;
    assert j.candidate == Candidate(j.id);
    hide JournalAccepted, Retire, Publish, Close, Retires, SameSnapshots;
    var i := FirstUndone(j.moves);
    SnapshotsStay(s, j);
    if j.phase == Prepared {
    } else if i < |j.moves| {
      MoveRetires(j, i);
      RetireKeepsSnapshots(s, j, i);
    } else if j.phase == Retiring {
      PublishKeepsSnapshots(s, j);
    }
  }

  lemma SnapshotsStay(s: Store, j: Journal)
    ensures SameSnapshots(s.files, s.files) && Close(s, j).Continue? && Close(s, j).next.files == s.files
  {
  }

  /** Where a run from a trusted disk can be. */
  ghost predicate Along(db: Sqlite, start: Store, now: Store) {
    && start.pending.Some? && SameSnapshots(start.files, now.files)
    && (OnCourse(start.pending.value, now) || MigratedAsRecorded(start.pending.value, now))
  }

  lemma InPlaceAccepted(j: Journal, files: Files)
    requires InPlace(j, files)
    ensures JournalAccepted(j)
  {
  }

  lemma AlongNext(db: Sqlite, start: Store, now: Store)
    requires Along(db, start, now) && Readable(now) && Next(now).Continue?
    ensures Along(db, start, Next(now).next)
  {
    hide MigratedAsRecorded, Next, InPlace, InStep;
    if OnCourse(start.pending.value, now) {
      InPlaceAccepted(now.pending.value, now.files);
      NextOnCourse(start.pending.value, now);
      NextKeepsSnapshots(now);
    } else {
      MigratedFinished(start.pending.value, now);
    }
  }

  lemma MigratedFinished(j: Journal, s: Store)
    requires MigratedAsRecorded(j, s)
    ensures Readable(s) && Next(s).Finished?
  {
  }

  lemma {:induction false} RunKeeps(s: Store, n: nat, kept: Store -> bool)
    requires Readable(s) && kept(s)
    requires forall t :: kept(t) && Readable(t) && Next(t).Continue? ==> kept(Next(t).next)
    ensures kept(Run(s, n))
    decreases n
  {
    hide Next;
    if n == 0 {
      RunNothing(s);
    } else {
      RunKeeps(s, n - 1, kept);
      RunStep(s, n - 1);
    }
  }

  /**
   From a disk that is trusted and in step, every disk of the run is trusted and in step, until it is the
   migrated one; and the run gets there.
   */
  lemma TrustedRuns(db: Sqlite, s: Store, n: nat)
    requires Trusted(db, s) && InStep(s.pending.value, s.files)
    ensures Readable(s) && !Next(Run(s, n)).Refused?
    ensures Along(db, s, Run(s, n))
    ensures Run(s, n).pending.Some? ==> Trusted(db, Run(s, n)) && InStep(Run(s, n).pending.value, Run(s, n).files)
  {
    RecordReadable(s);
    var kept := (t: Store) => Along(db, s, t);
    forall t | kept(t) && Readable(t) && Next(t).Continue? ensures kept(Next(t).next) {
      AlongNext(db, s, t);
    }
    StartsAlong(db, s);
    RunKeeps(s, n, kept);
    hide Next, Run;
    AlongTrusted(db, s, Run(s, n));
  }

  lemma StartsAlong(db: Sqlite, s: Store)
    requires Trusted(db, s) && InStep(s.pending.value, s.files)
    ensures Along(db, s, s)
  {
    hide JournalAccepted, OriginalsPlaced, NothingElseLive, RetainedAsRecorded, CandidatePlaced, InStep,
      MigratedAsRecorded, SnapshotsRead, Reads;
  }

  lemma AlongTrusted(db: Sqlite, start: Store, now: Store)
    requires Trusted(db, start) && Along(db, start, now) && Readable(now)
    ensures !Next(now).Refused?
    ensures now.pending.Some? ==> Trusted(db, now) && InStep(now.pending.value, now.files)
  {
    var record := start.pending.value;
    if OnCourse(record, now) { NextOnCourse(record, now); } else { MigratedFinished(record, now); }
    hide Next, JournalAccepted;
  }

  // ---------------------------------------------------------------- out of step

  /** The journal is past the publication and the candidate is still staged. */
  ghost predicate Ahead(record: Journal, s: Store) {
    && Candidate(record.id) in s.files
    && (s.pending.Some? ==> s.pending.value.phase == Published || s.pending.value.phase == Completed)
  }

  /** A canonical original waits with both of its paths taken. */
  ghost predicate Blocked(record: Journal, s: Store) {
    && s.pending.Some? && CanonicalWaits(s.pending.value)
    && Live(Canonical, Main) in s.files && Original(record.id, Canonical, Main) in s.files
  }

  /** The candidate is gone, and what is installed waits to be retired or is retired already. */
  ghost predicate Behind(record: Journal, s: Store) {
    && Candidate(record.id) !in s.files
    && ((s.pending.Some? && CanonicalWaits(s.pending.value)) || Live(Canonical, Main) !in s.files)
  }

  ghost predicate OffCourse(record: Journal, s: Store) {
    && !record.retained
    && (s.pending.Some? ==> JournalAccepted(s.pending.value) && SameRecord(record, s.pending.value))
    && (Ahead(record, s) || Blocked(record, s) || Behind(record, s))
  }

  lemma SameWaits(j: Journal, next: Journal)
    requires next.moves == j.moves
    ensures CanonicalWaits(next) == CanonicalWaits(j)
  {
  }

  lemma NoneWaits(j: Journal)
    requires FirstUndone(j.moves) == |j.moves|
    ensures !CanonicalWaits(j)
  {
  }

  /** Marking a move changes who waits only if it is the canonical main file's. */
  lemma FlaggedWaits(j: Journal, next: Journal, i: nat)
    requires i < |j.moves| && CanonicalWaits(j)
    requires next == WithIntent(j, i) || (next == WithDone(j, i) && !CanonicalMain(j.moves[i]))
    ensures CanonicalWaits(next)
  {
    var m :| m in j.moves && m.name == Canonical && m.suffix == Main && !m.done;
    var k :| 0 <= k < |j.moves| && j.moves[k] == m;
    assert next.moves[k] in next.moves;
  }

  lemma PublishAccepted(s: Store, j: Journal)
    requires s.pending == Some(j) && JournalAccepted(j) && Publish(s, j).Continue?
    ensures var next := Publish(s, j).next.pending;
            next.Some? && JournalAccepted(next.value) && SameRecord(j, next.value) && next.value.moves == j.moves
  {
    hide JournalAccepted;
    PhasedAccepted(j, Published, j.publicationIntent);
    PhasedAccepted(j, j.phase, true);
  }

  lemma NextAccepted(s: Store)
    requires s.pending.Some? && JournalAccepted(s.pending.value) && Readable(s) && Next(s).Continue?
    ensures var next := Next(s).next.pending;
            next.Some? ==> JournalAccepted(next.value) && SameRecord(s.pending.value, next.value)
  {
    hide JournalAccepted, Publish;
    var j := s.pending.value;
    var i := FirstUndone(j.moves);
    if j.phase == Prepared {
      PhasedAccepted(j, Retiring, j.publicationIntent);
    } else if i < |j.moves| {
      FlaggedAccepted(j, i);
    } else if j.phase == Retiring {
      PublishAccepted(s, j);
    } else {
      PhasedAccepted(j, Completed, j.publicationIntent);
    }
  }

  lemma RetireOffCourse(record: Journal, s: Store, i: nat)
    requires OffCourse(record, s) && s.pending.Some? && AllRecorded(s.pending.value)
    requires i < |s.pending.value.moves| && Retire(s, s.pending.value, i).Continue?
    ensures var next := Retire(s, s.pending.value, i).next;
            Ahead(record, next) || Blocked(record, next) || Behind(record, next)
  {
    hide JournalAccepted, CanonicalWaits;
    var j := s.pending.value;
    var m := j.moves[i];
    MoveRetires(j, i);
    SameWaits(j, j);
    if CanonicalWaits(j) {
      FlaggedWaits(j, WithIntent(j, i), i);
      if !CanonicalMain(m) { FlaggedWaits(j, WithDone(j, i), i); }
    }
  }

  lemma PublishOffCourse(record: Journal, s: Store)
    requires OffCourse(record, s) && s.pending.Some? && s.pending.value.phase == Retiring
    requires !CanonicalWaits(s.pending.value) && Publish(s, s.pending.value).Continue?
    ensures Behind(record, Publish(s, s.pending.value).next)
  {
    assert s.pending.value.candidate == Candidate(record.id);
    hide JournalAccepted, CanonicalWaits;
  }

  lemma CloseOffCourse(record: Journal, s: Store)
    requires OffCourse(record, s) && s.pending.Some? && !CanonicalWaits(s.pending.value)
    ensures var next := Close(s, s.pending.value).next; Ahead(record, next) || Behind(record, next)
  {
    hide JournalAccepted, CanonicalWaits;
  }

  lemma OffCourseStays(record: Journal, s: Store)
    requires OffCourse(record, s) && Readable(s) && Next(s).Continue?
    ensures OffCourse(record, Next(s).next)
  {
    hide JournalAccepted, Retire, Publish, Close, CanonicalWaits;
    var j := s.pending.value;
    NextAccepted(s);
    var i := FirstUndone(j.moves);
    if j.phase == Prepared {
      SameWaits(j, j.(phase := Retiring));
    } else if i < |j.moves| {
      RetireOffCourse(record, s, i);
    } else {
      NoneWaits(j);
      if j.phase == Retiring { PublishOffCourse(record, s); } else { CloseOffCourse(record, s); }
    }
  }

  lemma OutOfStep(db: Sqlite, s: Store)
    requires Trusted(db, s) && !InStep(s.pending.value, s.files)
    ensures OffCourse(s.pending.value, s)
  {
    hide JournalAccepted;
  }

  lemma OffCourseNotMigrated(record: Journal, s: Store)
    requires OffCourse(record, s)
    ensures !MigratedAsRecorded(record, s)
  {
    hide JournalAccepted;
  }

  /** A trusted disk that is out of step is not migrated by any run. */
  lemma OutOfStepRuns(db: Sqlite, s: Store, n: nat)
    requires Trusted(db, s) && !InStep(s.pending.value, s.files)
    ensures Readable(s) && !MigratedAsRecorded(s.pending.value, Run(s, n))
  {
    RecordReadable(s);
    OutOfStep(db, s);
    hide Next, Run, OffCourse, MigratedAsRecorded, Trusted, InStep;
    var record := s.pending.value;
    var kept := (t: Store) => OffCourse(record, t);
    forall t | kept(t) && Readable(t) && Next(t).Continue? ensures kept(Next(t).next) {
      OffCourseStays(record, t);
    }
    RunKeeps(s, n, kept);
    OffCourseNotMigrated(record, Run(s, n));
  }

  /**
   A disk the verifiers accept is migrated by resuming it exactly when its journal and its candidate are
   in step: every displaced original ends in the archive with its recorded fingerprint, nothing legacy is
   active, and the canonical database is the retained bundle or the candidate.
   */
  lemma TrustedMigratesIff(db: Sqlite, s: Store)
    requires Trusted(db, s)
    ensures Readable(s)
    ensures (exists n: nat :: MigratedAsRecorded(s.pending.value, Run(s, n))) <==> InStep(s.pending.value, s.files)
  {
    RecordReadable(s);
    hide Next, Run, Trusted, InStep, MigratedAsRecorded;
    if InStep(s.pending.value, s.files) {
      var n := ResumeStops(s, MeasureOf(s));
      TrustedRuns(db, s, n);
      AlongStopped(db, s, Run(s, n));
    } else {
      forall n: nat ensures !MigratedAsRecorded(s.pending.value, Run(s, n)) {
        OutOfStepRuns(db, s, n);
      }
    }
  }

  lemma AlongStopped(db: Sqlite, start: Store, now: Store)
    requires Along(db, start, now) && Readable(now) && !Next(now).Continue?
    ensures MigratedAsRecorded(start.pending.value, now)
  {
    hide Next, OnCourse, MigratedAsRecorded;
    if OnCourse(start.pending.value, now) { NextOnCourse(start.pending.value, now); }
  }

  /**
   A fresh start whose journal says PUBLISHED while its candidate is still staged: the loader and the
   verifiers accept it, and no run ends with a canonical database.
   */
  lemma AheadExample(db: Sqlite) returns (s: Store)
    requires db.read(map[Main := 0]) == Some(Table(Schema14, []))
    ensures Trusted(db, s) && !InStep(s.pending.value, s.files)
    ensures Readable(s) && forall n: nat :: !MigratedAsRecorded(s.pending.value, Run(s, n))
  {
    var history := HistoryOf(db.json, Table(Schema14, []));
    var j := Journal(1, Published, None, false, map[], map[], Candidate(1), Fingerprint(0, 0), history, [], true,
                     Created, false);
    s := Store(map[Candidate(1) := Fingerprint(0, 0)], {ArchiveDir(1)}, Some(j), map[]);
    NothingPlanned(1);
    hide PlannedMoves;
    RecordReadable(s);
    forall n: nat ensures !MigratedAsRecorded(j, Run(s, n)) {
      OutOfStepRuns(db, s, n);
    }
  }

  // ---------------------------------------------------------------- when an action is refused

  /** Move i is the next one. */
  ghost predicate NextMove(j: Journal, i: nat) {
    i < |j.moves| && !j.moves[i].done && forall k :: 0 <= k < i ==> j.moves[k].done
  }

  /** An announced move finds a file that is not the recorded one, or its destination taken. */
  ghost predicate MoveBlocked(j: Journal, files: Files, m: Move) {
    && m.intent && m.source in files && m.name in j.sources && m.suffix in j.sources[m.name]
    && (m.destination in files || files[m.source] != j.sources[m.name][m.suffix])
  }

  /** The canonical bundle lacks its main file. */
  ghost predicate HeadlessCanonical(files: Files) {
    Live(Canonical, Main) !in files && exists x: Suffix :: Live(Canonical, x) in files
  }

  ghost predicate CanonicalAs(files: Files, bundle: Bundle) {
    forall x: Suffix ::
      if x in bundle then Holds(files, Live(Canonical, x), bundle[x]) else Live(Canonical, x) !in files
  }

  /** The announced publication finds another canonical bundle than it may establish or replace. */
  ghost predicate PublicationBlocked(j: Journal, files: Files) {
    if j.retained then
      HeadlessCanonical(files) || Canonical !in j.sources || !CanonicalAs(files, j.sources[Canonical])
    else if j.candidate in files then exists x: Suffix :: Live(Canonical, x) in files
    else !Holds(files, Live(Canonical, Main), j.candidateFingerprint)
  }

  lemma FirstIs(moves: seq<Move>, i: nat)
    requires i < |moves| && !moves[i].done && forall k :: 0 <= k < i ==> moves[k].done
    ensures FirstUndone(moves) == i
  {
  }

  lemma BundleIs(files: Files, bundle: Bundle)
    ensures BundleAt(files, Canonical) == bundle <==> CanonicalAs(files, bundle)
    ensures BundleAt(files, Canonical) == map[] <==> forall x: Suffix :: Live(Canonical, x) !in files
  {
    if CanonicalAs(files, bundle) {
      assert forall x: Suffix :: x in bundle <==> Live(Canonical, x) in files;
    }
  }

  lemma PublishRefusedIff(s: Store, j: Journal)
    ensures Publish(s, j).Refused? <==> j.publicationIntent && PublicationBlocked(j, s.files)
  {
    OrphanMeans(s.files);
    BundleIs(s.files, if Canonical in j.sources then j.sources[Canonical] else map[]);
    hide Orphaned, BundleAt, CanonicalAs, HeadlessCanonical;
  }

  /**
   A resume is refused in the middle only to keep a file from being overwritten or a wrong one from being
   archived or published: at an announced move or an announced publication that the disk does not fit.
   */
  lemma RefusedIff(s: Store)
    requires Readable(s) && s.pending.Some?
    ensures var j := s.pending.value;
            Next(s).Refused? <==>
            && j.phase != Prepared
            && ((exists i: nat :: NextMove(j, i) && MoveBlocked(j, s.files, j.moves[i]))
                || ((forall m :: m in j.moves ==> m.done)
                    && j.phase == Retiring && j.publicationIntent && PublicationBlocked(j, s.files)))
  {
    var j := s.pending.value;
    hide Publish, Close, PublicationBlocked;
    PublishRefusedIff(s, j);
    CloseGoesOn(s, j);
    var first := FirstUndone(j.moves);
    forall i: nat | NextMove(j, i) ensures i == first { FirstIs(j.moves, i); }
    if first < |j.moves| {
      assert j.moves[first] in j.moves && NextMove(j, first);
    } else {
      assert forall m :: m in j.moves ==> m.done;
    }
  }

  lemma CloseGoesOn(s: Store, j: Journal)
    ensures Close(s, j).Continue?
  {
  }

  lemma HeadIn(moves: seq<Move>)
    ensures moves == [] || moves[0] in moves
  {
  }

  lemma NothingPlanned(id: nat)
    ensures PlannedMoves(id, map[], false) == []
  {
    HeadIn(PlannedMoves(id, map[], false));
  }
}
