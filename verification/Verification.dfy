/**
 What the recovery verifiers check (`_verify_recovery_layout` and `_verify_recovery`,
 memory/preparation.py), told from the journal record and the disk alone: a restart that is not
 refused finds every recorded original, the publication and the snapshots where the record says.
 */
module Verification {
  import opened Wrappers
  import opened RowDigest
  import opened Knowledge

  /** The file is there, with this fingerprint. */
  ghost predicate Holds(files: Files, path: Path, fingerprint: Fingerprint) {
    path in files && files[path] == fingerprint
  }

  /** The published candidate is the active canonical database. */
  ghost predicate CandidateLive(j: Journal, files: Files) {
    j.publicationIntent && Holds(files, Live(Canonical, Main), j.candidateFingerprint)
  }

  /**
   A displaced original has its recorded fingerprint at its live path, or in the archive once its move
   was announced.  The other path is free, or holds the published candidate.
   */
  ghost predicate OriginalPlaced(j: Journal, files: Files, m: Move)
    requires m.name in j.sources && m.suffix in j.sources[m.name]
  {
    var live, archived := Live(m.name, m.suffix), Original(j.id, m.name, m.suffix);
    var recorded := j.sources[m.name][m.suffix];
    || (!m.done && Holds(files, live, recorded) && archived !in files)
    || (m.intent && Holds(files, archived, recorded)
        && (live !in files || (m.name == Canonical && m.suffix == Main && CandidateLive(j, files))))
  }

  ghost predicate OriginalsPlaced(j: Journal, files: Files) {
    forall m :: m in j.moves ==> m.name in j.sources && m.suffix in j.sources[m.name] && OriginalPlaced(j, files, m)
  }

  /** Every other active file is recorded, or is the published candidate. */
  ghost predicate NothingElseLive(j: Journal, files: Files) {
    forall name, x :: Live(name, x) in files ==>
      (name in j.sources && x in j.sources[name]) || (name == Canonical && x == Main && CandidateLive(j, files))
  }

  /** A retained canonical bundle is the recorded one. */
  ghost predicate RetainedAsRecorded(j: Journal, files: Files) {
    j.retained ==>
      && Canonical in j.sources
      && forall x: Suffix ::
           if x in j.sources[Canonical] then Holds(files, Live(Canonical, x), j.sources[Canonical][x])
           else Live(Canonical, x) !in files
  }

  /**
   The candidate is staged, as recorded, over no canonical database but one that waits for its move; or
   it is installed alone.
   */
  ghost predicate CandidatePlaced(j: Journal, files: Files) {
    if Candidate(j.id) in files then
      && files[Candidate(j.id)] == j.candidateFingerprint
      && (!j.retained && Live(Canonical, Main) in files ==>
            exists m :: m in j.moves && m.name == Canonical && m.suffix == Main && !m.done)
    else
      !j.retained && CandidateLive(j, files) && forall x: Suffix :: x != Main ==> Live(Canonical, x) !in files
  }

  /** The content reads as a database of this history. */
  ghost predicate Reads(db: Sqlite, content: nat, history: History) {
    exists table :: db.read(map[Main := content]) == Some(table) && HistoryOf(db.json, table) == history
  }

  /** The snapshots are as recorded, and read as the histories they were taken of. */
  ghost predicate SnapshotsRead(db: Sqlite, j: Journal, files: Files) {
    forall name :: name in j.snapshots ==>
      var snapshot := j.snapshots[name];
      && Holds(files, Snapshot(j.id, name), snapshot.fingerprint)
      && Reads(db, snapshot.fingerprint.content, snapshot.history)
  }

  /** Everything the record promises about the disk. */
  ghost predicate Evident(db: Sqlite, j: Journal, files: Files) {
    && OriginalsPlaced(j, files) && NothingElseLive(j, files)
    && RetainedAsRecorded(j, files) && CandidatePlaced(j, files)
    && SnapshotsRead(db, j, files) && Reads(db, j.candidateFingerprint.content, j.history)
  }

  // ---------------------------------------------------------------- what the loader checks of the moves

  /** A move of an accepted journal is the retirement of a recorded file that is not the retained winner's. */
  ghost predicate Retires(j: Journal, m: Move) {
    && m.name in j.sources && m.suffix in j.sources[m.name] && !(j.retained && m.name == Canonical)
    && m.source == Live(m.name, m.suffix) && m.destination == Original(j.id, m.name, m.suffix)
    && (m.done ==> m.intent)
  }

  /** Move i is the planned one, flags aside. */
  lemma AsPlanned(j: Journal, i: nat)
    requires JournalAccepted(j) && i < |j.moves|
    ensures var planned := PlannedMoves(j.id, j.sources, j.retained);
            && |planned| == |j.moves| && j.moves[i].(intent := false, done := false) == planned[i]
            && (j.moves[i].done ==> j.moves[i].intent)
  {
    hide PlannedMoves;
  }

  lemma MoveRetires(j: Journal, i: nat)
    requires JournalAccepted(j) && i < |j.moves|
    ensures Retires(j, j.moves[i])
  {
    hide JournalAccepted, PlannedMoves;
    AsPlanned(j, i);
    PlannedMovesExact(j.id, j.sources, j.retained);
    assert PlannedMoves(j.id, j.sources, j.retained)[i] in PlannedMoves(j.id, j.sources, j.retained);
  }

  lemma MoveFor(j: Journal, name: Source, x: Suffix) returns (i: nat)
    requires JournalAccepted(j) && name in j.sources && x in j.sources[name] && !(j.retained && name == Canonical)
    ensures i < |j.moves| && j.moves[i].name == name && j.moves[i].suffix == x
  {
    hide JournalAccepted, PlannedMoves;
    var planned := PlannedMoves(j.id, j.sources, j.retained);
    PlannedMovesExact(j.id, j.sources, j.retained);
    assert Displaced(j.sources, j.retained, (name, x));
    i :| 0 <= i < |planned| && planned[i] == PlannedMove(j.id, (name, x));
    if j.moves == [] {
      NoMoves(j);
    } else {
      AsPlanned(j, 0);
      AsPlanned(j, i);
    }
  }

  lemma NoMoves(j: Journal)
    requires JournalAccepted(j) && j.moves == []
    ensures PlannedMoves(j.id, j.sources, j.retained) == []
  {
    hide PlannedMoves;
  }

  lemma MovesDiffer(j: Journal, i: nat, k: nat)
    requires JournalAccepted(j) && i < k < |j.moves|
    ensures j.moves[i].name != j.moves[k].name || j.moves[i].suffix != j.moves[k].suffix
  {
    hide JournalAccepted, PlannedMoves;
    AsPlanned(j, i);
    AsPlanned(j, k);
    MoveRetires(j, i);
    MoveRetires(j, k);
    PlannedMovesDistinct(j.id, j.sources, j.retained);
    assert PlannedMoves(j.id, j.sources, j.retained)[i].source != PlannedMoves(j.id, j.sources, j.retained)[k].source;
  }

  /** The moves of an accepted journal retire each displaced file, and each once. */
  lemma AcceptedMovesRetire(j: Journal)
    requires JournalAccepted(j)
    ensures forall m :: m in j.moves ==> Retires(j, m)
    ensures forall name, x :: name in j.sources && x in j.sources[name] && !(j.retained && name == Canonical) ==>
              exists m :: m in j.moves && m.name == name && m.suffix == x
    ensures forall i, k :: 0 <= i < k < |j.moves| ==>
              j.moves[i].name != j.moves[k].name || j.moves[i].suffix != j.moves[k].suffix
  {
    hide JournalAccepted, Retires;
    forall m | m in j.moves ensures Retires(j, m) {
      var i :| 0 <= i < |j.moves| && j.moves[i] == m;
      MoveRetires(j, i);
    }
    forall name, x | name in j.sources && x in j.sources[name] && !(j.retained && name == Canonical)
      ensures exists m :: m in j.moves && m.name == name && m.suffix == x
    {
      var i := MoveFor(j, name, x);
      assert j.moves[i] in j.moves;
    }
    forall i, k | 0 <= i < k < |j.moves|
      ensures j.moves[i].name != j.moves[k].name || j.moves[i].suffix != j.moves[k].suffix
    {
      MovesDiffer(j, i, k);
    }
  }

  // ---------------------------------------------------------------- what the verifiers mean

  lemma MoveMeans(j: Journal, files: Files, m: Move)
    requires Retires(j, m)
    ensures MoveProven(j, files, m) <==> OriginalPlaced(j, files, m)
  {
  }

  lemma MovesMean(j: Journal, files: Files)
    requires JournalAccepted(j)
    ensures forall m :: m in j.moves ==> Recorded(j, m)
    ensures (forall i :: 0 <= i < |j.moves| ==> MoveProven(j, files, j.moves[i])) <==> OriginalsPlaced(j, files)
  {
    hide JournalAccepted, MoveProven, OriginalPlaced;
    AcceptedMovesRetire(j);
    forall m | m in j.moves ensures MoveProven(j, files, m) <==> OriginalPlaced(j, files, m) {
      MoveMeans(j, files, m);
    }
    forall i | 0 <= i < |j.moves| ensures j.moves[i] in j.moves {
    }
  }

  lemma CompanionsMean(j: Journal, files: Files)
    ensures NoUnexpectedCompanion(j, files) <==> NothingElseLive(j, files)
  {
  }

  lemma CanonicalMoveMeans(j: Journal)
    requires JournalAccepted(j)
    ensures var move := FirstCanonicalMain(j.moves);
            (move.Some? && !move.value.done) <==>
              exists m :: m in j.moves && m.name == Canonical && m.suffix == Main && !m.done
  {
    hide JournalAccepted;
    AcceptedMovesRetire(j);
  }

  lemma RetainedMeans(j: Journal, files: Files)
    requires JournalAccepted(j) && j.retained
    ensures Canonical in j.sources && Main in j.sources[Canonical]
    ensures BundleAt(files, Canonical) == j.sources[Canonical] <==> RetainedAsRecorded(j, files)
    ensures RetainedAsRecorded(j, files) ==> !Orphaned(BundleAt(files, Canonical))
  {
  }

  lemma OrphanMeans(files: Files)
    ensures Orphaned(BundleAt(files, Canonical)) <==>
            Live(Canonical, Main) !in files && exists x: Suffix :: Live(Canonical, x) in files
  {
    if x: Suffix :| Live(Canonical, x) in files {
      assert x in BundleAt(files, Canonical);
    } else {
      assert BundleAt(files, Canonical) == map[];
    }
  }

  /** The fault of a disk whose originals are placed, with nothing else active. */
  ghost function LayoutFault(j: Journal, files: Files): Problem {
    if j.retained then
      if Live(Canonical, Main) !in files && (exists x: Suffix :: Live(Canonical, x) in files) then OrphanSidecar
      else RetainedWinnerChanged
    else if Candidate(j.id) !in files then PublicationUnverified
    else if files[Candidate(j.id)] != j.candidateFingerprint then CandidateUnverified
    else UnexpectedCanonical
  }

  /** The two checks that come first. */
  lemma EarlyMeans(j: Journal, files: Files)
    requires JournalAccepted(j)
    ensures forall m :: m in j.moves ==> Recorded(j, m)
    ensures !OriginalsPlaced(j, files) ==> LayoutProblem(j, files) == Some(RetirementUnverified)
    ensures OriginalsPlaced(j, files) && !NothingElseLive(j, files) ==>
              LayoutProblem(j, files) == Some(UnexpectedCompanion)
  {
    MovesMean(j, files);
    CompanionsMean(j, files);
    hide JournalAccepted, MoveProven, OriginalsPlaced, NothingElseLive, NoUnexpectedCompanion, FirstCanonicalMain,
      BundleAt, Matches, Orphaned;
  }

  /** The record's promise about the canonical bundle, once the originals and their companions are as recorded. */
  ghost predicate Proceeds(j: Journal, files: Files)
    requires forall m :: m in j.moves ==> Recorded(j, m)
  {
    LayoutProblem(j, files) ==
    if RetainedAsRecorded(j, files) && CandidatePlaced(j, files) then None else Some(LayoutFault(j, files))
  }

  lemma RetainedProceeds(j: Journal, files: Files)
    requires JournalAccepted(j) && j.retained && OriginalsPlaced(j, files) && NothingElseLive(j, files)
    ensures forall m :: m in j.moves ==> Recorded(j, m)
    ensures Proceeds(j, files)
  {
    assert j.candidate == Candidate(j.id);
    MovesMean(j, files);
    CompanionsMean(j, files);
    RetainedMeans(j, files);
    OrphanMeans(files);
    hide JournalAccepted, MoveProven, OriginalsPlaced, NothingElseLive, NoUnexpectedCompanion, FirstCanonicalMain,
      BundleAt, Orphaned, RetainedAsRecorded;
  }

  lemma StagedProceeds(j: Journal, files: Files)
    requires JournalAccepted(j) && !j.retained && OriginalsPlaced(j, files) && NothingElseLive(j, files)
    requires Candidate(j.id) in files
    ensures forall m :: m in j.moves ==> Recorded(j, m)
    ensures Proceeds(j, files)
  {
    assert j.candidate == Candidate(j.id);
    MovesMean(j, files);
    CompanionsMean(j, files);
    CanonicalMoveMeans(j);
    hide JournalAccepted, MoveProven, OriginalsPlaced, NothingElseLive, NoUnexpectedCompanion, FirstCanonicalMain,
      BundleAt, Orphaned, CandidateLive, Matches;
  }

  lemma InstalledProceeds(j: Journal, files: Files)
    requires JournalAccepted(j) && !j.retained && OriginalsPlaced(j, files) && NothingElseLive(j, files)
    requires Candidate(j.id) !in files
    ensures forall m :: m in j.moves ==> Recorded(j, m)
    ensures Proceeds(j, files)
  {
    assert j.candidate == Candidate(j.id);
    MovesMean(j, files);
    CompanionsMean(j, files);
    hide JournalAccepted, MoveProven, OriginalsPlaced, NothingElseLive, NoUnexpectedCompanion, FirstCanonicalMain,
      BundleAt, Orphaned;
  }

  /** The layout verifier accepts exactly the disks the record describes. */
  lemma LayoutMeans(j: Journal, files: Files)
    requires JournalAccepted(j)
    ensures forall m :: m in j.moves ==> Recorded(j, m)
    ensures LayoutProblem(j, files).None? <==>
            && OriginalsPlaced(j, files) && NothingElseLive(j, files)
            && RetainedAsRecorded(j, files) && CandidatePlaced(j, files)
    ensures OriginalsPlaced(j, files) && NothingElseLive(j, files) ==> Proceeds(j, files)
  {
    EarlyMeans(j, files);
    hide JournalAccepted, OriginalsPlaced, NothingElseLive, LayoutProblem, RetainedAsRecorded, CandidatePlaced;
    if OriginalsPlaced(j, files) && NothingElseLive(j, files) {
      if j.retained {
        RetainedProceeds(j, files);
      } else if Candidate(j.id) in files {
        StagedProceeds(j, files);
      } else {
        InstalledProceeds(j, files);
      }
    }
  }

  lemma SnapshotMeans(db: Sqlite, files: Files, snapshot: SnapshotRecord)
    ensures SnapshotProven(db, files, snapshot) <==>
            Holds(files, snapshot.path, snapshot.fingerprint)
            && Reads(db, snapshot.fingerprint.content, snapshot.history)
  {
  }

  lemma SnapshotsMean(db: Sqlite, j: Journal, files: Files)
    requires JournalAccepted(j)
    ensures (forall name :: name in j.snapshots ==> SnapshotProven(db, files, j.snapshots[name])) <==>
            SnapshotsRead(db, j, files)
  {
    forall name | name in j.snapshots
      ensures SnapshotProven(db, files, j.snapshots[name]) <==>
              Holds(files, Snapshot(j.id, name), j.snapshots[name].fingerprint)
              && Reads(db, j.snapshots[name].fingerprint.content, j.snapshots[name].history)
    {
      SnapshotMeans(db, files, j.snapshots[name]);
    }
  }

  lemma PublicationMeans(db: Sqlite, j: Journal, files: Files)
    requires j.candidate == Candidate(j.id) && CandidatePlaced(j, files)
    ensures PublicationProven(db, j, files) <==> Reads(db, j.candidateFingerprint.content, j.history)
  {
  }

  /**
   A restart with an accepted journal is refused by the verifiers exactly when the disk is not as the
   record says.
   */
  lemma VerifiersMean(db: Sqlite, j: Journal, files: Files)
    requires JournalAccepted(j)
    ensures forall m :: m in j.moves ==> Recorded(j, m)
    ensures RecoveryProblem(db, j, files).None? <==> Evident(db, j, files)
  {
    assert j.candidate == Candidate(j.id);
    LayoutMeans(j, files);
    SnapshotsMean(db, j, files);
    hide JournalAccepted, LayoutProblem, SnapshotProven, PublicationProven, OriginalsPlaced, NothingElseLive,
      RetainedAsRecorded, CandidatePlaced, SnapshotsRead, Reads;
    if CandidatePlaced(j, files) { PublicationMeans(db, j, files); }
  }

  /** Which problem is reported: the first of the checks that fails. */
  lemma ProblemsMean(db: Sqlite, j: Journal, files: Files)
    requires JournalAccepted(j)
    ensures forall m :: m in j.moves ==> Recorded(j, m)
    ensures var problem := RecoveryProblem(db, j, files);
            && (!OriginalsPlaced(j, files) ==> problem == Some(RetirementUnverified))
            && (OriginalsPlaced(j, files) && !NothingElseLive(j, files) ==> problem == Some(UnexpectedCompanion))
            && (OriginalsPlaced(j, files) && NothingElseLive(j, files) && LayoutProblem(j, files).Some? ==>
                  problem == Some(LayoutFault(j, files)))
            && (LayoutProblem(j, files).None? && !SnapshotsRead(db, j, files) ==> problem == Some(SnapshotUnverified))
            && (LayoutProblem(j, files).None? && SnapshotsRead(db, j, files) && problem.Some? ==>
                  problem == Some(CandidateUnverified))
  {
    EarlyMeans(j, files);
    LayoutMeans(j, files);
    SnapshotsMean(db, j, files);
    hide JournalAccepted, LayoutProblem, OriginalsPlaced, NothingElseLive, RetainedAsRecorded, CandidatePlaced,
      SnapshotProven, SnapshotsRead, PublicationProven, LayoutFault;
  }
}
