/**
 Theorems about crash recovery: from a durable PREPARED journal, in every state a crash can leave,
 the journal validator and both recovery verifiers accept the disk, and resuming reaches one final disk.
 */
module Recoverable {
  import opened Wrappers
  import opened Knowledge
  import opened Recovery
  import opened Stages

  function StageNo(n: nat, retained: bool, k: nat): (stage: Stage)
    ensures InRange(stage, n)
    ensures stage.Installed? ==> !retained
    ensures var total := ActionsLeft(Ready, n, retained);
            ActionsLeft(stage, n, retained) == if k < total then total - k else 0
    ensures stage.Cleared? <==> k >= ActionsLeft(Ready, n, retained)
  {
    if k == 0 then Ready else After(StageNo(n, retained, k - 1), n, retained)
  }

  function StageAfter(s: Store, k: nat): Stage
    requires s.pending.Some?
  {
    StageNo(|s.pending.value.moves|, s.pending.value.retained, k)
  }

  function Total(s: Store): nat
    requires s.pending.Some?
  {
    ActionsLeft(Ready, |s.pending.value.moves|, s.pending.value.retained)
  }

  lemma AtReady(s: Store)
    requires s.pending.Some? && Staged(s.pending.value, s.files)
    ensures At(s, Ready) == s
  {
    var j := s.pending.value;
    forall i | 0 <= i < |j.moves| ensures Flagged(j.moves, 0, 0)[i] == j.moves[i] {
      assert j.moves[i] in j.moves;
    }
    assert Flagged(j.moves, 0, 0) == j.moves;
  }

  /** The disk after k durable actions is the disk of the k-th stage. */
  lemma {:induction false} RunIsAt(s: Store, k: nat)
    requires s.pending.Some? && Staged(s.pending.value, s.files) && s.pending.value.id !in s.manifests
    ensures Readable(s) && Run(s, k) == At(s, StageAfter(s, k))
    decreases k
  {
    AtReady(s);
    NextIsAfter(s, Ready);
    if k > 0 {
      RunIsAt(s, k - 1);
      RunStep(s, k - 1);
      var stage := StageAfter(s, k - 1);
      if !stage.Cleared? {
        NextIsAfter(s, stage);
      }
    }
  }

  // ---------------------------------------------------------------- the verifiers accept every stage

  lemma JournalAtAccepted(j: Journal, stage: Stage)
    requires JournalAccepted(j) && j.moves == PlannedMoves(j.id, j.sources, j.retained) && InRange(stage, |j.moves|)
    ensures JournalAccepted(JournalAt(j, stage))
  {
  }

  lemma MovesProvenAt(j: Journal, files: Files, stage: Stage)
    requires Staged(j, files) && InRange(stage, |j.moves|) && !stage.Cleared?
    ensures AllRecorded(JournalAt(j, stage))
    ensures var here := JournalAt(j, stage);
            forall i :: 0 <= i < |here.moves| ==> MoveProven(here, FilesAt(files, j, stage), here.moves[i])
  {
    DiskAtStage(j, files, stage);
    JournalAtReadable(j, stage);
    var f, here := FilesAt(files, j, stage), JournalAt(j, stage);
    forall i | 0 <= i < |here.moves| ensures MoveProven(here, f, here.moves[i]) {
      assert MoveAt(j, stage, f, j.moves[i], i);
      assert here.moves[i] in here.moves;
    }
  }

  lemma NoCompanionAt(j: Journal, files: Files, stage: Stage)
    requires Staged(j, files) && InRange(stage, |j.moves|)
    ensures NoUnexpectedCompanion(JournalAt(j, stage), FilesAt(files, j, stage))
  {
    DiskAtStage(j, files, stage);
    var f := FilesAt(files, j, stage);
    forall name, x | (name !in j.sources || x !in j.sources[name]) && Live(name, x) in f
      ensures name == Canonical && x == Main && Publicized(stage) && Matches(f, Live(name, x), j.candidateFingerprint)
    {
      assert !Displaced(j.sources, j.retained, (name, x));
    }
  }

  /** While the candidate is staged, an active canonical main file is one whose move is not done. */
  /** The canonical main file has one planned move. */
  lemma CanonicalMainMove(j: Journal, files: Files) returns (i: nat)
    requires Staged(j, files) && Displaced(j.sources, j.retained, (Canonical, Main))
    ensures i < |j.moves| && j.moves[i] == PlannedMove(j.id, (Canonical, Main))
    ensures forall k :: 0 <= k < |j.moves| && CanonicalMain(j.moves[k]) ==> k == i
  {
    assert PlannedMove(j.id, (Canonical, Main)) in j.moves;
    i :| 0 <= i < |j.moves| && j.moves[i] == PlannedMove(j.id, (Canonical, Main));
    forall k | 0 <= k < |j.moves| && CanonicalMain(j.moves[k]) ensures k == i {
      assert j.moves[k] in j.moves && PlannedFrom(j, files, j.moves[k]);
    }
  }

  lemma FirstCanonicalMainAt(j: Journal, stage: Stage, i: nat)
    requires i < |j.moves| && CanonicalMain(j.moves[i])
    requires forall k :: 0 <= k < |j.moves| && CanonicalMain(j.moves[k]) ==> k == i
    ensures |JournalAt(j, stage).moves| == |j.moves|
    ensures FirstCanonicalMain(JournalAt(j, stage).moves) == Some(JournalAt(j, stage).moves[i])
  {
    var here := JournalAt(j, stage);
    assert here.moves[i] in here.moves && CanonicalMain(here.moves[i]);
    var move := FirstCanonicalMain(here.moves);
    var k :| 0 <= k < |here.moves| && here.moves[k] == move.value;
    assert CanonicalMain(j.moves[k]);
  }

  /** While the candidate is staged, an active canonical main file is one whose move is not done. */
  lemma StagedCanonicalAt(j: Journal, files: Files, stage: Stage)
    requires Staged(j, files) && InRange(stage, |j.moves|) && !j.retained && !CandidateGone(stage, j.retained)
    requires Live(Canonical, Main) in FilesAt(files, j, stage)
    ensures var move := FirstCanonicalMain(JournalAt(j, stage).moves); move.Some? && !move.value.done
  {
    DiskAtStage(j, files, stage);
    assert Displaced(j.sources, j.retained, (Canonical, Main));
    var i := CanonicalMainMove(j, files);
    assert MoveAt(j, stage, FilesAt(files, j, stage), j.moves[i], i);
    FirstCanonicalMainAt(j, stage, i);
  }

  lemma LayoutAcceptedAt(j: Journal, files: Files, stage: Stage)
    requires Staged(j, files) && InRange(stage, |j.moves|) && !stage.Cleared?
    ensures AllRecorded(JournalAt(j, stage))
    ensures LayoutProblem(JournalAt(j, stage), FilesAt(files, j, stage)) == None
  {
    MovesProvenAt(j, files, stage);
    NoCompanionAt(j, files, stage);
    DiskAtStage(j, files, stage);
    var f := FilesAt(files, j, stage);
    if j.retained {
      RetainedBundleAt(j, files, stage);
    } else if CandidateGone(stage, j.retained) {
      CanonicalAt(j, files, stage);
      var bundle := BundleAt(f, Canonical);
      assert forall x: Suffix :: x != Main ==> x !in bundle;
    } else if Live(Canonical, Main) in f {
      StagedCanonicalAt(j, files, stage);
    }
  }

  /** A retained canonical bundle is never touched. */
  lemma RetainedBundleAt(j: Journal, files: Files, stage: Stage)
    requires Staged(j, files) && InRange(stage, |j.moves|) && j.retained
    ensures BundleAt(FilesAt(files, j, stage), Canonical) == j.sources[Canonical]
  {
    DiskAtStage(j, files, stage);
    forall x ensures x in BundleAt(FilesAt(files, j, stage), Canonical) <==> x in j.sources[Canonical] {
      assert !Displaced(j.sources, j.retained, (Canonical, x));
    }
  }

  // ---------------------------------------------------------------- main results

  /** A restart on this disk is not refused: the journal loads and both verifiers find no problem. */
  predicate Accepts(db: Sqlite, s: Store) {
    s.pending.Some? ==>
      && JournalAccepted(s.pending.value)
      && AllRecorded(s.pending.value)
      && RecoveryProblem(db, s.pending.value, s.files) == None
  }

  /** The snapshots and the publication validate to the recorded histories at every stage. */
  lemma EvidenceAt(db: Sqlite, j: Journal, files: Files, stage: Stage)
    requires Staged(j, files) && InRange(stage, |j.moves|)
    requires Validate(db, map[Main := j.candidateFingerprint.content]) == Ok(j.history)
    requires forall name :: name in j.snapshots ==> SnapshotProven(db, files, j.snapshots[name])
    ensures forall name :: name in j.snapshots ==> SnapshotProven(db, FilesAt(files, j, stage), j.snapshots[name])
    ensures PublicationProven(db, JournalAt(j, stage), FilesAt(files, j, stage))
  {
    DiskAtStage(j, files, stage);
    var f := FilesAt(files, j, stage);
    forall name | name in j.snapshots ensures SnapshotProven(db, f, j.snapshots[name]) {
      assert SnapshotProven(db, files, j.snapshots[name]);
    }
    if CandidateGone(stage, j.retained) {
      CanonicalAt(j, files, stage);
      var bundle := BundleAt(f, Canonical);
      assert forall x: Suffix :: x != Main ==> x !in bundle;
    }
  }

  lemma AcceptsAt(db: Sqlite, s: Store, stage: Stage)
    requires WellPrepared(db, s) && InRange(stage, |s.pending.value.moves|) && !stage.Cleared?
    ensures Accepts(db, At(s, stage))
  {
    hide Staged, JournalAt, FilesAt, JournalAccepted, LayoutProblem, PublicationProven;
    var j := s.pending.value;
    PreparedIsStaged(db, s);
    JournalAtAccepted(j, stage);
    LayoutAcceptedAt(j, s.files, stage);
    EvidenceAt(db, j, s.files, stage);
    SameSnapshots(j, stage);
  }

  lemma SameSnapshots(j: Journal, stage: Stage)
    requires InRange(stage, |j.moves|)
    ensures JournalAt(j, stage).snapshots == j.snapshots
  {
  }

  /** Recoverability: no disk a crash leaves behind is refused by a restart, and no action ever is. */
  lemma Recoverability(db: Sqlite, s: Store, k: nat)
    requires WellPrepared(db, s)
    ensures Readable(s)
    ensures Accepts(db, Run(s, k))
    ensures !Next(Run(s, k)).Refused?
    ensures Next(Run(s, k)).Finished? <==> k >= Total(s)
  {
    PreparedIsStaged(db, s);
    RunIsAt(s, k);
    var stage := StageAfter(s, k);
    if !stage.Cleared? {
      AcceptsAt(db, s, stage);
      NextIsAfter(s, stage);
    }
  }

  /** Every original is archived, with its snapshot, and the winner alone is canonical. */
  ghost predicate FinalFiles(j: Journal, f: Files) {
    && BundleAt(f, Legacy) == map[]
    && (j.retained ==> Canonical in j.sources)
    && BundleAt(f, Canonical) == (if j.retained then j.sources[Canonical] else map[Main := j.candidateFingerprint])
    && (forall m :: m in j.moves ==> Recorded(j, m) && Matches(f, m.destination, j.sources[m.name][m.suffix]))
    && SnapshotsAt(j, f)
  }

  /** The disk every completed migration ends in, written from the prepared disk alone. */
  ghost predicate IsFinal(s: Store, f: Store)
    requires s.pending.Some?
  {
    var j := s.pending.value;
    && f.pending == None && f.dirs == s.dirs
    && j.id in f.manifests && f.manifests[j.id].phase == Completed
    && f.manifests - {j.id} == s.manifests
    && FinalFiles(j, f.files)
  }

  lemma FinalFilesAt(j: Journal, files: Files)
    requires Staged(j, files)
    ensures FinalFiles(j, FilesAt(files, j, Cleared))
  {
    CanonicalAt(j, files, Cleared);
    DiskAtStage(j, files, Cleared);
    var f := FilesAt(files, j, Cleared);
    hide FilesAt;
    forall m | m in j.moves ensures Recorded(j, m) && Matches(f, m.destination, j.sources[m.name][m.suffix]) {
      var i :| 0 <= i < |j.moves| && j.moves[i] == m;
      assert MoveAt(j, Cleared, f, j.moves[i], i);
    }
  }

  lemma FinalAt(s: Store)
    requires s.pending.Some? && Staged(s.pending.value, s.files) && s.pending.value.id !in s.manifests
    ensures IsFinal(s, At(s, Cleared))
  {
    hide Staged, FinalFiles, FilesAt;
    var j := s.pending.value;
    FinalFilesAt(j, s.files);
    AddedAlone(s.manifests, j.id, JournalAt(j, Closed));
  }

  lemma AddedAlone<K, V>(m: map<K, V>, key: K, value: V)
    requires key !in m
    ensures m[key := value] - {key} == m
  {
  }

  /** A run that has taken every action is in the final disk. */
  lemma Finality(db: Sqlite, s: Store, k: nat)
    requires WellPrepared(db, s) && k >= Total(s)
    ensures Readable(s) && IsFinal(s, Run(s, k))
  {
    PreparedIsStaged(db, s);
    RunIsAt(s, k);
    FinalAt(s);
  }

  lemma StagedConverges(s: Store, k: nat, n: nat)
    requires s.pending.Some? && Staged(s.pending.value, s.files) && s.pending.value.id !in s.manifests
    requires k + n >= Total(s)
    ensures Readable(s) && Run(Run(s, k), n) == At(s, Cleared)
  {
    hide Step, Next, Run, At;
    RunIsAt(s, k + n);
    AtReady(s);
    NextIsAfter(s, Ready);
    RunSplit(s, k, n);
  }

  /** Convergence: from every crash state, resuming to the end gives the one final disk. */
  lemma Convergence(db: Sqlite, s: Store, k: nat, n: nat)
    requires WellPrepared(db, s)
    requires k + n >= Total(s)
    ensures Readable(s) && IsFinal(s, Run(Run(s, k), n))
  {
    PreparedIsStaged(db, s);
    StagedConverges(s, k, n);
    FinalAt(s);
  }

  /** At every stage a displaced original is, unchanged, at exactly one of its two places. */
  lemma ConservationAt(j: Journal, files: Files, stage: Stage, name: Source, x: Suffix)
    requires Staged(j, files) && InRange(stage, |j.moves|) && DistinctInodes(files)
    requires Displaced(j.sources, j.retained, (name, x))
    ensures var f := FilesAt(files, j, stage); var original := j.sources[name][x];
            Matches(f, Live(name, x), original) <==> !Matches(f, Original(j.id, name, x), original)
  {
    DiskAtStage(j, files, stage);
    assert PlannedMove(j.id, (name, x)) in j.moves;
    var i :| 0 <= i < |j.moves| && j.moves[i] == PlannedMove(j.id, (name, x));
    assert MoveAt(j, stage, FilesAt(files, j, stage), j.moves[i], i);
    assert PlannedFrom(j, files, j.moves[i]);
    assert files[j.candidate].inode != files[Live(name, x)].inode;
  }

  /** Conservation: in every crash state a displaced original is, unchanged, at exactly one of its two places. */
  lemma Conservation(db: Sqlite, s: Store, k: nat, name: Source, x: Suffix)
    requires WellPrepared(db, s)
    requires Displaced(s.pending.value.sources, s.pending.value.retained, (name, x))
    ensures Readable(s)
    ensures var j := s.pending.value; var f := Run(s, k).files; var original := j.sources[name][x];
            Matches(f, Live(name, x), original) <==> !Matches(f, Original(j.id, name, x), original)
  {
    PreparedIsStaged(db, s);
    RunIsAt(s, k);
    ConservationAt(s.pending.value, s.files, StageAfter(s, k), name, x);
  }

  /** The retained winner is the same bundle in every crash state. */
  lemma RetainedUntouched(db: Sqlite, s: Store, k: nat)
    requires WellPrepared(db, s) && s.pending.value.retained
    ensures Readable(s) && Canonical in s.pending.value.sources
    ensures BundleAt(Run(s, k).files, Canonical) == s.pending.value.sources[Canonical]
  {
    PreparedIsStaged(db, s);
    RunIsAt(s, k);
    RetainedBundleAt(s.pending.value, s.files, StageAfter(s, k));
  }
}
