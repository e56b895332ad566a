/**
 The whole life of one migration, from its durable PREPARED journal to the cleared pending file,
 as explicit stages.  `At(s, stage)` writes down the disk at each stage without running anything;
 `RunIsAt` shows that the disks `_resume` passes through are exactly these, so every theorem about
 crash states is a theorem about `At`.
 */
module Stages {
  import opened Wrappers
  import opened RowDigest
  import opened Knowledge
  import opened Recovery

  datatype Stage =
    | Ready            // PREPARED is durable
    | Waiting(k: nat)  // k files retired and recorded
    | Intended(k: nat) // the intent of move k is durable
    | Moved(k: nat)    // file k is archived, its result not yet recorded
    | Announced        // publication intent is durable
    | Installed        // the candidate is the canonical main file
    | Established      // PUBLISHED
    | Closed           // COMPLETED
    | Audited          // the manifest is archived
    | Cleared          // no pending journal

  predicate InRange(stage: Stage, n: nat) {
    match stage
    case Waiting(k) => k <= n
    case Intended(k) => k < n
    case Moved(k) => k < n
    case _ => true
  }

  function After(stage: Stage, n: nat, retained: bool): Stage {
    match stage
    case Ready => Waiting(0)
    case Waiting(k) => if k < n then Intended(k) else Announced
    case Intended(k) => Moved(k)
    case Moved(k) => Waiting(k + 1)
    case Announced => if retained then Established else Installed
    case Installed => Established
    case Established => Closed
    case Closed => Audited
    case Audited => Cleared
    case Cleared => Cleared
  }

  /** Durable actions left until the pending journal is gone. */
  function ActionsLeft(stage: Stage, n: nat, retained: bool): nat
    requires InRange(stage, n)
  {
    var tail := if retained then 5 else 6;
    match stage
    case Ready => 3 * n + tail + 1
    case Waiting(k) => 3 * (n - k) + tail
    case Intended(k) => 3 * (n - k) - 1 + tail
    case Moved(k) => 3 * (n - k) - 2 + tail
    case Announced => tail - 1
    case Installed => 4
    case Established => 3
    case Closed => 2
    case Audited => 1
    case Cleared => 0
  }

  // ---------------------------------------------------------------- the disk at a stage

  function DoneTo(stage: Stage, n: nat): nat {
    match stage
    case Ready => 0
    case Waiting(k) => k
    case Intended(k) => k
    case Moved(k) => k
    case _ => n
  }

  function IntentTo(stage: Stage, n: nat): nat {
    match stage
    case Intended(k) => k + 1
    case Moved(k) => k + 1
    case _ => DoneTo(stage, n)
  }

  function RetiredTo(stage: Stage, n: nat): nat {
    match stage
    case Moved(k) => k + 1
    case _ => DoneTo(stage, n)
  }

  function PhaseAt(stage: Stage): Phase {
    match stage
    case Ready => Prepared
    case Established => Published
    case Closed => Completed
    case Audited => Completed
    case Cleared => Completed
    case _ => Retiring
  }

  predicate Publicized(stage: Stage) {
    !(stage.Ready? || stage.Waiting? || stage.Intended? || stage.Moved?)
  }

  predicate CandidateGone(stage: Stage, retained: bool) {
    !retained && Publicized(stage) && !stage.Announced?
  }

  function Flagged(moves: seq<Move>, intentTo: nat, doneTo: nat): (r: seq<Move>)
    ensures |r| == |moves|
    ensures forall i :: 0 <= i < |r| ==> r[i] == moves[i].(intent := i < intentTo, done := i < doneTo)
  {
    seq(|moves|, i requires 0 <= i < |moves| => moves[i].(intent := i < intentTo, done := i < doneTo))
  }

  function JournalAt(j: Journal, stage: Stage): Journal {
    var n := |j.moves|;
    j.(phase := PhaseAt(stage), publicationIntent := Publicized(stage),
       moves := Flagged(j.moves, IntentTo(stage, n), DoneTo(stage, n)))
  }

  function Retired(files: Files, moves: seq<Move>, m: nat): Files
    requires m <= |moves|
  {
    if m == 0 then files else
      var before := Retired(files, moves, m - 1);
      if moves[m - 1].source in before then Rename(before, moves[m - 1].source, moves[m - 1].destination) else before
  }

  function FilesAt(files: Files, j: Journal, stage: Stage): Files
    requires InRange(stage, |j.moves|)
  {
    var retired := Retired(files, j.moves, RetiredTo(stage, |j.moves|));
    if CandidateGone(stage, j.retained) && j.candidate in retired
    then Rename(retired, j.candidate, Live(Canonical, Main)) else retired
  }

  function At(s: Store, stage: Stage): Store
    requires s.pending.Some? && InRange(stage, |s.pending.value.moves|)
  {
    var j := s.pending.value;
    Store(
      FilesAt(s.files, j, stage),
      s.dirs,
      if stage.Cleared? then None else Some(JournalAt(j, stage)),
      if stage.Audited? || stage.Cleared? then s.manifests[j.id := JournalAt(j, Closed)] else s.manifests)
  }

  // ---------------------------------------------------------------- a durable PREPARED journal

  ghost predicate DistinctInodes(files: Files) {
    forall p, q :: p in files && q in files && p != q ==> files[p].inode != files[q].inode
  }

  /** What the winner's history must be for a retained canonical bundle. */
  predicate RetainedHistory(db: Sqlite, j: Journal) {
    j.retained && Canonical in j.sources ==>
      match Validate(db, Contents(j.sources[Canonical]))
      case Ok(h) => h.schema == Schema14 && h.count == j.history.count && h.digest == j.history.digest
      case Err(_) => false
  }

  ghost predicate CandidateProven(db: Sqlite, files: Files, j: Journal) {
    && Matches(files, j.candidate, j.candidateFingerprint)
    && Validate(db, map[Main := j.candidateFingerprint.content]) == Ok(j.history)
  }

  /** The disk at the moment the PREPARED journal becomes durable. */
  ghost predicate WellPrepared(db: Sqlite, s: Store) {
    s.pending.Some? &&
    var j := s.pending.value;
    && JournalAccepted(j)
    && j.phase == Prepared && !j.publicationIntent
    && j.moves == PlannedMoves(j.id, j.sources, j.retained)
    && (forall name: Source :: BundleAt(s.files, name) == if name in j.sources then j.sources[name] else map[])
    && (j.retained ==> Legacy in j.sources)
    && CandidateProven(db, s.files, j)
    && (forall name :: name in j.snapshots ==> SnapshotProven(db, s.files, j.snapshots[name]))
    && RetainedHistory(db, j)
    && (forall name, x :: Original(j.id, name, x) !in s.files)
    && ArchiveDir(j.id) in s.dirs
    && j.id !in s.manifests
    && DistinctInodes(s.files)
  }

  ghost predicate Pending(files: Files, moves: seq<Move>) {
    forall i :: 0 <= i < |moves| ==> moves[i].source in files && moves[i].destination !in files
  }

  ghost predicate Untouched(moves: seq<Move>, m: nat, p: Path)
    requires m <= |moves|
  {
    forall i :: 0 <= i < m ==> p != moves[i].source && p != moves[i].destination
  }

  /** `r` is `files` with the first `m` sources renamed to their destinations and nothing else changed. */
  ghost predicate FirstMoved(files: Files, moves: seq<Move>, m: nat, r: Files)
    requires m <= |moves| && Pending(files, moves)
  {
    && (forall i :: 0 <= i < m ==> moves[i].source !in r && Matches(r, moves[i].destination, files[moves[i].source]))
    && (forall i :: m <= i < |moves| ==>
          moves[i].destination !in r && Matches(r, moves[i].source, files[moves[i].source]))
    && (forall p {:trigger Untouched(moves, m, p)} :: Untouched(moves, m, p) ==>
          (p in r <==> p in files) && (p in r ==> r[p] == files[p]))
  }

  lemma RenameMovesNext(files: Files, moves: seq<Move>, m: nat, before: Files)
    requires m < |moves| && Disjoint(moves) && Pending(files, moves)
    requires FirstMoved(files, moves, m, before)
    ensures moves[m].source in before
    ensures FirstMoved(files, moves, m + 1, Rename(before, moves[m].source, moves[m].destination))
  {
    var a, b := moves[m].source, moves[m].destination;
    assert Matches(before, a, files[a]);
    var r := Rename(before, a, b);
    forall i | 0 <= i < |moves| && i != m
      ensures moves[i].source != a && moves[i].destination != b && moves[i].source != b && moves[i].destination != a
    {
    }
    forall i | 0 <= i < m + 1
      ensures moves[i].source !in r && Matches(r, moves[i].destination, files[moves[i].source])
    {
      if i < m {
        assert moves[i].source !in before && Matches(before, moves[i].destination, files[moves[i].source]);
      }
    }
    forall i | m + 1 <= i < |moves|
      ensures moves[i].destination !in r && Matches(r, moves[i].source, files[moves[i].source])
    {
      assert moves[i].destination !in before && Matches(before, moves[i].source, files[moves[i].source]);
    }
    forall p | Untouched(moves, m + 1, p)
      ensures (p in r <==> p in files) && (p in r ==> r[p] == files[p])
    {
      assert Untouched(moves, m, p);
      assert p != a && p != b;
    }
  }

  lemma {:induction false} RetiredMoved(files: Files, moves: seq<Move>, m: nat)
    requires m <= |moves| && Disjoint(moves) && Pending(files, moves)
    ensures FirstMoved(files, moves, m, Retired(files, moves, m))
  {
    if m > 0 {
      RetiredMoved(files, moves, m - 1);
      RenameMovesNext(files, moves, m - 1, Retired(files, moves, m - 1));
    }
  }

  /** Active files that no move displaces: the retained canonical bundle and the published candidate. */
  ghost predicate OthersAt(j: Journal, stage: Stage, f: Files) {
    forall name, x ::
      !Displaced(j.sources, j.retained, (name, x))
      && !(CandidateGone(stage, j.retained) && name == Canonical && x == Main) ==>
        (Live(name, x) in f <==> j.retained && name == Canonical && Canonical in j.sources && x in j.sources[Canonical])
        && (Live(name, x) in f ==> f[Live(name, x)] == j.sources[Canonical][x])
  }

  ghost predicate SnapshotsAt(j: Journal, f: Files) {
    forall name :: name in j.snapshots ==> Matches(f, j.snapshots[name].path, j.snapshots[name].fingerprint)
  }

  ghost predicate PlannedFrom(j: Journal, f: Files, m: Move) {
    && Displaced(j.sources, j.retained, (m.name, m.suffix))
    && m == PlannedMove(j.id, (m.name, m.suffix))
    && Matches(f, m.source, j.sources[m.name][m.suffix])
    && m.destination !in f
  }

  /** What the file reasoning needs to know of a prepared journal and its disk. */
  ghost predicate Staged(j: Journal, f: Files) {
    && Disjoint(j.moves)
    && (forall m :: m in j.moves ==> PlannedFrom(j, f, m))
    && (forall name, x :: Displaced(j.sources, j.retained, (name, x)) ==> PlannedMove(j.id, (name, x)) in j.moves)
    && j.candidate == Candidate(j.id) && Matches(f, j.candidate, j.candidateFingerprint)
    && (forall name :: name in j.snapshots ==> j.snapshots[name].path == Snapshot(j.id, name))
    && SnapshotsAt(j, f)
    && OthersAt(j, Ready, f)
    && (j.retained ==> Canonical in j.sources && Main in j.sources[Canonical])
    && j.phase == Prepared && !j.publicationIntent
  }

  lemma PreparedIsStaged(db: Sqlite, s: Store)
    requires WellPrepared(db, s)
    ensures Staged(s.pending.value, s.files)
  {
    var j := s.pending.value;
    PlannedMovesDistinct(j.id, j.sources, j.retained);
    PlannedMovesExact(j.id, j.sources, j.retained);
    forall m | m in j.moves ensures PlannedFrom(j, s.files, m) {
      assert BundleAt(s.files, m.name) == j.sources[m.name];
    }
    forall name | name in j.snapshots
      ensures Matches(s.files, j.snapshots[name].path, j.snapshots[name].fingerprint)
    {
      assert SnapshotProven(db, s.files, j.snapshots[name]);
    }
    forall name, x | !Displaced(j.sources, j.retained, (name, x))
      ensures (Live(name, x) in s.files <==>
                 j.retained && name == Canonical && Canonical in j.sources && x in j.sources[Canonical])
      ensures Live(name, x) in s.files ==> s.files[Live(name, x)] == j.sources[Canonical][x]
    {
      assert BundleAt(s.files, name) == if name in j.sources then j.sources[name] else map[];
    }
  }

  /** Each planned move is archived or still in place, as the stage says. */
  ghost predicate MovesAt(j: Journal, stage: Stage, f: Files) {
    forall i :: 0 <= i < |j.moves| ==> MoveAt(j, stage, f, j.moves[i], i)
  }

  ghost predicate MoveAt(j: Journal, stage: Stage, f: Files, move: Move, i: nat) {
    Recorded(j, move) &&
    if i >= RetiredTo(stage, |j.moves|) then
      Matches(f, move.source, j.sources[move.name][move.suffix]) && move.destination !in f
    else
      && Matches(f, move.destination, j.sources[move.name][move.suffix])
      && if CandidateGone(stage, j.retained) && CanonicalMain(move)
         then Matches(f, move.source, j.candidateFingerprint) else move.source !in f
  }

  ghost predicate CandidateAt(j: Journal, stage: Stage, f: Files) {
    if CandidateGone(stage, j.retained)
    then j.candidate !in f && Matches(f, Live(Canonical, Main), j.candidateFingerprint)
    else Matches(f, j.candidate, j.candidateFingerprint)
  }

  ghost predicate DiskAt(j: Journal, stage: Stage, f: Files) {
    MovesAt(j, stage, f) && CandidateAt(j, stage, f) && SnapshotsAt(j, f) && OthersAt(j, stage, f)
  }

  /** The retired files: moved slots archived, everything else where it was. */
  lemma RetiredDisk(j: Journal, files: Files, m: nat)
    requires Staged(j, files) && m <= |j.moves|
    ensures Pending(files, j.moves)
    ensures var r := Retired(files, j.moves, m);
            FirstMoved(files, j.moves, m, r) && Matches(r, j.candidate, j.candidateFingerprint)
            && SnapshotsAt(j, r) && OthersAt(j, Ready, r)
  {
    forall i | 0 <= i < |j.moves| ensures PlannedFrom(j, files, j.moves[i]) {
      assert j.moves[i] in j.moves;
    }
    RetiredMoved(files, j.moves, m);
    var r := Retired(files, j.moves, m);
    assert Untouched(j.moves, m, j.candidate);
    forall name | name in j.snapshots
      ensures Matches(r, j.snapshots[name].path, j.snapshots[name].fingerprint)
    {
      assert Untouched(j.moves, m, Snapshot(j.id, name));
    }
    forall name, x | !Displaced(j.sources, j.retained, (name, x))
      ensures Live(name, x) in r <==> Live(name, x) in files
      ensures Live(name, x) in r ==> r[Live(name, x)] == files[Live(name, x)]
    {
      forall i | 0 <= i < m ensures Live(name, x) != j.moves[i].source && Live(name, x) != j.moves[i].destination {
        assert PlannedFrom(j, files, j.moves[i]);
      }
      assert Untouched(j.moves, m, Live(name, x));
    }
  }

  /** The files of a stage, in terms of the retired files r. */
  ghost predicate OnTop(j: Journal, stage: Stage, r: Files, f: Files) {
    if CandidateGone(stage, j.retained) && j.candidate in r
    then f == Rename(r, j.candidate, Live(Canonical, Main)) else f == r
  }

  lemma MovesAtStage(j: Journal, files: Files, stage: Stage, r: Files, f: Files)
    requires Staged(j, files) && InRange(stage, |j.moves|) && OnTop(j, stage, r, f) && Pending(files, j.moves)
    requires FirstMoved(files, j.moves, RetiredTo(stage, |j.moves|), r)
    requires Matches(r, j.candidate, j.candidateFingerprint)
    ensures AllRecorded(j) && MovesAt(j, stage, f)
  {
    forall i | 0 <= i < |j.moves| ensures MoveAt(j, stage, f, j.moves[i], i) {
      assert PlannedFrom(j, files, j.moves[i]);
    }
  }

  lemma OthersAtStage(j: Journal, stage: Stage, r: Files, f: Files)
    requires OnTop(j, stage, r, f) && j.candidate.Candidate? && Matches(r, j.candidate, j.candidateFingerprint)
    requires forall name :: name in j.snapshots ==> j.snapshots[name].path == Snapshot(j.id, name)
    requires SnapshotsAt(j, r) && OthersAt(j, Ready, r)
    ensures CandidateAt(j, stage, f) && SnapshotsAt(j, f) && OthersAt(j, stage, f)
  {
  }

  /** At every stage of a prepared migration the disk shows each file exactly where the stage says. */
  lemma DiskAtStage(j: Journal, files: Files, stage: Stage)
    requires Staged(j, files) && InRange(stage, |j.moves|)
    ensures AllRecorded(j)
    ensures DiskAt(j, stage, FilesAt(files, j, stage))
  {
    var m := RetiredTo(stage, |j.moves|);
    var r := Retired(files, j.moves, m);
    var f := FilesAt(files, j, stage);
    RetiredDisk(j, files, m);
    MovesAtStage(j, files, stage, r, f);
    OthersAtStage(j, stage, r, f);
  }

  /** The canonical bundle once every planned file is retired. */
  lemma DisplacedAt(j: Journal, files: Files, stage: Stage, f: Files, name: Source, x: Suffix)
    requires Staged(j, files) && InRange(stage, |j.moves|) && RetiredTo(stage, |j.moves|) == |j.moves|
    requires DiskAt(j, stage, f) && Displaced(j.sources, j.retained, (name, x))
    ensures Live(name, x) in f <==> CandidateGone(stage, j.retained) && name == Canonical && x == Main
  {
    assert PlannedMove(j.id, (name, x)) in j.moves;
    var i :| 0 <= i < |j.moves| && j.moves[i] == PlannedMove(j.id, (name, x));
    assert MoveAt(j, stage, f, j.moves[i], i);
  }

  lemma CanonicalAt(j: Journal, files: Files, stage: Stage)
    requires Staged(j, files) && InRange(stage, |j.moves|) && RetiredTo(stage, |j.moves|) == |j.moves|
    ensures BundleAt(FilesAt(files, j, stage), Canonical) ==
            if j.retained then j.sources[Canonical]
            else if CandidateGone(stage, j.retained) then map[Main := j.candidateFingerprint]
            else map[]
    ensures BundleAt(FilesAt(files, j, stage), Legacy) == map[]
  {
    hide FilesAt;
    DiskAtStage(j, files, stage);
    var f := FilesAt(files, j, stage);
    forall name, x | Displaced(j.sources, j.retained, (name, x))
      ensures Live(name, x) in f <==> CandidateGone(stage, j.retained) && name == Canonical && x == Main
    {
      DisplacedAt(j, files, stage, f, name, x);
    }
    var bundle := BundleAt(f, Canonical);
    if j.retained {
      forall x ensures x in bundle <==> x in j.sources[Canonical] {
        assert !Displaced(j.sources, j.retained, (Canonical, x));
      }
    }
  }

  lemma JournalAtReadable(j: Journal, stage: Stage)
    requires AllRecorded(j)
    ensures AllRecorded(JournalAt(j, stage))
  {
    var moves := JournalAt(j, stage).moves;
    forall m | m in moves ensures Recorded(j, m) {
      var i :| 0 <= i < |moves| && moves[i] == m;
      assert j.moves[i] in j.moves;
    }
  }

  lemma UndoneAt(j: Journal, stage: Stage)
    requires InRange(stage, |j.moves|)
    ensures FirstUndone(JournalAt(j, stage).moves) == DoneTo(stage, |j.moves|)
  {
    FirstUndoneIs(JournalAt(j, stage).moves, DoneTo(stage, |j.moves|));
  }

  predicate InTurn(stage: Stage, n: nat) {
    (stage.Waiting? && stage.k < n) || (stage.Intended? && stage.k < n) || (stage.Moved? && stage.k < n)
  }

  lemma IntentStep(j: Journal, k: nat)
    requires k < |j.moves|
    ensures WithIntent(JournalAt(j, Waiting(k)), k) == JournalAt(j, Intended(k))
    ensures WithDone(JournalAt(j, Moved(k)), k) == JournalAt(j, Waiting(k + 1))
    ensures JournalAt(j, Intended(k)) == JournalAt(j, Moved(k))
  {
  }

  lemma TurnIsRetire(s: Store, stage: Stage)
    requires s.pending.Some? && InTurn(stage, |s.pending.value.moves|) && AllRecorded(s.pending.value)
    ensures var j, here := s.pending.value, At(s, stage);
            && Readable(here) && AllRecorded(JournalAt(j, stage))
            && JournalAt(j, stage).moves[stage.k] == j.moves[stage.k].(intent := !stage.Waiting?, done := false)
            && Next(here) == Retire(here, JournalAt(j, stage), stage.k)
  {
    hide Publish, Close, Retire, FirstUndone, FilesAt, AllRecorded;
    JournalAtReadable(s.pending.value, stage);
    UndoneAt(s.pending.value, stage);
  }

  /** The intent of a move becomes durable, and later its result. */
  lemma RecordStep(s: Store, stage: Stage)
    requires s.pending.Some? && InTurn(stage, |s.pending.value.moves|) && !stage.Intended?
    requires AllRecorded(s.pending.value)
    requires stage.Moved? ==> s.pending.value.moves[stage.k].source !in At(s, stage).files
    ensures Readable(At(s, stage))
    ensures Next(At(s, stage)) == Continue(At(s, After(stage, |s.pending.value.moves|, s.pending.value.retained)))
  {
    hide Next, JournalAt, Retired;
    TurnIsRetire(s, stage);
    IntentStep(s.pending.value, stage.k);
  }

  /** An intended move whose file is in place is renamed to its archive. */
  lemma RenameStep(s: Store, k: nat)
    requires s.pending.Some? && k < |s.pending.value.moves| && AllRecorded(s.pending.value)
    requires MoveAt(s.pending.value, Intended(k), At(s, Intended(k)).files, s.pending.value.moves[k], k)
    ensures Readable(At(s, Intended(k)))
    ensures Next(At(s, Intended(k))) == Continue(At(s, Moved(k)))
  {
    TurnIsRetire(s, Intended(k));
    IntentStep(s.pending.value, k);
    var j, here := s.pending.value, At(s, Intended(k));
    RetireRenames(here, JournalAt(j, Intended(k)), k);
    MovedFiles(s, k);
  }

  lemma RetireRenames(s: Store, j: Journal, k: nat)
    requires k < |j.moves| && AllRecorded(j) && j.moves[k].intent && j.moves[k] in j.moves
    requires Matches(s.files, j.moves[k].source, j.sources[j.moves[k].name][j.moves[k].suffix])
    requires j.moves[k].destination !in s.files
    ensures Retire(s, j, k) == Continue(s.(files := Rename(s.files, j.moves[k].source, j.moves[k].destination)))
  {
  }

  lemma MovedFiles(s: Store, k: nat)
    requires s.pending.Some? && k < |s.pending.value.moves|
    requires s.pending.value.moves[k].source in At(s, Intended(k)).files
    ensures var here, m := At(s, Intended(k)), s.pending.value.moves[k];
            At(s, Moved(k)) == here.(files := Rename(here.files, m.source, m.destination))
  {
  }

  /** Every move is done; the canonical database is still to be settled. */
  predicate InTail(stage: Stage, n: nat) {
    (stage.Waiting? && stage.k == n) || (Publicized(stage) && !stage.Cleared?)
  }

  lemma TailAt(s: Store, stage: Stage)
    requires s.pending.Some? && AllRecorded(s.pending.value) && InTail(stage, |s.pending.value.moves|)
    ensures var j, here := JournalAt(s.pending.value, stage), At(s, stage);
            && Readable(here)
            && Next(here) == if j.phase == Retiring then Publish(here, j) else Close(here, j)
  {
    hide Publish, Close, Retire, FirstUndone, FilesAt, AllRecorded;
    JournalAtReadable(s.pending.value, stage);
    UndoneAt(s.pending.value, stage);
  }

  lemma SameFlags(j: Journal, stage: Stage)
    requires InTail(stage, |j.moves|)
    ensures JournalAt(j, After(stage, |j.moves|, j.retained)).moves == JournalAt(j, stage).moves
  {
  }

  lemma PublishResult(s: Store, stage: Stage)
    requires s.pending.Some? && InRange(stage, |s.pending.value.moves|)
    requires stage == Waiting(|s.pending.value.moves|) || stage.Announced? || stage.Installed?
    requires stage.Installed? ==> !s.pending.value.retained
    requires var j := s.pending.value; var f := FilesAt(s.files, j, stage);
             && CandidateAt(j, stage, f)
             && (j.retained ==> Canonical in j.sources && Main in j.sources[Canonical]
                                && BundleAt(f, Canonical) == j.sources[Canonical])
             && (!j.retained && stage.Announced? ==> BundleAt(f, Canonical) == map[])
    requires JournalAt(s.pending.value, After(stage, |s.pending.value.moves|, s.pending.value.retained)).moves ==
             JournalAt(s.pending.value, stage).moves
    ensures Publish(At(s, stage), JournalAt(s.pending.value, stage)) ==
            Continue(At(s, After(stage, |s.pending.value.moves|, s.pending.value.retained)))
  {
  }

  lemma CloseResult(s: Store, stage: Stage)
    requires s.pending.Some? && s.pending.value.id !in s.manifests
    requires stage.Established? || stage.Closed? || stage.Audited?
    requires JournalAt(s.pending.value, After(stage, |s.pending.value.moves|, s.pending.value.retained)).moves ==
             JournalAt(s.pending.value, stage).moves
    ensures Close(At(s, stage), JournalAt(s.pending.value, stage)) ==
            Continue(At(s, After(stage, |s.pending.value.moves|, s.pending.value.retained)))
  {
  }

  /** Announcing, installing and establishing the canonical database. */
  lemma PublishStep(s: Store, stage: Stage)
    requires s.pending.Some? && AllRecorded(s.pending.value) && InRange(stage, |s.pending.value.moves|)
    requires stage == Waiting(|s.pending.value.moves|) || stage.Announced? || stage.Installed?
    requires stage.Installed? ==> !s.pending.value.retained
    requires var j := s.pending.value; var f := FilesAt(s.files, j, stage);
             && CandidateAt(j, stage, f)
             && (j.retained ==> Canonical in j.sources && Main in j.sources[Canonical]
                                && BundleAt(f, Canonical) == j.sources[Canonical])
             && (!j.retained && stage.Announced? ==> BundleAt(f, Canonical) == map[])
    ensures Readable(At(s, stage))
    ensures Next(At(s, stage)) == Continue(At(s, After(stage, |s.pending.value.moves|, s.pending.value.retained)))
  {
    TailAt(s, stage);
    SameFlags(s.pending.value, stage);
    PublishResult(s, stage);
  }

  /** Completing, archiving the manifest and clearing the pending journal. */
  lemma CloseStep(s: Store, stage: Stage)
    requires s.pending.Some? && AllRecorded(s.pending.value) && s.pending.value.id !in s.manifests
    requires stage.Established? || stage.Closed? || stage.Audited?
    ensures Readable(At(s, stage))
    ensures Next(At(s, stage)) == Continue(At(s, After(stage, |s.pending.value.moves|, s.pending.value.retained)))
  {
    TailAt(s, stage);
    SameFlags(s.pending.value, stage);
    CloseResult(s, stage);
  }

  /** One durable action takes the disk of a stage to the disk of the next. */
  lemma NextIsAfter(s: Store, stage: Stage)
    requires s.pending.Some? && Staged(s.pending.value, s.files)
    requires s.pending.value.id !in s.manifests
    requires InRange(stage, |s.pending.value.moves|) && !stage.Cleared?
    requires stage.Installed? ==> !s.pending.value.retained
    ensures Readable(At(s, stage))
    ensures Next(At(s, stage)) == Continue(At(s, After(stage, |s.pending.value.moves|, s.pending.value.retained)))
  {
    var j := s.pending.value;
    DiskAtStage(j, s.files, stage);
    if stage.Ready? {
      JournalAtReadable(j, stage);
      assert JournalAt(j, Waiting(0)).moves == JournalAt(j, Ready).moves;
    } else if stage.Established? || stage.Closed? || stage.Audited? {
      CloseStep(s, stage);
    } else if InTurn(stage, |j.moves|) {
      assert MoveAt(j, stage, FilesAt(s.files, j, stage), j.moves[stage.k], stage.k);
      if stage.Intended? {
        RenameStep(s, stage.k);
      } else {
        RecordStep(s, stage);
      }
    } else {
      CanonicalAt(j, s.files, stage);
      PublishStep(s, stage);
    }
  }
}
