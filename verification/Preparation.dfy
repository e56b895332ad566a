/**
 Knowledge preparation as the runtime performs it (`_Operation`, `_resume` and `_prepare`,
 memory/preparation.py): methods that change the disk one durable action at a time and may die
 before any of them.
 */
module Preparation {
  import opened Wrappers
  import opened Knowledge
  import opened Recovery
  import opened Stages
  import opened Recoverable
  import opened Selection
  import opened Verification

  datatype Outcome = Done(report: Report) | Failed(problem: Problem) | Died

  function ReportOf(j: Journal): Report {
    Report(j.status, j.history.count, j.history.digest, j.selected, j.upgraded)
  }

  /** A disk some crash of a prepared migration leaves. */
  ghost predicate CrashState(db: Sqlite, s: Store) {
    exists s0: Store, k: nat :: WellPrepared(db, s0) && Readable(s0) && s == Run(s0, k)
  }

  /** One more action of the run. */
  lemma Advance(s: Store, n: nat, here: Store, next: Store)
    requires Readable(s) && here == Run(s, n) && Next(here) == Continue(next)
    ensures here.pending.Some? && Run(s, n + 1) == next
  {
  }

  /** The journal in force: its moves cannot touch the staged candidate, which is as recorded. */
  ghost predicate InForce(s: Store, j: Journal) {
    && s.pending == Some(j) && AllRecorded(j)
    && (forall m :: m in j.moves ==> m.source.Live? && m.destination.Original?)
    && j.candidate.Candidate?
    && (j.candidate in s.files ==> s.files[j.candidate] == j.candidateFingerprint)
  }

  /** Move i is the next to retire. */
  ghost predicate Turn(s: Store, j: Journal, i: nat) {
    && InForce(s, j) && j.phase != Prepared
    && i < |j.moves| && !j.moves[i].done
    && forall k :: 0 <= k < i ==> j.moves[k].done
  }

  lemma TurnIntent(s: Store, j: Journal, i: nat)
    requires Turn(s, j, i) && !j.moves[i].intent
    ensures Next(s) == Continue(s.(pending := Some(WithIntent(j, i))))
    ensures Turn(s.(pending := Some(WithIntent(j, i))), WithIntent(j, i), i)
  {
    FirstUndoneIs(j.moves, i);
    var next := WithIntent(j, i);
    forall m | m in next.moves ensures Recorded(next, m) && m.source.Live? && m.destination.Original? {
      var k :| 0 <= k < |j.moves| && next.moves[k] == m;
      assert j.moves[k] in j.moves;
    }
  }

  lemma TurnRename(s: Store, j: Journal, i: nat)
    requires Turn(s, j, i) && j.moves[i].intent && j.moves[i].source in s.files
    ensures Recorded(j, j.moves[i])
    ensures var m := j.moves[i];
            if s.files[m.source] != j.sources[m.name][m.suffix] || m.destination in s.files
            then Next(s) == Refused(ChangedSource)
            else
              var next := s.(files := Rename(s.files, m.source, m.destination));
              Next(s) == Continue(next) && Turn(next, j, i) && m.source !in next.files
  {
  }

  lemma TurnResult(s: Store, j: Journal, i: nat)
    requires Turn(s, j, i) && j.moves[i].intent && j.moves[i].source !in s.files
    ensures Next(s) == Continue(s.(pending := Some(WithDone(j, i))))
    ensures InForce(s.(pending := Some(WithDone(j, i))), WithDone(j, i))
    ensures forall k :: 0 <= k < i + 1 ==> WithDone(j, i).moves[k].done
  {
    FirstUndoneIs(j.moves, i);
    var next := WithDone(j, i);
    forall m | m in next.moves ensures Recorded(next, m) && m.source.Live? && m.destination.Original? {
      var k :| 0 <= k < |j.moves| && next.moves[k] == m;
      assert j.moves[k] in j.moves;
    }
  }

  /** An accepted journal that passes the layout verifier is in force. */
  lemma VerifiedInForce(s: Store, j: Journal)
    requires s.pending == Some(j) && JournalAccepted(j) && AllRecorded(j)
    requires LayoutProblem(j, s.files) == None
    ensures InForce(s, j)
  {
    var planned := PlannedMoves(j.id, j.sources, j.retained);
    PlannedMovesExact(j.id, j.sources, j.retained);
    forall m | m in j.moves ensures m.source.Live? && m.destination.Original? {
      var i :| 0 <= i < |j.moves| && j.moves[i] == m;
      assert planned[i] in planned && m.(intent := false, done := false) == planned[i];
    }
  }

  lemma RecoveredInForce(db: Sqlite, s: Store, j: Journal)
    requires s.pending == Some(j) && JournalAccepted(j) && AllRecorded(j)
    requires RecoveryProblem(db, j, s.files) == None
    ensures InForce(s, j)
  {
    VerifiedInForce(s, j);
  }

  lemma EndedFinished(s: Store)
    requires s.pending.None?
    ensures Readable(s) && Next(s) == Finished
  {
  }

  /** From a prepared migration a run is never refused, and stops only in the final disk. */
  lemma PreparedStops(db: Sqlite, s0: Store, k: nat)
    requires WellPrepared(db, s0)
    ensures Readable(s0) && !Next(Run(s0, k)).Refused?
    ensures Next(Run(s0, k)).Finished? ==> IsFinal(s0, Run(s0, k))
  {
    Recoverability(db, s0, k);
    if k >= Total(s0) {
      Finality(db, s0, k);
    }
  }

  /** Crash states are closed under running, and the verifiers and the run never refuse one. */
  lemma CrashStateRuns(db: Sqlite, s: Store, n: nat)
    requires CrashState(db, s)
    ensures Readable(s) && CrashState(db, Run(s, n)) && Accepts(db, s) && !Next(Run(s, n)).Refused?
    ensures !Next(Run(s, n)).Continue? ==> exists s0 :: WellPrepared(db, s0) && IsFinal(s0, Run(s, n))
  {
    var s0: Store, k: nat :| WellPrepared(db, s0) && Readable(s0) && s == Run(s0, k);
    assert Accepts(db, s) by { Recoverability(db, s0, k); }
    RunSplit(s0, k, n);
    var final := Run(s0, k + n);
    assert !Next(final).Refused? && (Next(final).Finished? ==> IsFinal(s0, final)) by { PreparedStops(db, s0, k + n); }
  }

  lemma CrashStateAccepted(db: Sqlite, s: Store)
    requires CrashState(db, s) && s.pending.Some?
    ensures AllRecorded(s.pending.value) && RecoveryProblem(db, s.pending.value, s.files) == None
  {
    CrashStateRuns(db, s, 0);
  }

  /** Every move is retired and the journal is past PREPARED. */
  ghost predicate Settled(s: Store, j: Journal) {
    && InForce(s, j) && j.phase != Prepared
    && forall k :: 0 <= k < |j.moves| ==> j.moves[k].done
  }

  lemma SettledNext(s: Store, j: Journal)
    requires Settled(s, j)
    ensures j.phase == Retiring ==> Next(s) == Publish(s, j)
    ensures j.phase == Published ==> Next(s) == Continue(s.(pending := Some(j.(phase := Completed))))
    ensures j.phase == Completed ==>
      Next(s) == if j.id in s.manifests && s.manifests[j.id] == j then Continue(s.(pending := None))
                 else Continue(s.(manifests := s.manifests[j.id := j]))
  {
  }

  lemma SettledPublished(s: Store, j: Journal)
    requires Settled(s, j)
    ensures Settled(s.(pending := Some(j.(phase := Published))), j.(phase := Published))
  {
  }

  /** With every move done and COMPLETED durable: archive the manifest, then unlink the journal. */
  lemma AuditNext(s: Store, j: Journal)
    requires Settled(s, j) && j.phase == Completed
    ensures var audited := s.(manifests := s.manifests[j.id := j]);
            && (s != audited ==> Next(s) == Continue(audited))
            && Readable(audited) && Next(audited) == Continue(audited.(pending := None))
  {
  }

  lemma PreparedNext(s: Store, j: Journal)
    requires InForce(s, j) && j.phase == Prepared
    ensures Next(s) == Continue(s.(pending := Some(j.(phase := Retiring))))
  {
  }

  /** The manifest, written or written again, and the unlink after it, are on the run. */
  lemma AuditAdvance(start: Store, n: nat, here: Store, j: Journal) returns (audited: nat)
    requires Readable(start) && here == Run(start, n) && Settled(here, j) && j.phase == Completed
    ensures n <= audited <= n + 1
    ensures var after := here.(manifests := here.manifests[j.id := j]);
            after == Run(start, audited) && after.(pending := None) == Run(start, audited + 1)
  {
    AuditNext(here, j);
    var after := here.(manifests := here.manifests[j.id := j]);
    audited := if here == after then n else n + 1;
    if here != after { Advance(start, n, here, after); }
    Advance(start, audited, after, after.(pending := None));
  }

  class Operation {
    const db: Sqlite
    var disk: Store
    var journal: Option<Journal>       // the journal in memory
    var durablePhase: Option<Phase>
    var faults: nat                    // durable actions left before the process dies
    var nextInode: nat                 // identity the filesystem gives the next new file

    constructor (db: Sqlite, disk: Store, faults: nat, nextInode: nat)
      ensures this.db == db && this.disk == disk && this.faults == faults && this.nextInode == nextInode
      ensures journal == None && durablePhase == None
    {
      this.db, this.disk, this.faults, this.nextInode := db, disk, faults, nextInode;
      journal, durablePhase := None, None;
    }

    /** `durable_phase` is the phase the pending journal has on disk. */
    predicate Reported()
      reads this
    {
      disk.pending.Some? ==> durablePhase == Some(disk.pending.value.phase)
    }

    /** `write_json` on the pending path: one atomic replacement. */
    method WriteJournal(value: Journal) returns (alive: bool)
      modifies this`disk, this`journal, this`durablePhase, this`faults
      ensures alive == (old(faults) > 0)
      ensures disk == if alive then old(disk).(pending := Some(value)) else old(disk)
      ensures faults == if alive then old(faults) - 1 else 0
      ensures journal == Some(value)
      ensures durablePhase == if alive then Some(value.phase) else old(durablePhase)
    {
      journal := Some(value);
      alive := faults > 0;
      if alive {
        faults := faults - 1;
        disk := disk.(pending := Some(value));
        durablePhase := Some(value.phase);
      }
    }

    /** `write_json` on the archive's manifest. */
    method WriteManifest(value: Journal) returns (alive: bool)
      modifies this`disk, this`faults
      ensures alive == (old(faults) > 0)
      ensures disk == if alive then old(disk).(manifests := old(disk).manifests[value.id := value]) else old(disk)
      ensures faults == if alive then old(faults) - 1 else 0
    {
      alive := faults > 0;
      if alive {
        faults := faults - 1;
        disk := disk.(manifests := disk.manifests[value.id := value]);
      }
    }

    /** `os.replace` */
    method Replace(source: Path, destination: Path) returns (alive: bool)
      requires source in disk.files
      modifies this`disk, this`faults
      ensures alive == (old(faults) > 0)
      ensures disk == if alive then old(disk).(files := Rename(old(disk).files, source, destination)) else old(disk)
      ensures faults == if alive then old(faults) - 1 else 0
    {
      alive := faults > 0;
      if alive {
        faults := faults - 1;
        disk := disk.(files := Rename(disk.files, source, destination));
      }
    }

    method UnlinkPending() returns (alive: bool)
      modifies this`disk, this`faults
      ensures alive == (old(faults) > 0)
      ensures disk == if alive then old(disk).(pending := None) else old(disk)
      ensures faults == if alive then old(faults) - 1 else 0
    {
      alive := faults > 0;
      if alive {
        faults := faults - 1;
        disk := disk.(pending := None);
      }
    }

    /** The intent of move i is made durable if it is not already. */
    method Intend(i: nat, ghost start: Store, ghost n0: nat) returns (alive: bool, ghost n: nat)
      requires journal.Some? && Turn(disk, journal.value, i)
      requires Readable(start) && disk == Run(start, n0)
      requires Reported()
      modifies this`disk, this`journal, this`durablePhase, this`faults
      ensures disk == Run(start, n)
      ensures alive ==>
        && journal.Some? && Turn(disk, journal.value, i) && journal.value.moves[i].intent
        && disk.files == old(disk).files
        && journal.value == old(journal).value.(moves := old(journal).value.moves[i := journal.value.moves[i]])
        && journal.value.moves[i] == old(journal).value.moves[i].(intent := true)
      ensures Reported() && old(faults) - faults == n - n0 && (!alive ==> faults == 0) && disk.pending.Some?
    {
      hide Step, Next, Run;
      n := n0;
      alive := true;
      var j := journal.value;
      if !j.moves[i].intent {
        TurnIntent(disk, j, i);
        Advance(start, n, disk, disk.(pending := Some(WithIntent(j, i))));
        alive := WriteJournal(WithIntent(j, i));
        if alive { n := n + 1; }
      }
    }

    /** The file of an intended move is renamed if it is still in place. */
    method Relocate(i: nat, ghost start: Store, ghost n0: nat) returns (r: Option<Outcome>, ghost n: nat)
      requires journal.Some? && Turn(disk, journal.value, i) && journal.value.moves[i].intent
      requires Readable(start) && disk == Run(start, n0)
      requires Reported()
      modifies this`disk, this`journal, this`durablePhase, this`faults
      ensures disk == Run(start, n)
      ensures r.Some? ==> r.value.Died? || (r.value.Failed? && Readable(disk) && Next(disk) == Refused(r.value.problem))
      ensures r.None? ==>
                journal == old(journal) && Turn(disk, journal.value, i) && journal.value.moves[i].source !in disk.files
      ensures Reported() && old(faults) - faults == n - n0 && (r == Some(Died) ==> faults == 0) && disk.pending.Some?
    {
      hide Step, Next, Run;
      n := n0;
      r := None;
      var j := journal.value;
      var move := j.moves[i];
      if move.source in disk.files {
        TurnRename(disk, j, i);
        if disk.files[move.source] != j.sources[move.name][move.suffix] || move.destination in disk.files {
          r := Some(Failed(ChangedSource));
        } else {
          Advance(start, n, disk, disk.(files := Rename(disk.files, move.source, move.destination)));
          var alive := Replace(move.source, move.destination);
          if alive { n := n + 1; } else { r := Some(Died); }
        }
      }
    }

    /** One iteration of the retirement loop of `_resume`: intent, rename, result. */
    method RetireMove(i: nat, ghost start: Store, ghost n0: nat) returns (r: Option<Outcome>, ghost n: nat)
      requires journal.Some? && Turn(disk, journal.value, i)
      requires Readable(start) && disk == Run(start, n0)
      requires Reported()
      modifies this`disk, this`journal, this`durablePhase, this`faults
      ensures disk == Run(start, n)
      ensures r.Some? ==> r.value.Died? || (r.value.Failed? && Readable(disk) && Next(disk) == Refused(r.value.problem))
      ensures r.None? ==>
        && journal.Some? && InForce(disk, journal.value)
        && |journal.value.moves| == |old(journal).value.moves|
        && (forall k :: 0 <= k < i + 1 ==> journal.value.moves[k].done)
        && journal.value.(moves := []) == old(journal).value.(moves := [])
      ensures Reported() && old(faults) - faults == n - n0 && (r == Some(Died) ==> faults == 0) && disk.pending.Some?
    {
      hide Step, Next, Run;
      var alive;
      alive, n := Intend(i, start, n0);
      if !alive { return Some(Died), n; }
      r, n := Relocate(i, start, n);
      if r.Some? { return; }
      var j := journal.value;
      TurnResult(disk, j, i);
      alive, n := Record(WithDone(j, i), start, n);
      if !alive { r := Some(Died); }
    }

    /** The retirement loop of `_resume`: the disk moves along the run from `start`. */
    method RetireMoves(ghost start: Store, ghost n0: nat) returns (r: Option<Outcome>, ghost n: nat)
      requires journal.Some? && InForce(disk, journal.value) && journal.value.phase != Prepared
      requires Readable(start) && disk == Run(start, n0)
      requires Reported()
      modifies this`disk, this`journal, this`durablePhase, this`faults
      ensures disk == Run(start, n)
      ensures r.Some? ==> r.value.Died? || (r.value.Failed? && Readable(disk) && Next(disk) == Refused(r.value.problem))
      ensures r.None? ==>
        && journal.Some? && Settled(disk, journal.value)
        && journal.value.(moves := []) == old(journal).value.(moves := [])
      ensures Reported() && old(faults) - faults == n - n0 && (r == Some(Died) ==> faults == 0) && disk.pending.Some?
    {
      hide Step, Next, Run;
      n := n0;
      var i := 0;
      while i < |journal.value.moves|
        invariant journal.Some? && InForce(disk, journal.value)
        invariant i <= |journal.value.moves| == |old(journal).value.moves|
        invariant disk == Run(start, n)
        invariant Reported() && old(faults) - faults == n - n0
        invariant journal.value.(moves := []) == old(journal).value.(moves := [])
        invariant forall k :: 0 <= k < i ==> journal.value.moves[k].done
      {
        if !journal.value.moves[i].done {
          r, n := RetireMove(i, start, n);
          if r.Some? { return; }
        }
        i := i + 1;
      }
      r := None;
    }

    /** A durable journal write that is the next action of the run. */
    method Record(value: Journal, ghost start: Store, ghost n0: nat) returns (alive: bool, ghost n: nat)
      requires Readable(start) && disk == Run(start, n0)
      requires Next(disk) == Continue(disk.(pending := Some(value)))
      requires Reported()
      modifies this`disk, this`journal, this`durablePhase, this`faults
      ensures journal == Some(value)
      ensures disk == Run(start, n)
      ensures alive ==> disk == old(disk).(pending := Some(value))
      ensures Reported() && old(faults) - faults == n - n0 && (!alive ==> faults == 0) && disk.pending.Some?
    {
      hide Step, Next, Run;
      n := n0;
      Advance(start, n, disk, disk.(pending := Some(value)));
      alive := WriteJournal(value);
      if alive { n := n + 1; }
    }

    /** The staged candidate becomes the canonical main file. */
    method Install(ghost start: Store, ghost n0: nat) returns (alive: bool, ghost n: nat)
      requires journal.Some? && Settled(disk, journal.value) && journal.value.phase == Retiring
      requires journal.value.publicationIntent && !journal.value.retained && journal.value.candidate in disk.files
      requires BundleAt(disk.files, Canonical) == map[]
      requires Readable(start) && disk == Run(start, n0)
      requires Reported()
      modifies this`disk, this`faults
      ensures disk == Run(start, n)
      ensures alive ==>
                && Settled(disk, journal.value)
                && Next(disk) == Continue(disk.(pending := Some(journal.value.(phase := Published))))
      ensures Reported() && old(faults) - faults == n - n0 && (!alive ==> faults == 0) && disk.pending.Some?
    {
      hide Step, Next, Run;
      n := n0;
      var j := journal.value;
      SettledNext(disk, j);
      Advance(start, n, disk, disk.(files := Rename(disk.files, j.candidate, Live(Canonical, Main))));
      alive := Replace(j.candidate, Live(Canonical, Main));
      if alive {
        n := n + 1;
        SettledNext(disk, j);
      }
    }

    method Announce(ghost start: Store, ghost n0: nat) returns (alive: bool, ghost n: nat)
      requires journal.Some? && Settled(disk, journal.value) && journal.value.phase == Retiring
      requires Readable(start) && disk == Run(start, n0)
      requires Reported()
      modifies this`disk, this`journal, this`durablePhase, this`faults
      ensures disk == Run(start, n)
      ensures alive ==> journal == Some(old(journal).value.(publicationIntent := true))
      ensures alive ==> Settled(disk, journal.value) && disk.files == old(disk).files
      ensures Reported() && old(faults) - faults == n - n0 && (!alive ==> faults == 0) && disk.pending.Some?
    {
      hide Step, Next, Run;
      n := n0;
      alive := true;
      if !journal.value.publicationIntent {
        SettledNext(disk, journal.value);
        alive, n := Record(journal.value.(publicationIntent := true), start, n);
      }
    }

    /** Announce the publication and put the canonical database in its place. */
    method PublishCandidate(ghost start: Store, ghost n0: nat) returns (r: Option<Outcome>, ghost n: nat)
      requires journal.Some? && Settled(disk, journal.value) && journal.value.phase == Retiring
      requires Readable(start) && disk == Run(start, n0)
      requires Reported()
      modifies this`disk, this`journal, this`durablePhase, this`faults
      ensures disk == Run(start, n)
      ensures r.Some? ==> r.value.Died? || (r.value.Failed? && Readable(disk) && Next(disk) == Refused(r.value.problem))
      ensures r.None? ==>
        && journal.Some? && Settled(disk, journal.value) && journal.value.phase == Published
        && ReportOf(journal.value) == ReportOf(old(journal).value)
      ensures Reported() && old(faults) - faults == n - n0 && (r == Some(Died) ==> faults == 0) && disk.pending.Some?
    {
      hide Step, Next, Run, Settled, InForce;
      n := n0;
      r := None;
      var alive := true;
      alive, n := Announce(start, n);
      if !alive { return Some(Died), n; }
      var j := journal.value;
      SettledNext(disk, j);
      var canonical := BundleAt(disk.files, Canonical);
      if j.retained {
        if Orphaned(canonical) { return Some(Failed(OrphanSidecar)), n; }
        if Canonical !in j.sources || canonical != j.sources[Canonical] {
          return Some(Failed(RetainedWinnerChanged)), n;
        }
      } else if j.candidate in disk.files {
        if Orphaned(canonical) { return Some(Failed(OrphanSidecar)), n; }
        if canonical != map[] { return Some(Failed(UnexpectedDestination)), n; }
        alive, n := Install(start, n);
        if !alive { return Some(Died), n; }
      } else if !Matches(disk.files, Live(Canonical, Main), j.candidateFingerprint) {
        return Some(Failed(PublicationUnverified)), n;
      }
      SettledPublished(disk, j);
      alive, n := Record(j.(phase := Published), start, n);
      if !alive { r := Some(Died); }
    }

    /** The archived manifest. */
    method Audit(ghost start: Store, ghost n0: nat) returns (alive: bool, ghost n: nat)
      requires journal.Some? && Settled(disk, journal.value) && journal.value.phase == Completed
      requires Readable(start) && disk == Run(start, n0) && Reported()
      modifies this`disk, this`faults
      ensures n0 <= n && disk == Run(start, n) && disk.pending == old(disk).pending
      ensures alive ==> disk.(pending := None) == Run(start, n + 1)
      ensures n - n0 <= old(faults) - faults <= n - n0 + 1 && (!alive ==> n == n0 && faults == 0)
    {
      hide Step, Next, Run;
      ghost var audited := AuditAdvance(start, n0, disk, journal.value);
      alive := WriteManifest(journal.value);
      n := if alive then audited else n0;
    }

    /** The archived manifest, then the end of the pending journal. */
    method Clear(ghost start: Store, ghost n0: nat) returns (alive: bool, ghost n: nat)
      requires journal.Some? && Settled(disk, journal.value) && journal.value.phase == Completed
      requires Readable(start) && disk == Run(start, n0)
      requires Reported()
      modifies this`disk, this`journal, this`durablePhase, this`faults
      ensures disk == Run(start, n)
      ensures alive ==> disk.pending == None
      ensures Reported() && n - n0 <= old(faults) - faults <= n - n0 + 1
      ensures !alive ==> faults == 0 && disk.pending.Some?
    {
      hide Step, Next, Run;
      alive, n := Audit(start, n0);
      if !alive { return; }
      alive := UnlinkPending();
      if alive { n := n + 1; }
    }

    /** PUBLISHED to COMPLETED, and the end of the pending journal. */
    method Close(ghost start: Store, ghost n0: nat) returns (r: Option<Outcome>, ghost n: nat)
      requires journal.Some? && Settled(disk, journal.value) && journal.value.phase != Retiring
      requires Readable(start) && disk == Run(start, n0)
      requires Reported()
      modifies this`disk, this`journal, this`durablePhase, this`faults
      ensures disk == Run(start, n)
      ensures r.Some? ==> r.value.Died?
      ensures r.None? ==> disk.pending == None
      ensures Reported() && n - n0 <= old(faults) - faults <= n - n0 + 1
      ensures r == Some(Died) ==> faults == 0 && disk.pending.Some?
    {
      hide Step, Next, Run;
      n := n0;
      var alive := true;
      if journal.value.phase == Published {
        SettledNext(disk, journal.value);
        alive, n := Record(journal.value.(phase := Completed), start, n);
        if !alive { return Some(Died), n; }
      }
      alive, n := Clear(start, n);
      r := if alive then None else Some(Died);
    }

    /**
     `_resume` on a journal that has been loaded or just written.  Whatever the disk, it only moves
     along the run; from a crash state it is never refused and can only die or finish.
     */
    method Resume(loaded: Journal) returns (r: Outcome, ghost n: nat)
      requires disk.pending == Some(loaded) && JournalAccepted(loaded)
      modifies this`disk, this`journal, this`durablePhase, this`faults
      ensures Readable(old(disk)) && disk == Run(old(disk), n)
      // on a disk that is not as the record says it fails, and leaves the disk as it was
      ensures !Evident(db, loaded, old(disk).files) ==>
        disk == old(disk) && r.Failed? && RecoveryProblem(db, loaded, disk.files) == Some(r.problem)
      ensures r.Failed? ==>
        || (disk == old(disk) && AllRecorded(loaded) && RecoveryProblem(db, loaded, disk.files) == Some(r.problem))
        || (Readable(disk) && Next(disk) == Refused(r.problem))
      ensures r.Done? ==> disk.pending == None && r.report == ReportOf(loaded)
      ensures CrashState(db, old(disk)) ==>
        && !r.Failed? && CrashState(db, disk)
        && (r.Done? ==> exists s0 :: WellPrepared(db, s0) && IsFinal(s0, disk))
      // it dies only when the process does, after as many durable actions as the run has taken
      ensures n <= old(faults) - faults <= n + 1 && (r == Died ==> faults == 0 && disk.pending.Some?)
      // and the phase a failure reports is the one on disk
      ensures disk.pending.Some? ==> durablePhase == Some(disk.pending.value.phase)
    {
      hide Step, Next, Run, WellPrepared, IsFinal, RecoveryProblem, CrashState, Evident;
      VerifiersMean(db, loaded, disk.files);
      ghost var start := disk;
      n := 0;
      journal, durablePhase := Some(loaded), Some(loaded.phase);
      RunNothing(disk);
      var problem := RecoveryProblem(db, loaded, disk.files);
      if CrashState(db, start) { CrashStateAccepted(db, start); }
      if problem.Some? {
        return Failed(problem.value), n;
      }
      RecoveredInForce(db, disk, loaded);
      var ended: Option<Outcome>;
      ended, n := RollForward(start);
      if disk.pending.None? { EndedFinished(disk); }
      if CrashState(db, start) { CrashStateRuns(db, start, n); }
      r := if ended.Some? then ended.value else Done(ReportOf(loaded));
    }

    /** The body of `_resume` after its verification. */
    method RollForward(ghost start: Store) returns (r: Option<Outcome>, ghost n: nat)
      requires journal.Some? && InForce(disk, journal.value) && Readable(start) && disk == start
      requires Reported()
      modifies this`disk, this`journal, this`durablePhase, this`faults
      ensures disk == Run(start, n)
      ensures r.Some? ==> r.value.Died? || (r.value.Failed? && Readable(disk) && Next(disk) == Refused(r.value.problem))
      ensures r.None? ==> disk.pending == None
      ensures Reported() && n <= old(faults) - faults <= n + 1
      ensures r == Some(Died) ==> faults == 0 && disk.pending.Some?
    {
      hide Step, Next, Run;
      n := 0;
      RunNothing(start);
      if journal.value.phase == Prepared {
        PreparedNext(disk, journal.value);
        var alive;
        alive, n := Record(journal.value.(phase := Retiring), start, n);
        if !alive { return Some(Died), n; }
      }
      r, n := RetireMoves(start, n);
      if r.Some? { return; }
      if journal.value.phase == Retiring {
        r, n := PublishCandidate(start, n);
        if r.Some? { return; }
      }
      r, n := Close(start, n);
    }

    method MakeDirectory(directory: Directory) returns (alive: bool)
      modifies this`disk, this`faults
      ensures disk == if alive then old(disk).(dirs := old(disk).dirs + {directory}) else old(disk)
      ensures alive == (old(faults) > 0) && faults == if alive then old(faults) - 1 else 0
    {
      alive := faults > 0;
      if alive {
        faults := faults - 1;
        disk := disk.(dirs := disk.dirs + {directory});
      }
    }

    /** A new file; opening it with O_EXCL makes an existing path an error. */
    method CreateFile(path: Path, content: nat) returns (alive: bool, fingerprint: Fingerprint)
      requires path !in disk.files
      modifies this`disk, this`faults, this`nextInode
      ensures fingerprint == Fingerprint(content, old(nextInode))
      ensures disk == if alive then old(disk).(files := old(disk).files[path := fingerprint]) else old(disk)
      ensures nextInode == if alive then old(nextInode) + 1 else old(nextInode)
      ensures alive == (old(faults) > 0) && faults == if alive then old(faults) - 1 else 0
    {
      alive := faults > 0;
      fingerprint := Fingerprint(content, nextInode);
      if alive {
        faults := faults - 1;
        nextInode := nextInode + 1;
        disk := disk.(files := disk.files[path := fingerprint]);
      }
    }
  }
}
