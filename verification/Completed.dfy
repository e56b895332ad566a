/** After a completed migration: the audit manifest proves itself and a second preparation does nothing. */
module CompletedMigration {
  import opened Wrappers
  import opened RowDigest
  import opened Knowledge
  import opened Recovery
  import opened Stages
  import opened Recoverable
  import opened Selection

  lemma FinalMovesMatch(j: Journal, files: Files)
    requires Staged(j, files)
    ensures var f := FilesAt(files, j, Cleared); var closed := JournalAt(j, Closed);
            && SnapshotsAt(closed, f)
            && forall m :: m in closed.moves ==>
                 Recorded(closed, m) && Matches(f, m.destination, closed.sources[m.name][m.suffix])
  {
    DiskAtStage(j, files, Cleared);
    var f, closed := FilesAt(files, j, Cleared), JournalAt(j, Closed);
    forall m | m in closed.moves
      ensures Recorded(closed, m) && Matches(f, m.destination, closed.sources[m.name][m.suffix]) {
      var i :| 0 <= i < |closed.moves| && closed.moves[i] == m;
      assert MoveAt(j, Cleared, f, j.moves[i], i);
    }
  }

  lemma ClosedManifestProven(s: Store)
    requires s.pending.Some? && Staged(s.pending.value, s.files)
    requires JournalAccepted(JournalAt(s.pending.value, Closed))
    ensures ManifestProven(At(s, Cleared), s.pending.value.id)
  {
    FinalMovesMatch(s.pending.value, s.files);
  }

  /** The archived manifest of a completed migration passes the evidence check. */
  lemma ManifestProves(db: Sqlite, s: Store, n: nat)
    requires WellPrepared(db, s) && n >= Total(s)
    ensures Readable(s) && ManifestProven(Run(s, n), s.pending.value.id)
  {
    PreparedIsStaged(db, s);
    RunIsAt(s, n);
    JournalAtAccepted(s.pending.value, Closed);
    ClosedManifestProven(s);
  }

  lemma CanonicalAloneIdle(db: Sqlite, s: Store, history: History)
    requires s.pending.None? && BundleAt(s.files, Legacy) == map[] && Main in BundleAt(s.files, Canonical)
    requires Validate(db, Contents(BundleAt(s.files, Canonical))) == Ok(history) && history.schema == Schema14
    ensures NothingToDo(db, s) == Some(Report(Kept, history.count, history.digest, Some(Canonical), false))
  {
  }

  /** The canonical bundle a completed migration leaves validates to the recorded count and digest. */
  lemma FinalHistory(db: Sqlite, j: Journal, canonical: Bundle) returns (history: History)
    requires j.retained ==> Canonical in j.sources && Main in j.sources[Canonical]
    requires canonical == if j.retained then j.sources[Canonical] else map[Main := j.candidateFingerprint]
    requires RetainedHistory(db, j) && j.history.schema == Schema14
    requires Validate(db, map[Main := j.candidateFingerprint.content]) == Ok(j.history)
    ensures Main in canonical && Validate(db, Contents(canonical)) == Ok(history) && history.schema == Schema14
    ensures history.count == j.history.count && history.digest == j.history.digest
  {
    if j.retained {
      history := Validate(db, Contents(canonical)).value;
    } else {
      assert Contents(canonical) == map[Main := j.candidateFingerprint.content];
      history := j.history;
    }
  }

  /** Fixed point: the next preparation takes the fast path and reports the same count and digest. */
  lemma SecondPreparationIdle(db: Sqlite, s: Store, n: nat)
    requires WellPrepared(db, s) && n >= Total(s)
    ensures Readable(s)
    ensures NothingToDo(db, Run(s, n)) ==
            Some(Report(Kept, s.pending.value.history.count, s.pending.value.history.digest, Some(Canonical), false))
  {
    PreparedIsStaged(db, s);
    RunIsAt(s, n);
    CanonicalAt(s.pending.value, s.files, Cleared);
    var history := FinalHistory(db, s.pending.value, BundleAt(At(s, Cleared).files, Canonical));
    CanonicalAloneIdle(db, At(s, Cleared), history);
  }
}
