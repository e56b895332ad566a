/**
 What selection decides and when evidence blocks it (`_evidence` and `_selection`,
 memory/preparation.py), told from the files alone.
 */
module Evidence {
  import opened Wrappers
  import opened RowDigest
  import opened Knowledge
  import opened Recovery
  import opened Selection
  import opened Verification

  /** Some file of the database is there. */
  ghost predicate Present(files: Files, name: Source) {
    exists x: Suffix :: Live(name, x) in files
  }

  ghost function ContentsAt(files: Files, name: Source): map<Suffix, nat> {
    map x: Suffix | Live(name, x) in files :: files[Live(name, x)].content
  }

  /** The database reads as a table of this history. */
  ghost predicate ReadsAs(db: Sqlite, files: Files, name: Source, history: History) {
    exists table :: db.read(ContentsAt(files, name)) == Some(table) && HistoryOf(db.json, table) == history
  }

  ghost predicate Unreadable(db: Sqlite, files: Files, name: Source) {
    Present(files, name) && db.read(ContentsAt(files, name)) == None
  }

  lemma PresentMeans(files: Files, name: Source)
    ensures Present(files, name) <==> BundleAt(files, name) != map[]
    ensures Contents(BundleAt(files, name)) == ContentsAt(files, name)
  {
    if BundleAt(files, name) != map[] {
      var x :| x in BundleAt(files, name);
      assert Live(name, x) in files;
    }
  }

  lemma ReadsMeans(db: Sqlite, files: Files, name: Source, history: History)
    ensures ReadsAs(db, files, name, history) <==> Validate(db, Contents(BundleAt(files, name))) == Ok(history)
  {
    PresentMeans(files, name);
  }

  // ---------------------------------------------------------------- evidence

  /** The archive directory of this migration is there and holds something. */
  ghost predicate Archive(s: Store, id: nat) {
    && ArchiveDir(id) in s.dirs
    && (|| (exists name: Source :: EntryDir(id, name) in s.dirs)
        || (exists name, x :: Original(id, name, x) in s.files)
        || (exists name: Source :: Snapshot(id, name) in s.files)
        || Candidate(id) in s.files || id in s.manifests)
  }

  /** Its manifest loads and is complete, and every snapshot and original is where it records it. */
  ghost predicate Audited(s: Store, id: nat) {
    id in s.manifests &&
    var j := s.manifests[id];
    && JournalAccepted(j) && j.phase == Completed
    && (forall name :: name in j.snapshots ==> Holds(s.files, Snapshot(j.id, name), j.snapshots[name].fingerprint))
    && (forall name, x :: name in j.sources && x in j.sources[name] && !(j.retained && name == Canonical) ==>
          Holds(s.files, Original(j.id, name, x), j.sources[name][x]))
  }

  lemma ArchiveMeans(s: Store, id: nat)
    ensures Archive(s, id) <==> ArchiveDir(id) in s.dirs && NonEmptyArchive(s, id)
  {
    if p :| p in s.files && ArchiveOf(p) == Some(id) {
      assert p == Candidate(id) || (p.Snapshot? && p == Snapshot(id, p.source))
             || (p.Original? && p == Original(id, p.source, p.suffix));
    }
    if name, x :| Original(id, name, x) in s.files { assert ArchiveOf(Original(id, name, x)) == Some(id); }
    if name: Source :| Snapshot(id, name) in s.files { assert ArchiveOf(Snapshot(id, name)) == Some(id); }
    assert ArchiveOf(Candidate(id)) == Some(id);
  }

  lemma AuditedMeans(s: Store, id: nat)
    ensures Audited(s, id) <==> ManifestProven(s, id)
  {
    if id in s.manifests && JournalAccepted(s.manifests[id]) {
      var j := s.manifests[id];
      AcceptedMovesRetire(j);
      SnapshotPaths(j);
      hide JournalAccepted;
      OriginalsMean(j, s.files);
    }
  }

  lemma SnapshotPaths(j: Journal)
    requires JournalAccepted(j)
    ensures forall name :: name in j.snapshots ==> j.snapshots[name].path == Snapshot(j.id, name)
  {
  }

  lemma OriginalsMean(j: Journal, files: Files)
    requires forall m :: m in j.moves ==> Retires(j, m)
    requires forall name, x :: name in j.sources && x in j.sources[name] && !(j.retained && name == Canonical) ==>
               exists m :: m in j.moves && m.name == name && m.suffix == x
    ensures (forall m :: m in j.moves ==> Recorded(j, m) && Matches(files, m.destination, j.sources[m.name][m.suffix]))
            <==> forall name, x :: name in j.sources && x in j.sources[name] && !(j.retained && name == Canonical) ==>
                   Holds(files, Original(j.id, name, x), j.sources[name][x])
  {
    forall m | m in j.moves
      ensures Recorded(j, m)
              && (Matches(files, m.destination, j.sources[m.name][m.suffix]) <==>
                  Holds(files, Original(j.id, m.name, m.suffix), j.sources[m.name][m.suffix]))
    {
      assert Retires(j, m);
    }
  }

  lemma PriorMeans(s: Store)
    ensures PriorEvidence(s) <==> exists id: nat :: Archive(s, id)
    ensures AuditWarning(s) <==> exists id: nat :: Archive(s, id) && !Audited(s, id)
  {
    forall id: nat
      ensures Archive(s, id) <==> ArchiveDir(id) in s.dirs && NonEmptyArchive(s, id)
      ensures Audited(s, id) <==> ManifestProven(s, id)
    {
      ArchiveMeans(s, id);
      AuditedMeans(s, id);
    }
    hide Archive, Audited, NonEmptyArchive, ManifestProven;
    forall d | d in s.dirs && d.ArchiveDir? && NonEmptyArchive(s, d.id) ensures Archive(s, d.id) {
      assert d == ArchiveDir(d.id);
    }
  }

  // ---------------------------------------------------------------- the decision

  /** A database without its main file. */
  ghost predicate OrphanedAt(files: Files, name: Source) {
    Present(files, name) && Live(name, Main) !in files
  }

  lemma OrphanedMeans(files: Files, name: Source)
    ensures OrphanedAt(files, name) <==> Orphaned(BundleAt(files, name))
  {
    PresentMeans(files, name);
  }

  /** The canonical database is gone, and some archive shows that there was one or an attempt to make it. */
  ghost predicate Blocked(s: Store) {
    !Present(s.files, Canonical) && exists id: nat :: Archive(s, id)
  }

  /** A start is refused for its evidence exactly when there is an archive and no canonical database. */
  lemma EvidenceBlocksIff(db: Sqlite, s: Store)
    ensures Select(db, s) == Err(OrphanSidecar) <==>
            OrphanedAt(s.files, Legacy) || OrphanedAt(s.files, Canonical)
    ensures !OrphanedAt(s.files, Legacy) && !OrphanedAt(s.files, Canonical) ==>
              && (Select(db, s) == Err(EvidenceUnverified) <==>
                    Blocked(s) && exists id: nat :: Archive(s, id) && !Audited(s, id))
              && (Select(db, s) == Err(PriorCanonicalMissing) <==>
                    Blocked(s) && forall id: nat :: Archive(s, id) ==> Audited(s, id))
  {
    OrphanedMeans(s.files, Legacy);
    OrphanedMeans(s.files, Canonical);
    PresentMeans(s.files, Canonical);
    PriorMeans(s);
    hide Archive, Audited, PriorEvidence, AuditWarning, Present, OrphanedAt, Orphaned;
    if !Orphaned(BundleAt(s.files, Legacy)) && !Orphaned(BundleAt(s.files, Canonical)) {
      ChooseProblems(db, BundleAt(s.files, Legacy), BundleAt(s.files, Canonical), AuditWarning(s));
    }
  }

  lemma ChooseProblems(db: Sqlite, legacy: Bundle, canonical: Bundle, warned: bool)
    requires !Orphaned(legacy) && !Orphaned(canonical)
    ensures var r := Choose(db, legacy, canonical, warned); r.Err? ==> r.error == Invalid || r.error == Ambiguous
  {
  }

  /** The database that is chosen, from the histories of those there are. */
  ghost predicate Wins(legacy: Option<History>, canonical: Option<History>, selected: Option<Source>) {
    && (selected == None <==> legacy == None && canonical == None)
    && (selected == Some(Legacy) <==>
          legacy.Some? && (canonical == None || (legacy.value.count > 0 && canonical.value.count == 0)))
  }

  /** The histories of the databases that are there. */
  ghost predicate HistoryIs(db: Sqlite, files: Files, name: Source, history: Option<History>) {
    if history.Some? then Present(files, name) && ReadsAs(db, files, name, history.value) else !Present(files, name)
  }

  ghost function HistoryIn(histories: map<Source, History>, name: Source): Option<History> {
    if name in histories then Some(histories[name]) else None
  }

  /** What a selection that is not refused decides. */
  lemma SelectionMeans(db: Sqlite, s: Store, choice: Choice)
    requires Select(db, s) == Ok(choice)
    ensures HistoryIs(db, s.files, Legacy, HistoryIn(choice.histories, Legacy))
    ensures HistoryIs(db, s.files, Canonical, HistoryIn(choice.histories, Canonical))
    ensures Wins(HistoryIn(choice.histories, Legacy), HistoryIn(choice.histories, Canonical), choice.selected)
    ensures choice.warned <==> exists id: nat :: Archive(s, id) && !Audited(s, id)
  {
    hide Archive, Audited, HistoryIs, Wins, Chosen, PriorEvidence, AuditWarning, Select;
    assert Chosen(db, s.files, choice);
    ChosenMeans(db, s.files, choice);
    PriorMeans(s);
    WarnedMeans(db, s, choice);
  }

  lemma WarnedMeans(db: Sqlite, s: Store, choice: Choice)
    requires Select(db, s) == Ok(choice)
    ensures choice.warned <==> AuditWarning(s)
  {
    hide PriorEvidence, AuditWarning, Histories, Winner;
  }

  lemma HistoryMeans(db: Sqlite, files: Files, histories: map<Source, History>, name: Source)
    requires Inspected(db, name, BundleAt(files, name), histories)
    ensures HistoryIs(db, files, name, HistoryIn(histories, name))
  {
    PresentMeans(files, name);
    hide Present;
    if name in histories { ReadsMeans(db, files, name, histories[name]); }
    hide ReadsAs;
  }

  lemma ChosenMeans(db: Sqlite, files: Files, choice: Choice)
    requires Chosen(db, files, choice)
    ensures HistoryIs(db, files, Legacy, HistoryIn(choice.histories, Legacy))
    ensures HistoryIs(db, files, Canonical, HistoryIn(choice.histories, Canonical))
    ensures Wins(HistoryIn(choice.histories, Legacy), HistoryIn(choice.histories, Canonical), choice.selected)
  {
    hide HistoryIs, Wins, Inspected, Winner;
    HistoryMeans(db, files, choice.histories, Legacy);
    HistoryMeans(db, files, choice.histories, Canonical);
    WinnerWins(choice.histories, choice.selected);
  }

  lemma WinnerWins(histories: map<Source, History>, selected: Option<Source>)
    requires Winner(histories) == Ok(selected)
    ensures Wins(HistoryIn(histories, Legacy), HistoryIn(histories, Canonical), selected)
  {
    SomeHistory(histories);
  }

  lemma SomeHistory(histories: map<Source, History>)
    ensures histories == map[] || Legacy in histories || Canonical in histories
  {
    if histories != map[] {
      var name :| name in histories;
      assert name == Legacy || name == Canonical;
    }
  }

  /** Without an orphan or an evidence problem, selection is refused exactly for these reasons. */
  lemma SelectionRefusedIff(db: Sqlite, s: Store)
    requires !OrphanedAt(s.files, Legacy) && !OrphanedAt(s.files, Canonical) && !Blocked(s)
    ensures Select(db, s) == Err(Invalid) <==> Unreadable(db, s.files, Legacy) || Unreadable(db, s.files, Canonical)
    ensures Select(db, s) == Err(Ambiguous) <==>
            exists a, b :: HistoryIs(db, s.files, Legacy, Some(a)) && HistoryIs(db, s.files, Canonical, Some(b))
                           && a.count > 0 && b.count > 0 && a.digest != b.digest
    ensures Select(db, s).Err? ==> Select(db, s).error == Invalid || Select(db, s).error == Ambiguous
  {
    var legacy, canonical := BundleAt(s.files, Legacy), BundleAt(s.files, Canonical);
    OrphanedMeans(s.files, Legacy);
    OrphanedMeans(s.files, Canonical);
    PresentMeans(s.files, Legacy);
    PresentMeans(s.files, Canonical);
    PriorMeans(s);
    ChooseProblems(db, legacy, canonical, AuditWarning(s));
    hide Archive, Audited, PriorEvidence, AuditWarning, Orphaned, OrphanedAt;
    InvalidIff(db, s.files, AuditWarning(s));
    AmbiguousWhen(db, s.files, AuditWarning(s));
  }

  lemma InvalidIff(db: Sqlite, files: Files, warned: bool)
    requires !Orphaned(BundleAt(files, Legacy)) && !Orphaned(BundleAt(files, Canonical))
    ensures Choose(db, BundleAt(files, Legacy), BundleAt(files, Canonical), warned) == Err(Invalid) <==>
            Unreadable(db, files, Legacy) || Unreadable(db, files, Canonical)
  {
    PresentMeans(files, Legacy);
    PresentMeans(files, Canonical);
    hide Present;
  }

  lemma AmbiguousWhen(db: Sqlite, files: Files, warned: bool)
    requires !Orphaned(BundleAt(files, Legacy)) && !Orphaned(BundleAt(files, Canonical))
    ensures Choose(db, BundleAt(files, Legacy), BundleAt(files, Canonical), warned) == Err(Ambiguous) <==>
            exists a, b :: HistoryIs(db, files, Legacy, Some(a)) && HistoryIs(db, files, Canonical, Some(b))
                           && a.count > 0 && b.count > 0 && a.digest != b.digest
  {
    var histories := Histories(db, BundleAt(files, Legacy), BundleAt(files, Canonical));
    forall name: Source, h
      ensures HistoryIs(db, files, name, Some(h)) <==>
              BundleAt(files, name) != map[] && Validate(db, Contents(BundleAt(files, name))) == Ok(h)
    {
      PresentMeans(files, name);
      ReadsMeans(db, files, name, h);
    }
    if histories.Ok? { AmbiguousIff(histories.value); }
    hide HistoryIs, Winner;
  }

  // ---------------------------------------------------------------- the journal of a preparation

  ghost function SnapshotHistory(j: Journal, name: Source): Option<History> {
    if name in j.snapshots then Some(j.snapshots[name].history) else None
  }

  /** How the active databases turn into the status of the result. */
  ghost function StatusFor(files: Files): Status {
    if Present(files, Legacy) then if Present(files, Canonical) then Reconciled else Migrated
    else if Present(files, Canonical) then Kept else Created
  }

  /** The record lists every active file with its fingerprint, and nothing else. */
  ghost predicate ListsFiles(files: Files, j: Journal) {
    forall name, x ::
      && (Live(name, x) in files <==> name in j.sources && x in j.sources[name])
      && (Live(name, x) in files ==> j.sources[name][x] == files[Live(name, x)])
  }

  /** What the candidate must hold: the records of the winner, or none. */
  ghost predicate HoldsWinner(j: Journal) {
    && j.history.schema == Schema14
    && (j.selected.None? ==> j.history.count == 0)
    && (j.selected.Some? ==>
          && j.selected.value in j.snapshots
          && j.history.count == j.snapshots[j.selected.value].history.count
          && j.history.digest == j.snapshots[j.selected.value].history.digest)
  }

  /** The journal describes these files: what they hold, which database wins, and what becomes of it. */
  ghost predicate Describes(db: Sqlite, files: Files, j: Journal) {
    && ListsFiles(files, j)
    && HistoryIs(db, files, Legacy, SnapshotHistory(j, Legacy))
    && HistoryIs(db, files, Canonical, SnapshotHistory(j, Canonical))
    && Wins(SnapshotHistory(j, Legacy), SnapshotHistory(j, Canonical), j.selected)
    && HoldsWinner(j)
    && (j.upgraded <==> j.selected.Some? && j.snapshots[j.selected.value].history.schema == Schema13)
    && (j.retained <==> j.selected == Some(Canonical) && !j.upgraded)
    && j.status == StatusFor(files)
  }

  /**
   There is nothing to do exactly when the canonical database is alone, readable and on the current
   schema; it is reported as it is.
   */
  lemma NothingToDoIff(db: Sqlite, s: Store, report: Report)
    ensures NothingToDo(db, s) == Some(report) <==>
            && s.pending.None? && !Present(s.files, Legacy) && !OrphanedAt(s.files, Canonical)
            && exists h :: HistoryIs(db, s.files, Canonical, Some(h)) && h.schema == Schema14
                           && report == Report(Kept, h.count, h.digest, Some(Canonical), false)
  {
    var legacy, canonical := BundleAt(s.files, Legacy), BundleAt(s.files, Canonical);
    PresentMeans(s.files, Legacy);
    PresentMeans(s.files, Canonical);
    OrphanedMeans(s.files, Canonical);
    forall h ensures HistoryIs(db, s.files, Canonical, Some(h)) <==>
                     canonical != map[] && Validate(db, Contents(canonical)) == Ok(h) {
      ReadsMeans(db, s.files, Canonical, h);
    }
    hide HistoryIs, Present, OrphanedAt, PriorEvidence, AuditWarning, Validate, Contents;
    if s.pending.None? && legacy == map[] && !Orphaned(canonical) && canonical != map[] {
      CanonicalAlone(db, canonical, AuditWarning(s));
    }
  }

  lemma CanonicalAlone(db: Sqlite, canonical: Bundle, warned: bool)
    requires canonical != map[] && !Orphaned(canonical)
    ensures var r := Choose(db, map[], canonical, warned);
            match Validate(db, Contents(canonical))
            case Err(problem) => r == Err(problem)
            case Ok(h) => r.Ok? && r.value.selected == Some(Canonical) && r.value.histories == map[Canonical := h]
                          && r.value.legacy == map[]
  {
    assert map[] + map[Canonical := 0] == map[Canonical := 0];
  }
}
