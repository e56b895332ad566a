/**
 The knowledge migration journal and the disk it describes (memory/preparation.py):
 the paths a migration may touch, the journal record, its validator `_load_journal`
 and the two independent verifiers a restart runs before it continues.

 A fingerprint stands for the recorded SHA-256, size, mode, device, inode and mtime of a file:
 `content` names the bytes, `inode` the file's identity, which a rename keeps.
 */
module Knowledge {
  import opened Wrappers
  import opened RowDigest

  datatype Source = Legacy | Canonical

  datatype Suffix = Main | Wal | Shm | Rollback

  const SUFFIXES: seq<Suffix> := [Main, Wal, Shm, Rollback]

  datatype Fingerprint = Fingerprint(content: nat, inode: nat)

  datatype Path =
    | Live(source: Source, suffix: Suffix)
    | Original(id: nat, source: Source, suffix: Suffix)
    | Snapshot(id: nat, source: Source)
    | Candidate(id: nat)

  type Files = map<Path, Fingerprint>

  type Bundle = map<Suffix, Fingerprint>

  datatype Phase = Prepared | Retiring | Published | Completed

  datatype Status = Created | Kept | Migrated | Reconciled

  datatype SnapshotRecord = SnapshotRecord(path: Path, fingerprint: Fingerprint, history: History)

  datatype Move = Move(name: Source, suffix: Suffix, source: Path, destination: Path, intent: bool, done: bool)

  datatype Journal = Journal(
    id: nat, phase: Phase, selected: Option<Source>, retained: bool,
    sources: map<Source, Bundle>, snapshots: map<Source, SnapshotRecord>,
    candidate: Path, candidateFingerprint: Fingerprint, history: History,
    moves: seq<Move>, publicationIntent: bool, status: Status, upgraded: bool)

  datatype Problem =
    | Invalid                   // a candidate database fails validation
    | OrphanSidecar
    | Ambiguous
    | EvidenceUnverified        // canonical missing, archive without a proven manifest
    | PriorCanonicalMissing
    | MalformedJournal
    | RetirementUnverified
    | UnexpectedCompanion
    | RetainedWinnerChanged
    | CandidateUnverified
    | UnexpectedCanonical
    | PublicationUnverified
    | SnapshotUnverified
    | ChangedSource
    | UnexpectedDestination
    | SnapshotHistoryChanged
    | UpgradeHistoryChanged
    | ArchiveExists

  /**
   SQLite as seen from here: `read` recovers and validates a private copy of a bundle, `backup`
   gives the content of its snapshot, `stage` the content of a candidate built from a snapshot
   (or from nothing) with or without the added column.
   */
  datatype Sqlite = Sqlite(
    read: map<Suffix, nat> -> Option<Table>,
    backup: map<Suffix, nat> -> nat,
    stage: (Option<nat>, bool) -> nat,
    json: Row -> seq<Byte>)

  function Contents(bundle: Bundle): map<Suffix, nat> {
    map x | x in bundle :: bundle[x].content
  }

  /** `_validate` on a private copy: the bundle's schema, row count and digest. */
  function Validate(db: Sqlite, contents: map<Suffix, nat>): Result<History, Problem> {
    match db.read(contents)
    case Some(table) => Ok(HistoryOf(db.json, table))
    case None => Err(Invalid)
  }

  function BundleAt(files: Files, name: Source): (bundle: Bundle)
    ensures forall x :: x in bundle <==> Live(name, x) in files
    ensures forall x :: x in bundle ==> bundle[x] == files[Live(name, x)]
  {
    map x: Suffix | Live(name, x) in files :: files[Live(name, x)]
  }

  predicate Orphaned(bundle: Bundle) {
    bundle != map[] && Main !in bundle
  }

  predicate Matches(files: Files, path: Path, fingerprint: Fingerprint) {
    path in files && files[path] == fingerprint
  }

  // ---------------------------------------------------------------- planned moves

  type Slot = (Source, Suffix)

  function SlotAt(i: nat): Slot
    requires i < 8
  {
    (if i < 4 then Legacy else Canonical, SUFFIXES[i % 4])
  }

  /** Every database file, in the order they are retired. */
  function Slots(): (slots: seq<Slot>)
    ensures |slots| == 8
  {
    seq(8, i requires 0 <= i < 8 => SlotAt(i))
  }

  predicate Displaced(sources: map<Source, Bundle>, retained: bool, slot: Slot) {
    slot.0 in sources && slot.1 in sources[slot.0] && !(slot.0 == Canonical && retained)
  }

  function PlannedMove(id: nat, slot: Slot): Move {
    Move(slot.0, slot.1, Live(slot.0, slot.1), Original(id, slot.0, slot.1), false, false)
  }

  function MovesOver(id: nat, sources: map<Source, Bundle>, retained: bool, slots: seq<Slot>): (moves: seq<Move>)
    ensures forall m :: m in moves ==> (m.name, m.suffix) in slots && Displaced(sources, retained, (m.name, m.suffix))
                                       && m == PlannedMove(id, (m.name, m.suffix))
    ensures forall slot :: slot in slots && Displaced(sources, retained, slot) ==> PlannedMove(id, slot) in moves
  {
    if slots == [] then [] else
      var last := |slots| - 1;
      MovesOver(id, sources, retained, slots[..last]) +
      (if Displaced(sources, retained, slots[last]) then [PlannedMove(id, slots[last])] else [])
  }

  /** The moves a migration plans: legacy before canonical, the main file before its companions. */
  function PlannedMoves(id: nat, sources: map<Source, Bundle>, retained: bool): seq<Move> {
    MovesOver(id, sources, retained, Slots())
  }

  // ---------------------------------------------------------------- `_load_journal`

  predicate MovesAsPlanned(j: Journal) {
    var planned := PlannedMoves(j.id, j.sources, j.retained);
    && |j.moves| == |planned|
    && forall i | 0 <= i < |planned| ::
         && j.moves[i].(intent := false, done := false) == planned[i]
         && (j.moves[i].done ==> j.moves[i].intent)
  }

  predicate SelectionConsistent(j: Journal) {
    match j.selected
    case None => j.sources == map[] && j.history.count == 0 && j.status == Created
    case Some(name) =>
      && name in j.snapshots
      && j.snapshots[name].history.count == j.history.count
      && j.snapshots[name].history.digest == j.history.digest
      && j.upgraded == (j.snapshots[name].history.schema == Schema13)
  }

  /** `_load_journal` accepts the record. */
  predicate JournalAccepted(j: Journal) {
    && j.candidate == Candidate(j.id)
    && j.snapshots.Keys == j.sources.Keys
    && j.history.schema == Schema14
    && (forall name | name in j.sources :: Main in j.sources[name] && j.snapshots[name].path == Snapshot(j.id, name))
    && MovesAsPlanned(j)
    && (j.retained ==> j.selected == Some(Canonical) && !j.upgraded && Canonical in j.sources)
    && SelectionConsistent(j)
  }

  // ---------------------------------------------------------------- `_verify_recovery_layout`

  predicate Recorded(j: Journal, m: Move) {
    m.name in j.sources && m.suffix in j.sources[m.name]
  }

  predicate MoveProven(j: Journal, files: Files, m: Move)
    requires Recorded(j, m)
  {
    var fingerprint := j.sources[m.name][m.suffix];
    var before := Matches(files, m.source, fingerprint) && m.destination !in files;
    var republished := m.name == Canonical && m.suffix == Main && j.publicationIntent
                       && Matches(files, m.source, j.candidateFingerprint);
    var after := (m.source !in files || republished) && Matches(files, m.destination, fingerprint);
    !((m.done && !after) || (!m.intent && !before) || (m.intent && !(before || after)))
  }

  /** Every active file is recorded in the journal, or is the published candidate. */
  predicate NoUnexpectedCompanion(j: Journal, files: Files) {
    forall name: Source, x: Suffix ::
      (name !in j.sources || x !in j.sources[name]) && Live(name, x) in files ==>
        name == Canonical && x == Main && j.publicationIntent && Matches(files, Live(name, x), j.candidateFingerprint)
  }

  predicate CanonicalMain(m: Move) {
    m.name == Canonical && m.suffix == Main
  }

  function FirstCanonicalMain(moves: seq<Move>): (r: Option<Move>)
    ensures r.Some? ==> r.value in moves && CanonicalMain(r.value)
    ensures r.None? ==> forall m :: m in moves ==> !CanonicalMain(m)
  {
    if moves == [] then None
    else if CanonicalMain(moves[0]) then Some(moves[0])
    else FirstCanonicalMain(moves[1..])
  }

  function LayoutProblem(j: Journal, files: Files): Option<Problem>
    requires forall m :: m in j.moves ==> Recorded(j, m)
  {
    var move := FirstCanonicalMain(j.moves);
    if exists i :: 0 <= i < |j.moves| && !MoveProven(j, files, j.moves[i]) then
      Some(RetirementUnverified)
    else if !NoUnexpectedCompanion(j, files) then
      Some(UnexpectedCompanion)
    else if j.retained then
      if Orphaned(BundleAt(files, Canonical)) then Some(OrphanSidecar)
      else if Canonical !in j.sources || BundleAt(files, Canonical) != j.sources[Canonical]
              || !Matches(files, j.candidate, j.candidateFingerprint) then Some(RetainedWinnerChanged)
      else None
    else if j.candidate in files then
      if files[j.candidate] != j.candidateFingerprint then Some(CandidateUnverified)
      else if Live(Canonical, Main) in files && (move.None? || move.value.done) then Some(UnexpectedCanonical)
      else None
    else if !j.publicationIntent || !Matches(files, Live(Canonical, Main), j.candidateFingerprint)
            || exists x: Suffix :: x != Main && Live(Canonical, x) in files then
      Some(PublicationUnverified)
    else None
  }

  // ---------------------------------------------------------------- `_verify_recovery`

  predicate SnapshotProven(db: Sqlite, files: Files, snapshot: SnapshotRecord) {
    && Matches(files, snapshot.path, snapshot.fingerprint)
    && Validate(db, map[Main := snapshot.fingerprint.content]) == Ok(snapshot.history)
  }

  predicate PublicationProven(db: Sqlite, j: Journal, files: Files) {
    && (j.candidate in files || forall x: Suffix :: x != Main ==> Live(Canonical, x) !in files)
    && Matches(files, if j.candidate in files then j.candidate else Live(Canonical, Main), j.candidateFingerprint)
    && Validate(db, map[Main := j.candidateFingerprint.content]) == Ok(j.history)
  }

  function RecoveryProblem(db: Sqlite, j: Journal, files: Files): Option<Problem>
    requires forall m :: m in j.moves ==> Recorded(j, m)
  {
    var layout := LayoutProblem(j, files);
    if layout.Some? then layout
    else if exists name :: name in j.snapshots && !SnapshotProven(db, files, j.snapshots[name])
      then Some(SnapshotUnverified)
    else if !PublicationProven(db, j, files) then Some(CandidateUnverified)
    else None
  }

  /** An accepted journal names only recorded files, so the verifiers never miss a key. */
  lemma AcceptedMovesRecorded(j: Journal)
    requires JournalAccepted(j)
    ensures forall m :: m in j.moves ==> Recorded(j, m)
  {
  }

  // ---------------------------------------------------------------- order of the planned moves

  function SlotRank(name: Source, suffix: Suffix): nat {
    (if name == Legacy then 0 else 4) + (match suffix case Main => 0 case Wal => 1 case Shm => 2 case Rollback => 3)
  }

  ghost predicate Ranked(slots: seq<Slot>) {
    forall i, k :: 0 <= i < k < |slots| ==> SlotRank(slots[i].0, slots[i].1) < SlotRank(slots[k].0, slots[k].1)
  }

  ghost predicate InSlotOrder(moves: seq<Move>) {
    forall i, k :: 0 <= i < k < |moves| ==>
      SlotRank(moves[i].name, moves[i].suffix) < SlotRank(moves[k].name, moves[k].suffix)
  }

  ghost predicate Disjoint(moves: seq<Move>) {
    forall i, k :: 0 <= i < k < |moves| ==>
      moves[i].source != moves[k].source && moves[i].destination != moves[k].destination
  }

  lemma {:induction false} MovesRanked(id: nat, sources: map<Source, Bundle>, retained: bool, slots: seq<Slot>)
    requires Ranked(slots)
    ensures InSlotOrder(MovesOver(id, sources, retained, slots))
  {
    if slots != [] {
      var last := |slots| - 1;
      var moves := MovesOver(id, sources, retained, slots);
      var rest := MovesOver(id, sources, retained, slots[..last]);
      MovesRanked(id, sources, retained, slots[..last]);
      forall i, k | 0 <= i < k < |moves|
        ensures SlotRank(moves[i].name, moves[i].suffix) < SlotRank(moves[k].name, moves[k].suffix)
      {
        assert moves[i] == rest[i] && rest[i] in rest;
        if k == |rest| {
          var n :| 0 <= n < last && slots[..last][n] == (moves[i].name, moves[i].suffix);
          assert slots[n] == (moves[i].name, moves[i].suffix);
        }
      }
    }
  }

  lemma SlotsRanked()
    ensures Ranked(Slots())
    ensures forall name: Source, x: Suffix :: (name, x) in Slots()
  {
    forall i | 0 <= i < 8 ensures Slots()[i] == SlotAt(i) && SlotRank(SlotAt(i).0, SlotAt(i).1) == i {
    }
    forall name: Source, x: Suffix ensures (name, x) in Slots() {
      assert Slots()[SlotRank(name, x)] == SlotAt(SlotRank(name, x)) == (name, x);
    }
  }

  /** No two planned moves share a source or a destination. */
  lemma PlannedMovesDistinct(id: nat, sources: map<Source, Bundle>, retained: bool)
    ensures Disjoint(PlannedMoves(id, sources, retained))
  {
    SlotsRanked();
    MovesRanked(id, sources, retained, Slots());
    var moves := PlannedMoves(id, sources, retained);
    assert forall m :: m in moves ==> m == PlannedMove(id, (m.name, m.suffix));
    forall i, k | 0 <= i < k < |moves|
      ensures moves[i].source != moves[k].source && moves[i].destination != moves[k].destination
    {
      assert moves[i] in moves && moves[k] in moves;
    }
  }

  /** The planned moves are exactly the displaced files. */
  lemma PlannedMovesExact(id: nat, sources: map<Source, Bundle>, retained: bool)
    ensures var moves := PlannedMoves(id, sources, retained);
            && (forall name, x :: Displaced(sources, retained, (name, x)) ==> PlannedMove(id, (name, x)) in moves)
            && (forall m :: m in moves ==>
                  Displaced(sources, retained, (m.name, m.suffix)) && m == PlannedMove(id, (m.name, m.suffix)))
  {
    SlotsRanked();
  }
}
