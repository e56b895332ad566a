/**
 Choosing the winning database (`_evidence`, `_selection` and the canonical fast path of `_prepare`,
 memory/preparation.py).
 */
module Selection {
  import opened Wrappers
  import opened RowDigest
  import opened Knowledge
  import opened Recovery

  datatype Choice = Choice(
    selected: Option<Source>, legacy: Bundle, canonical: Bundle, histories: map<Source, History>, warned: bool)
  {
    function BundleOf(name: Source): Bundle {
      if name == Legacy then legacy else canonical
    }
  }

  datatype Report = Report(status: Status, count: nat, digest: seq<Byte>, selected: Option<Source>, upgraded: bool)

  function ArchiveOf(p: Path): Option<nat> {
    match p
    case Live(_, _) => None
    case Original(id, _, _) => Some(id)
    case Snapshot(id, _) => Some(id)
    case Candidate(id) => Some(id)
  }

  /** The archive directory of `id` holds something: a sub-directory, a file or a manifest. */
  predicate NonEmptyArchive(s: Store, id: nat) {
    || (exists name: Source :: EntryDir(id, name) in s.dirs)
    || (exists p :: p in s.files && ArchiveOf(p) == Some(id))
    || id in s.manifests
  }

  /** The archived manifest loads, is COMPLETED and still matches the files it records. */
  predicate ManifestProven(s: Store, id: nat) {
    id in s.manifests &&
    var j := s.manifests[id];
    && JournalAccepted(j)
    && j.phase == Completed
    && (forall name :: name in j.snapshots ==> Matches(s.files, j.snapshots[name].path, j.snapshots[name].fingerprint))
    && (forall m :: m in j.moves ==> Recorded(j, m) && Matches(s.files, m.destination, j.sources[m.name][m.suffix]))
  }

  predicate PriorEvidence(s: Store) {
    exists d :: d in s.dirs && d.ArchiveDir? && NonEmptyArchive(s, d.id)
  }

  predicate AuditWarning(s: Store) {
    exists d :: d in s.dirs && d.ArchiveDir? && NonEmptyArchive(s, d.id) && !ManifestProven(s, d.id)
  }

  /** `_validate` on the bundle if there is one. */
  function Inspect(db: Sqlite, name: Source, bundle: Bundle): Result<map<Source, History>, Problem> {
    if bundle == map[] then Ok(map[]) else
      match Validate(db, Contents(bundle))
      case Ok(history) => Ok(map[name := history])
      case Err(problem) => Err(problem)
  }

  function Winner(histories: map<Source, History>): Result<Option<Source>, Problem> {
    if histories == map[] then Ok(None)
    else if Canonical !in histories then Ok(Some(Legacy))
    else if Legacy !in histories then Ok(Some(Canonical))
    else
      var legacy, canonical := histories[Legacy], histories[Canonical];
      if legacy.count != 0 && canonical.count != 0 && legacy.digest != canonical.digest then Err(Ambiguous)
      else Ok(Some(if legacy.count != 0 && canonical.count == 0 then Legacy else Canonical))
  }

  /** What the recorded history of a database must be. */
  predicate Inspected(db: Sqlite, name: Source, bundle: Bundle, histories: map<Source, History>) {
    if bundle == map[] then name !in histories
    else Main in bundle && name in histories && Validate(db, Contents(bundle)) == Ok(histories[name])
  }

  function Histories(db: Sqlite, legacy: Bundle, canonical: Bundle): (r: Result<map<Source, History>, Problem>)
    requires !Orphaned(legacy) && !Orphaned(canonical)
    ensures r.Ok? ==> Inspected(db, Legacy, legacy, r.value) && Inspected(db, Canonical, canonical, r.value)
  {
    match Inspect(db, Legacy, legacy)
    case Err(problem) => Err(problem)
    case Ok(first) =>
      match Inspect(db, Canonical, canonical)
      case Err(problem) => Err(problem)
      case Ok(second) => Ok(first + second)
  }

  /** A choice made on these files: their bundles, the history of each, and the winner. */
  ghost predicate Chosen(db: Sqlite, files: Files, choice: Choice) {
    && choice.legacy == BundleAt(files, Legacy) && choice.canonical == BundleAt(files, Canonical)
    && Inspected(db, Legacy, BundleAt(files, Legacy), choice.histories)
    && Inspected(db, Canonical, BundleAt(files, Canonical), choice.histories)
    && Winner(choice.histories) == Ok(choice.selected)
  }

  /** `_selection` */
  function Select(db: Sqlite, s: Store): (r: Result<Choice, Problem>)
    ensures r.Ok? ==> Chosen(db, s.files, r.value)
  {
    var legacy, canonical := BundleAt(s.files, Legacy), BundleAt(s.files, Canonical);
    if Orphaned(legacy) || Orphaned(canonical) then Err(OrphanSidecar)
    else if canonical == map[] && PriorEvidence(s) then
      Err(if AuditWarning(s) then EvidenceUnverified else PriorCanonicalMissing)
    else Choose(db, legacy, canonical, AuditWarning(s))
  }

  /** The choice between the bundles there are. */
  function Choose(db: Sqlite, legacy: Bundle, canonical: Bundle, warned: bool): (r: Result<Choice, Problem>)
    requires !Orphaned(legacy) && !Orphaned(canonical)
    ensures r.Ok? ==>
      && r.value.legacy == legacy && r.value.canonical == canonical && Winner(r.value.histories) == Ok(r.value.selected)
      && Inspected(db, Legacy, legacy, r.value.histories) && Inspected(db, Canonical, canonical, r.value.histories)
  {
    match Histories(db, legacy, canonical)
    case Err(problem) => Err(problem)
    case Ok(histories) =>
      match Winner(histories)
      case Err(problem) => Err(problem)
      case Ok(selected) => Ok(Choice(selected, legacy, canonical, histories, warned))
  }

  /** The fast path of `_prepare`: a current canonical database alone is used as it is. */
  predicate UseCanonical(choice: Choice) {
    && choice.selected == Some(Canonical) && choice.legacy == map[]
    && Canonical in choice.histories && choice.histories[Canonical].schema == Schema14
  }

  /** The result of a preparation that has nothing to do, when there is nothing to do. */
  function NothingToDo(db: Sqlite, s: Store): Option<Report> {
    if s.pending.Some? then None else
      match Select(db, s)
      case Err(_) => None
      case Ok(choice) =>
        if UseCanonical(choice) then
          var history := choice.histories[Canonical];
          Some(Report(Kept, history.count, history.digest, Some(Canonical), false))
        else None
  }

  /** Selection refuses two populated histories exactly when they differ. */
  lemma AmbiguousIff(histories: map<Source, History>)
    ensures Winner(histories) == Err(Ambiguous) <==>
            && Legacy in histories
            && Canonical in histories
            && histories[Legacy].count > 0
            && histories[Canonical].count > 0
            && histories[Legacy].digest != histories[Canonical].digest
  {
  }

  /**
   Selection drops no data: every database with records holds, row for row and column for column,
   what the selected database holds.
   */
  lemma SelectionKeepsEveryRecord(db: Sqlite, s: Store, choice: Choice, name: Source)
    requires Injective(db.json)
    requires forall contents {:trigger db.read(contents)} ::
               db.read(contents).Some? ==> RowsFramable(db.json, db.read(contents).value)
    requires Select(db, s) == Ok(choice)
    requires name in choice.histories && choice.histories[name].count > 0
    ensures choice.selected.Some? && choice.selected.value in choice.histories
    ensures var won := db.read(Contents(BundleAt(s.files, choice.selected.value)));
            var other := db.read(Contents(BundleAt(s.files, name)));
            won.Some? && other.Some? && NormalRows(won.value) == NormalRows(other.value)
  {
    assert Chosen(db, s.files, choice);
    var won := choice.selected.value;
    if won != name {
      var a, b := db.read(Contents(BundleAt(s.files, won))), db.read(Contents(BundleAt(s.files, name)));
      assert choice.histories[won].digest == choice.histories[name].digest;
      EqualDigestsEqualRows(db.json, a.value, b.value);
    }
  }

  /**
   An attempt that died after its archive got its first entry and before its journal was durable
   leaves an archive without a manifest.  The next start is then refused exactly when there is no
   canonical database yet.
   */
  lemma AbandonedArchiveBlocks(db: Sqlite, s: Store, id: nat)
    requires ArchiveDir(id) in s.dirs && NonEmptyArchive(s, id) && id !in s.manifests
    requires !Orphaned(BundleAt(s.files, Legacy)) && !Orphaned(BundleAt(s.files, Canonical))
    ensures Select(db, s) == Err(EvidenceUnverified) <==> BundleAt(s.files, Canonical) == map[]
  {
    assert !ManifestProven(s, id);
    var d := ArchiveDir(id);
    assert d in s.dirs && NonEmptyArchive(s, d.id) && !ManifestProven(s, d.id);
  }
}
