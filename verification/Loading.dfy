/**
 What the journal loader accepts (`_load_journal`, memory/preparation.py), told without the list of moves
 it computes, and what an accepted record on a disk that matches it publishes.
 */
module Loading {
  import opened Wrappers
  import opened RowDigest
  import opened Knowledge
  import opened Verification

  /** Legacy before canonical, and in each the main file, the log, its index and the rollback journal. */
  ghost predicate Before(a: Move, b: Move) {
    || (a.name == Legacy && b.name == Canonical)
    || (a.name == b.name && (a.suffix == Main || (a.suffix == Wal && b.suffix != Main)
                             || (a.suffix == Shm && b.suffix == Rollback)) && a.suffix != b.suffix)
  }

  /** Every recorded file but the retained winner's is to be retired, once and in order. */
  ghost predicate MovesRecord(j: Journal) {
    && (forall m :: m in j.moves ==> Retires(j, m))
    && (forall name, x :: name in j.sources && x in j.sources[name] && !(j.retained && name == Canonical) ==>
          exists m :: m in j.moves && m.name == name && m.suffix == x)
    && (forall i, k :: 0 <= i < k < |j.moves| ==> Before(j.moves[i], j.moves[k]))
  }

  /** What is published is the winner's history, or nothing where there was nothing. */
  ghost predicate WinnerRecorded(j: Journal) {
    if j.selected.None? then
      j.sources == map[] && j.history.count == 0 && j.status == Created && !j.retained
    else
      && j.selected.value in j.snapshots
      && var won := j.snapshots[j.selected.value].history;
      && won.count == j.history.count && won.digest == j.history.digest
      && (j.upgraded <==> won.schema == Schema13)
      && (j.retained ==> j.selected == Some(Canonical) && !j.upgraded)
  }

  ghost predicate Loadable(j: Journal) {
    && j.candidate == Candidate(j.id) && j.history.schema == Schema14
    && (forall name: Source :: name in j.snapshots <==> name in j.sources)
    && (forall name :: name in j.sources ==> Main in j.sources[name] && j.snapshots[name].path == Snapshot(j.id, name))
    && MovesRecord(j) && WinnerRecorded(j)
  }

  function Rank(m: Move): nat {
    SlotRank(m.name, m.suffix)
  }

  lemma RankMeans(a: Move, b: Move)
    ensures Before(a, b) <==> Rank(a) < Rank(b)
    ensures Rank(a) == Rank(b) <==> a.name == b.name && a.suffix == b.suffix
  {
  }

  ghost predicate Rising(a: seq<nat>) {
    forall i, k :: 0 <= i < k < |a| ==> a[i] < a[k]
  }

  lemma RisingFront(a: seq<nat>)
    requires Rising(a) && a != []
    ensures Rising(a[..|a| - 1])
    ensures forall x :: x in a[..|a| - 1] <==> x in a && x != a[|a| - 1]
    ensures forall x :: x in a ==> x <= a[|a| - 1]
  {
    var n := |a| - 1;
    forall x | x in a && x != a[n] ensures x in a[..n] {
      var i :| 0 <= i < |a| && a[i] == x;
      assert a[..n][i] == x;
    }
  }

  lemma EmptyTogether(a: seq<nat>, b: seq<nat>)
    requires forall x :: x in a <==> x in b
    ensures a == [] ==> b == []
  {
    if b != [] { assert b[0] in a; }
  }

  /** A rising list is given by its elements. */
  lemma {:induction false} SameRising(a: seq<nat>, b: seq<nat>)
    requires Rising(a) && Rising(b) && forall x :: x in a <==> x in b
    ensures a == b
    decreases |a|
  {
    if a == [] {
      EmptyTogether(a, b);
    } else {
      assert a[|a| - 1] in b;
      RisingFront(a);
      RisingFront(b);
      assert b[|b| - 1] in a;
      assert a[|a| - 1] == b[|b| - 1];
      var x, y := a[..|a| - 1], b[..|b| - 1];
      assert forall n :: n in x <==> n in y by {
        forall n ensures n in x <==> n in y {
          assert n in a <==> n in b;
        }
      }
      SameRising(x, y);
      assert a == a[..|a| - 1] + [a[|a| - 1]] && b == b[..|b| - 1] + [b[|b| - 1]];
    }
  }

  function Ranks(moves: seq<Move>): (r: seq<nat>)
    ensures |r| == |moves| && forall i :: 0 <= i < |r| ==> r[i] == Rank(moves[i])
  {
    seq(|moves|, i requires 0 <= i < |moves| => Rank(moves[i]))
  }

  /** Lists of moves in order, of which each moves what the other moves. */
  lemma SameOrder(a: seq<Move>, b: seq<Move>)
    requires InSlotOrder(a) && InSlotOrder(b) && Covers(a, b) && Covers(b, a)
    ensures Ranks(a) == Ranks(b)
  {
    assert Rising(Ranks(a)) && Rising(Ranks(b));
    CoversRanks(a, b);
    CoversRanks(b, a);
    SameRising(Ranks(a), Ranks(b));
  }

  ghost predicate Covers(a: seq<Move>, b: seq<Move>) {
    forall m :: m in b ==> exists n :: n in a && n.name == m.name && n.suffix == m.suffix
  }

  lemma CoversRanks(a: seq<Move>, b: seq<Move>)
    requires Covers(a, b)
    ensures forall x :: x in Ranks(b) ==> x in Ranks(a)
  {
    hide Rank;
    forall x | x in Ranks(b) ensures x in Ranks(a) {
      var k :| 0 <= k < |b| && Ranks(b)[k] == x;
      assert b[k] in b;
      var n :| n in a && n.name == b[k].name && n.suffix == b[k].suffix;
      var i :| 0 <= i < |a| && a[i] == n;
      RankMeans(n, b[k]);
      assert Ranks(a)[i] == x;
    }
  }

  lemma PlannedInOrder(j: Journal)
    ensures InSlotOrder(PlannedMoves(j.id, j.sources, j.retained))
  {
    SlotsRanked();
    MovesRanked(j.id, j.sources, j.retained, Slots());
  }

  lemma OrderMeans(moves: seq<Move>)
    ensures InSlotOrder(moves) <==> forall i, k :: 0 <= i < k < |moves| ==> Before(moves[i], moves[k])
  {
    forall i, k | 0 <= i < k < |moves| ensures Before(moves[i], moves[k]) <==> Rank(moves[i]) < Rank(moves[k]) {
      RankMeans(moves[i], moves[k]);
    }
  }

  lemma RecordCovers(j: Journal)
    requires MovesRecord(j)
    ensures Covers(j.moves, PlannedMoves(j.id, j.sources, j.retained))
    ensures Covers(PlannedMoves(j.id, j.sources, j.retained), j.moves)
  {
    hide PlannedMoves;
    PlannedMovesExact(j.id, j.sources, j.retained);
    var planned := PlannedMoves(j.id, j.sources, j.retained);
    forall m | m in j.moves ensures exists n :: n in planned && n.name == m.name && n.suffix == m.suffix {
      assert Retires(j, m) && Displaced(j.sources, j.retained, (m.name, m.suffix));
      assert PlannedMove(j.id, (m.name, m.suffix)) in planned;
    }
  }

  /** Where the record retires what is displaced, in order, its list is the computed one. */
  lemma RecordedAsPlanned(j: Journal)
    requires MovesRecord(j)
    ensures MovesAsPlanned(j)
  {
    var planned := PlannedMoves(j.id, j.sources, j.retained);
    PlannedInOrder(j);
    OrderMeans(j.moves);
    PlannedMovesExact(j.id, j.sources, j.retained);
    RecordCovers(j);
    hide PlannedMoves, InSlotOrder, Covers, Rank;
    SameOrder(j.moves, planned);
    forall i | 0 <= i < |planned|
      ensures j.moves[i].(intent := false, done := false) == planned[i] && (j.moves[i].done ==> j.moves[i].intent)
    {
      assert Ranks(j.moves)[i] == Ranks(planned)[i];
      RankMeans(j.moves[i], planned[i]);
      assert Retires(j, j.moves[i]) && planned[i] in planned;
    }
  }

  lemma PlannedAsRecorded(j: Journal)
    requires JournalAccepted(j)
    ensures MovesRecord(j)
  {
    AcceptedMovesRetire(j);
    PlannedInOrder(j);
    OrderMeans(j.moves);
    hide PlannedMoves, JournalAccepted;
    forall i, k | 0 <= i < k < |j.moves| ensures Rank(j.moves[i]) < Rank(j.moves[k]) {
      AsPlanned(j, i);
      AsPlanned(j, k);
    }
  }

  lemma AcceptedLoadable(j: Journal)
    requires JournalAccepted(j)
    ensures Loadable(j)
  {
    hide MovesRecord, MovesAsPlanned;
    PlannedAsRecorded(j);
  }

  lemma LoadableAccepted(j: Journal)
    requires Loadable(j)
    ensures JournalAccepted(j)
  {
    hide MovesRecord, MovesAsPlanned;
    RecordedAsPlanned(j);
    assert j.snapshots.Keys == j.sources.Keys;
  }

  /** The loader accepts exactly these records. */
  lemma AcceptedIff(j: Journal)
    ensures JournalAccepted(j) <==> Loadable(j)
  {
    hide JournalAccepted, Loadable;
    if JournalAccepted(j) { AcceptedLoadable(j); }
    if Loadable(j) { LoadableAccepted(j); }
  }

  lemma MovesNeedSources(j: Journal)
    requires MovesRecord(j) && j.moves != []
    ensures j.moves[0].name in j.sources
  {
    assert j.moves[0] in j.moves;
  }

  /** Both contents read as databases, with the same rows up to the added column. */
  ghost predicate SameRecords(db: Sqlite, a: nat, b: nat) {
    var x, y := db.read(map[Main := a]), db.read(map[Main := b]);
    x.Some? && y.Some? && NormalRows(x.value) == NormalRows(y.value)
  }

  ghost predicate OnSchema(db: Sqlite, content: nat, schema: Schema) {
    var table := db.read(map[Main := content]);
    table.Some? && table.value.schema == schema
  }

  /**
   On a disk that is as an accepted journal says, what is published reads as the winner's records: the
   snapshot of the selected database and the candidate hold the same rows, up to the added column.
   */
  lemma PublishesTheWinner(db: Sqlite, j: Journal, files: Files, name: Source)
    requires Injective(db.json)
    requires forall contents {:trigger db.read(contents)} ::
               db.read(contents).Some? ==> RowsFramable(db.json, db.read(contents).value)
    requires JournalAccepted(j) && Evident(db, j, files) && j.selected == Some(name)
    ensures name in j.snapshots
    ensures SameRecords(db, j.candidateFingerprint.content, j.snapshots[name].fingerprint.content)
    ensures OnSchema(db, j.candidateFingerprint.content, Schema14)
    ensures j.upgraded <==> OnSchema(db, j.snapshots[name].fingerprint.content, Schema13)
  {
    AcceptedIff(j);
    hide JournalAccepted, MovesRecord;
    assert Reads(db, j.candidateFingerprint.content, j.history);
    var snapshot := j.snapshots[name];
    assert Reads(db, snapshot.fingerprint.content, snapshot.history);
    var published, won := db.read(map[Main := j.candidateFingerprint.content]),
                          db.read(map[Main := snapshot.fingerprint.content]);
    EqualDigestsEqualRows(db.json, published.value, won.value);
  }

  /** And where nothing was selected it publishes a database without records. */
  lemma PublishesNothing(db: Sqlite, j: Journal, files: Files)
    requires JournalAccepted(j) && Evident(db, j, files) && j.selected.None?
    ensures var published := db.read(map[Main := j.candidateFingerprint.content]);
            published.Some? && published.value.schema == Schema14 && |published.value.rows| == 0
    ensures j.moves == [] && j.snapshots == map[] && j.status == Created
  {
    AcceptedIff(j);
    assert Reads(db, j.candidateFingerprint.content, j.history);
    if j.moves != [] { MovesNeedSources(j); }
  }
}
