/**
 The crash-recoverable part of knowledge preparation (`_resume`, memory/preparation.py).

 A crash loses memory and keeps the disk.  The next durable action of `_resume` (a journal
 replacement, a rename, a manifest write or the final unlink) is a function of the disk alone:
 `Next`.  `Run` iterates it, so the stores `Run(s, n)` are exactly the disks a crash can leave.
 */
module Recovery {
  import opened Wrappers
  import opened Knowledge

  datatype Directory = ArchiveDir(id: nat) | EntryDir(id: nat, name: Source)

  /** The durable state: files, directories, the pending journal and the archived manifests. */
  datatype Store = Store(files: Files, dirs: set<Directory>, pending: Option<Journal>, manifests: map<nat, Journal>)

  datatype Verdict = Continue(next: Store) | Finished | Refused(problem: Problem)

  predicate AllRecorded(j: Journal) {
    forall m :: m in j.moves ==> Recorded(j, m)
  }

  predicate Readable(s: Store) {
    s.pending.Some? ==> AllRecorded(s.pending.value)
  }

  function FirstUndone(moves: seq<Move>): (i: nat)
    ensures i <= |moves|
    ensures forall k :: 0 <= k < i ==> moves[k].done
    ensures i < |moves| ==> !moves[i].done
  {
    if moves == [] || !moves[0].done then 0 else 1 + FirstUndone(moves[1..])
  }

  function WithIntent(j: Journal, i: nat): Journal
    requires i < |j.moves|
  {
    j.(moves := j.moves[i := j.moves[i].(intent := true)])
  }

  function WithDone(j: Journal, i: nat): Journal
    requires i < |j.moves|
  {
    j.(moves := j.moves[i := j.moves[i].(done := true)])
  }

  function Rename(files: Files, a: Path, b: Path): Files
    requires a in files
  {
    (files - {a})[b := files[a]]
  }

  function Retire(s: Store, j: Journal, i: nat): Verdict
    requires i < |j.moves| && AllRecorded(j)
  {
    var m := j.moves[i];
    assert m in j.moves;
    if !m.intent then Continue(s.(pending := Some(WithIntent(j, i))))
    else if m.source in s.files then
      if s.files[m.source] != j.sources[m.name][m.suffix] || m.destination in s.files then Refused(ChangedSource)
      else Continue(s.(files := Rename(s.files, m.source, m.destination)))
    else Continue(s.(pending := Some(WithDone(j, i))))
  }

  function Publish(s: Store, j: Journal): Verdict {
    var established := Continue(s.(pending := Some(j.(phase := Published))));
    var canonical := BundleAt(s.files, Canonical);
    if !j.publicationIntent then Continue(s.(pending := Some(j.(publicationIntent := true))))
    else if j.retained then
      if Orphaned(canonical) then Refused(OrphanSidecar)
      else if Canonical !in j.sources || canonical != j.sources[Canonical] then Refused(RetainedWinnerChanged)
      else established
    else if j.candidate in s.files then
      if Orphaned(canonical) then Refused(OrphanSidecar)
      else if canonical != map[] then Refused(UnexpectedDestination)
      else Continue(s.(files := Rename(s.files, j.candidate, Live(Canonical, Main))))
    else if !Matches(s.files, Live(Canonical, Main), j.candidateFingerprint) then Refused(PublicationUnverified)
    else established
  }

  function Close(s: Store, j: Journal): Verdict {
    if j.phase == Published then Continue(s.(pending := Some(j.(phase := Completed))))
    else if j.id in s.manifests && s.manifests[j.id] == j then Continue(s.(pending := None))
    else Continue(s.(manifests := s.manifests[j.id := j]))
  }

  /** The next durable action of `_resume`, as the disk determines it. */
  function Next(s: Store): Verdict
    requires Readable(s)
  {
    if s.pending.None? then Finished else
      var j := s.pending.value;
      if j.phase == Prepared then Continue(s.(pending := Some(j.(phase := Retiring))))
      else
        var i := FirstUndone(j.moves);
        if i < |j.moves| then Retire(s, j, i)
        else if j.phase == Retiring then Publish(s, j)
        else Close(s, j)
  }

  lemma UpdateRecorded(j: Journal, i: nat)
    requires AllRecorded(j) && i < |j.moves|
    ensures AllRecorded(WithIntent(j, i)) && AllRecorded(WithDone(j, i))
  {
    assert j.moves[i] in j.moves;
    forall j' | j' == WithIntent(j, i) || j' == WithDone(j, i) ensures AllRecorded(j') {
      forall m | m in j'.moves ensures Recorded(j', m) {
        var k :| 0 <= k < |j'.moves| && j'.moves[k] == m;
        assert j.moves[k] in j.moves;
      }
    }
  }

  lemma SameMovesRecorded(j: Journal, j': Journal)
    requires AllRecorded(j) && j'.moves == j.moves && j'.sources == j.sources
    ensures AllRecorded(j')
  {
  }

  lemma RetireReadable(s: Store, j: Journal, i: nat)
    requires s.pending == Some(j) && AllRecorded(j) && i < |j.moves| && Retire(s, j, i).Continue?
    ensures Readable(Retire(s, j, i).next)
  {
    UpdateRecorded(j, i);
  }

  lemma PublishKeepsMoves(s: Store, j: Journal)
    requires s.pending == Some(j) && Publish(s, j).Continue?
    ensures var p := Publish(s, j).next.pending; p.Some? && p.value.moves == j.moves && p.value.sources == j.sources
  {
  }

  lemma NextReadable(s: Store)
    requires Readable(s) && Next(s).Continue?
    ensures Readable(Next(s).next)
  {
    var j := s.pending.value;
    var i := FirstUndone(j.moves);
    if j.phase != Prepared && i < |j.moves| {
      RetireReadable(s, j, i);
    } else {
      if j.phase == Retiring {
        PublishKeepsMoves(s, j);
      }
      var pending := Next(s).next.pending;
      if pending.Some? {
        SameMovesRecorded(j, pending.value);
      }
    }
  }

  /** One durable action, if the disk calls for one. */
  function Step(s: Store): Store {
    if Readable(s) && Next(s).Continue? then Next(s).next else s
  }

  lemma StepReadable(s: Store)
    requires Readable(s)
    ensures Readable(Step(s))
  {
    if Next(s).Continue? {
      NextReadable(s);
    }
  }

  function Iterate<T>(step: T -> T, x: T, n: nat): T {
    if n == 0 then x else step(Iterate(step, x, n - 1))
  }

  lemma {:induction false} IterateSplit<T>(step: T -> T, x: T, m: nat, n: nat)
    ensures Iterate(step, Iterate(step, x, m), n) == Iterate(step, x, m + n)
    decreases n
  {
    if n > 0 {
      IterateSplit(step, x, m, n - 1);
    }
  }

  lemma {:induction false} IterateReadable(s: Store, n: nat)
    requires Readable(s)
    ensures Readable(Iterate(Step, s, n))
    decreases n
  {
    hide Step, Next;
    if n > 0 {
      IterateReadable(s, n - 1);
      StepReadable(Iterate(Step, s, n - 1));
    }
  }

  /** The disk after at most `n` further durable actions. */
  function Run(s: Store, n: nat): (r: Store)
    requires Readable(s)
    ensures Readable(r)
  {
    IterateReadable(s, n);
    Iterate(Step, s, n)
  }

  lemma RunNothing(s: Store)
    requires Readable(s)
    ensures Run(s, 0) == s
  {
  }

  lemma RunStep(s: Store, n: nat)
    requires Readable(s)
    ensures Next(Run(s, n)).Continue? ==> Run(s, n + 1) == Next(Run(s, n)).next
    ensures !Next(Run(s, n)).Continue? ==> Run(s, n + 1) == Run(s, n)
  {
  }

  lemma RunSplit(s: Store, m: nat, n: nat)
    requires Readable(s)
    ensures Run(Run(s, m), n) == Run(s, m + n)
  {
    IterateSplit(Step, s, m, n);
  }

  // ---------------------------------------------------------------- termination

  /** Lexicographic: pending, phase, undone moves, progress inside the current phase. */
  datatype Measure = Measure(pending: nat, phase: nat, undone: nat, local: nat)

  predicate Below(a: Measure, b: Measure) {
    a.pending < b.pending || (a.pending == b.pending &&
    (a.phase < b.phase || (a.phase == b.phase &&
    (a.undone < b.undone || (a.undone == b.undone && a.local < b.local)))))
  }

  function Undone(moves: seq<Move>): nat {
    if moves == [] then 0 else Undone(moves[1..]) + (if moves[0].done then 0 else 1)
  }

  function PhaseRank(phase: Phase): nat {
    match phase case Prepared => 3 case Retiring => 2 case Published => 1 case Completed => 0
  }

  function MeasureOf(s: Store): Measure {
    if s.pending.None? then Measure(0, 0, 0, 0) else
      var j := s.pending.value;
      var i := FirstUndone(j.moves);
      var local :=
        if i < |j.moves| then
          if !j.moves[i].intent then 2 else if j.moves[i].source in s.files then 1 else 0
        else if j.phase == Retiring then
          if !j.publicationIntent then 2 else if j.candidate in s.files then 1 else 0
        else if j.id in s.manifests && s.manifests[j.id] == j then 0 else 1;
      Measure(1, PhaseRank(j.phase), Undone(j.moves), local)
  }

  lemma {:induction false} UndoneDrops(moves: seq<Move>, i: nat, m: Move)
    requires i < |moves|
    ensures Undone(moves[i := m]) == Undone(moves) - (if moves[i].done then 0 else 1) + (if m.done then 0 else 1)
  {
    if i > 0 {
      UndoneDrops(moves[1..], i - 1, m);
      assert moves[i := m][1..] == moves[1..][i - 1 := m];
    } else {
      assert moves[i := m][1..] == moves[1..];
    }
  }

  lemma FirstUndoneIs(moves: seq<Move>, i: nat)
    requires i <= |moves|
    requires forall k :: 0 <= k < i ==> moves[k].done
    requires i < |moves| ==> !moves[i].done
    ensures FirstUndone(moves) == i
  {
  }

  /** Flagging the first undone move with its intent. */
  lemma IntentProgresses(s: Store, j: Journal, i: nat)
    requires s.pending == Some(j) && i == FirstUndone(j.moves) && i < |j.moves| && !j.moves[i].intent
    ensures Below(MeasureOf(s.(pending := Some(WithIntent(j, i)))), MeasureOf(s))
  {
    var m := j.moves[i].(intent := true);
    UndoneDrops(j.moves, i, m);
    FirstUndoneIs(j.moves[i := m], i);
  }

  /** Moving its file away. */
  lemma RenameProgresses(s: Store, j: Journal, i: nat, files: Files)
    requires s.pending == Some(j) && i == FirstUndone(j.moves) && i < |j.moves| && j.moves[i].intent
    requires j.moves[i].source in s.files && j.moves[i].source !in files
    ensures Below(MeasureOf(s.(files := files)), MeasureOf(s))
  {
  }

  /** Flagging it done. */
  lemma DoneProgresses(s: Store, j: Journal, i: nat)
    requires s.pending == Some(j) && i == FirstUndone(j.moves) && i < |j.moves|
    ensures Below(MeasureOf(s.(pending := Some(WithDone(j, i)))), MeasureOf(s))
  {
    hide FirstUndone;
    UndoneDrops(j.moves, i, j.moves[i].(done := true));
  }

  lemma RetireProgresses(s: Store, j: Journal, i: nat)
    requires s.pending == Some(j) && AllRecorded(j) && j.phase != Prepared
    requires i == FirstUndone(j.moves) && i < |j.moves| && Retire(s, j, i).Continue?
    ensures Below(MeasureOf(Retire(s, j, i).next), MeasureOf(s))
  {
    hide MeasureOf, Below, FirstUndone, Undone;
    var m := j.moves[i];
    assert m in j.moves;
    if !m.intent {
      IntentProgresses(s, j, i);
    } else if m.source in s.files {
      assert m.source != m.destination;
      RenameProgresses(s, j, i, Rename(s.files, m.source, m.destination));
    } else {
      DoneProgresses(s, j, i);
    }
  }

  lemma PublishProgresses(s: Store, j: Journal)
    requires s.pending == Some(j) && j.phase == Retiring && FirstUndone(j.moves) == |j.moves| && Publish(s, j).Continue?
    ensures Below(MeasureOf(Publish(s, j).next), MeasureOf(s))
  {
  }

  lemma CloseProgresses(s: Store, j: Journal)
    requires s.pending == Some(j) && (j.phase == Published || j.phase == Completed) && FirstUndone(j.moves) == |j.moves|
    ensures Close(s, j).Continue? && Below(MeasureOf(Close(s, j).next), MeasureOf(s))
  {
  }

  /** Every durable action brings the migration strictly closer to its end, from any disk whatever. */
  lemma EveryActionProgresses(s: Store)
    requires Readable(s) && Next(s).Continue?
    ensures Below(MeasureOf(Next(s).next), MeasureOf(s))
  {
    var j := s.pending.value;
    var i := FirstUndone(j.moves);
    if j.phase != Prepared {
      if i < |j.moves| {
        RetireProgresses(s, j, i);
      } else if j.phase == Retiring {
        PublishProgresses(s, j);
      } else {
        CloseProgresses(s, j);
      }
    }
  }

  lemma RunAfterNext(s: Store, n: nat)
    requires Readable(s) && Next(s).Continue?
    ensures Readable(Next(s).next) && Run(s, n + 1) == Run(Next(s).next, n)
  {
    NextReadable(s);
    assert Iterate(Step, s, 1) == Step(Iterate(Step, s, 0)) == Next(s).next;
    IterateSplit(Step, s, 1, n);
  }

  /** So a resume left alone stops, whatever the journal says. */
  lemma {:induction false} ResumeStops(s: Store, m: Measure) returns (n: nat)
    requires Readable(s) && m == MeasureOf(s)
    ensures !Next(Run(s, n)).Continue?
    decreases m.pending, m.phase, m.undone, m.local
  {
    if Next(s).Continue? {
      EveryActionProgresses(s);
      NextReadable(s);
      n := ResumeStops(Next(s).next, MeasureOf(Next(s).next));
      RunAfterNext(s, n);
      n := n + 1;
    } else {
      n := 0;
    }
  }

  // ---------------------------------------------------------------- nothing is lost

  /** No durable action creates, overwrites or drops a file: only its path can change. */
  lemma ActionKeepsFiles(s: Store)
    requires Readable(s) && Next(s).Continue?
    ensures Next(s).next.files.Values == s.files.Values
    ensures |Next(s).next.files| == |s.files|
  {
    var j := s.pending.value;
    var i := FirstUndone(j.moves);
    var s' := Next(s).next;
    if s'.files != s.files {
      if i < |j.moves| {
        RenameKeepsValues(s.files, j.moves[i].source, j.moves[i].destination);
      } else {
        assert Main !in BundleAt(s.files, Canonical);
        RenameKeepsValues(s.files, j.candidate, Live(Canonical, Main));
      }
    }
  }

  lemma RenameKeepsValues(files: Files, a: Path, b: Path)
    requires a in files && b !in files
    ensures Rename(files, a, b).Values == files.Values
    ensures |Rename(files, a, b)| == |files|
  {
    var r := Rename(files, a, b);
    assert r.Keys == files.Keys - {a} + {b};
    forall v | v in files.Values ensures v in r.Values {
      var p :| p in files && files[p] == v;
      var q := if p == a then b else p;
      assert q in r && r[q] == v;
    }
    forall v | v in r.Values ensures v in files.Values {
      var p :| p in r && r[p] == v;
      var q := if p == b then a else p;
      assert q in files && files[q] == v;
    }
    assert |r.Keys| == |files.Keys|;
  }

  lemma {:induction false} RunKeepsFiles(s: Store, n: nat)
    requires Readable(s)
    ensures Run(s, n).files.Values == s.files.Values
    ensures |Run(s, n).files| == |s.files|
    decreases n
  {
    hide Step, Next, Run;
    RunNothing(s);
    if n > 0 {
      RunKeepsFiles(s, n - 1);
      RunStep(s, n - 1);
      var here := Run(s, n - 1);
      if Next(here).Continue? {
        ActionKeepsFiles(here);
      }
    }
  }
}
