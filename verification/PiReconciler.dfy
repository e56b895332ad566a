/**
 The Pi reconcile transaction (pi_reconciler.py): materialize a release, let Pi install it, normalize
 the settings, write the state, and check.  Git, the Pi executable and the file system are the
 `World`: every step of it may fail.
 */
module PiReconciler {
  import opened Wrappers

  /** Where a package entry of the settings resolves to. */
  datatype Path = ReleasePath(revision: string) | OtherManaged(name: string) | Elsewhere(name: string)

  datatype Entry = Entry(text: string, path: Path)

  /** `other` stands for everything outside the packages list. */
  datatype Settings = Settings(other: nat, packages: seq<Entry>)

  /** A file's bytes, and what they parse to. */
  datatype File<T> = File(bytes: nat, parsed: Option<T>)

  datatype State = State(current: string, lastKnownGood: Option<string>, history: seq<string>, packagePath: Path,
                         tree: nat, other: nat)

  /** A release directory: the revision its marker names, if it is a valid marker, and the package digest. */
  datatype Release = Release(marker: Option<string>, tree: nat)

  datatype Root = Absent | Bare | Ours | Foreign

  datatype Disk = Disk(settings: Option<File<Settings>>, state: Option<File<State>>, root: Root,
                       releases: map<string, Release>)

  predicate Owned(p: Path) {
    !p.Elsewhere?
  }

  // ---------------------------------------------------------------- settings

  function OwnedEntries(packages: seq<Entry>): seq<Entry> {
    if packages == [] then [] else
      OwnedEntries(packages[..|packages| - 1]) +
      (if Owned(packages[|packages| - 1].path) then [packages[|packages| - 1]] else [])
  }

  /** `[item for item in packages if not owned and not expected]` */
  function Unmanaged(packages: seq<Entry>, expected: Path): seq<Entry> {
    if packages == [] then [] else
      var last := packages[|packages| - 1];
      Unmanaged(packages[..|packages| - 1], expected)
      + (if !Owned(last.path) && last.path != expected then [last] else [])
  }

  function Matching(packages: seq<Entry>, expected: Path): nat {
    if packages == [] then 0 else
      Matching(packages[..|packages| - 1], expected) + (if packages[|packages| - 1].path == expected then 1 else 0)
  }

  predicate Registers(packages: seq<Entry>, expected: Path) {
    exists e :: e in packages && e.path == expected
  }

  /** `_normalize_settings`: None when Pi touched something else or did not register the package. */
  function Normalized(before: Settings, after: Settings, package: Entry): Option<Settings> {
    if after.other != before.other || !Registers(after.packages, package.path) then None
    else Some(after.(packages := Unmanaged(after.packages, package.path) + [package]))
  }

  lemma PackagesAppend(packages: seq<Entry>, e: Entry, expected: Path)
    ensures OwnedEntries(packages + [e]) == OwnedEntries(packages) + (if Owned(e.path) then [e] else [])
    ensures Matching(packages + [e], expected) == Matching(packages, expected) + (if e.path == expected then 1 else 0)
    ensures Unmanaged(packages + [e], expected) ==
              Unmanaged(packages, expected) + (if !Owned(e.path) && e.path != expected then [e] else [])
  {
  }

  lemma {:induction false} UnmanagedNotOwned(packages: seq<Entry>, expected: Path)
    ensures var r := Unmanaged(packages, expected);
            OwnedEntries(r) == [] && Matching(r, expected) == 0 && Unmanaged(r, expected) == r
  {
    if packages != [] {
      var front, last := packages[..|packages| - 1], packages[|packages| - 1];
      UnmanagedNotOwned(front, expected);
      PackagesAppend(Unmanaged(front, expected), last, expected);
      assert Unmanaged(front, expected) + [] == Unmanaged(front, expected);
    }
  }

  lemma {:induction false} UnmanagedMembers(packages: seq<Entry>, expected: Path)
    ensures forall e :: e in Unmanaged(packages, expected) ==> !Owned(e.path)
  {
    if packages != [] { UnmanagedMembers(packages[..|packages| - 1], expected); }
  }

  lemma {:induction false} UnmanagedConcat(a: seq<Entry>, b: seq<Entry>, expected: Path)
    ensures Unmanaged(a + b, expected) == Unmanaged(a, expected) + Unmanaged(b, expected)
  {
    if b == [] {
      assert a + b == a;
    } else {
      var n := |b| - 1;
      UnmanagedConcat(a, b[..n], expected);
      assert (a + b)[..|a + b| - 1] == a + b[..n];
      var last := if !Owned(b[n].path) && b[n].path != expected then [b[n]] else [];
      assert Unmanaged(b, expected) == Unmanaged(b[..n], expected) + last;
      assert Unmanaged(a + b, expected) == Unmanaged(a + b[..n], expected) + last;
    }
  }

  /** Every entry that points elsewhere stays, as often as it was there, and no other entry does. */
  lemma {:induction false} UnmanagedCounts(packages: seq<Entry>, expected: Path, e: Entry)
    requires !expected.Elsewhere?
    ensures multiset(Unmanaged(packages, expected))[e] == if e.path.Elsewhere? then multiset(packages)[e] else 0
  {
    hide OwnedEntries, Matching;
    if packages != [] {
      var n := |packages| - 1;
      UnmanagedCounts(packages[..n], expected, e);
      assert packages == packages[..n] + [packages[n]];
      PackagesAppend(packages[..n], packages[n], expected);
    }
  }

  /** Normalizing fails exactly when Pi changed another setting or left no entry for the package. */
  lemma NormalizedIff(before: Settings, after: Settings, package: Entry)
    ensures Normalized(before, after, package).Some? <==>
            && after.other == before.other
            && exists i :: 0 <= i < |after.packages| && after.packages[i].path == package.path
  {
    if Registers(after.packages, package.path) {
      var e :| e in after.packages && e.path == package.path;
      var i :| 0 <= i < |after.packages| && after.packages[i] == e;
    } else {
      assert forall i :: 0 <= i < |after.packages| ==> after.packages[i] in after.packages;
    }
  }

  /** Normalizing keeps the unmanaged entries in order, leaves one owned entry, and is stable. */
  lemma NormalizedShape(before: Settings, after: Settings, package: Entry)
    requires Owned(package.path) && Normalized(before, after, package).Some?
    ensures var s := Normalized(before, after, package).value;
            && s.other == before.other
            && OwnedEntries(s.packages) == [package] && Matching(s.packages, package.path) == 1
            && Unmanaged(s.packages, package.path) == Unmanaged(after.packages, package.path)
            && Normalized(before, s, package) == Some(s)
  {
    var kept := Unmanaged(after.packages, package.path);
    UnmanagedNotOwned(after.packages, package.path);
    PackagesAppend(kept, package, package.path);
    assert package in kept + [package];
  }

  // ---------------------------------------------------------------- drift

  /** `_status_unlocked` finds nothing. */
  predicate DriftFree(disk: Disk, valid: nat -> bool) {
    && disk.root == Ours
    && disk.state.Some? && disk.state.value.parsed.Some?
    && var s := disk.state.value.parsed.value;
    && s.packagePath == ReleasePath(s.current) && s.current in disk.releases
    && disk.releases[s.current] == Release(Some(s.current), s.tree) && valid(s.tree)
    && var settings := ReadSettings(disk);
    && settings.Some?
    && Matching(settings.value.packages, s.packagePath) == 1
    && (forall e :: e in settings.value.packages && Owned(e.path) ==> e.path == s.packagePath)
    && settings.value.other == s.other
  }

  /** `_read_settings`: a missing file reads as no settings at all. */
  function ReadSettings(disk: Disk): Option<Settings> {
    if disk.settings.None? then Some(Settings(0, [])) else disk.settings.value.parsed
  }

  lemma {:induction false} OneOwned(packages: seq<Entry>, expected: Path)
    requires Owned(expected) && forall e :: e in packages && Owned(e.path) ==> e.path == expected
    ensures |OwnedEntries(packages)| == Matching(packages, expected)
  {
    if packages != [] {
      var n := |packages| - 1;
      assert packages[n] in packages && forall e :: e in packages[..n] ==> e in packages;
      OneOwned(packages[..n], expected);
    }
  }

  /** One entry resolves to the path, and all the others point elsewhere. */
  ghost predicate OnlyEntry(packages: seq<Entry>, path: Path, i: nat) {
    && i < |packages| && packages[i].path == path
    && forall j :: 0 <= j < |packages| && j != i ==> packages[j].path.Elsewhere?
  }

  lemma {:induction false} NoneMatching(packages: seq<Entry>, expected: Path)
    ensures Matching(packages, expected) == 0 <==> forall j :: 0 <= j < |packages| ==> packages[j].path != expected
  {
    if packages != [] { NoneMatching(packages[..|packages| - 1], expected); }
  }

  /** The last entry is the one, if there is one: then none before it is owned. */
  lemma OnlyLast(packages: seq<Entry>, path: Path, n: nat)
    requires !path.Elsewhere? && |packages| == n + 1 && packages[n].path == path
    ensures (exists i :: OnlyEntry(packages, path, i)) <==> forall j :: 0 <= j < n ==> packages[j].path.Elsewhere?
  {
    if forall j :: 0 <= j < n ==> packages[j].path.Elsewhere? { assert OnlyEntry(packages, path, n); }
  }

  lemma NotLast(packages: seq<Entry>, path: Path, n: nat)
    requires !path.Elsewhere? && |packages| == n + 1 && packages[n].path != path
    ensures (exists i :: OnlyEntry(packages, path, i)) <==>
            packages[n].path.Elsewhere? && exists i :: OnlyEntry(packages[..n], path, i)
  {
    if i :| OnlyEntry(packages, path, i) { assert OnlyEntry(packages[..n], path, i); }
    if i :| OnlyEntry(packages[..n], path, i) && packages[n].path.Elsewhere? { assert OnlyEntry(packages, path, i); }
  }

  lemma {:induction false} OnlyEntryIff(packages: seq<Entry>, path: Path)
    requires !path.Elsewhere?
    ensures (exists i :: OnlyEntry(packages, path, i)) <==>
            && Matching(packages, path) == 1
            && forall e :: e in packages && Owned(e.path) ==> e.path == path
  {
    hide OnlyEntry;
    if packages != [] {
      var n := |packages| - 1;
      OnlyEntryIff(packages[..n], path);
      NoneMatching(packages[..n], path);
      assert packages == packages[..n] + [packages[n]];
      assert forall j :: 0 <= j < n ==> packages[j] == packages[..n][j] && packages[j] in packages;
      if packages[n].path == path { OnlyLast(packages, path, n); } else { NotLast(packages, path, n); }
    } else if i :| OnlyEntry(packages, path, i) {
      OnlyInside(packages, path, i);
    }
  }

  lemma OnlyInside(packages: seq<Entry>, path: Path, i: nat)
    requires OnlyEntry(packages, path, i)
    ensures packages != []
  {
  }

  /**
   No drift means that the state can be read, its package is the release of its current revision, that release is
   there, marked, valid and of the recorded digest, and the settings can be read, agree with the recorded ones,
   and have the package as their only managed entry.
   */
  lemma DriftFreeIff(disk: Disk, valid: nat -> bool)
    ensures DriftFree(disk, valid) <==>
            && disk.root == Ours && disk.state.Some? && disk.state.value.parsed.Some?
            && (disk.settings.Some? ==> disk.settings.value.parsed.Some?)
            && var s := disk.state.value.parsed.value;
               var settings := if disk.settings.Some? then disk.settings.value.parsed.value else Settings(0, []);
               && s.packagePath == ReleasePath(s.current) && settings.other == s.other
               && s.current in disk.releases && disk.releases[s.current].marker == Some(s.current)
               && disk.releases[s.current].tree == s.tree && valid(s.tree)
               && exists i :: OnlyEntry(settings.packages, ReleasePath(s.current), i)
  {
    if disk.state.Some? && disk.state.value.parsed.Some? && ReadSettings(disk).Some? {
      OnlyEntryIff(ReadSettings(disk).value.packages, ReleasePath(disk.state.value.parsed.value.current));
    }
  }

  /** Without drift the settings hold exactly one owned entry, and it is the recorded package. */
  lemma DriftFreeOneEntry(disk: Disk, valid: nat -> bool)
    requires DriftFree(disk, valid)
    ensures |OwnedEntries(ReadSettings(disk).value.packages)| == 1
  {
    OneOwned(ReadSettings(disk).value.packages, disk.state.value.parsed.value.packagePath);
  }

  lemma OnlyOwned(before: Settings, after: Settings, package: Entry, e: Entry)
    requires Normalized(before, after, package).Some? && e in Normalized(before, after, package).value.packages
    requires Owned(e.path)
    ensures e == package
  {
    UnmanagedMembers(after.packages, package.path);
  }

  /** With the release in place, normalized settings and the written state show no drift. */
  lemma NormalizedDriftFree(disk: Disk, valid: nat -> bool, revision: string, tree: nat, previous: Option<State>,
                            before: Settings, after: Settings)
    requires disk.root == Ours && revision in disk.releases
    requires disk.releases[revision] == Release(Some(revision), tree) && valid(tree)
    requires var normalized := Normalized(before, after, Entry(revision, ReleasePath(revision)));
             && normalized.Some? && ReadSettings(disk) == normalized
             && disk.state.Some?
             && disk.state.value.parsed == Some(NextState(previous, revision, tree, normalized.value.other))
    ensures DriftFree(disk, valid)
  {
    var package := Entry(revision, ReleasePath(revision));
    NormalizedShape(before, after, package);
    var packages := Normalized(before, after, package).value.packages;
    forall e | e in packages && Owned(e.path) ensures e.path == package.path {
      OnlyOwned(before, after, package, e);
    }
  }

  // ---------------------------------------------------------------- the state

  /** `_write_state` */
  function NextState(previous: Option<State>, revision: string, tree: nat, other: nat): State {
    State(
      revision,
      if previous.Some? && previous.value.current != revision then Some(previous.value.current)
      else if previous.Some? then previous.value.lastKnownGood else None,
      (var history := if previous.Some? then previous.value.history else [];
       if history == [] || history[|history| - 1] != revision then history + [revision] else history),
      ReleasePath(revision), tree, other)
  }

  /** The revision before the current one in a history. */
  ghost function BeforeLast(history: seq<string>): Option<string> {
    if |history| >= 2 then Some(history[|history| - 2]) else None
  }

  /**
   The history ends in the current revision without stutter, and the last known good revision is the one
   before it, if there is one.
   */
  ghost predicate Sound(s: State) {
    && s.history != [] && s.history[|s.history| - 1] == s.current
    && (forall i :: 0 <= i < |s.history| - 1 ==> s.history[i] != s.history[i + 1])
    && s.lastKnownGood == BeforeLast(s.history)
  }

  /** So the last known good revision is another one. */
  lemma SoundDiffers(s: State)
    requires Sound(s)
    ensures s.lastKnownGood != Some(s.current)
  {
    if |s.history| >= 2 { assert s.history[|s.history| - 2] != s.history[|s.history| - 2 + 1]; }
  }

  /**
   What one install makes of any state, sound or not: installing the current revision again keeps the last
   known good one, installing another makes the current one last known good, and no history is rewritten.
   */
  ghost predicate Succeeds(previous: Option<State>, next: State, revision: string, tree: nat) {
    && next.current == revision && next.packagePath == ReleasePath(revision) && next.tree == tree
    && (previous.None? ==> next.lastKnownGood == None && next.history == [revision])
    && (previous.Some? ==>
          var p := previous.value;
          && (p.current == revision ==> next.lastKnownGood == p.lastKnownGood)
          && (p.current != revision ==> next.lastKnownGood == Some(p.current))
          && p.history <= next.history && next.history != [] && next.history[|next.history| - 1] == revision
          && |next.history| <= |p.history| + 1
          && (Sound(p) && p.current == revision ==> next.history == p.history))
  }

  lemma NextSucceeds(previous: Option<State>, revision: string, tree: nat, other: nat)
    ensures Succeeds(previous, NextState(previous, revision, tree, other), revision, tree)
    ensures NextState(previous, revision, tree, other).other == other
  {
  }

  lemma NextStateSound(previous: Option<State>, revision: string, tree: nat, other: nat)
    requires previous.Some? ==> Sound(previous.value)
    ensures Sound(NextState(previous, revision, tree, other))
  {
  }

  datatype Install = Install(revision: string, tree: nat, other: nat)

  function Installs(start: Option<State>, installs: seq<Install>): Option<State> {
    if installs == [] then start else
      var last := installs[|installs| - 1];
      Some(NextState(Installs(start, installs[..|installs| - 1]), last.revision, last.tree, last.other))
  }

  /** Over any number of installs. */
  lemma {:induction false} InstallsSound(start: Option<State>, installs: seq<Install>)
    requires start.Some? ==> Sound(start.value)
    ensures Installs(start, installs).Some? ==> Sound(Installs(start, installs).value)
    decreases |installs|
  {
    if installs != [] {
      var n := |installs| - 1;
      InstallsSound(start, installs[..n]);
      NextStateSound(Installs(start, installs[..n]), installs[n].revision, installs[n].tree, installs[n].other);
    }
  }

  /** A list of revisions without its immediate repetitions. */
  function Collapsed(revisions: seq<string>): (r: seq<string>)
    ensures revisions != [] ==> r != [] && r[|r| - 1] == revisions[|revisions| - 1]
    ensures revisions == [] ==> r == []
  {
    if revisions == [] then [] else
      var n := |revisions| - 1;
      if n > 0 && revisions[n] == revisions[n - 1] then Collapsed(revisions[..n])
      else Collapsed(revisions[..n]) + [revisions[n]]
  }

  function RevisionsOf(installs: seq<Install>): seq<string> {
    seq(|installs|, i requires 0 <= i < |installs| => installs[i].revision)
  }

  /** From a first install on, the history is the list of the installed revisions without immediate repetitions. */
  lemma {:induction false} InstallsHistory(installs: seq<Install>)
    requires installs != []
    ensures Installs(None, installs).Some?
    ensures Installs(None, installs).value.history == Collapsed(RevisionsOf(installs))
    ensures Sound(Installs(None, installs).value)
    decreases |installs|
  {
    InstallsSound(None, installs);
    var n := |installs| - 1;
    var front := installs[..n];
    assert RevisionsOf(installs)[..n] == RevisionsOf(front);
    if n > 0 { InstallsHistory(front); }
  }

  // ---------------------------------------------------------------- the transaction

  /** How the outside answers. */
  datatype World = World(
    versionOk: bool,
    staged: Option<nat>,                      // digest of the package git archived
    copyOk: bool,
    installOk: bool,
    installed: Option<File<Settings>>,        // the settings file Pi leaves
    package: nat,                             // digest of the package once Pi has run
    rpcOk: bool,
    afterRpc: Option<Option<File<Settings>>>) // what the check run leaves, if it writes the settings

  /** The release of this revision is there, ours, and not what git has. */
  predicate Drifted(disk: Disk, revision: string, tree: nat) {
    && revision in disk.releases
    && disk.releases[revision].marker == Some(revision)
    && disk.releases[revision].tree != tree
  }

  /** The release directory can be reused, replaced or made. */
  predicate Materializes(disk: Disk, revision: string, tree: nat, copyOk: bool) {
    if revision in disk.releases && disk.releases[revision] == Release(Some(revision), tree) then true
    else copyOk && (revision in disk.releases ==> Drifted(disk, revision, tree))
  }

  /**
   Pi installs the package, leaves it valid, registers it, changes nothing else, and its check run leaves the
   settings alone.
   */
  predicate Cooperates(revision: string, before: Settings, world: World, valid: nat -> bool) {
    && valid(world.package) && world.installOk && world.rpcOk && world.afterRpc.None?
    && var written := if world.installed.Some? then world.installed.value.parsed else Some(Settings(0, []));
       written.Some? && Normalized(before, written.value, Entry(revision, ReleasePath(revision))).Some?
  }

  class Reconciler {
    const valid: nat -> bool
    const printSettings: Settings -> nat
    const printState: State -> nat
    var disk: Disk

    constructor (valid: nat -> bool, printSettings: Settings -> nat, printState: State -> nat, disk: Disk)
      ensures this.valid == valid && this.disk == disk
    {
      this.valid, this.printSettings, this.printState, this.disk := valid, printSettings, printState, disk;
    }

    /** `_materialize_release`: reuse an intact release, replace a drifted one, or make a new one. */
    method Materialize(revision: string, tree: nat, copyOk: bool) returns (ok: bool, created: bool)
      modifies this
      ensures disk.settings == old(disk).settings && disk.state == old(disk).state && disk.root == old(disk).root
      ensures ok <==> Materializes(old(disk), revision, tree, copyOk) && valid(tree)
      ensures ok ==>
                revision in disk.releases && disk.releases[revision] == Release(Some(revision), tree) && valid(tree)
      ensures disk.releases - {revision} == old(disk).releases - {revision}
      // an intact release is reused, a drifted one is replaced, and one that is not marked as this one is refused
      ensures ok <==> valid(tree) && (if revision in old(disk).releases
                                      then old(disk).releases[revision].marker == Some(revision)
                                           && (old(disk).releases[revision].tree == tree || copyOk)
                                      else copyOk)
      ensures ok && !created ==> disk == old(disk)
      ensures ok && created ==> revision !in old(disk).releases || Drifted(old(disk), revision, tree)
      ensures !ok ==> !created && disk.releases == if Drifted(old(disk), revision, tree)
                                                   then old(disk).releases - {revision} else old(disk).releases
    {
      created := false;
      if revision in disk.releases {
        var release := disk.releases[revision];
        if release.marker != Some(revision) { return false, false; }
        if release.tree == tree {
          return valid(tree), false;
        }
        disk := disk.(releases := disk.releases - {revision});
      }
      if !copyOk || !valid(tree) { return false, false; }
      disk := disk.(releases := disk.releases[revision := Release(Some(revision), tree)]);
      ok, created := true, true;
    }

    /** Everything after the release is in place: install, normalize, check run, digest, state, status. */
    method InstallRelease(revision: string, previous: Option<State>, before: Settings, world: World) returns (ok: bool)
      requires disk.root == Ours && revision in disk.releases && disk.releases[revision].marker == Some(revision)
      modifies this
      ensures disk.root == old(disk).root
      ensures disk.releases == old(disk).releases[revision := Release(Some(revision), world.package)]
      ensures ok ==> world.installOk && world.rpcOk && Installed(revision, previous, before, world)
      ensures Cooperates(revision, before, world, valid) ==> ok
    {
      disk := disk.(settings := world.installed,
                    releases := disk.releases[revision := Release(Some(revision), world.package)]);
      if !world.installOk { return false; }
      var after := ReadSettings(disk);
      if after.None? { return false; }
      var package := Entry(revision, ReleasePath(revision));
      var normalized := Normalized(before, after.value, package);
      if normalized.None? { return false; }
      if normalized.value != after.value {
        disk := disk.(settings := Some(File(printSettings(normalized.value), normalized)));
      }
      if world.afterRpc.Some? { disk := disk.(settings := world.afterRpc.value); }
      if !world.rpcOk { return false; }
      var state := NextState(previous, revision, world.package, normalized.value.other);
      disk := disk.(state := Some(File(printState(state), Some(state))));
      if world.afterRpc.None? && valid(world.package) {
        assert ReadSettings(disk) == normalized;
        NormalizedDriftFree(disk, valid, revision, world.package, previous, before, after.value);
      }
      ok := DriftFree(disk, valid);
    }

    /** What a successful reconcile leaves: the state records the package as Pi left it. */
    ghost predicate Installed(revision: string, previous: Option<State>, before: Settings, world: World)
      reads this
    {
      && DriftFree(disk, valid)
      && disk.state.value.parsed == Some(NextState(previous, revision, world.package, before.other))
      && disk.state.value.bytes == printState(disk.state.value.parsed.value)
      && ReadSettings(disk).value.other == before.other
      && (world.afterRpc.Some? ==> disk.settings == world.afterRpc.value)
      && (world.afterRpc.None? ==>
            var written := if world.installed.Some? then world.installed.value.parsed else Some(Settings(0, []));
            written.Some? &&
            var path := ReleasePath(revision);
            var left := Unmanaged(written.value.packages, path) + [Entry(revision, path)];
            && ReadSettings(disk) == Some(Settings(before.other, left))
            // the file is written only if Pi did not leave it so already
            && disk.settings == if left == written.value.packages then world.installed
                                else Some(File(printSettings(ReadSettings(disk).value), ReadSettings(disk))))
    }

    /** The releases a failed attempt leaves. */
    static function ReleasesLeft(d: Disk, revision: string, tree: nat, world: World): map<string, Release> {
      if Drifted(d, revision, tree) then d.releases - {revision}
      else if Materializes(d, revision, tree, world.copyOk) && revision in d.releases then
        d.releases[revision := Release(Some(revision), world.package)]
      else d.releases
    }

    /**
     `_reconcile_unlocked`.  The managed root is `Foreign` when its marker is not this owner's, or when it
     holds unmarked resources.
     */
    method Reconcile(revision: string, world: World) returns (ok: bool)
      modifies this
      // a failure at any step leaves settings and state byte for byte as they were
      ensures !ok ==> disk.settings == old(disk).settings && disk.state == old(disk).state
      // other releases are never touched
      ensures disk.releases - {revision} == old(disk).releases - {revision}
      // a failure deletes the release asked for exactly when it met it drifted; an intact one stays as Pi left it
      ensures !ok ==>
        disk.releases == if Reaches(old(disk), world) then ReleasesLeft(old(disk), revision, world.staged.value, world)
                         else old(disk).releases
      // and an ownership marker it created stays behind exactly when the release could not be put in place
      ensures !ok ==> disk.root == if !Reaches(old(disk), world) || old(disk).root == Ours then old(disk).root
                                   else if Materializes(old(disk), revision, world.staged.value, world.copyOk)
                                   then Absent else Ours
      ensures ok ==> world.versionOk && world.installOk && world.rpcOk && valid(world.package)
      // without git's package, readable files or a root of its own it does nothing
      ensures !world.versionOk || world.staged.None? || !valid(world.staged.value) || old(disk).root == Foreign
              || (old(disk).state.Some? && old(disk).state.value.parsed.None?) || ReadSettings(old(disk)).None? ==>
                !ok && disk == old(disk)
      // a release directory that is not marked as this one is refused and left alone, and an intact one is kept
      ensures revision in old(disk).releases && old(disk).releases[revision].marker != Some(revision) ==>
                !ok && disk.releases == old(disk).releases
      ensures revision in old(disk).releases && world.staged == Some(old(disk).releases[revision].tree) ==>
                revision in disk.releases
      // the state it writes keeps the last known good revision and the history as promised
      ensures ok ==> Previous(disk).Some?
                     && Succeeds(Previous(old(disk)), Previous(disk).value, revision, world.package)
      // and a Pi that cooperates is enough to succeed
      ensures Ready(old(disk), revision, world) && Cooperates(revision, ReadSettings(old(disk)).value, world, valid) ==>
                ok
      // success means the package there is valid and as recorded, not that it is the one git has
      ensures ok ==> revision in disk.releases && disk.releases[revision] == Release(Some(revision), world.package)
      ensures ok ==>
                && world.staged.Some? && (old(disk).state.Some? ==> old(disk).state.value.parsed.Some?)
                && ReadSettings(old(disk)).Some?
                && Installed(revision, Previous(old(disk)), ReadSettings(old(disk)).value, world)
    {
      if !world.versionOk { return false; }
      if disk.state.Some? && disk.state.value.parsed.None? { return false; }
      var previous := Previous(disk);
      var before := ReadSettings(disk);
      if before.None? || world.staged.None? || !valid(world.staged.value) || disk.root == Foreign { return false; }
      ok := Transact(revision, previous, before.value, world);
      NextSucceeds(previous, revision, world.package, before.value.other);
    }

    /** From the managed root on, with everything undone on failure that the cleanup undoes. */
    method Transact(revision: string, previous: Option<State>, before: Settings, world: World) returns (ok: bool)
      requires Reaches(disk, world) && previous == Previous(disk) && ReadSettings(disk) == Some(before)
      modifies this
      ensures disk.releases - {revision} == old(disk).releases - {revision}
      ensures !ok ==>
        && disk.settings == old(disk).settings && disk.state == old(disk).state
        && disk.releases == ReleasesLeft(old(disk), revision, world.staged.value, world)
        && disk.root == if old(disk).root == Ours then Ours
                        else if Materializes(old(disk), revision, world.staged.value, world.copyOk)
                        then Absent else Ours
      ensures Ready(old(disk), revision, world) && Cooperates(revision, before, world, valid) ==> ok
      ensures ok ==> Materializes(old(disk), revision, world.staged.value, world.copyOk)
      ensures ok ==>
        && world.installOk && world.rpcOk && Installed(revision, previous, before, world)
        && revision in disk.releases && disk.releases[revision] == Release(Some(revision), world.package)
    {
      var start, tree := disk, world.staged.value;
      disk := disk.(root := Ours);
      var materialized, created := Materialize(revision, tree, world.copyOk);
      if !materialized {
        // package_path is still unset: a marker created above stays behind
        return false;
      }
      ok := InstallRelease(revision, previous, before, world);
      if !ok { Undo(revision, tree, created, start); }
    }

    /** The restores and the cleanup after a failed install; `start` holds the bytes read before it. */
    method Undo(revision: string, tree: nat, created: bool, start: Disk)
      requires revision in disk.releases && disk.releases - {revision} == start.releases - {revision}
      requires created ==> revision !in start.releases || Drifted(start, revision, tree)
      requires !created ==> revision in start.releases && start.releases[revision] == Release(Some(revision), tree)
      modifies this
      ensures disk.settings == start.settings && disk.state == start.state
      ensures disk.root == if start.root == Ours then old(disk).root else Absent
      ensures disk.releases ==
              if !created then old(disk).releases
              else if revision in start.releases then start.releases - {revision} else start.releases
    {
      disk := disk.(settings := start.settings);
      disk := disk.(state := start.state);
      if created {
        disk := disk.(releases := disk.releases - {revision});
        assert revision !in start.releases ==> start.releases - {revision} == start.releases;
      }
      if start.root != Ours { disk := disk.(root := Absent); }
    }

    /** The attempt gets as far as the release directory. */
    predicate Reaches(d: Disk, world: World) {
      && world.versionOk && (d.state.Some? ==> d.state.value.parsed.Some?) && ReadSettings(d).Some?
      && world.staged.Some? && valid(world.staged.value) && d.root != Foreign
    }

    predicate Ready(d: Disk, revision: string, world: World) {
      Reaches(d, world) && Materializes(d, revision, world.staged.value, world.copyOk)
    }

    static function Previous(d: Disk): Option<State> {
      if d.state.Some? then d.state.value.parsed else None
    }

    /** `rollback`: reconcile the last known good revision. */
    method Rollback(world: World) returns (ok: bool)
      modifies this
      ensures !ok ==> disk.settings == old(disk).settings && disk.state == old(disk).state
      // a Pi that cooperates is enough, if there is a revision to go back to
      ensures Previous(old(disk)).Some? && Previous(old(disk)).value.lastKnownGood.Some? ==>
                var revision := Previous(old(disk)).value.lastKnownGood.value;
                Ready(old(disk), revision, world) ==>
                Cooperates(revision, ReadSettings(old(disk)).value, world, valid) ==> ok
      ensures ok ==>
                && Previous(old(disk)).Some? && Previous(old(disk)).value.lastKnownGood.Some?
                && world.staged.Some? && ReadSettings(old(disk)).Some?
                && DriftFree(disk, valid)
                && Previous(disk) == Some(NextState(Previous(old(disk)), Previous(old(disk)).value.lastKnownGood.value,
                                                    world.package, ReadSettings(old(disk)).value.other))
    {
      var state := Previous(disk);
      if state.None? || state.value.lastKnownGood.None? { return false; }
      ok := Reconcile(state.value.lastKnownGood.value, world);
    }
  }

  /** The recorded state, if it can be read, keeps the rules. */
  ghost predicate SoundState(disk: Disk) {
    Reconciler.Previous(disk).Some? ==> Sound(Reconciler.Previous(disk).value)
  }

  /** The revisions of the requests that succeeded. */
  function Succeeded(requests: seq<(string, World)>, oks: seq<bool>): seq<string>
    requires |oks| == |requests|
  {
    if requests == [] then [] else
      var n := |requests| - 1;
      Succeeded(requests[..n], oks[..n]) + (if oks[n] then [requests[n].0] else [])
  }

  lemma SucceededNext(requests: seq<(string, World)>, oks: seq<bool>, request: (string, World), ok: bool)
    requires |oks| == |requests|
    ensures Succeeded(requests + [request], oks + [ok]) ==
            if ok then Succeeded(requests, oks) + [request.0] else Succeeded(requests, oks)
  {
    assert (requests + [request])[..|requests|] == requests && (oks + [ok])[..|oks|] == oks;
  }

  /** These installs, all over the same other settings, are of these revisions and took one state to the other. */
  ghost predicate Took(before: Option<State>, after: Option<State>, installs: seq<Install>, revisions: seq<string>,
                       other: Option<nat>) {
    && after == Installs(before, installs) && |installs| == |revisions|
    && forall i :: 0 <= i < |installs| ==> installs[i].revision == revisions[i] && Some(installs[i].other) == other
  }

  function OtherOf(disk: Disk): Option<nat> {
    if ReadSettings(disk).Some? then Some(ReadSettings(disk).value.other) else None
  }

  lemma TookMore(before: Option<State>, after: Option<State>, installs: seq<Install>, revisions: seq<string>,
                 other: Option<nat>, i: Install)
    requires Took(before, after, installs, revisions, other) && Some(i.other) == other
    ensures Took(before, Some(NextState(after, i.revision, i.tree, i.other)), installs + [i], revisions + [i.revision],
                 other)
  {
    assert (installs + [i])[..|installs|] == installs;
  }

  lemma TookNothing(start: Option<State>, other: Option<nat>)
    ensures Took(start, start, [], Succeeded([], []), other)
  {
  }

  lemma TookSound(before: Option<State>, after: Option<State>, installs: seq<Install>, revisions: seq<string>,
                  other: Option<nat>)
    requires Took(before, after, installs, revisions, other)
    ensures (before.Some? ==> Sound(before.value)) ==> (after.Some? ==> Sound(after.value))
  {
    if before.Some? ==> Sound(before.value) { InstallsSound(before, installs); }
  }

  /** What successful installs of these revisions make of the history and of the last known good revision. */
  ghost predicate Continues(before: Option<State>, after: Option<State>, revisions: seq<string>) {
    && (before.Some? ==> after.Some? && before.value.history <= after.value.history)
    && (before.None? && revisions == [] ==> after.None?)
    && (before.None? && revisions != [] ==>
          && after.Some? && after.value.history == Collapsed(revisions)
          && after.value.current == revisions[|revisions| - 1]
          && after.value.lastKnownGood == BeforeLast(after.value.history))
  }

  lemma {:induction false} InstallsExtend(before: Option<State>, installs: seq<Install>)
    requires before.Some?
    ensures Installs(before, installs).Some? && before.value.history <= Installs(before, installs).value.history
    decreases |installs|
  {
    if installs != [] {
      var n := |installs| - 1;
      InstallsExtend(before, installs[..n]);
      NextSucceeds(Installs(before, installs[..n]), installs[n].revision, installs[n].tree, installs[n].other);
    }
  }

  lemma TookContinues(before: Option<State>, after: Option<State>, installs: seq<Install>, revisions: seq<string>,
                      other: Option<nat>)
    requires Took(before, after, installs, revisions, other)
    ensures Continues(before, after, revisions)
  {
    assert RevisionsOf(installs) == revisions;
    if before.Some? { InstallsExtend(before, installs); } else if installs != [] { InstallsHistory(installs); }
  }

  /** One reconcile, as far as the state and the other settings go. */
  method ReconcileNext(r: Reconciler, revision: string, world: World) returns (ok: bool, ghost made: Install)
    modifies r
    ensures OtherOf(r.disk) == OtherOf(old(r.disk))
    ensures ok ==>
      && made.revision == revision && Some(made.other) == OtherOf(old(r.disk))
      && Reconciler.Previous(r.disk) ==
         Some(NextState(Reconciler.Previous(old(r.disk)), made.revision, made.tree, made.other))
    ensures !ok ==> r.disk.settings == old(r.disk).settings && r.disk.state == old(r.disk).state
  {
    ghost var before := r.disk;
    ok := r.Reconcile(revision, world);
    made := Install(revision, world.package, if ok then ReadSettings(before).value.other else 0);
  }

  /**
   Reconcile after reconcile, whatever the world does: the state is what the successful ones made of it,
   in their order, it keeps the rules, and nothing outside the packages list has changed.
   */
  method ReconcileRepeatedly(r: Reconciler, requests: seq<(string, World)>)
    returns (oks: seq<bool>, ghost installs: seq<Install>)
    modifies r
    ensures |oks| == |requests|
    ensures Took(Reconciler.Previous(old(r.disk)), Reconciler.Previous(r.disk), installs, Succeeded(requests, oks),
                 OtherOf(old(r.disk)))
    ensures SoundState(old(r.disk)) ==> SoundState(r.disk)
    // no history is rewritten, and one that starts here is what was installed, without immediate repetitions
    ensures Continues(Reconciler.Previous(old(r.disk)), Reconciler.Previous(r.disk), Succeeded(requests, oks))
    ensures OtherOf(r.disk) == OtherOf(old(r.disk))
    ensures true !in oks ==> r.disk.settings == old(r.disk).settings && r.disk.state == old(r.disk).state
  {
    hide Succeeded, Took, Installs, NextState, Sound;
    oks, installs := [], [];
    ghost var start := r.disk;
    TookNothing(Reconciler.Previous(start), OtherOf(start));
    var i := 0;
    while i < |requests|
      invariant |oks| == i <= |requests|
      invariant Took(Reconciler.Previous(start), Reconciler.Previous(r.disk), installs, Succeeded(requests[..i], oks),
                     OtherOf(start))
      invariant OtherOf(r.disk) == OtherOf(start)
      invariant true !in oks ==> r.disk.settings == start.settings && r.disk.state == start.state
    {
      ghost var before := r.disk;
      var ok;
      ghost var made;
      ok, made := ReconcileNext(r, requests[i].0, requests[i].1);
      SucceededNext(requests[..i], oks, requests[i], ok);
      assert requests[..i + 1] == requests[..i] + [requests[i]];
      if ok {
        TookMore(Reconciler.Previous(start), Reconciler.Previous(before), installs, Succeeded(requests[..i], oks),
                 OtherOf(start), made);
        installs := installs + [made];
      }
      oks, i := oks + [ok], i + 1;
    }
    assert requests[..|requests|] == requests;
    TookSound(Reconciler.Previous(start), Reconciler.Previous(r.disk), installs, Succeeded(requests, oks),
              OtherOf(start));
    TookContinues(Reconciler.Previous(start), Reconciler.Previous(r.disk), installs, Succeeded(requests, oks),
                  OtherOf(start));
  }

  /** The second state is the first with its two revisions swapped. */
  ghost predicate Swapped(before: Option<State>, after: Option<State>) {
    && before.Some? && after.Some?
    && Some(after.value.current) == before.value.lastKnownGood
    && after.value.lastKnownGood == Some(before.value.current)
  }

  method RollBackOnce(r: Reconciler, world: World) returns (ok: bool)
    requires SoundState(r.disk)
    modifies r
    ensures SoundState(r.disk)
    ensures ok ==> Swapped(Reconciler.Previous(old(r.disk)), Reconciler.Previous(r.disk))
    ensures !ok ==> r.disk.settings == old(r.disk).settings && r.disk.state == old(r.disk).state
  {
    ghost var before := Reconciler.Previous(r.disk);
    ghost var other := OtherOf(r.disk);
    ok := r.Rollback(world);
    if ok { NextStateSound(before, before.value.lastKnownGood.value, world.package, other.value); }
  }

  /** Rolling back swaps the two revisions, so rolling back twice restores both. */
  method RollBackTwice(r: Reconciler, first: World, second: World) returns (once: bool, twice: bool)
    requires SoundState(r.disk)
    modifies r
    ensures once || twice ==> Reconciler.Previous(old(r.disk)).Some? && Reconciler.Previous(r.disk).Some?
    ensures var before, after := Reconciler.Previous(old(r.disk)), Reconciler.Previous(r.disk);
            && (once && twice ==> after.value.current == before.value.current
                                  && after.value.lastKnownGood == before.value.lastKnownGood)
            && (once != twice ==> Swapped(before, after))
    ensures !once && !twice ==> r.disk.settings == old(r.disk).settings && r.disk.state == old(r.disk).state
    ensures SoundState(r.disk)
  {
    once := RollBackOnce(r, first);
    twice := RollBackOnce(r, second);
  }

  /** The current release has drifted, the repair fails, and the state is left naming a release that is gone. */
  method LostReleaseExample(valid: nat -> bool, printSettings: Settings -> nat, printState: State -> nat, staged: nat)
    returns (before: Disk, after: Disk, ok: bool)
    requires valid(staged)
    ensures before.state.Some? && before.state.value.parsed.Some?
            && before.state.value.parsed.value.current in before.releases
    ensures !ok && after.state == before.state && before.state.value.parsed.value.current !in after.releases
  {
    var state := State("r", None, ["r"], ReleasePath("r"), staged, 0);
    before := Disk(None, Some(File(0, Some(state))), Ours, map["r" := Release(Some("r"), staged + 1)]);
    var reconciler := new Reconciler(valid, printSettings, printState, before);
    ok := reconciler.Reconcile("r", World(true, Some(staged), true, false, None, staged, true, None));
    after := reconciler.disk;
  }

  /** Pi alters the package it installs, and the reconcile succeeds with a package that git does not have. */
  method AlteredPackageExample(valid: nat -> bool, printSettings: Settings -> nat, printState: State -> nat,
                               staged: nat, altered: nat)
    returns (after: Disk, ok: bool)
    requires valid(staged) && valid(altered) && altered != staged
    ensures ok && DriftFree(after, valid)
    ensures "r" in after.releases && after.releases["r"].tree == altered != staged
  {
    var package := Entry("r", ReleasePath("r"));
    var world := World(true, Some(staged), true, true, Some(File(0, Some(Settings(0, [package])))), altered, true,
                       None);
    var reconciler := new Reconciler(valid, printSettings, printState, Disk(None, None, Absent, map[]));
    assert Registers([package], package.path) by { assert package in [package]; }
    assert Normalized(Settings(0, []), Settings(0, [package]), package).Some?;
    ok := reconciler.Reconcile("r", world);
    after := reconciler.disk;
  }
}
