/**
 What happens to a manager's plan before it is scheduled (`_sanitize_plan` and
 `_ensure_review_task`, engine.py): ids are cleaned, the plan is cut to the worker limit, and a
 reviewer that depends on every kept task is added.
 */
module PlanReview {
  import opened Numerals
  import opened Scheduling

  /** A task as the manager wrote it. */
  datatype Spec = Spec(id: string, role: string, dependencies: seq<string>, knownTools: bool)

  predicate IsSpace(c: char) {
    || c == ' ' || '\t' <= c <= '\r' || '\U{1c}' <= c <= '\U{1f}' || c == '\U{85}' || c == '\U{a0}'
    || c == '\U{1680}' || '\U{2000}' <= c <= '\U{200a}' || '\U{2028}' <= c <= '\U{2029}'
    || c == '\U{202f}' || c == '\U{205f}' || c == '\U{3000}'
  }

  function StripLeft(s: string): string {
    if s != "" && IsSpace(s[0]) then StripLeft(s[1..]) else s
  }

  function Strip(s: string): string {
    if s != "" && IsSpace(s[|s| - 1]) then Strip(s[..|s| - 1]) else StripLeft(s)
  }

  /** `task.task_id.strip() or f"task-{index + 1}"` */
  function CleanId(spec: Spec, index: nat): string {
    if Strip(spec.id) == "" then "task-" + Decimal(index + 1) else Strip(spec.id)
  }

  predicate Blank(s: string) {
    forall i :: 0 <= i < |s| ==> IsSpace(s[i])
  }

  /** The text is blank, `inner`, blank, and `inner` has no blank at either end. */
  ghost predicate Surrounds(left: string, inner: string, right: string, s: string) {
    && s == left + inner + right && Blank(left) && Blank(right)
    && (inner != "" ==> !IsSpace(inner[0]) && !IsSpace(inner[|inner| - 1]))
  }

  lemma {:induction false} StripLeftMeans(s: string) returns (left: string)
    ensures s == left + StripLeft(s) && Blank(left)
    ensures StripLeft(s) != "" ==> !IsSpace(StripLeft(s)[0])
  {
    left := "";
    if s != "" && IsSpace(s[0]) {
      left := StripLeftMeans(s[1..]);
      left := [s[0]] + left;
    }
  }

  lemma {:induction false} StripMeans(s: string) returns (left: string, right: string)
    ensures Surrounds(left, Strip(s), right, s)
  {
    if s != "" && IsSpace(s[|s| - 1]) {
      left, right := StripMeans(s[..|s| - 1]);
      right := right + [s[|s| - 1]];
    } else {
      left := StripLeftMeans(s);
      right := "";
      assert StripLeft(s) != "" ==> StripLeft(s)[|StripLeft(s)| - 1] == s[|s| - 1];
    }
  }

  /** A cleaned id is never empty: it is the id without the blanks around it or, for a blank id, the task's number. */
  lemma CleanIdMeans(spec: Spec, index: nat) returns (left: string, right: string)
    ensures CleanId(spec, index) != ""
    ensures Blank(spec.id) ==> CleanId(spec, index) == "task-" + Decimal(index + 1)
    ensures !Blank(spec.id) ==> Surrounds(left, CleanId(spec, index), right, spec.id)
  {
    left, right := StripMeans(spec.id);
    var inner := Strip(spec.id);
    if inner != "" { assert spec.id[|left|] == inner[0]; }
  }

  function Renamed(spec: Spec, index: nat): string {
    CleanId(spec, index) + "-" + Decimal(index + 1)
  }

  function IdsOf(tasks: seq<Task>): (ids: seq<string>)
    ensures |ids| == |tasks| && forall i :: 0 <= i < |tasks| ==> ids[i] == tasks[i].id
  {
    seq(|tasks|, i requires 0 <= i < |tasks| => tasks[i].id)
  }

  function Dropping(dependencies: seq<string>, id: string): (r: seq<string>)
    ensures forall d :: d in r <==> d in dependencies && d != id
  {
    if dependencies == [] then [] else
      var last := |dependencies| - 1;
      var front := Dropping(dependencies[..last], id);
      if dependencies[last] == id then front else front + [dependencies[last]]
  }

  // ---------------------------------------------------------------- sanitizing

  /** Task k of the sanitized plan comes from the spec at `from`. */
  ghost predicate Cleaned(specs: seq<Spec>, from: nat, role: string -> string, kept: seq<Task>, k: nat)
    requires k < |kept|
  {
    && from < |specs| && specs[from].knownTools
    && kept[k].role == role(specs[from].role)
    && kept[k].dependencies == Dropping(specs[from].dependencies, kept[k].id)
    && kept[k].id == if CleanId(specs[from], from) in IdsOf(kept[..k]) then Renamed(specs[from], from)
         else CleanId(specs[from], from)
  }

  /** Sanitizing kept the specs at the positions `from`, and every position before n it skipped has unknown tools. */
  ghost predicate Sanitized(specs: seq<Spec>, n: nat, from: seq<nat>, role: string -> string, kept: seq<Task>) {
    && n <= |specs| && |from| == |kept|
    && (forall k :: 0 <= k < |kept| ==> from[k] < n && Cleaned(specs, from[k], role, kept, k))
    && (forall i, k :: 0 <= i < k < |from| ==> from[i] < from[k])
    && (forall i :: 0 <= i < n ==> i in from || !specs[i].knownTools)
  }

  lemma CleanedKept(specs: seq<Spec>, from: nat, role: string -> string, kept: seq<Task>, k: nat, more: Task)
    requires k < |kept| && Cleaned(specs, from, role, kept, k)
    ensures Cleaned(specs, from, role, kept + [more], k)
  {
    assert (kept + [more])[..k] == kept[..k];
  }

  lemma SanitizeStep(specs: seq<Spec>, n: nat, from: seq<nat>, role: string -> string, kept: seq<Task>, next: Task)
    requires Sanitized(specs, n, from, role, kept) && n < |specs| && specs[n].knownTools
    requires Cleaned(specs, n, role, kept + [next], |kept|)
    ensures Sanitized(specs, n + 1, from + [n], role, kept + [next])
  {
    hide Cleaned;
    forall k | 0 <= k < |kept| ensures Cleaned(specs, from[k], role, kept + [next], k) {
      CleanedKept(specs, from[k], role, kept, k, next);
    }
    assert (from + [n])[|from|] == n;
    forall i | 0 <= i < n + 1 ensures i in from + [n] || !specs[i].knownTools {
    }
  }

  /** The positions of the specs with known tools, and the first of them that fit the limit. */
  function KnownBefore(specs: seq<Spec>, n: nat): (r: seq<nat>)
    requires n <= |specs|
    ensures forall k :: 0 <= k < |r| ==> r[k] < n
  {
    if n == 0 then [] else if specs[n - 1].knownTools then KnownBefore(specs, n - 1) + [n - 1]
         else KnownBefore(specs, n - 1)
  }

  function Positions(specs: seq<Spec>, limit: nat): seq<nat> {
    var all := KnownBefore(specs, |specs|);
    if |all| <= limit then all else all[..limit]
  }

  lemma {:induction false} KnownPrefix(specs: seq<Spec>, n: nat, m: nat)
    requires n <= m <= |specs|
    ensures KnownBefore(specs, n) <= KnownBefore(specs, m)
    decreases m
  {
    if n < m { KnownPrefix(specs, n, m - 1); }
  }

  // ---------------------------------------------------------------- when sanitized ids repeat

  ghost predicate InPlan(specs: seq<Spec>, from: seq<nat>) {
    && (forall k :: 0 <= k < |from| ==> from[k] < |specs|)
    && (forall i, k :: 0 <= i < k < |from| ==> from[i] < from[k])
  }

  /** The cleaned id of the k-th kept spec, and what it becomes if that is taken. */
  function CleanAt(specs: seq<Spec>, from: seq<nat>, k: nat): string
    requires k < |from| && from[k] < |specs|
  {
    CleanId(specs[from[k]], from[k])
  }

  function RenamedAt(specs: seq<Spec>, from: seq<nat>, k: nat): string
    requires k < |from| && from[k] < |specs|
  {
    Renamed(specs[from[k]], from[k])
  }

  /** From the input alone: an earlier spec has this cleaned id, or was itself renamed to it. */
  ghost predicate Taken(specs: seq<Spec>, from: seq<nat>, k: nat)
    requires InPlan(specs, from) && k < |from|
  {
    exists i :: 0 <= i < k &&
      (CleanAt(specs, from, i) == CleanAt(specs, from, k)
       || (Taken(specs, from, i) && RenamedAt(specs, from, i) == CleanAt(specs, from, k)))
  }

  /** Some spec whose id is taken would be renamed to an earlier spec's cleaned id. */
  ghost predicate Collides(specs: seq<Spec>, from: seq<nat>)
    requires InPlan(specs, from)
  {
    exists i, k :: 0 <= i < k < |from| && Taken(specs, from, k) && CleanAt(specs, from, i) == RenamedAt(specs, from, k)
  }

  lemma {:induction false} DecimalHasNoDash(n: nat)
    ensures '-' !in Decimal(n)
    decreases n
  {
    if n >= 10 { DecimalHasNoDash(n / 10); }
  }

  lemma LastDash(x: string, d: string)
    requires '-' !in d
    ensures forall p :: |x| < p < |x + "-" + d| ==> (x + "-" + d)[p] != '-'
  {
    forall p | |x| < p < |x + "-" + d| ensures (x + "-" + d)[p] != '-' {
      assert (x + "-" + d)[p] == d[p - |x| - 1];
    }
  }

  lemma SameSuffix(x: string, y: string, d: string, e: string)
    requires x + "-" + d == y + "-" + e && '-' !in d && '-' !in e
    ensures d == e
  {
    var s := x + "-" + d;
    assert s[|x|] == '-' && s[|y|] == '-';
    LastDash(x, d);
    LastDash(y, e);
    assert s[|x| + 1..] == d && s[|y| + 1..] == e;
  }

  /** Two renamed ids never coincide: they end in different positions. */
  lemma RenamedDistinct(specs: seq<Spec>, i: nat, k: nat)
    requires i < |specs| && k < |specs| && Renamed(specs[i], i) == Renamed(specs[k], k)
    ensures i == k
  {
    DecimalHasNoDash(i + 1);
    DecimalHasNoDash(k + 1);
    SameSuffix(CleanId(specs[i], i), CleanId(specs[k], k), Decimal(i + 1), Decimal(k + 1));
    DecimalInjective(i + 1, k + 1);
  }

  lemma EarlierId(kept: seq<Task>, k: nat, id: string)
    requires k <= |kept|
    ensures id in IdsOf(kept[..k]) <==> exists i :: 0 <= i < k && kept[i].id == id
  {
    assert forall i :: 0 <= i < k ==> IdsOf(kept[..k])[i] == kept[i].id;
    if id in IdsOf(kept[..k]) {
      var i :| 0 <= i < k && IdsOf(kept[..k])[i] == id;
    }
  }

  /** What sanitizing makes of the k-th kept id, from the input alone. */
  ghost predicate IdFromInput(specs: seq<Spec>, from: seq<nat>, kept: seq<Task>, k: nat)
    requires InPlan(specs, from) && |from| == |kept| && k < |kept|
  {
    && kept[k].id == (if Taken(specs, from, k) then RenamedAt(specs, from, k) else CleanAt(specs, from, k))
    && (Taken(specs, from, k) <==> exists i :: 0 <= i < k && kept[i].id == CleanAt(specs, from, k))
  }

  /** A taken cleaned id is indeed among the earlier sanitized ids. */
  lemma TakenIsSeen(specs: seq<Spec>, from: seq<nat>, kept: seq<Task>, i: nat, id: string)
    requires InPlan(specs, from) && |from| == |kept| && i < |kept| && IdFromInput(specs, from, kept, i)
    requires CleanAt(specs, from, i) == id || (Taken(specs, from, i) && RenamedAt(specs, from, i) == id)
    ensures exists j :: 0 <= j <= i && kept[j].id == id
  {
    if Taken(specs, from, i) && RenamedAt(specs, from, i) != id {
      var j :| 0 <= j < i && kept[j].id == CleanAt(specs, from, i);
      assert kept[j].id == id;
    } else {
      assert kept[i].id == id;
    }
  }

  /** And an earlier sanitized id comes from a spec that takes it. */
  lemma SeenIsTaken(specs: seq<Spec>, from: seq<nat>, kept: seq<Task>, i: nat, k: nat)
    requires InPlan(specs, from) && |from| == |kept| && i < k < |kept| && IdFromInput(specs, from, kept, i)
    requires kept[i].id == CleanAt(specs, from, k)
    ensures Taken(specs, from, k)
  {
    assert CleanAt(specs, from, i) == CleanAt(specs, from, k)
           || (Taken(specs, from, i) && RenamedAt(specs, from, i) == CleanAt(specs, from, k));
  }

  lemma {:induction false} SanitizedId(specs: seq<Spec>, n: nat, from: seq<nat>, role: string -> string,
                                       kept: seq<Task>, k: nat)
    requires Sanitized(specs, n, from, role, kept) && InPlan(specs, from) && k < |kept|
    ensures IdFromInput(specs, from, kept, k)
    decreases k
  {
    var id := CleanAt(specs, from, k);
    if Taken(specs, from, k) {
      var i :| 0 <= i < k &&
        (CleanAt(specs, from, i) == id || (Taken(specs, from, i) && RenamedAt(specs, from, i) == id));
      SanitizedId(specs, n, from, role, kept, i);
      TakenIsSeen(specs, from, kept, i, id);
    }
    if i :| 0 <= i < k && kept[i].id == id {
      SanitizedId(specs, n, from, role, kept, i);
      SeenIsTaken(specs, from, kept, i, k);
    }
    CleanedByTaken(specs, n, from, role, kept, k);
  }

  lemma CleanedByTaken(specs: seq<Spec>, n: nat, from: seq<nat>, role: string -> string, kept: seq<Task>, k: nat)
    requires Sanitized(specs, n, from, role, kept) && InPlan(specs, from) && k < |kept|
    ensures kept[k].id == if exists i :: 0 <= i < k && kept[i].id == CleanAt(specs, from, k)
                          then RenamedAt(specs, from, k) else CleanAt(specs, from, k)
  {
    assert Cleaned(specs, from[k], role, kept, k);
    EarlierId(kept, k, CleanAt(specs, from, k));
  }

  lemma CollisionRepeats(specs: seq<Spec>, from: seq<nat>, kept: seq<Task>, i: nat, k: nat)
    requires InPlan(specs, from) && |from| == |kept| && i < k < |kept|
    requires IdFromInput(specs, from, kept, i) && IdFromInput(specs, from, kept, k)
    requires Taken(specs, from, k) && CleanAt(specs, from, i) == RenamedAt(specs, from, k)
    ensures !DistinctIds(kept)
  {
    if Taken(specs, from, i) {
      var j :| 0 <= j < i && kept[j].id == CleanAt(specs, from, i);
      assert kept[j].id == kept[k].id;
    } else {
      assert kept[i].id == kept[k].id;
    }
  }

  lemma RepeatCollides(specs: seq<Spec>, from: seq<nat>, kept: seq<Task>, i: nat, k: nat)
    requires InPlan(specs, from) && |from| == |kept| && i < k < |kept| && kept[i].id == kept[k].id
    requires IdFromInput(specs, from, kept, i) && IdFromInput(specs, from, kept, k)
    ensures Collides(specs, from)
  {
    if Taken(specs, from, i) && RenamedAt(specs, from, i) == RenamedAt(specs, from, k) {
      RenamedDistinct(specs, from[i], from[k]);
    }
  }

  /** Sanitized ids are distinct exactly when no taken id of the input is renamed to an earlier cleaned id. */
  lemma SanitizedDistinctIff(specs: seq<Spec>, n: nat, from: seq<nat>, role: string -> string, kept: seq<Task>)
    requires Sanitized(specs, n, from, role, kept)
    ensures InPlan(specs, from) && (DistinctIds(kept) <==> !Collides(specs, from))
  {
    if Collides(specs, from) {
      var i, k :| 0 <= i < k < |from| && Taken(specs, from, k) && CleanAt(specs, from, i) == RenamedAt(specs, from, k);
      SanitizedId(specs, n, from, role, kept, i);
      SanitizedId(specs, n, from, role, kept, k);
      CollisionRepeats(specs, from, kept, i, k);
    }
    if !DistinctIds(kept) {
      var i, k :| 0 <= i < k < |kept| && kept[i].id == kept[k].id;
      SanitizedId(specs, n, from, role, kept, i);
      SanitizedId(specs, n, from, role, kept, k);
      RepeatCollides(specs, from, kept, i, k);
    }
  }

  lemma PositionsReached(specs: seq<Spec>, n: nat, limit: nat)
    requires n <= |specs| && |KnownBefore(specs, n)| <= limit && (n < |specs| ==> |KnownBefore(specs, n)| == limit)
    ensures KnownBefore(specs, n) == Positions(specs, limit)
  {
    KnownPrefix(specs, n, |specs|);
  }

  /** The loop of `_sanitize_plan` after n specs. */
  ghost predicate Progress(specs: seq<Spec>, n: nat, from: seq<nat>, role: string -> string, kept: seq<Task>,
                           seen: set<string>) {
    && Sanitized(specs, n, from, role, kept) && from == KnownBefore(specs, n)
    && forall id :: id in seen <==> id in IdsOf(kept)
  }

  lemma SkipSpec(specs: seq<Spec>, n: nat, from: seq<nat>, role: string -> string, kept: seq<Task>, seen: set<string>)
    requires Progress(specs, n, from, role, kept, seen) && n < |specs| && !specs[n].knownTools
    ensures Progress(specs, n + 1, from, role, kept, seen)
  {
  }

  lemma KeepSpec(specs: seq<Spec>, n: nat, from: seq<nat>, role: string -> string, kept: seq<Task>, seen: set<string>,
                 id: string)
    requires Progress(specs, n, from, role, kept, seen) && n < |specs| && specs[n].knownTools
    requires id == if CleanId(specs[n], n) in seen then Renamed(specs[n], n) else CleanId(specs[n], n)
    ensures var task := Task(id, role(specs[n].role), Dropping(specs[n].dependencies, id));
            Progress(specs, n + 1, from + [n], role, kept + [task], seen + {id})
  {
    var task := Task(id, role(specs[n].role), Dropping(specs[n].dependencies, id));
    assert (kept + [task])[..|kept|] == kept;
    SanitizeStep(specs, n, from, role, kept, task);
    assert IdsOf(kept + [task]) == IdsOf(kept) + [id];
  }

  lemma ProgressLengths(specs: seq<Spec>, n: nat, from: seq<nat>, role: string -> string, kept: seq<Task>,
                        seen: set<string>)
    requires Progress(specs, n, from, role, kept, seen)
    ensures n <= |specs| && |from| == |kept| == |KnownBefore(specs, n)|
  {
  }

  lemma StartSanitizing(specs: seq<Spec>, role: string -> string)
    ensures Progress(specs, 0, [], role, [], {})
  {
  }

  /** The loop of `_sanitize_plan`; `role` stands for the role catalogue. */
  method Sanitize(specs: seq<Spec>, maxWorkers: nat, role: string -> string)
    returns (kept: seq<Task>, ghost n: nat, ghost from: seq<nat>)
    ensures |kept| <= maxWorkers
    ensures Sanitized(specs, n, from, role, kept) && from == Positions(specs, maxWorkers)
    ensures n < |specs| ==> |kept| == maxWorkers
  {
    hide Sanitized, KnownBefore, Positions, CleanId, Renamed;
    kept, n, from := [], 0, [];
    var seen: set<string> := {};
    StartSanitizing(specs, role);
    for index := 0 to |specs|
      invariant n == index && |kept| <= maxWorkers && Progress(specs, index, from, role, kept, seen)
    {
      if |kept| >= maxWorkers { break; }
      var spec := specs[index];
      n := n + 1;
      if !spec.knownTools {
        SkipSpec(specs, index, from, role, kept, seen);
        continue;
      }
      var id := CleanId(spec, index);
      if id in seen {
        id := Renamed(spec, index);
      }
      KeepSpec(specs, index, from, role, kept, seen, id);
      kept := kept + [Task(id, role(spec.role), Dropping(spec.dependencies, id))];
      from, seen := from + [index], seen + {id};
    }
    ProgressLengths(specs, n, from, role, kept, seen);
    PositionsReached(specs, n, maxWorkers);
  }

  /** Ids that differ after stripping come through unchanged and distinct. */
  lemma StrippedDistinctSuffices(specs: seq<Spec>, n: nat, from: seq<nat>, role: string -> string, kept: seq<Task>)
    requires Sanitized(specs, n, from, role, kept)
    requires forall i, k :: 0 <= i < k < |specs| ==> CleanId(specs[i], i) != CleanId(specs[k], k)
    ensures DistinctIds(kept) && forall k :: 0 <= k < |kept| ==> kept[k].id == CleanId(specs[from[k]], from[k])
  {
    SanitizedAsCleaned(specs, n, from, role, kept, |kept|);
  }

  lemma {:induction false} SanitizedAsCleaned(specs: seq<Spec>, n: nat, from: seq<nat>, role: string -> string,
                                              kept: seq<Task>, m: nat)
    requires Sanitized(specs, n, from, role, kept) && m <= |kept|
    requires forall i, k :: 0 <= i < k < |specs| ==> CleanId(specs[i], i) != CleanId(specs[k], k)
    ensures forall k :: 0 <= k < m ==> kept[k].id == CleanId(specs[from[k]], from[k])
  {
    if m > 0 {
      SanitizedAsCleaned(specs, n, from, role, kept, m - 1);
      var k := m - 1;
      assert Cleaned(specs, from[k], role, kept, k);
      forall i | 0 <= i < k ensures IdsOf(kept[..k])[i] != CleanId(specs[from[k]], from[k]) {
        assert from[i] < from[k];
      }
    }
  }

  lemma CollidingNames()
    ensures Strip("a") == "a" && Strip("a-3") == "a-3" && Strip(" a") == "a"
    ensures Renamed(Spec(" a", "r", [], true), 2) == "a-3"
  {
    assert Strip("a") == "a" && Strip("a-3") == "a-3" && Strip(" a") == "a";
    assert Decimal(3) == "3";
  }

  /** Three ids the plan validator takes as distinct, and the sanitized plan that repeats one. */
  lemma RenameCollisionExample(role: string -> string)
    ensures var specs := [Spec("a", "r", [], true), Spec("a-3", "r", [], true), Spec(" a", "r", [], true)];
            var kept := [Task("a", role("r"), []), Task("a-3", role("r"), []), Task("a-3", role("r"), [])];
            Sanitized(specs, 3, [0, 1, 2], role, kept) && !DistinctIds(kept)
  {
    var specs := [Spec("a", "r", [], true), Spec("a-3", "r", [], true), Spec(" a", "r", [], true)];
    var kept := [Task("a", role("r"), []), Task("a-3", role("r"), []), Task("a-3", role("r"), [])];
    hide Strip, Decimal, Renamed;
    CollidingNames();
    assert IdsOf(kept[..2])[0] == "a";
    assert IdsOf(kept[..1]) == ["a"];
    assert kept[1].id == kept[2].id;
  }

  // ---------------------------------------------------------------- the reviewer

  const REVIEW := "review-task"

  /** The i-th review id tried. */
  function ReviewId(i: nat): string {
    if i == 0 then REVIEW else REVIEW + "-" + Decimal(i)
  }

  lemma ReviewIdInjective(i: nat, k: nat)
    requires ReviewId(i) == ReviewId(k)
    ensures i == k
  {
    if i > 0 && k > 0 {
      assert ReviewId(i)[|REVIEW| + 1..] == Decimal(i) && ReviewId(k)[|REVIEW| + 1..] == Decimal(k);
      DecimalInjective(i, k);
    }
  }

  lemma FirstReviewIds(i: nat)
    requires i > 0
    ensures ReviewId(0) == REVIEW && ReviewId(i) == REVIEW + "-" + Decimal(i)
  {
  }

  /** The first review id no task has. */
  method FreshReviewId(tasks: seq<Task>) returns (id: string, ghost tried: nat)
    ensures id !in IdsOf(tasks) && id == ReviewId(tried)
    ensures forall i :: 0 <= i < tried ==> ReviewId(i) in IdsOf(tasks)
  {
    hide Decimal, ReviewId, IdsOf;
    id := REVIEW;
    FirstReviewIds(1);
    var suffix := 1;
    ghost var left := set x | x in IdsOf(tasks);
    tried := 0;
    while id in IdsOf(tasks)
      invariant suffix == tried + 1 && id == ReviewId(tried)
      invariant forall i :: 0 <= i < tried ==> ReviewId(i) in IdsOf(tasks)
      invariant forall i: nat :: i >= tried && ReviewId(i) in IdsOf(tasks) ==> ReviewId(i) in left
      decreases |left|
    {
      forall i: nat | i > tried ensures ReviewId(i) != id {
        if ReviewId(i) == ReviewId(tried) { ReviewIdInjective(i, tried); }
      }
      left := left - {id};
      FirstReviewIds(suffix);
      id := REVIEW + "-" + Decimal(suffix);
      suffix := suffix + 1;
      tried := tried + 1;
    }
  }

  predicate HasReviewer(tasks: seq<Task>) {
    exists t :: t in tasks && t.role == "reviewer"
  }

  /** The plan with its reviewer: `kept` is what the worker limit leaves of the tasks. */
  ghost predicate Reviewed(tasks: seq<Task>, kept: seq<Task>, review: Task) {
    && kept <= tasks && review.role == "reviewer"
    && review.id !in IdsOf(tasks) && review.dependencies == IdsOf(kept)
  }

  /** `_ensure_review_task` */
  method EnsureReview(tasks: seq<Task>, reviewRequired: bool, maxWorkers: nat) returns (plan: seq<Task>)
    requires maxWorkers >= 1
    ensures !reviewRequired || HasReviewer(tasks) ==> plan == tasks
    ensures reviewRequired && !HasReviewer(tasks) ==>
              var n := if |tasks| >= maxWorkers then maxWorkers - 1 else |tasks|;
              |plan| == n + 1 && plan[..n] == tasks[..n] && Reviewed(tasks, tasks[..n], plan[n])
    ensures |tasks| <= maxWorkers ==> |plan| <= maxWorkers
    // a required review has a reviewer, and one is added only when no task has that role
    ensures reviewRequired ==> exists i :: 0 <= i < |plan| && plan[i].role == "reviewer"
    ensures !reviewRequired || (exists i :: 0 <= i < |tasks| && tasks[i].role == "reviewer") ==> plan == tasks
    ensures reviewRequired && (forall i :: 0 <= i < |tasks| ==> tasks[i].role != "reviewer") ==>
              |plan| == (if |tasks| >= maxWorkers then maxWorkers else |tasks| + 1)
  {
    assert forall i :: 0 <= i < |tasks| ==> tasks[i] in tasks;
    if !reviewRequired || HasReviewer(tasks) {
      return tasks;
    }
    var id, tried := FreshReviewId(tasks);
    var review := Task(id, "reviewer", IdsOf(tasks));
    var kept := tasks;
    if |kept| >= maxWorkers {
      kept := kept[..maxWorkers - 1];
      review := review.(dependencies := IdsOf(kept));
    }
    assert tasks[..|kept|] == kept;
    plan := kept + [review];
  }

  // ---------------------------------------------------------------- the reviewed plan as a graph

  lemma IdsAgree(tasks: seq<Task>, id: string)
    ensures id in IdsOf(tasks) <==> id in Ids(tasks)
  {
  }

  /** What a kept task waits for in the reviewed plan: the same kept tasks, and the reviewer if it names it. */
  lemma KeptWaits(kept: seq<Task>, review: Task, a: string, b: string)
    requires review.id !in Ids(kept) && a in Ids(kept)
    ensures b != review.id ==> (Waits(kept + [review], a, b) <==> Waits(kept, a, b))
    ensures Waits(kept + [review], a, review.id) <==> exists t :: t in kept && t.id == a && review.id in t.dependencies
  {
  }

  ghost predicate NoneNames(kept: seq<Task>, id: string) {
    forall t :: t in kept ==> id !in t.dependencies
  }

  lemma {:induction false} WalkStaysKept(kept: seq<Task>, review: Task, p: seq<string>)
    requires review.id !in Ids(kept) && NoneNames(kept, review.id)
    requires p != [] && p[0] in Ids(kept) && Walk(kept + [review], p)
    ensures Walk(kept, p) && forall x :: x in p ==> x in Ids(kept)
    decreases |p|
  {
    if |p| > 1 {
      KeptWaits(kept, review, p[0], p[1]);
      assert Waits(kept + [review], p[0], p[1]);
      forall i | 0 <= i < |p[1..]| - 1 ensures Waits(kept + [review], p[1..][i], p[1..][i + 1]) {
        assert Waits(kept + [review], p[i + 1], p[i + 2]);
      }
      WalkStaysKept(kept, review, p[1..]);
      forall i | 0 <= i < |p| - 1 ensures Waits(kept, p[i], p[i + 1]) {
        if i > 0 { assert Waits(kept, p[1..][i - 1], p[1..][i]); }
      }
      forall x | x in p ensures x in Ids(kept) {
        assert x == p[0] || x in p[1..];
      }
    }
  }

  lemma ReviewerFollowsNobody(kept: seq<Task>, review: Task, p: seq<string>)
    requires review.id !in Ids(kept) && NoneNames(kept, review.id) && Acyclic(kept)
    requires review.dependencies == IdsOf(kept)
    requires p != [] && p[0] == review.id && Walk(kept + [review], p)
    ensures !Repeats(p)
  {
    if |p| > 1 {
      var q := p[1..];
      assert Waits(kept + [review], p[0], p[1]);
      ReviewWaits(kept, review, p[1]);
      forall i | 0 <= i < |q| - 1 ensures Waits(kept + [review], q[i], q[i + 1]) {
        assert Waits(kept + [review], p[i + 1], p[i + 2]);
      }
      WalkStaysKept(kept, review, q);
      assert !ReachesCycle(kept, q[0]);
      assert !Repeats(q);
      forall i, k | 0 <= i < k < |p| ensures p[i] != p[k] {
        assert p[k] == q[k - 1] && q[k - 1] in q;
        if i > 0 { assert p[i] == q[i - 1]; }
      }
    }
  }

  lemma ReviewWaits(kept: seq<Task>, review: Task, b: string)
    requires review.id !in Ids(kept) && review.dependencies == IdsOf(kept)
    ensures Waits(kept + [review], review.id, b) <==> b in Ids(kept)
  {
  }

  lemma CycleKept(kept: seq<Task>, review: Task, a: string)
    requires review.id !in Ids(kept) && ReachesCycle(kept, a)
    ensures ReachesCycle(kept + [review], a)
  {
  }

  lemma NamedReviewerCycles(kept: seq<Task>, review: Task, t: Task)
    requires review.id !in Ids(kept) && review.dependencies == IdsOf(kept)
    requires t in kept && review.id in t.dependencies
    ensures ReachesCycle(kept + [review], t.id)
  {
    var p := [t.id, review.id, t.id];
    KeptWaits(kept, review, t.id, review.id);
    ReviewWaits(kept, review, t.id);
    assert p[0] == p[2];
  }

  /** Adding the reviewer keeps a plan acyclic exactly when no kept task names the review id. */
  lemma ReviewedAcyclicIff(kept: seq<Task>, review: Task)
    requires review.id !in Ids(kept) && review.dependencies == IdsOf(kept)
    ensures Acyclic(kept + [review]) <==> Acyclic(kept) && NoneNames(kept, review.id)
  {
    var plan := kept + [review];
    assert forall t :: t in plan <==> t in kept || t == review;
    assert forall id :: id in Ids(plan) <==> id in Ids(kept) || id == review.id;
    if Acyclic(plan) {
      forall a | a in Ids(kept) ensures !ReachesCycle(kept, a) {
        if ReachesCycle(kept, a) { CycleKept(kept, review, a); }
      }
      forall t | t in kept ensures review.id !in t.dependencies {
        if review.id in t.dependencies { NamedReviewerCycles(kept, review, t); }
      }
    }
    if Acyclic(kept) && NoneNames(kept, review.id) {
      forall a, p: seq<string> | a in Ids(plan) && p != [] && p[0] == a && Walk(plan, p) ensures !Repeats(p) {
        if a == review.id {
          ReviewerFollowsNobody(kept, review, p);
        } else {
          WalkStaysKept(kept, review, p);
          assert !ReachesCycle(kept, a);
        }
      }
    }
  }

  lemma CutPlanSanitized(role: string -> string)
    ensures var specs := [Spec("a", "r", [REVIEW], true), Spec("b", "r", [], true), Spec(REVIEW, "r", [], true)];
            Sanitized(specs, 2, [0, 1], role, [Task("a", role("r"), [REVIEW]), Task("b", role("r"), [])])
  {
    var tasks := [Task("a", role("r"), [REVIEW]), Task("b", role("r"), [])];
    assert Strip("a") == "a" && Strip("b") == "b";
    assert Dropping([REVIEW], "a") == [REVIEW] by { assert [REVIEW][..0] == []; }
    assert IdsOf(tasks[..1]) == ["a"] && IdsOf(tasks[..0]) == [];
  }

  /**
   Cutting the plan to the worker limit can free an id that a kept task still names: the reviewer
   takes the id, and the two wait for each other.
   */
  lemma CutPlanExample(role: string -> string)
    ensures var specs := [Spec("a", "r", [REVIEW], true), Spec("b", "r", [], true), Spec(REVIEW, "r", [], true)];
            var tasks := [Task("a", role("r"), [REVIEW]), Task("b", role("r"), [])];
            var review := Task(REVIEW, "reviewer", ["a"]);
            && Sanitized(specs, 2, [0, 1], role, tasks)
            && Reviewed(tasks, tasks[..1], review)
            && !Acyclic(tasks[..1] + [review])
  {
    CutPlanSanitized(role);
    var a, b := Task("a", role("r"), [REVIEW]), Task("b", role("r"), []);
    var tasks := [a, b];
    var review := Task(REVIEW, "reviewer", ["a"]);
    assert IdsOf(tasks) == ["a", "b"] && IdsOf([a]) == ["a"];
    assert tasks[..1] == [a];
    IdsAgree([a], REVIEW);
    NamedReviewerCycles([a], review, a);
    assert a in [a] + [review];
  }

  lemma ReviewedDistinct(tasks: seq<Task>, kept: seq<Task>, review: Task)
    requires DistinctIds(tasks) && Reviewed(tasks, kept, review)
    ensures DistinctIds(kept + [review]) && review.id !in Ids(kept)
  {
  }

  // ---------------------------------------------------------------- the reviewer runs last

  lemma ResultOfTask(plan: seq<Task>, launches: seq<Launch>, results: seq<TaskResult>,
                     run: (Task, seq<TaskResult>) -> Outcome, i: nat)
    requires Scheduled(plan, launches, results, run) && Acyclic(plan) && i < |results|
    ensures |launches| == |results| && launches[i].task in plan
    ensures launches[i].task.id == results[i].taskId && results[i].taskId in Ids(plan)
  {
    assert |launches| < |results| ==> results[|launches|].kind.DependencyCycle?;
    forall k | 0 <= k < |results| ensures !results[k].kind.DependencyCycle? {
      ResultPlanned(plan, results, k);
    }
    ResultPlanned(plan, results, i);
  }

  lemma ResultPlanned(plan: seq<Task>, results: seq<TaskResult>, i: nat)
    requires OneResultEach(plan, results) && i < |results|
    ensures results[i].taskId in Ids(plan)
  {
  }

  lemma ResultFor(plan: seq<Task>, launches: seq<Launch>, results: seq<TaskResult>,
                  run: (Task, seq<TaskResult>) -> Outcome, t: Task)
    returns (r: nat)
    requires Scheduled(plan, launches, results, run) && Acyclic(plan) && t in plan && DistinctIds(plan)
    ensures |launches| == |results| && r < |launches| && launches[r].task == t && results[r].taskId == t.id
    ensures forall dep :: dep in t.dependencies && dep in Ids(plan) ==>
              exists k :: 0 <= k < r && results[k].taskId == dep && launches[k].task.id == dep
    ensures Given(plan, launches[r], results)
  {
    assert t.id in Ids(plan);
    r :| 0 <= r < |results| && results[r].taskId == t.id;
    ResultOfTask(plan, launches, results, run, r);
    SameTask(plan, launches[r].task, t);
    forall dep | dep in t.dependencies && dep in Ids(plan)
      ensures exists k :: 0 <= k < r && results[k].taskId == dep && launches[k].task.id == dep
    {
      var k :| 0 <= k < r && results[k].taskId == dep;
      ResultOfTask(plan, launches, results, run, k);
    }
  }

  lemma ReviewedIds(kept: seq<Task>, review: Task)
    requires review.dependencies == IdsOf(kept)
    ensures review in kept + [review]
    ensures forall id :: id in Ids(kept + [review]) <==> id in Ids(kept) || id == review.id
    ensures forall id :: id in review.dependencies <==> id in Ids(kept)
  {
  }

  /** In an acyclic reviewed plan the reviewer is launched after every other task, with all their results. */
  lemma ReviewerLast(kept: seq<Task>, review: Task, launches: seq<Launch>, results: seq<TaskResult>,
                     run: (Task, seq<TaskResult>) -> Outcome)
    requires review.id !in Ids(kept) && review.dependencies == IdsOf(kept) && DistinctIds(kept + [review])
    requires Acyclic(kept + [review]) && Scheduled(kept + [review], launches, results, run)
    ensures launches != [] && |results| == |launches|
    ensures var last := |launches| - 1;
            && launches[last].task == review
            && HandedOnePerTask(launches[last].dependencyResults, kept, results)
            && forall id :: id in Ids(kept) ==> exists k :: 0 <= k < last && launches[k].task.id == id
  {
    var plan := kept + [review];
    ReviewedIds(kept, review);
    var r := ResultFor(plan, launches, results, run, review);
    var last := |results| - 1;
    ResultOfTask(plan, launches, results, run, last);
    LastIsReview(kept, review, launches, results, r);
    GivenAll(plan, kept, launches[last], results);
  }

  /** One reported result for each task, in plan order. */
  ghost predicate HandedOnePerTask(given: seq<TaskResult>, tasks: seq<Task>, results: seq<TaskResult>) {
    |given| == |tasks| && forall k :: 0 <= k < |tasks| ==> given[k] in results && given[k].taskId == tasks[k].id
  }

  lemma {:induction false} RisesAtLeast(at: seq<nat>, k: nat)
    requires (forall i, k :: 0 <= i < k < |at| ==> at[i] < at[k]) && k < |at|
    ensures at[k] >= k
  {
    if k > 0 { RisesAtLeast(at, k - 1); }
  }

  /** When every entry is planned, the positions of the planned entries are all of them. */
  lemma {:induction false} AllPositions(plan: seq<Task>, dependencies: seq<string>, at: seq<nat>, k: nat)
    requires PlannedAt(plan, dependencies, at) && forall dep :: dep in dependencies ==> dep in Ids(plan)
    requires k <= |dependencies|
    ensures k <= |at| && forall i :: 0 <= i < k ==> at[i] == i
  {
    if k > 0 {
      AllPositions(plan, dependencies, at, k - 1);
      assert dependencies[k - 1] in dependencies;
      var i :| 0 <= i < |at| && at[i] == k - 1;
      RisesAtLeast(at, i);
    }
  }

  lemma GivenAll(plan: seq<Task>, kept: seq<Task>, launch: Launch, results: seq<TaskResult>)
    requires Given(plan, launch, results) && launch.task.dependencies == IdsOf(kept)
    requires forall t :: t in kept ==> t.id in Ids(plan)
    ensures HandedOnePerTask(launch.dependencyResults, kept, results)
  {
    var at :| PlannedAt(plan, launch.task.dependencies, at)
              && ResultsAt(launch.task.dependencies, at, launch.dependencyResults, results);
    AllPositions(plan, launch.task.dependencies, at, |kept|);
    if |at| > |kept| { RisesAtLeast(at, |kept|); }
  }

  lemma LastIsReview(kept: seq<Task>, review: Task, launches: seq<Launch>, results: seq<TaskResult>, r: nat)
    requires UniqueResults(results) && |launches| == |results| && r < |results| && results[r].taskId == review.id
    requires results[|results| - 1].taskId in Ids(kept) || results[|results| - 1].taskId == review.id
    requires forall id :: id in Ids(kept) ==>
               exists k :: 0 <= k < r && results[k].taskId == id && launches[k].task.id == id
    ensures r == |results| - 1
  {
  }

  // ---------------------------------------------------------------- the whole of sanitizing

  /** One independent task per suggested role, numbered from one. */
  ghost predicate IsFallback(tasks: seq<Task>, roles: seq<string>) {
    |tasks| <= |roles| && forall i :: 0 <= i < |tasks| ==> tasks[i] == Task("task-" + Decimal(i + 1), roles[i], [])
  }

  lemma NothingKept(specs: seq<Spec>, n: nat, from: seq<nat>, role: string -> string, maxWorkers: nat)
    requires Sanitized(specs, n, from, role, []) && maxWorkers >= 1 && (n < |specs| ==> maxWorkers == 0)
    ensures forall spec :: spec in specs ==> !spec.knownTools
  {
  }

  /** `fallback_manager_plan`: one independent task per suggested role. */
  method FallbackTasks(roles: seq<string>, maxWorkers: nat) returns (tasks: seq<Task>)
    ensures |tasks| == if |roles| <= maxWorkers then |roles| else if maxWorkers >= 1 then maxWorkers else 1
    ensures IsFallback(tasks, roles) && DistinctIds(tasks) && Acyclic(tasks)
  {
    var names := roles[..if |roles| <= maxWorkers then |roles| else if maxWorkers >= 1 then maxWorkers else 1];
    tasks := [];
    for index := 0 to |names|
      invariant |tasks| == index
      invariant forall i :: 0 <= i < index ==> tasks[i] == Task("task-" + Decimal(i + 1), roles[i], [])
    {
      tasks := tasks + [Task("task-" + Decimal(index + 1), names[index], [])];
    }
    forall i, k | 0 <= i < k < |tasks| ensures tasks[i].id != tasks[k].id {
      if tasks[i].id == tasks[k].id {
        assert tasks[i].id[5..] == Decimal(i + 1) && tasks[k].id[5..] == Decimal(k + 1);
        DecimalInjective(i + 1, k + 1);
      }
    }
    IndependentAcyclic(tasks);
  }

  lemma IndependentAcyclic(tasks: seq<Task>)
    requires forall t :: t in tasks ==> t.dependencies == []
    ensures Acyclic(tasks)
  {
    forall p: seq<string> | p != [] && Walk(tasks, p) ensures !Repeats(p) {
      assert |p| > 1 ==> Waits(tasks, p[0], p[1]);
    }
  }

  /** The cleaned tasks, or the fallback when there are none. */
  method Clean(specs: seq<Spec>, hasRequirements: bool, suggested: seq<string>, maxWorkers: nat, role: string -> string)
    returns (cleaned: seq<Task>, ghost n: nat, ghost from: seq<nat>)
    requires maxWorkers >= 1
    ensures |cleaned| <= maxWorkers
    ensures || (Sanitized(specs, n, from, role, cleaned) && from == Positions(specs, maxWorkers))
            || (hasRequirements && IsFallback(cleaned, suggested) && forall spec :: spec in specs ==> !spec.knownTools)
    ensures cleaned == [] ==> suggested == [] || !hasRequirements
    ensures (forall spec :: spec in specs ==> !spec.knownTools) ==> DistinctIds(cleaned) && Acyclic(cleaned)
  {
    cleaned, n, from := Sanitize(specs, maxWorkers, role);
    if cleaned != [] {
      assert specs[from[0]] in specs && Cleaned(specs, from[0], role, cleaned, 0);
    } else {
      IndependentAcyclic(cleaned);
      NothingKept(specs, n, from, role, maxWorkers);
      if hasRequirements {
        cleaned := FallbackTasks(suggested, maxWorkers);
      }
    }
  }

  /** `_sanitize_plan`: `cleaned` is the task list before the reviewer is considered. */
  method SanitizePlan(specs: seq<Spec>, reviewRequired: bool, hasRequirements: bool, suggested: seq<string>,
                      maxWorkers: nat, role: string -> string)
    returns (plan: seq<Task>, ghost cleaned: seq<Task>, ghost n: nat, ghost from: seq<nat>)
    requires maxWorkers >= 1
    ensures || (Sanitized(specs, n, from, role, cleaned) && from == Positions(specs, maxWorkers))
            || (hasRequirements && IsFallback(cleaned, suggested) && forall spec :: spec in specs ==> !spec.knownTools)
    ensures |plan| <= maxWorkers
    ensures !reviewRequired || HasReviewer(cleaned) ==> plan == cleaned
    ensures reviewRequired ==> exists i :: 0 <= i < |plan| && plan[i].role == "reviewer"
    ensures |plan| == if reviewRequired && (forall i :: 0 <= i < |cleaned| ==> cleaned[i].role != "reviewer")
                         && |cleaned| < maxWorkers then |cleaned| + 1 else |cleaned|
    ensures reviewRequired && !HasReviewer(cleaned) ==>
              plan != [] && Reviewed(cleaned, plan[..|plan| - 1], plan[|plan| - 1])
    ensures DistinctIds(cleaned) ==> DistinctIds(plan)
    ensures cleaned == [] ==> suggested == [] || !hasRequirements
    ensures (forall spec :: spec in specs ==> !spec.knownTools) ==> DistinctIds(plan) && Acyclic(cleaned)
  {
    var kept;
    kept, n, from := Clean(specs, hasRequirements, suggested, maxWorkers, role);
    plan := EnsureReview(kept, reviewRequired, maxWorkers);
    cleaned := kept;
    if reviewRequired && !HasReviewer(kept) {
      var last := |plan| - 1;
      assert plan == plan[..last] + [plan[last]];
      if DistinctIds(kept) {
        ReviewedDistinct(kept, plan[..last], plan[last]);
      }
    }
  }
}
