/**
 From worker results to the status a project is returned with: `_worker_result` and
 `_build_completion_report` (engine.py), `validate_completion_report` (principal.py) and the
 validate/repair gate of `_execute_project` (engine.py).  Results keyed by id are dictionaries.
 */
module CompletionGate {
  import opened Wrappers

  datatype Satisfaction = Satisfied | PartiallySatisfied | Unsatisfied | NotApplicable

  datatype Verification = Passed | NotPassed | NotVerified

  /** A requirement result or an acceptance result. */
  datatype Claim<S> = Claim(id: string, status: S, evidence: seq<string>, verificationMethod: string)

  datatype Artifact = Artifact(path: string, verified: bool)

  datatype Requirement = Requirement(id: string, required: bool)

  datatype Criterion = Criterion(id: string, verificationMethod: string)

  datatype Brief = Brief(requirements: seq<Requirement>, criteria: seq<Criterion>)

  datatype WorkerStatus = WorkerComplete | WorkerPartial | WorkerFailed | WorkerCancelled

  datatype WorkerResult = WorkerResult(
    status: WorkerStatus, requirementResults: seq<Claim<Satisfaction>>, acceptanceResults: seq<Claim<Verification>>,
    artifacts: seq<Artifact>, unresolved: seq<string>)

  datatype ReportStatus = Complete | Partial | Blocked | Failed

  datatype Report = Report(
    status: ReportStatus, requirementResults: map<string, Claim<Satisfaction>>,
    acceptanceResults: map<string, Claim<Verification>>, artifacts: seq<Artifact>, unresolved: set<string>)

  function RequirementRank(s: Satisfaction): nat {
    match s case Satisfied => 3 case PartiallySatisfied => 2 case Unsatisfied => 1 case NotApplicable => 0
  }

  function AcceptanceRank(s: Verification): nat {
    match s case Passed => 2 case NotPassed => 1 case NotVerified => 0
  }

  // ---------------------------------------------------------------- merging

  /** Claim i is the first of the highest-ranked claims about its id. */
  ghost predicate FirstBest<S>(claims: seq<Claim<S>>, rank: S -> nat, i: nat)
    requires i < |claims|
  {
    && (forall k :: 0 <= k < |claims| && claims[k].id == claims[i].id ==>
          rank(claims[k].status) <= rank(claims[i].status))
    && (forall k :: 0 <= k < i && claims[k].id == claims[i].id ==> rank(claims[k].status) < rank(claims[i].status))
  }

  ghost predicate Chosen<S>(claims: seq<Claim<S>>, rank: S -> nat, merged: map<string, Claim<S>>, id: string)
    requires id in merged
  {
    exists i :: 0 <= i < |claims| && claims[i] == merged[id] && claims[i].id == id && FirstBest(claims, rank, i)
  }

  /** The dictionary holds, for every id claimed, the first of its highest-ranked claims. */
  ghost predicate IsMerge<S(!new)>(claims: seq<Claim<S>>, rank: S -> nat, merged: map<string, Claim<S>>) {
    && (forall i :: 0 <= i < |claims| ==> claims[i].id in merged)
    && (forall id :: id in merged ==> Chosen(claims, rank, merged, id))
  }

  function Put<S>(merged: map<string, Claim<S>>, rank: S -> nat, c: Claim<S>): map<string, Claim<S>> {
    if c.id !in merged || rank(c.status) > rank(merged[c.id].status) then merged[c.id := c] else merged
  }

  lemma ChosenKept<S(!new)>(claims: seq<Claim<S>>, rank: S -> nat, merged: map<string, Claim<S>>, c: Claim<S>,
                            id: string)
    requires id in merged && Chosen(claims, rank, merged, id)
    requires Put(merged, rank, c)[id] == merged[id] && (id == c.id ==> rank(c.status) <= rank(merged[id].status))
    ensures Chosen(claims + [c], rank, Put(merged, rank, c), id)
  {
    var i :| 0 <= i < |claims| && claims[i] == merged[id] && claims[i].id == id && FirstBest(claims, rank, i);
    var after := claims + [c];
    assert after[i] == claims[i] && FirstBest(after, rank, i);
  }

  lemma ChosenNew<S(!new)>(claims: seq<Claim<S>>, rank: S -> nat, merged: map<string, Claim<S>>, c: Claim<S>)
    requires IsMerge(claims, rank, merged) && (c.id in merged ==> rank(c.status) > rank(merged[c.id].status))
    ensures Chosen(claims + [c], rank, Put(merged, rank, c), c.id)
  {
    var after := claims + [c];
    if c.id in merged { assert Chosen(claims, rank, merged, c.id); }
    assert after[|claims|] == c && FirstBest(after, rank, |claims|);
  }

  lemma MergeStep<S(!new)>(claims: seq<Claim<S>>, rank: S -> nat, merged: map<string, Claim<S>>, c: Claim<S>)
    requires IsMerge(claims, rank, merged)
    ensures IsMerge(claims + [c], rank, Put(merged, rank, c))
  {
    var next := Put(merged, rank, c);
    forall id | id in next ensures Chosen(claims + [c], rank, next, id) {
      if id == c.id && (c.id in merged ==> rank(c.status) > rank(merged[c.id].status)) {
        ChosenNew(claims, rank, merged, c);
      } else {
        ChosenKept(claims, rank, merged, c, id);
      }
    }
  }

  lemma MergedRankDominates<S(!new)>(a: seq<Claim<S>>, b: seq<Claim<S>>, rank: S -> nat, m: map<string, Claim<S>>,
                                     n: map<string, Claim<S>>, id: string)
    requires IsMerge(a, rank, m) && IsMerge(b, rank, n) && (forall c :: c in a ==> c in b) && id in m
    ensures id in n && rank(m[id].status) <= rank(n[id].status)
  {
    assert Chosen(a, rank, m, id);
    assert m[id] in b;
    var k :| 0 <= k < |b| && b[k] == m[id];
    assert Chosen(b, rank, n, id);
  }

  lemma SameRank<S(!new)>(a: seq<Claim<S>>, b: seq<Claim<S>>, rank: S -> nat, m: map<string, Claim<S>>,
                          n: map<string, Claim<S>>, id: string)
    requires IsMerge(a, rank, m) && IsMerge(b, rank, n) && forall c :: c in a <==> c in b
    ensures id in m <==> id in n
    ensures id in m && id in n ==> rank(m[id].status) == rank(n[id].status)
  {
    if id in m { MergedRankDominates(a, b, rank, m, n, id); }
    if id in n { MergedRankDominates(b, a, rank, n, m, id); }
  }

  /** The merged ranks depend only on which claims were made, not on the order of the workers. */
  lemma MergeIgnoresOrder<S(!new)>(a: seq<Claim<S>>, b: seq<Claim<S>>, rank: S -> nat, m: map<string, Claim<S>>,
                                   n: map<string, Claim<S>>)
    requires IsMerge(a, rank, m) && IsMerge(b, rank, n) && forall c :: c in a <==> c in b
    ensures m.Keys == n.Keys && forall id :: id in m ==> rank(m[id].status) == rank(n[id].status)
  {
    forall id ensures id in m <==> id in n
              ensures id in m && id in n ==> rank(m[id].status) == rank(n[id].status) {
      SameRank(a, b, rank, m, n, id);
    }
  }

  // ---------------------------------------------------------------- when the order of the claims does not matter

  /** The dictionary after claims. */
  ghost function MergedOf<S>(claims: seq<Claim<S>>, rank: S -> nat): map<string, Claim<S>> {
    if claims == [] then map[] else Put(MergedOf(claims[..|claims| - 1], rank), rank, claims[|claims| - 1])
  }

  lemma {:induction false} MergedOfIsMerge<S(!new)>(claims: seq<Claim<S>>, rank: S -> nat)
    ensures IsMerge(claims, rank, MergedOf(claims, rank))
  {
    if claims != [] {
      var n := |claims| - 1;
      MergedOfIsMerge(claims[..n], rank);
      MergeStep(claims[..n], rank, MergedOf(claims[..n], rank), claims[n]);
      assert claims[..n] + [claims[n]] == claims;
    }
  }

  /** The merging loop of `_build_completion_report`. */
  method Merge<S(!new)>(claims: seq<Claim<S>>, rank: S -> nat) returns (merged: map<string, Claim<S>>)
    ensures merged == MergedOf(claims, rank)
    ensures IsMerge(claims, rank, merged)
  {
    merged := map[];
    for i := 0 to |claims|
      invariant merged == MergedOf(claims[..i], rank)
    {
      assert claims[..i + 1][..i] == claims[..i];
      var c := claims[i];
      if c.id !in merged || rank(c.status) > rank(merged[c.id].status) {
        merged := merged[c.id := c];
      }
    }
    assert claims[..|claims|] == claims;
    MergedOfIsMerge(claims, rank);
  }

  /** No claim about the same id ranks higher. */
  ghost predicate Top<S(!new)>(claims: seq<Claim<S>>, rank: S -> nat, c: Claim<S>) {
    c in claims && forall d :: d in claims && d.id == c.id ==> rank(d.status) <= rank(c.status)
  }

  /** The highest-ranked claims about an id look alike to `see`. */
  ghost predicate Alike<S(!new), V>(claims: seq<Claim<S>>, rank: S -> nat, see: Claim<S> -> V) {
    forall c, d :: Top(claims, rank, c) && Top(claims, rank, d) && c.id == d.id ==> see(c) == see(d)
  }

  ghost predicate SameSeen<S, V>(m: map<string, Claim<S>>, n: map<string, Claim<S>>, see: Claim<S> -> V) {
    m.Keys == n.Keys && forall id :: id in m ==> see(m[id]) == see(n[id])
  }

  /** What `see` sees of the merged claims is the same in every order of the claims. */
  ghost predicate OrderFree<S(!new), V>(claims: seq<Claim<S>>, rank: S -> nat, see: Claim<S> -> V) {
    forall other :: multiset(other) == multiset(claims) ==> SameSeen(MergedOf(claims, rank), MergedOf(other, rank), see)
  }

  lemma SameElements<T>(a: seq<T>, b: seq<T>)
    requires multiset(a) == multiset(b)
    ensures forall c :: c in a <==> c in b
  {
    forall c ensures c in a <==> c in b {
      assert c in a <==> c in multiset(a);
      assert c in b <==> c in multiset(b);
    }
  }

  lemma MergedIsTop<S(!new)>(claims: seq<Claim<S>>, rank: S -> nat, id: string)
    requires id in MergedOf(claims, rank)
    ensures MergedOf(claims, rank)[id].id == id && Top(claims, rank, MergedOf(claims, rank)[id])
  {
    MergedOfIsMerge(claims, rank);
    assert Chosen(claims, rank, MergedOf(claims, rank), id);
  }

  /** A highest-ranked claim that comes first is the one kept. */
  lemma FrontIsMerged<S(!new)>(c: Claim<S>, rest: seq<Claim<S>>, rank: S -> nat)
    requires Top([c] + rest, rank, c)
    ensures c.id in MergedOf([c] + rest, rank) && MergedOf([c] + rest, rank)[c.id] == c
  {
    var claims := [c] + rest;
    MergedOfIsMerge(claims, rank);
    assert claims[0] == c && Chosen(claims, rank, MergedOf(claims, rank), c.id);
    forall i | 0 <= i < |claims| && claims[i].id == c.id && FirstBest(claims, rank, i) ensures i == 0 {
      assert rank(claims[0].status) <= rank(claims[i].status) <= rank(c.status) by { assert claims[i] in claims; }
    }
  }

  /** Any element can be brought to the front. */
  lemma ToFront<T>(s: seq<T>, x: T) returns (rest: seq<T>)
    requires x in s
    ensures multiset([x] + rest) == multiset(s)
  {
    var i :| 0 <= i < |s| && s[i] == x;
    rest := s[..i] + s[i + 1..];
    assert s == s[..i] + [x] + s[i + 1..];
  }

  lemma AlikeIsOrderFree<S(!new), V>(claims: seq<Claim<S>>, other: seq<Claim<S>>, rank: S -> nat, see: Claim<S> -> V)
    requires Alike(claims, rank, see) && multiset(other) == multiset(claims)
    ensures SameSeen(MergedOf(claims, rank), MergedOf(other, rank), see)
  {
    var m, n := MergedOf(claims, rank), MergedOf(other, rank);
    SameElements(claims, other);
    MergedOfIsMerge(claims, rank);
    MergedOfIsMerge(other, rank);
    MergeIgnoresOrder(claims, other, rank, m, n);
    forall id | id in m ensures see(m[id]) == see(n[id]) {
      MergedIsTop(claims, rank, id);
      MergedIsTop(other, rank, id);
      assert Top(claims, rank, n[id]);
    }
  }

  lemma TopIsSeen<S(!new), V>(claims: seq<Claim<S>>, rank: S -> nat, see: Claim<S> -> V, c: Claim<S>)
    requires OrderFree(claims, rank, see) && Top(claims, rank, c)
    ensures c.id in MergedOf(claims, rank) && see(c) == see(MergedOf(claims, rank)[c.id])
  {
    var rest := ToFront(claims, c);
    SameElements([c] + rest, claims);
    FrontIsMerged(c, rest, rank);
    assert SameSeen(MergedOf(claims, rank), MergedOf([c] + rest, rank), see);
  }

  /** The merged claims look the same in every order exactly when the highest-ranked claims of each id look alike. */
  lemma OrderFreeIff<S(!new), V>(claims: seq<Claim<S>>, rank: S -> nat, see: Claim<S> -> V)
    ensures OrderFree(claims, rank, see) <==> Alike(claims, rank, see)
  {
    if Alike(claims, rank, see) {
      forall other | multiset(other) == multiset(claims)
        ensures SameSeen(MergedOf(claims, rank), MergedOf(other, rank), see) {
        AlikeIsOrderFree(claims, other, rank, see);
      }
    }
    if OrderFree(claims, rank, see) {
      forall c, d | Top(claims, rank, c) && Top(claims, rank, d) && c.id == d.id ensures see(c) == see(d) {
        TopIsSeen(claims, rank, see, c);
        TopIsSeen(claims, rank, see, d);
      }
    }
  }

  predicate HasEvidence<S>(c: Claim<S>) {
    c.evidence != []
  }

  // ---------------------------------------------------------------- one worker's handoff

  datatype Output = Output(status: WorkerStatus, summary: string, requirementResults: seq<Claim<Satisfaction>>,
                           evidence: seq<string>)

  function Within(claims: seq<Claim<Satisfaction>>, ids: seq<string>): (r: seq<Claim<Satisfaction>>)
    ensures forall c :: c in r <==> c in claims && c.id in ids
  {
    if claims == [] then [] else
      (if claims[0].id in ids then [claims[0]] else []) + Within(claims[1..], ids)
  }

  /** The requirement results of `_worker_result`: the worker's own, or its status spread over the task. */
  function Handoff(ids: seq<string>, output: Output): seq<Claim<Satisfaction>> {
    var evidence := if output.summary != "" && output.summary !in output.evidence
                    then output.evidence + [output.summary] else output.evidence;
    var own := Within(output.requirementResults, ids);
    if own != [] then own
    else seq(|ids|, i requires 0 <= i < |ids| =>
               Claim(ids[i], if output.status.WorkerComplete? then Satisfied else PartiallySatisfied, evidence, ""))
  }

  /** A worker speaks for its own task only, and claims an unclaimed requirement satisfied only by finishing. */
  lemma HandoffOfTask(ids: seq<string>, output: Output, c: Claim<Satisfaction>)
    requires c in Handoff(ids, output)
    ensures c.id in ids
    ensures c in output.requirementResults || (c.status.Satisfied? <==> output.status.WorkerComplete?)
    ensures c !in output.requirementResults ==> forall own :: own in output.requirementResults ==> own.id !in ids
  {
  }

  lemma WithinOne(c: Claim<Satisfaction>, rest: seq<Claim<Satisfaction>>, ids: seq<string>)
    ensures Within([c], ids) == if c.id in ids then [c] else []
    ensures Within([c] + rest, ids) == Within([c], ids) + Within(rest, ids)
  {
    assert Within([], ids) == [];
    assert [c][1..] == [] && ([c] + rest)[1..] == rest;
  }

  /** The worker's own claims are kept or dropped one by one, in order. */
  lemma {:induction false} WithinEach(a: seq<Claim<Satisfaction>>, b: seq<Claim<Satisfaction>>, ids: seq<string>)
    ensures Within(a + b, ids) == Within(a, ids) + Within(b, ids)
  {
    if a == [] {
      assert a + b == b && Within([], ids) == [];
    } else {
      hide Within;
      var c, rest := a[0], a[1..];
      assert a == [c] + rest;
      calc {
        Within(a + b, ids);
      == { Reassociated([c], rest, b); }
        Within([c] + (rest + b), ids);
      == { WithinOne(c, rest + b, ids); }
        Within([c], ids) + Within(rest + b, ids);
      == { WithinEach(rest, b, ids); }
        Within([c], ids) + (Within(rest, ids) + Within(b, ids));
      == { Reassociated(Within([c], ids), Within(rest, ids), Within(b, ids)); }
        (Within([c], ids) + Within(rest, ids)) + Within(b, ids);
      == { WithinOne(c, rest, ids); }
        Within(a, ids) + Within(b, ids);
      }
    }
  }

  lemma HeadIn(own: seq<Claim<Satisfaction>>)
    ensures own == [] || own[0] in own
  {
  }

  /** The evidence of a worker that does not name requirements: what it lists, and its summary. */
  ghost predicate WorkerEvidence(output: Output, evidence: seq<string>) {
    && output.evidence <= evidence
    && forall e :: e in evidence <==> e in output.evidence || (e == output.summary && output.summary != "")
  }

  /** Its own claims about the task if it has any; otherwise each requirement of the task, as far as the worker got. */
  lemma HandoffCovers(ids: seq<string>, output: Output)
    ensures var handoff := Handoff(ids, output);
            if exists c :: c in output.requirementResults && c.id in ids then
              handoff == Within(output.requirementResults, ids)
            else
              && |handoff| == |ids|
              && forall i :: 0 <= i < |ids| ==>
                   && handoff[i].id == ids[i] && WorkerEvidence(output, handoff[i].evidence)
                   && handoff[i].status == if output.status == WorkerComplete then Satisfied else PartiallySatisfied
  {
    HeadIn(Within(output.requirementResults, ids));
  }

  // ---------------------------------------------------------------- the report

  function RequirementResultsOf(w: WorkerResult): seq<Claim<Satisfaction>> {
    w.requirementResults
  }

  function AcceptanceResultsOf(w: WorkerResult): seq<Claim<Verification>> {
    w.acceptanceResults
  }

  /** Every worker's claims, in worker order. */
  function Claims<S>(results: seq<WorkerResult>, of: WorkerResult -> seq<Claim<S>>): seq<Claim<S>> {
    if results == [] then [] else Claims(results[..|results| - 1], of) + of(results[|results| - 1])
  }

  lemma {:induction false} ClaimsAre<S>(results: seq<WorkerResult>, of: WorkerResult -> seq<Claim<S>>, c: Claim<S>)
    ensures c in Claims(results, of) <==> exists w :: w in results && c in of(w)
  {
    if results != [] {
      var n := |results| - 1;
      ClaimsAre(results[..n], of, c);
      assert results == results[..n] + [results[n]];
      assert forall w :: w in results <==> w in results[..n] || w == results[n];
    }
  }

  function MissingRequirement(id: string): Claim<Satisfaction> {
    Claim(id, Unsatisfied, [], "")
  }

  function MissingCriterion(id: string): Claim<Verification> {
    Claim(id, NotVerified, [], "")
  }

  predicate Stopped(w: WorkerResult) {
    w.status.WorkerFailed? || w.status.WorkerCancelled?
  }

  predicate Proven(r: Requirement, requirements: map<string, Claim<Satisfaction>>) {
    r.id in requirements && requirements[r.id].status.Satisfied? && requirements[r.id].evidence != []
  }

  predicate CriterionProven(acceptance: map<string, Claim<Verification>>, id: string) {
    id in acceptance && acceptance[id].status.Passed? && acceptance[id].evidence != []
  }

  /** The first claim about id at the given rank. */
  function FirstAt<S>(claims: seq<Claim<S>>, rank: S -> nat, top: nat, id: string): Option<Claim<S>> {
    if claims == [] then None
    else if claims[0].id == id && rank(claims[0].status) == top then Some(claims[0])
    else FirstAt(claims[1..], rank, top, id)
  }

  lemma {:induction false} FirstAtConcat<S>(a: seq<Claim<S>>, b: seq<Claim<S>>, rank: S -> nat, top: nat, id: string)
    ensures FirstAt(a + b, rank, top, id) ==
              if FirstAt(a, rank, top, id).Some? then FirstAt(a, rank, top, id) else FirstAt(b, rank, top, id)
  {
    if a == [] {
      assert a + b == b;
    } else {
      assert (a + b)[0] == a[0] && (a + b)[1..] == a[1..] + b;
      FirstAtConcat(a[1..], b, rank, top, id);
    }
  }

  lemma {:induction false} FirstAtIs<S>(claims: seq<Claim<S>>, rank: S -> nat, top: nat, id: string, i: nat)
    requires i < |claims| && claims[i].id == id && rank(claims[i].status) == top
    requires forall k :: 0 <= k < i ==> !(claims[k].id == id && rank(claims[k].status) == top)
    ensures FirstAt(claims, rank, top, id) == Some(claims[i])
  {
    if i > 0 {
      assert !(claims[0].id == id && rank(claims[0].status) == top);
      FirstAtIs(claims[1..], rank, top, id, i - 1);
    }
  }

  lemma {:induction false} FirstAtOfClaim<S>(claims: seq<Claim<S>>, rank: S -> nat, top: nat, id: string)
    requires FirstAt(claims, rank, top, id).Some?
    ensures var c := FirstAt(claims, rank, top, id).value; c in claims && c.id == id && rank(c.status) == top
  {
    if !(claims[0].id == id && rank(claims[0].status) == top) {
      FirstAtOfClaim(claims[1..], rank, top, id);
    }
  }

  predicate Evidenced<S>(c: Option<Claim<S>>) {
    c.Some? && HasEvidence(c.value)
  }

  /** A claim of the highest rank there is survives merging exactly when it is the first of its id and rank. */
  lemma TopIsFirst<S(!new)>(claims: seq<Claim<S>>, rank: S -> nat, top: nat, merged: map<string, Claim<S>>, id: string)
    requires IsMerge(claims, rank, merged) && forall s :: rank(s) <= top
    ensures Evidenced(FirstAt(claims, rank, top, id)) <==>
              id in merged && rank(merged[id].status) == top && HasEvidence(merged[id])
  {
    if FirstAt(claims, rank, top, id).Some? {
      FirstAtOfClaim(claims, rank, top, id);
      var c := FirstAt(claims, rank, top, id).value;
      var k :| 0 <= k < |claims| && claims[k] == c;
      assert id in merged;
    }
    if id in merged {
      assert Chosen(claims, rank, merged, id);
      var i :| 0 <= i < |claims| && claims[i] == merged[id] && claims[i].id == id && FirstBest(claims, rank, i);
      if rank(claims[i].status) == top {
        FirstAtIs(claims, rank, top, id, i);
      }
    }
  }

  /** The first claim over all workers is some worker's first claim; a worker in front decides it. */
  lemma {:induction false} FirstOfWorkers<S>(results: seq<WorkerResult>, of: WorkerResult -> seq<Claim<S>>,
                                             rank: S -> nat, top: nat, id: string)
    ensures var first := FirstAt(Claims(results, of), rank, top, id);
            && (first.Some? <==> exists w :: w in results && FirstAt(of(w), rank, top, id).Some?)
            && (first.Some? ==> exists w :: w in results && FirstAt(of(w), rank, top, id) == first)
  {
    if results != [] {
      var n := |results| - 1;
      FirstOfWorkers(results[..n], of, rank, top, id);
      FirstAtConcat(Claims(results[..n], of), of(results[n]), rank, top, id);
      assert results == results[..n] + [results[n]];
      assert forall w :: w in results <==> w in results[..n] || w == results[n];
    }
  }

  lemma Reassociated<T>(a: seq<T>, b: seq<T>, c: seq<T>)
    ensures (a + b) + c == a + (b + c)
  {
  }

  lemma ClaimsOfLast<S>(front: seq<WorkerResult>, last: WorkerResult, of: WorkerResult -> seq<Claim<S>>)
    ensures Claims(front + [last], of) == Claims(front, of) + of(last)
  {
    assert (front + [last])[..|front|] == front;
  }

  lemma {:induction false} ClaimsOfFront<S>(w: WorkerResult, rest: seq<WorkerResult>, of: WorkerResult -> seq<Claim<S>>)
    ensures Claims([w] + rest, of) == of(w) + Claims(rest, of)
  {
    if rest == [] {
      ClaimsOfLast([], w, of);
      assert [w] + rest == [] + [w];
    } else {
      hide Claims;
      var front, last := rest[..|rest| - 1], rest[|rest| - 1];
      calc {
        Claims([w] + rest, of);
      == { Reassociated([w], front, [last]); assert rest == front + [last]; }
        Claims(([w] + front) + [last], of);
      == { ClaimsOfLast([w] + front, last, of); }
        Claims([w] + front, of) + of(last);
      == { ClaimsOfFront(w, front, of); }
        (of(w) + Claims(front, of)) + of(last);
      == { Reassociated(of(w), Claims(front, of), of(last)); }
        of(w) + (Claims(front, of) + of(last));
      == { ClaimsOfLast(front, last, of); assert rest == front + [last]; }
        of(w) + Claims(rest, of);
      }
    }
  }

  lemma FrontWorkerDecides<S>(w: WorkerResult, rest: seq<WorkerResult>, of: WorkerResult -> seq<Claim<S>>,
                              rank: S -> nat, top: nat, id: string)
    requires FirstAt(of(w), rank, top, id).Some?
    ensures FirstAt(Claims([w] + rest, of), rank, top, id) == FirstAt(of(w), rank, top, id)
  {
    ClaimsOfFront(w, rest, of);
    FirstAtConcat(of(w), Claims(rest, of), rank, top, id);
  }

  /** The workers that claim id at the given rank agree on whether there is evidence for it. */
  ghost predicate WorkersAgree<S>(results: seq<WorkerResult>, of: WorkerResult -> seq<Claim<S>>, rank: S -> nat,
                                  top: nat, id: string) {
    forall w, v ::
      w in results && v in results && FirstAt(of(w), rank, top, id).Some? && FirstAt(of(v), rank, top, id).Some? ==>
        Evidenced(FirstAt(of(w), rank, top, id)) == Evidenced(FirstAt(of(v), rank, top, id))
  }

  ghost predicate WorkerOrderFree<S>(results: seq<WorkerResult>, of: WorkerResult -> seq<Claim<S>>, rank: S -> nat,
                                     top: nat, id: string) {
    forall other :: multiset(other) == multiset(results) ==>
      Evidenced(FirstAt(Claims(other, of), rank, top, id)) == Evidenced(FirstAt(Claims(results, of), rank, top, id))
  }

  /** Whether an id ends up backed is the same in every order of the workers exactly when its claimants agree. */
  lemma WorkerOrderFreeIff<S>(results: seq<WorkerResult>, of: WorkerResult -> seq<Claim<S>>, rank: S -> nat, top: nat,
                              id: string)
    ensures WorkerOrderFree(results, of, rank, top, id) <==> WorkersAgree(results, of, rank, top, id)
  {
    if WorkersAgree(results, of, rank, top, id) {
      forall other | multiset(other) == multiset(results)
        ensures Evidenced(FirstAt(Claims(other, of), rank, top, id)) ==
                  Evidenced(FirstAt(Claims(results, of), rank, top, id)) {
        SameElements(results, other);
        FirstOfWorkers(results, of, rank, top, id);
        FirstOfWorkers(other, of, rank, top, id);
      }
    }
    if WorkerOrderFree(results, of, rank, top, id) {
      forall w | w in results && FirstAt(of(w), rank, top, id).Some?
        ensures Evidenced(FirstAt(of(w), rank, top, id)) == Evidenced(FirstAt(Claims(results, of), rank, top, id)) {
        var rest := ToFront(results, w);
        FrontWorkerDecides(w, rest, of, rank, top, id);
      }
    }
  }

  /** The requirement ends up satisfied, with evidence: so says the first worker that calls it satisfied. */
  ghost predicate RequirementBacked(results: seq<WorkerResult>, r: Requirement) {
    Evidenced(FirstAt(Claims(results, RequirementResultsOf), RequirementRank, 3, r.id))
  }

  ghost predicate CriterionBacked(results: seq<WorkerResult>, id: string) {
    Evidenced(FirstAt(Claims(results, AcceptanceResultsOf), AcceptanceRank, 2, id))
  }

  /** Some worker speaks of the criterion. */
  ghost predicate Claimed(results: seq<WorkerResult>, id: string) {
    exists w, c :: w in results && c in w.acceptanceResults && c.id == id
  }

  /** A criterion the brief or some worker speaks of. */
  ghost predicate Asked(brief: Brief, results: seq<WorkerResult>, id: string) {
    id in CriterionIds(brief) || Claimed(results, id)
  }

  /** What makes a project complete, in the workers' own claims. */
  ghost predicate Completes(brief: Brief, results: seq<WorkerResult>) {
    && (exists r :: r in brief.requirements && r.required)
    && (forall r :: r in brief.requirements && r.required ==> RequirementBacked(results, r))
    && (forall id :: Asked(brief, results, id) ==> CriterionBacked(results, id))
    && (forall w :: w in results ==> w.status == WorkerComplete || w.status == WorkerPartial)
  }

  /** What makes the engine call its own report complete. */
  predicate AllDone(brief: Brief, results: seq<WorkerResult>, requirements: map<string, Claim<Satisfaction>>,
                    acceptance: map<string, Claim<Verification>>)
  {
    && (exists r :: r in brief.requirements && r.required)
    && (forall r :: r in brief.requirements && r.required ==> Proven(r, requirements))
    && (forall id :: id in acceptance ==> CriterionProven(acceptance, id))
    && (forall w :: w in results ==> !Stopped(w))
  }

  /** `setdefault` for every id of the brief. */
  ghost predicate Defaulted<S(!new)>(merged: map<string, Claim<S>>, ids: seq<string>, default: string -> Claim<S>,
                                     r: map<string, Claim<S>>) {
    && (forall id :: id in r <==> id in merged || id in ids)
    && (forall id :: id in r ==> r[id] == if id in merged then merged[id] else default(id))
  }

  method SetDefaults<S(!new)>(merged: map<string, Claim<S>>, ids: seq<string>, default: string -> Claim<S>)
    returns (r: map<string, Claim<S>>)
    ensures Defaulted(merged, ids, default, r)
  {
    r := merged;
    for i := 0 to |ids|
      invariant Defaulted(merged, ids[..i], default, r)
    {
      assert ids[..i + 1] == ids[..i] + [ids[i]];
      if ids[i] !in r {
        r := r[ids[i] := default(ids[i])];
      }
    }
    assert ids[..|ids|] == ids;
  }

  function RequirementIds(brief: Brief): (ids: seq<string>)
    ensures forall id :: id in ids <==> exists r :: r in brief.requirements && r.id == id
  {
    var ids := seq(|brief.requirements|, i requires 0 <= i < |brief.requirements| => brief.requirements[i].id);
    assert forall r :: r in brief.requirements ==> r.id in ids by {
      forall r | r in brief.requirements ensures r.id in ids {
        var i :| 0 <= i < |brief.requirements| && brief.requirements[i] == r;
        assert ids[i] == r.id;
      }
    }
    ids
  }

  function CriterionIds(brief: Brief): (ids: seq<string>)
    ensures forall id :: id in ids <==> exists c :: c in brief.criteria && c.id == id
  {
    var ids := seq(|brief.criteria|, i requires 0 <= i < |brief.criteria| => brief.criteria[i].id);
    assert forall c :: c in brief.criteria ==> c.id in ids by {
      forall c | c in brief.criteria ensures c.id in ids {
        var i :| 0 <= i < |brief.criteria| && brief.criteria[i] == c;
        assert ids[i] == c.id;
      }
    }
    ids
  }

  /** The engine's test on the merged results says what the workers' own claims say. */
  lemma AllDoneIff(brief: Brief, results: seq<WorkerResult>, byRequirement: map<string, Claim<Satisfaction>>,
                   byAcceptance: map<string, Claim<Verification>>, requirements: map<string, Claim<Satisfaction>>,
                   acceptance: map<string, Claim<Verification>>)
    requires IsMerge(Claims(results, RequirementResultsOf), RequirementRank, byRequirement)
    requires IsMerge(Claims(results, AcceptanceResultsOf), AcceptanceRank, byAcceptance)
    requires Defaulted(byRequirement, RequirementIds(brief), MissingRequirement, requirements)
    requires Defaulted(byAcceptance, CriterionIds(brief), MissingCriterion, acceptance)
    ensures AllDone(brief, results, requirements, acceptance) <==> Completes(brief, results)
  {
    hide IsMerge, Defaulted, Claims, Proven, RequirementBacked, CriterionProven, CriterionBacked, Asked;
    forall r | r in brief.requirements ensures Proven(r, requirements) <==> RequirementBacked(results, r) {
      RequirementProvenIff(brief, results, byRequirement, requirements, r);
    }
    forall id ensures id in acceptance <==> Asked(brief, results, id)
              ensures id in acceptance ==> (CriterionProven(acceptance, id) <==> CriterionBacked(results, id)) {
      CriterionProvenIff(brief, results, byAcceptance, acceptance, id);
    }
  }

  lemma RequirementProvenIff(brief: Brief, results: seq<WorkerResult>, merged: map<string, Claim<Satisfaction>>,
                             requirements: map<string, Claim<Satisfaction>>, r: Requirement)
    requires IsMerge(Claims(results, RequirementResultsOf), RequirementRank, merged) && r in brief.requirements
    requires Defaulted(merged, RequirementIds(brief), MissingRequirement, requirements)
    ensures Proven(r, requirements) <==> RequirementBacked(results, r)
  {
    TopIsFirst(Claims(results, RequirementResultsOf), RequirementRank, 3, merged, r.id);
  }

  lemma CriterionProvenIff(brief: Brief, results: seq<WorkerResult>, merged: map<string, Claim<Verification>>,
                           acceptance: map<string, Claim<Verification>>, id: string)
    requires IsMerge(Claims(results, AcceptanceResultsOf), AcceptanceRank, merged)
    requires Defaulted(merged, CriterionIds(brief), MissingCriterion, acceptance)
    ensures id in acceptance <==> Asked(brief, results, id)
    ensures id in acceptance ==> (CriterionProven(acceptance, id) <==> CriterionBacked(results, id))
  {
    hide FirstAt, Claims, Claimed;
    TopIsFirst(Claims(results, AcceptanceResultsOf), AcceptanceRank, 2, merged, id);
    MergedIffClaimed(results, merged, id);
  }

  /** The merged criteria are those some worker speaks of. */
  lemma MergedIffClaimed(results: seq<WorkerResult>, merged: map<string, Claim<Verification>>, id: string)
    requires IsMerge(Claims(results, AcceptanceResultsOf), AcceptanceRank, merged)
    ensures id in merged <==> Claimed(results, id)
  {
    hide FirstBest;
    var claims := Claims(results, AcceptanceResultsOf);
    if id in merged {
      assert Chosen(claims, AcceptanceRank, merged, id);
      ClaimsAre(results, AcceptanceResultsOf, merged[id]);
    }
    forall w, c | w in results && c in w.acceptanceResults && c.id == id ensures id in merged {
      ClaimsAre(results, AcceptanceResultsOf, c);
      assert c in AcceptanceResultsOf(w);
      var i :| 0 <= i < |claims| && claims[i] == c;
    }
  }

  function Artifacts(results: seq<WorkerResult>): seq<Artifact> {
    if results == [] then [] else Artifacts(results[..|results| - 1]) + results[|results| - 1].artifacts
  }

  /** The position is the first of its path. */
  ghost predicate FirstOfPath(all: seq<Artifact>, i: nat) {
    i < |all| && forall j :: 0 <= j < i ==> all[j].path != all[i].path
  }

  /** The artifacts kept are those at the positions `at`, which are, in order, the first ones of their paths. */
  ghost predicate KeptAt(all: seq<Artifact>, unique: seq<Artifact>, at: seq<nat>) {
    && |at| == |unique| && (forall k :: 0 <= k < |at| ==> at[k] < |all| && unique[k] == all[at[k]])
    && (forall j, k :: 0 <= j < k < |at| ==> at[j] < at[k])
    && (forall i :: 0 <= i < |all| ==> (i in at <==> FirstOfPath(all, i)))
  }

  /** The first artifact of each path, in order. */
  ghost predicate FirstOfEachPath(all: seq<Artifact>, unique: seq<Artifact>) {
    exists at: seq<nat> :: KeptAt(all, unique, at)
  }

  lemma KeptStep(all: seq<Artifact>, unique: seq<Artifact>, at: seq<nat>, a: Artifact, seen: set<string>)
    requires KeptAt(all, unique, at)
    requires forall path :: path in seen <==> exists i :: 0 <= i < |all| && all[i].path == path
    ensures if a.path in seen then KeptAt(all + [a], unique, at) else KeptAt(all + [a], unique + [a], at + [|all|])
  {
    var after := all + [a];
    forall i | 0 <= i < |all| ensures FirstOfPath(after, i) <==> FirstOfPath(all, i) {
      assert forall j :: 0 <= j <= i ==> after[j] == all[j];
    }
    assert FirstOfPath(after, |all|) <==> a.path !in seen by {
      if a.path in seen {
        var i :| 0 <= i < |all| && all[i].path == a.path;
        assert after[i].path == after[|all|].path;
      }
    }
  }

  /** The loop over the artifacts, with the paths seen. */
  method UniqueArtifacts(all: seq<Artifact>) returns (unique: seq<Artifact>)
    ensures FirstOfEachPath(all, unique)
  {
    unique := [];
    ghost var at: seq<nat> := [];
    var seen: set<string> := {};
    for i := 0 to |all|
      invariant KeptAt(all[..i], unique, at)
      invariant forall path :: path in seen <==> exists j :: 0 <= j < |all[..i]| && all[..i][j].path == path
    {
      KeptStep(all[..i], unique, at, all[i], seen);
      assert all[..i + 1] == all[..i] + [all[i]];
      if all[i].path !in seen {
        unique, seen := unique + [all[i]], seen + {all[i].path};
        at := at + [i];
      }
    }
    assert all[..|all|] == all;
  }

  function Unresolved(results: seq<WorkerResult>): set<string> {
    set w, item | w in results && item in w.unresolved :: item
  }

  const NOT_ALL_COMPLETED := "One or more workers did not complete."

  lemma NothingCompletes(brief: Brief)
    ensures !Completes(brief, [])
  {
    forall r | r in brief.requirements && r.required ensures !RequirementBacked([], r) {
    }
  }

  // ---------------------------------------------------------------- what is reported of each id

  /** Some worker speaks of the requirement. */
  ghost predicate RequirementClaimed(results: seq<WorkerResult>, id: string) {
    exists w, c :: w in results && c in w.requirementResults && c.id == id
  }

  /** At least as good a status: satisfied, partially satisfied, unsatisfied, not applicable. */
  ghost predicate AsSatisfied(a: Satisfaction, b: Satisfaction) {
    && (b.Satisfied? ==> a.Satisfied?)
    && (b.PartiallySatisfied? ==> a.Satisfied? || a.PartiallySatisfied?)
    && (b.Unsatisfied? ==> !a.NotApplicable?)
  }

  /** At least as good a status: passed, failed, not verified. */
  ghost predicate AsVerified(a: Verification, b: Verification) {
    (b.Passed? ==> a.Passed?) && (b.NotPassed? ==> !a.NotVerified?)
  }

  /**
   A requirement of the brief, or one some worker speaks of, is reported: as the best any worker claims, in
   a worker's own claim, and as unsatisfied without evidence when nobody claims it.
   */
  ghost predicate RequirementReported(brief: Brief, results: seq<WorkerResult>,
                                      reported: map<string, Claim<Satisfaction>>, id: string)
  {
    && (id in reported <==> RequirementClaimed(results, id) || exists r :: r in brief.requirements && r.id == id)
    && (RequirementClaimed(results, id) ==>
          && (exists w :: w in results && reported[id] in w.requirementResults && reported[id].id == id)
          && forall w, c :: w in results && c in w.requirementResults && c.id == id ==>
               AsSatisfied(reported[id].status, c.status))
    && (id in reported && !RequirementClaimed(results, id) ==>
          reported[id].id == id && reported[id].status == Unsatisfied && reported[id].evidence == [])
  }

  ghost predicate CriterionReported(brief: Brief, results: seq<WorkerResult>,
                                    reported: map<string, Claim<Verification>>, id: string)
  {
    && (id in reported <==> Claimed(results, id) || exists c :: c in brief.criteria && c.id == id)
    && (Claimed(results, id) ==>
          && (exists w :: w in results && reported[id] in w.acceptanceResults && reported[id].id == id)
          && forall w, c :: w in results && c in w.acceptanceResults && c.id == id ==>
               AsVerified(reported[id].status, c.status))
    && (id in reported && !Claimed(results, id) ==>
          reported[id].id == id && reported[id].status == NotVerified && reported[id].evidence == []
          && reported[id].verificationMethod == "")
  }

  /** The merged dictionary has an id exactly when a worker claims it, and holds the best claim. */
  lemma MergedIsBest<S(!new)>(results: seq<WorkerResult>, of: WorkerResult -> seq<Claim<S>>, rank: S -> nat,
                              merged: map<string, Claim<S>>, id: string)
    requires IsMerge(Claims(results, of), rank, merged)
    ensures id in merged <==> exists w, c :: w in results && c in of(w) && c.id == id
    ensures id in merged ==>
              && (exists w :: w in results && merged[id] in of(w) && merged[id].id == id)
              && forall w, c :: w in results && c in of(w) && c.id == id ==> rank(c.status) <= rank(merged[id].status)
  {
    var claims := Claims(results, of);
    if id in merged {
      assert Chosen(claims, rank, merged, id);
      ClaimsAre(results, of, merged[id]);
    }
    forall w, c | w in results && c in of(w) && c.id == id
      ensures id in merged && rank(c.status) <= rank(merged[id].status)
    {
      ClaimsAre(results, of, c);
      var i :| 0 <= i < |claims| && claims[i] == c;
      assert Chosen(claims, rank, merged, id);
    }
  }

  lemma BestRequirement(results: seq<WorkerResult>, merged: map<string, Claim<Satisfaction>>, id: string)
    requires IsMerge(Claims(results, RequirementResultsOf), RequirementRank, merged)
    ensures id in merged <==> RequirementClaimed(results, id)
    ensures id in merged ==>
              && (exists w :: w in results && merged[id] in w.requirementResults && merged[id].id == id)
              && forall w, c :: w in results && c in w.requirementResults && c.id == id ==>
                   AsSatisfied(merged[id].status, c.status)
  {
    hide IsMerge, Claims;
    MergedIsBest(results, RequirementResultsOf, RequirementRank, merged, id);
    assert forall w: WorkerResult :: RequirementResultsOf(w) == w.requirementResults;
  }

  lemma RequirementIsReported(brief: Brief, results: seq<WorkerResult>, merged: map<string, Claim<Satisfaction>>,
                              reported: map<string, Claim<Satisfaction>>, id: string)
    requires IsMerge(Claims(results, RequirementResultsOf), RequirementRank, merged)
    requires Defaulted(merged, RequirementIds(brief), MissingRequirement, reported)
    ensures RequirementReported(brief, results, reported, id)
  {
    hide IsMerge, Claims, RequirementClaimed, AsSatisfied;
    BestRequirement(results, merged, id);
  }

  lemma BestCriterion(results: seq<WorkerResult>, merged: map<string, Claim<Verification>>, id: string)
    requires IsMerge(Claims(results, AcceptanceResultsOf), AcceptanceRank, merged)
    ensures id in merged <==> Claimed(results, id)
    ensures id in merged ==>
              && (exists w :: w in results && merged[id] in w.acceptanceResults && merged[id].id == id)
              && forall w, c :: w in results && c in w.acceptanceResults && c.id == id ==>
                   AsVerified(merged[id].status, c.status)
  {
    hide IsMerge, Claims;
    MergedIsBest(results, AcceptanceResultsOf, AcceptanceRank, merged, id);
    assert forall w: WorkerResult :: AcceptanceResultsOf(w) == w.acceptanceResults;
  }

  lemma CriterionIsReported(brief: Brief, results: seq<WorkerResult>, merged: map<string, Claim<Verification>>,
                            reported: map<string, Claim<Verification>>, id: string)
    requires IsMerge(Claims(results, AcceptanceResultsOf), AcceptanceRank, merged)
    requires Defaulted(merged, CriterionIds(brief), MissingCriterion, reported)
    ensures CriterionReported(brief, results, reported, id)
  {
    hide IsMerge, Claims, Claimed, AsVerified;
    BestCriterion(results, merged, id);
  }

  /** A required requirement or a criterion that nobody claims keeps a report from being accepted. */
  lemma UnclaimedNotAcceptable(brief: Brief, results: seq<WorkerResult>, report: Report)
    requires forall id :: RequirementReported(brief, results, report.requirementResults, id)
    requires forall id :: CriterionReported(brief, results, report.acceptanceResults, id)
    ensures (exists r :: r in brief.requirements && r.required && !RequirementClaimed(results, r.id)) ==>
              !Acceptable(brief, report)
    ensures (exists c :: c in brief.criteria && !Claimed(results, c.id)) ==> !Acceptable(brief, report)
  {
    hide RequirementClaimed, Claimed;
    if r :| r in brief.requirements && r.required && !RequirementClaimed(results, r.id) {
      assert RequirementReported(brief, results, report.requirementResults, r.id);
      var k :| 0 <= k < |brief.requirements| && brief.requirements[k] == r;
      assert !RequirementAcceptable(brief.requirements[k], report);
    }
    if c :| c in brief.criteria && !Claimed(results, c.id) {
      assert CriterionReported(brief, results, report.acceptanceResults, c.id);
      var k :| 0 <= k < |brief.criteria| && brief.criteria[k] == c;
      assert !CriterionAcceptable(brief.criteria[k], report);
    }
  }

  lemma {:induction false} ArtifactsAre(results: seq<WorkerResult>, a: Artifact)
    ensures a in Artifacts(results) <==> exists w :: w in results && a in w.artifacts
  {
    if results != [] {
      var n := |results| - 1;
      ArtifactsAre(results[..n], a);
      assert results == results[..n] + [results[n]];
      assert forall w :: w in results <==> w in results[..n] || w == results[n];
    }
  }

  /** The first worker's artifacts come first. */
  lemma {:induction false} ArtifactsInOrder(w: WorkerResult, rest: seq<WorkerResult>)
    ensures Artifacts([w] + rest) == w.artifacts + Artifacts(rest)
  {
    var results := [w] + rest;
    var n := |results| - 1;
    if rest == [] {
      assert results[..n] == [] && results[n] == w;
    } else {
      ArtifactsInOrder(w, rest[..n - 1]);
      assert results[..n] == [w] + rest[..n - 1] && results[n] == rest[n - 1];
      Reassociated(w.artifacts, Artifacts(rest[..n - 1]), rest[n - 1].artifacts);
    }
  }

  /** `_build_completion_report` */
  method BuildReport(brief: Brief, results: seq<WorkerResult>, cancelled: bool)
    returns (report: Report, ghost byRequirement: map<string, Claim<Satisfaction>>,
             ghost byAcceptance: map<string, Claim<Verification>>)
    ensures IsMerge(Claims(results, RequirementResultsOf), RequirementRank, byRequirement)
    ensures IsMerge(Claims(results, AcceptanceResultsOf), AcceptanceRank, byAcceptance)
    ensures Defaulted(byRequirement, RequirementIds(brief), MissingRequirement, report.requirementResults)
    ensures Defaulted(byAcceptance, CriterionIds(brief), MissingCriterion, report.acceptanceResults)
    // each id is reported as the best a worker claims, and as open when nobody claims it, which is never accepted
    ensures forall id :: RequirementReported(brief, results, report.requirementResults, id)
    ensures forall id :: CriterionReported(brief, results, report.acceptanceResults, id)
    ensures (exists r :: r in brief.requirements && r.required && !RequirementClaimed(results, r.id)) ==>
              !Acceptable(brief, report)
    ensures (exists c :: c in brief.criteria && !Claimed(results, c.id)) ==> !Acceptable(brief, report)
    ensures report.status.Complete? <==> !cancelled && Completes(brief, results)
    ensures report.status.Blocked? <==> cancelled || results == []
    ensures !report.status.Failed?
    ensures FirstOfEachPath(Artifacts(results), report.artifacts)
    ensures forall item :: item in report.unresolved <==>
              || (exists w :: w in results && item in w.unresolved)
              || (item == NOT_ALL_COMPLETED
                  && exists w :: w in results && (w.status == WorkerFailed || w.status == WorkerCancelled))
  {
    hide IsMerge, Defaulted, Completes, AllDone, FirstOfEachPath, Claims, MergedOf;
    var requirements := Merge(Claims(results, RequirementResultsOf), RequirementRank);
    var acceptance := Merge(Claims(results, AcceptanceResultsOf), AcceptanceRank);
    byRequirement, byAcceptance := requirements, acceptance;
    requirements := SetDefaults(requirements, RequirementIds(brief), MissingRequirement);
    acceptance := SetDefaults(acceptance, CriterionIds(brief), MissingCriterion);
    var done := AllDone(brief, results, requirements, acceptance);
    NothingCompletes(brief);
    AllDoneIff(brief, results, byRequirement, byAcceptance, requirements, acceptance);
    var stopped := exists w :: w in results && Stopped(w);
    var status := if cancelled then Blocked else if done then Complete else if results != [] then Partial else Blocked;
    var artifacts := UniqueArtifacts(Artifacts(results));
    report := Report(status, requirements, acceptance, artifacts,
                     Unresolved(results) + (if stopped then {NOT_ALL_COMPLETED} else {}));
    forall id ensures RequirementReported(brief, results, requirements, id) {
      RequirementIsReported(brief, results, byRequirement, requirements, id);
    }
    forall id ensures CriterionReported(brief, results, acceptance, id) {
      CriterionIsReported(brief, results, byAcceptance, acceptance, id);
    }
    hide RequirementReported, CriterionReported, Acceptable, RequirementClaimed, Claimed;
    UnclaimedNotAcceptable(brief, results, report);
  }

  // ---------------------------------------------------------------- the order of the workers

  ghost predicate CompletesInEveryOrder(brief: Brief, results: seq<WorkerResult>) {
    forall other :: multiset(other) == multiset(results) ==> Completes(brief, other)
  }

  /** Whoever calls a required requirement satisfied, or a criterion passed, gives evidence the first time. */
  ghost predicate AllGiveEvidence(brief: Brief, results: seq<WorkerResult>) {
    && (forall w, r :: w in results && r in brief.requirements && r.required
               && FirstAt(w.requirementResults, RequirementRank, 3, r.id).Some?
             ==> Evidenced(FirstAt(w.requirementResults, RequirementRank, 3, r.id)))
    && (forall w, id :: w in results && FirstAt(w.acceptanceResults, AcceptanceRank, 2, id).Some?
             ==> Evidenced(FirstAt(w.acceptanceResults, AcceptanceRank, 2, id)))
  }

  /** A project is complete in every order of its workers exactly when it is in this one and all give evidence. */
  lemma CompletesInEveryOrderIff(brief: Brief, results: seq<WorkerResult>)
    ensures CompletesInEveryOrder(brief, results) <==> Completes(brief, results) && AllGiveEvidence(brief, results)
  {
    if Completes(brief, results) && AllGiveEvidence(brief, results) {
      forall other | multiset(other) == multiset(results) ensures Completes(brief, other) {
        CompletesInOrder(brief, results, other);
      }
    }
    if CompletesInEveryOrder(brief, results) {
      forall w, r | w in results && r in brief.requirements && r.required
                    && FirstAt(w.requirementResults, RequirementRank, 3, r.id).Some?
        ensures Evidenced(FirstAt(w.requirementResults, RequirementRank, 3, r.id)) {
        var rest := ToFront(results, w);
        FrontWorkerDecides(w, rest, RequirementResultsOf, RequirementRank, 3, r.id);
        assert Completes(brief, [w] + rest) && RequirementBacked([w] + rest, r);
        assert RequirementResultsOf(w) == w.requirementResults;
      }
      forall w, id | w in results && FirstAt(w.acceptanceResults, AcceptanceRank, 2, id).Some?
        ensures Evidenced(FirstAt(w.acceptanceResults, AcceptanceRank, 2, id)) {
        var rest := ToFront(results, w);
        FrontWorkerDecides(w, rest, AcceptanceResultsOf, AcceptanceRank, 2, id);
        FirstAtOfClaim(w.acceptanceResults, AcceptanceRank, 2, id);
        assert w in [w] + rest && Claimed([w] + rest, id);
        assert Completes(brief, [w] + rest) && AcceptanceResultsOf(w) == w.acceptanceResults;
        assert Asked(brief, [w] + rest, id) && CriterionBacked([w] + rest, id);
      }
    }
  }

  lemma CompletesInOrder(brief: Brief, results: seq<WorkerResult>, other: seq<WorkerResult>)
    requires Completes(brief, results) && AllGiveEvidence(brief, results) && multiset(other) == multiset(results)
    ensures Completes(brief, other)
  {
    SameElements(results, other);
    forall r | r in brief.requirements && r.required ensures RequirementBacked(other, r) {
      assert RequirementBacked(results, r);
      FirstOfWorkers(results, RequirementResultsOf, RequirementRank, 3, r.id);
      FirstOfWorkers(other, RequirementResultsOf, RequirementRank, 3, r.id);
    }
    forall id | Asked(brief, other, id) ensures CriterionBacked(other, id) {
      assert Asked(brief, results, id) && CriterionBacked(results, id);
      FirstOfWorkers(results, AcceptanceResultsOf, AcceptanceRank, 2, id);
      FirstOfWorkers(other, AcceptanceResultsOf, AcceptanceRank, 2, id);
    }
  }

  /** When the workers agree about every id, complete or not, every order of the workers gives the same answer. */
  lemma AgreedStatusOrderFree(brief: Brief, results: seq<WorkerResult>, other: seq<WorkerResult>)
    requires multiset(other) == multiset(results)
    requires forall r :: r in brief.requirements && r.required ==>
               WorkersAgree(results, RequirementResultsOf, RequirementRank, 3, r.id)
    requires forall id :: Asked(brief, results, id) ==>
               WorkersAgree(results, AcceptanceResultsOf, AcceptanceRank, 2, id)
    ensures Completes(brief, other) <==> Completes(brief, results)
  {
    SameElements(results, other);
    forall r | r in brief.requirements && r.required
      ensures RequirementBacked(other, r) <==> RequirementBacked(results, r) {
      WorkerOrderFreeIff(results, RequirementResultsOf, RequirementRank, 3, r.id);
    }
    forall id | Asked(brief, results, id) ensures CriterionBacked(other, id) <==> CriterionBacked(results, id) {
      WorkerOrderFreeIff(results, AcceptanceResultsOf, AcceptanceRank, 2, id);
    }
    assert forall id :: Asked(brief, other, id) <==> Asked(brief, results, id);
  }

  // ---------------------------------------------------------------- validation

  datatype Issue =
    | BadStatus
    | RequirementMissing(id: string)
    | RequirementUnexpected(id: string)
    | RequirementNotSatisfied(id: string)
    | RequirementNoEvidence(id: string)
    | CriterionNoMethod(id: string)
    | CriterionMissing(id: string)
    | CriterionNotPassed(id: string)
    | CriterionNoEvidence(id: string)
    | CriterionNoRecordedMethod(id: string)
    | CriterionUnexpected(id: string)
    | ArtifactUnverified(path: string)
    | ItemUnresolved(item: string)
    | CompleteButUnsatisfied
    | CompleteButNotPassed

  predicate HalfDone(s: Satisfaction) {
    s.Unsatisfied? || s.PartiallySatisfied?
  }

  function RequirementIssues(r: Requirement, report: Report): set<Issue> {
    if r.id !in report.requirementResults then {RequirementMissing(r.id)} else
      var c := report.requirementResults[r.id];
      (if r.required && HalfDone(c.status) then {RequirementNotSatisfied(r.id)} else {}) +
      (if (c.status.Satisfied? || c.status.PartiallySatisfied?) && c.evidence == []
        then {RequirementNoEvidence(r.id)} else {})
  }

  function CriterionIssues(c: Criterion, report: Report): set<Issue> {
    (if c.verificationMethod == "" then {CriterionNoMethod(c.id)} else {}) +
    (if c.id !in report.acceptanceResults then {CriterionMissing(c.id)} else
       var r := report.acceptanceResults[c.id];
       (if !r.status.Passed? then {CriterionNotPassed(c.id)} else {}) +
       (if r.evidence == [] then {CriterionNoEvidence(c.id)} else {}) +
       (if r.verificationMethod == "" then {CriterionNoRecordedMethod(c.id)} else {}))
  }

  function WholeReportIssues(brief: Brief, report: Report): set<Issue> {
    (if report.status.Failed? || report.status.Blocked? then {BadStatus} else {}) +
    (set id | id in report.requirementResults && id !in RequirementIds(brief) :: RequirementUnexpected(id)) +
    (set id | id in report.acceptanceResults && id !in CriterionIds(brief) :: CriterionUnexpected(id)) +
    (if report.status.Complete? then set item | item in report.unresolved :: ItemUnresolved(item) else {}) +
    (if report.status.Complete? && exists id :: id in report.requirementResults && id in RequirementIds(brief)
                                                && !report.requirementResults[id].status.Satisfied?
     then {CompleteButUnsatisfied} else {}) +
    (if report.status.Complete? && exists id :: id in report.acceptanceResults && id in CriterionIds(brief)
                                                && !report.acceptanceResults[id].status.Passed?
     then {CompleteButNotPassed} else {})
  }

  /** What each issue means. */
  ghost predicate Found(brief: Brief, report: Report, issue: Issue) {
    match issue
    case BadStatus => report.status == Failed || report.status == Blocked
    case RequirementMissing(id) =>
      (exists r :: r in brief.requirements && r.id == id) && id !in report.requirementResults
    case RequirementUnexpected(id) =>
      id in report.requirementResults && forall r :: r in brief.requirements ==> r.id != id
    case RequirementNotSatisfied(id) =>
      && (exists r :: r in brief.requirements && r.id == id && r.required) && id in report.requirementResults
      && report.requirementResults[id].status in {Unsatisfied, PartiallySatisfied}
    case RequirementNoEvidence(id) =>
      && (exists r :: r in brief.requirements && r.id == id) && id in report.requirementResults
      && report.requirementResults[id].status in {Satisfied, PartiallySatisfied}
      && report.requirementResults[id].evidence == []
    case CriterionNoMethod(id) => exists c :: c in brief.criteria && c.id == id && c.verificationMethod == ""
    case CriterionMissing(id) => (exists c :: c in brief.criteria && c.id == id) && id !in report.acceptanceResults
    case CriterionNotPassed(id) => CriterionClaim(brief, report, id) && report.acceptanceResults[id].status != Passed
    case CriterionNoEvidence(id) => CriterionClaim(brief, report, id) && report.acceptanceResults[id].evidence == []
    case CriterionNoRecordedMethod(id) =>
      CriterionClaim(brief, report, id) && report.acceptanceResults[id].verificationMethod == ""
    case CriterionUnexpected(id) => id in report.acceptanceResults && forall c :: c in brief.criteria ==> c.id != id
    case ArtifactUnverified(path) => exists a :: a in report.artifacts && a.path == path && !a.verified
    case ItemUnresolved(item) => report.status == Complete && item in report.unresolved
    case CompleteButUnsatisfied =>
      report.status == Complete && exists r :: r in brief.requirements && r.id in report.requirementResults
                                               && report.requirementResults[r.id].status != Satisfied
    case CompleteButNotPassed =>
      report.status == Complete && exists c :: c in brief.criteria && c.id in report.acceptanceResults
                                               && report.acceptanceResults[c.id].status != Passed
  }

  ghost predicate CriterionClaim(brief: Brief, report: Report, id: string) {
    (exists c :: c in brief.criteria && c.id == id) && id in report.acceptanceResults
  }

  /** What an accepted report says, in the brief's own terms. */
  ghost predicate Acceptable(brief: Brief, report: Report) {
    && RequirementsAcceptable(brief, report, |brief.requirements|)
    && CriteriaAcceptable(brief, report, |brief.criteria|)
    && ArtifactsVerified(report, |report.artifacts|)
    && WholeAcceptable(brief, report)
  }

  ghost predicate RequirementsAcceptable(brief: Brief, report: Report, n: nat) {
    forall k :: 0 <= k < n && k < |brief.requirements| ==> RequirementAcceptable(brief.requirements[k], report)
  }

  ghost predicate CriteriaAcceptable(brief: Brief, report: Report, n: nat) {
    forall k :: 0 <= k < n && k < |brief.criteria| ==> CriterionAcceptable(brief.criteria[k], report)
  }

  ghost predicate ArtifactsVerified(report: Report, n: nat) {
    forall k :: 0 <= k < n && k < |report.artifacts| ==> report.artifacts[k].verified
  }

  /** Nothing is reported that the brief did not ask, and a complete report leaves nothing open. */
  ghost predicate WholeAcceptable(brief: Brief, report: Report) {
    && (report.status.Complete? || report.status.Partial?)
    && (forall id :: id in report.requirementResults ==> id in RequirementIds(brief))
    && (forall id :: id in report.acceptanceResults ==> id in CriterionIds(brief))
    && (report.status.Complete? ==>
          && report.unresolved == {}
          && (forall id :: id in report.requirementResults ==> report.requirementResults[id].status.Satisfied?)
          && (forall id :: id in report.acceptanceResults ==> report.acceptanceResults[id].status.Passed?))
  }

  ghost predicate RequirementAcceptable(r: Requirement, report: Report) {
    && r.id in report.requirementResults
    && var c := report.requirementResults[r.id];
       && (r.required ==> c.status.Satisfied? || c.status.NotApplicable?)
       && (c.status.Satisfied? || c.status.PartiallySatisfied? ==> c.evidence != [])
  }

  ghost predicate CriterionAcceptable(c: Criterion, report: Report) {
    && c.verificationMethod != "" && c.id in report.acceptanceResults
    && var r := report.acceptanceResults[c.id];
       r.status.Passed? && r.evidence != [] && r.verificationMethod != ""
  }

  lemma WholeIssuesIff(brief: Brief, report: Report)
    ensures WholeReportIssues(brief, report) == {} <==> WholeAcceptable(brief, report)
  {
    var issues := WholeReportIssues(brief, report);
    forall id | id in report.requirementResults && id !in RequirementIds(brief)
      ensures RequirementUnexpected(id) in issues {
    }
    forall id | id in report.acceptanceResults && id !in CriterionIds(brief) ensures CriterionUnexpected(id) in issues {
    }
    forall item | item in report.unresolved && report.status.Complete? ensures ItemUnresolved(item) in issues {
    }
  }

  lemma RequirementIssuesIff(r: Requirement, report: Report)
    ensures RequirementIssues(r, report) == {} <==> RequirementAcceptable(r, report)
  {
  }

  lemma CriterionIssuesIff(c: Criterion, report: Report)
    ensures CriterionIssues(c, report) == {} <==> CriterionAcceptable(c, report)
  {
  }

  /** The issue is one of the whole report, or of the first requirements, criteria and artifacts. */
  ghost predicate Gathered(brief: Brief, report: Report, n: nat, m: nat, p: nat, issue: Issue) {
    || issue in WholeReportIssues(brief, report)
    || (exists k :: 0 <= k < n && k < |brief.requirements| && issue in RequirementIssues(brief.requirements[k], report))
    || (exists k :: 0 <= k < m && k < |brief.criteria| && issue in CriterionIssues(brief.criteria[k], report))
    || (exists k :: 0 <= k < p && k < |report.artifacts| && !report.artifacts[k].verified
                    && issue == ArtifactUnverified(report.artifacts[k].path))
  }

  lemma WholeFound(brief: Brief, report: Report, issue: Issue)
    ensures issue in WholeReportIssues(brief, report) ==> Found(brief, report, issue)
    ensures Found(brief, report, issue)
            && (issue.BadStatus? || issue.RequirementUnexpected? || issue.CriterionUnexpected? || issue.ItemUnresolved?
                || issue.CompleteButUnsatisfied? || issue.CompleteButNotPassed?) ==>
              issue in WholeReportIssues(brief, report)
  {
  }

  lemma RequirementFound(brief: Brief, report: Report, issue: Issue)
    ensures (exists r :: r in brief.requirements && issue in RequirementIssues(r, report)) <==>
            Found(brief, report, issue)
            && (issue.RequirementMissing? || issue.RequirementNotSatisfied? || issue.RequirementNoEvidence?)
  {
  }

  lemma CriterionFound(brief: Brief, report: Report, issue: Issue)
    ensures (exists c :: c in brief.criteria && issue in CriterionIssues(c, report)) <==>
            Found(brief, report, issue)
            && (issue.CriterionNoMethod? || issue.CriterionMissing? || issue.CriterionNotPassed?
                || issue.CriterionNoEvidence? || issue.CriterionNoRecordedMethod?)
  {
  }

  lemma AllFound(brief: Brief, report: Report, issue: Issue)
    ensures Gathered(brief, report, |brief.requirements|, |brief.criteria|, |report.artifacts|, issue) <==>
            Found(brief, report, issue)
  {
    hide WholeReportIssues, RequirementIssues, CriterionIssues;
    WholeFound(brief, report, issue);
    RequirementFound(brief, report, issue);
    CriterionFound(brief, report, issue);
  }

  lemma GatheredNone(brief: Brief, report: Report)
    ensures forall issue :: issue in WholeReportIssues(brief, report) <==> Gathered(brief, report, 0, 0, 0, issue)
  {
  }

  lemma GatheredRequirement(brief: Brief, report: Report, n: nat)
    requires n < |brief.requirements|
    ensures forall issue :: Gathered(brief, report, n + 1, 0, 0, issue) <==>
              Gathered(brief, report, n, 0, 0, issue) || issue in RequirementIssues(brief.requirements[n], report)
  {
    hide WholeReportIssues, RequirementIssues, CriterionIssues;
  }

  lemma GatheredCriterion(brief: Brief, report: Report, m: nat)
    requires m < |brief.criteria|
    ensures forall issue :: Gathered(brief, report, |brief.requirements|, m + 1, 0, issue) <==>
              Gathered(brief, report, |brief.requirements|, m, 0, issue)
              || issue in CriterionIssues(brief.criteria[m], report)
  {
    hide WholeReportIssues, RequirementIssues, CriterionIssues;
  }

  lemma GatheredArtifact(brief: Brief, report: Report, p: nat)
    requires p < |report.artifacts|
    ensures forall issue :: Gathered(brief, report, |brief.requirements|, |brief.criteria|, p + 1, issue) <==>
              Gathered(brief, report, |brief.requirements|, |brief.criteria|, p, issue)
              || (!report.artifacts[p].verified && issue == ArtifactUnverified(report.artifacts[p].path))
  {
    hide WholeReportIssues, RequirementIssues, CriterionIssues;
    var artifact := report.artifacts[p];
    assert !artifact.verified ==>
             Gathered(brief, report, |brief.requirements|, |brief.criteria|, p + 1, ArtifactUnverified(artifact.path));
  }

  /** `validate_completion_report`: it finds nothing exactly when the report is acceptable. */
  method Validate(brief: Brief, report: Report) returns (valid: bool, issues: set<Issue>)
    ensures valid <==> issues == {}
    ensures valid <==> Acceptable(brief, report)
    ensures forall issue :: issue in issues <==> Found(brief, report, issue)
  {
    hide WholeReportIssues, RequirementIssues, CriterionIssues, Gathered, Found, WholeAcceptable,
      RequirementAcceptable, CriterionAcceptable;
    issues := WholeReportIssues(brief, report);
    WholeIssuesIff(brief, report);
    GatheredNone(brief, report);
    var nR, nC := |brief.requirements|, |brief.criteria|;
    for i := 0 to nR
      invariant issues == {} <==> WholeAcceptable(brief, report) && RequirementsAcceptable(brief, report, i)
      invariant forall issue :: issue in issues <==> Gathered(brief, report, i, 0, 0, issue)
    {
      RequirementIssuesIff(brief.requirements[i], report);
      GatheredRequirement(brief, report, i);
      issues := issues + RequirementIssues(brief.requirements[i], report);
    }
    for i := 0 to nC
      invariant issues == {} <==>
                  WholeAcceptable(brief, report) && RequirementsAcceptable(brief, report, nR)
                                  && CriteriaAcceptable(brief, report, i)
      invariant forall issue :: issue in issues <==> Gathered(brief, report, nR, i, 0, issue)
    {
      CriterionIssuesIff(brief.criteria[i], report);
      GatheredCriterion(brief, report, i);
      issues := issues + CriterionIssues(brief.criteria[i], report);
    }
    for i := 0 to |report.artifacts|
      invariant issues == {} <==>
                  WholeAcceptable(brief, report) && RequirementsAcceptable(brief, report, nR)
                                  && CriteriaAcceptable(brief, report, nC) && ArtifactsVerified(report, i)
      invariant forall issue :: issue in issues <==> Gathered(brief, report, nR, nC, i, issue)
    {
      GatheredArtifact(brief, report, i);
      if !report.artifacts[i].verified {
        issues := issues + {ArtifactUnverified(report.artifacts[i].path)};
      }
    }
    forall issue ensures issue in issues <==> Found(brief, report, issue) {
      AllFound(brief, report, issue);
    }
    valid := issues == {};
  }

  /** A complete report the validator accepts: everything asked is satisfied, passed and verified, with evidence. */
  ghost predicate FullyDone(brief: Brief, report: Report) {
    && (forall r :: r in brief.requirements ==> Proven(r, report.requirementResults))
    && (forall c :: c in brief.criteria ==> CriterionAcceptable(c, report))
    && (forall a :: a in report.artifacts ==> a.verified)
    && report.unresolved == {}
  }

  lemma AcceptableComplete(brief: Brief, report: Report)
    requires Acceptable(brief, report) && report.status.Complete?
    ensures FullyDone(brief, report)
  {
  }

  /**
   The brief's promise that required requirements end satisfied with evidence holds of an accepted report exactly
   when none of them is called not applicable.
   */
  lemma RequiredProvenIff(brief: Brief, report: Report)
    requires Acceptable(brief, report)
    ensures (forall r :: r in brief.requirements && r.required ==> Proven(r, report.requirementResults))
            <==> !exists r :: r in brief.requirements && r.required && r.id in report.requirementResults
                              && report.requirementResults[r.id].status.NotApplicable?
  {
  }

  /** A required requirement waved through: the partial report is accepted with nothing proven. */
  lemma NotApplicableExample()
    ensures var brief := Brief([Requirement("r", true)], []);
            var report := Report(Partial, map["r" := Claim("r", NotApplicable, [], "")], map[], [], {});
            Acceptable(brief, report) && !Proven(brief.requirements[0], report.requirementResults)
  {
  }

  // ---------------------------------------------------------------- the gate

  /** What an issue is called in the unresolved items. */
  function IssueText(text: Issue -> string, issues: set<Issue>): set<string> {
    set i | i in issues :: text(i)
  }

  /**
   The validate/repair gate.  `first` is the engine's report with its artifacts checked, `repaired` the
   manager's answer, if any.  A project leaves as complete exactly when its first report was both
   complete and acceptable: a repair can make a report valid, but never complete.
   */
  method Gate(brief: Brief, first: Report, repaired: Option<Report>, text: Issue -> string)
    returns (report: Report, issues: set<Issue>, valid: bool)
    ensures report.status.Complete? <==> first.status.Complete? && Acceptable(brief, first)
    ensures report.status.Complete? ==> report == first && FullyDone(brief, report)
    ensures valid <==> Acceptable(brief, first) || (repaired.Some? && Acceptable(brief, repaired.value))
    ensures valid <==> issues == {}
    ensures !valid ==> forall issue :: issue in issues <==>
              Found(brief, first, issue) || (repaired.Some? && Found(brief, repaired.value, issue))
    ensures !Acceptable(brief, first) ==>
              var base := if repaired.Some? then repaired.value else first;
              && report == base.(status := if base.status.Complete? then Partial else base.status,
                                 unresolved := base.unresolved + IssueText(text, issues))
    ensures !Acceptable(brief, first) ==>
              forall item :: item in report.unresolved <==>
                item in (if repaired.Some? then repaired.value else first).unresolved
                || exists issue :: issue in issues && item == text(issue)
    ensures Acceptable(brief, first) ==> report == first
  {
    report := first;
    valid, issues := Validate(brief, first);
    if valid && first.status.Complete? {
      AcceptableComplete(brief, first);
    }
    if !valid {
      if repaired.Some? {
        var repairedValid, repairedIssues := Validate(brief, repaired.value);
        report := repaired.value;
        if repairedValid {
          issues, valid := {}, true;
        } else {
          issues := issues + repairedIssues;
        }
      }
      if report.status.Complete? {
        report := report.(status := Partial);
      }
      report := report.(unresolved := report.unresolved + IssueText(text, issues));
    }
  }

  /** The demotion at work: a repaired report with nothing left to find is still returned as partial. */
  lemma RepairedDemotedExample()
    ensures var brief := Brief([Requirement("r", true)], []);
            var claim := Claim("r", Satisfied, ["proof"], "");
            var first := Report(Partial, map["r" := claim.(status := Unsatisfied)], map[], [], {});
            var repaired := Report(Complete, map["r" := claim], map[], [], {});
            && !Acceptable(brief, first)
            && repaired.status.Complete?
            && Acceptable(brief, repaired)
            && FullyDone(brief, repaired)
  {
  }

  /** A complete project rests on a worker's evidence for every requirement. */
  lemma CompleteIsBacked(brief: Brief, results: seq<WorkerResult>, byRequirement: map<string, Claim<Satisfaction>>,
                         report: Report, r: Requirement)
    requires IsMerge(Claims(results, RequirementResultsOf), RequirementRank, byRequirement)
    requires Defaulted(byRequirement, RequirementIds(brief), MissingRequirement, report.requirementResults)
    requires r in brief.requirements && FullyDone(brief, report)
    ensures exists w, c ::
              w in results && c in w.requirementResults && c.id == r.id && c.status.Satisfied? && c.evidence != []
  {
    assert Proven(r, report.requirementResults);
    assert Chosen(Claims(results, RequirementResultsOf), RequirementRank, byRequirement, r.id);
    var c := byRequirement[r.id];
    ClaimsAre(results, RequirementResultsOf, c);
    var w :| w in results && c in RequirementResultsOf(w);
    assert c in w.requirementResults;
  }

  /** Two orders of the same two claims, of which one leaves the requirement without evidence. */
  lemma EvidenceOrderExample()
    ensures var bare, backed := Claim("r", Satisfied, [], ""), Claim("r", Satisfied, ["proof"], "");
            && IsMerge([bare, backed], RequirementRank, map["r" := bare])
            && IsMerge([backed, bare], RequirementRank, map["r" := backed])
            && !Proven(Requirement("r", true), map["r" := bare]) && Proven(Requirement("r", true), map["r" := backed])
  {
    var bare, backed := Claim("r", Satisfied, [], ""), Claim("r", Satisfied, ["proof"], "");
    assert [bare, backed][0] == bare && FirstBest([bare, backed], RequirementRank, 0);
    assert [backed, bare][0] == backed && FirstBest([backed, bare], RequirementRank, 0);
  }
}
