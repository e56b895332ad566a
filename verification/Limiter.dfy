/**
 The concurrency limiter (`ConcurrencyLimiter`, runtime/lifecycle.py): a semaphore, the leases and
 their owners.  A waiter is granted a permit before it runs again, so a permit can be in flight:
 taken and not yet registered.  The lock is only ever held between awaits, so it never suspends
 anybody; a permit is given back unregistered when its waiter is cancelled after the grant.
 */
module Limiter {
  import opened Wrappers

  type Owner = nat

  type Lease = nat

  /** `used` are the lease objects ever registered: a new lease is none of them. */
  datatype State = State(permits: nat, inFlight: multiset<Owner>, count: int, owners: map<Owner, seq<Lease>>,
                         leases: map<Lease, Owner>, used: set<Lease>)

  datatype Event =
    | Take(owner: Owner)                              // the semaphore grants the owner a permit
    | Register(owner: Owner, lease: Lease)            // the rest of acquire
    | GiveBack(owner: Owner)                          // cancelled after the grant
    | Release(owner: Owner, which: Option<Lease>)

  function Initial(max: nat): State {
    State(max, multiset{}, 0, map[], map[], {})
  }

  function OwnedBy(s: State, owner: Owner): seq<Lease> {
    if owner in s.owners then s.owners[owner] else []
  }

  /** `list.remove`: the first occurrence goes. */
  function Remove(xs: seq<Lease>, x: Lease): (r: seq<Lease>)
    ensures x !in xs ==> r == xs
    ensures forall y :: y in r ==> y in xs
    ensures forall y :: y in xs && y != x ==> y in r
  {
    if xs == [] then [] else if xs[0] == x then xs[1..] else [xs[0]] + Remove(xs[1..], x)
  }

  /** The lease a release is about, if it is registered. */
  function Target(s: State, owner: Owner, which: Option<Lease>): (target: Option<Lease>)
    ensures target.Some? ==> target.value in s.leases
  {
    var mine := OwnedBy(s, owner);
    var wanted := if which.Some? then which else if mine == [] then None else Some(mine[|mine| - 1]);
    if wanted.Some? && wanted.value in s.leases then wanted else None
  }

  function SetOwned(owners: map<Owner, seq<Lease>>, owner: Owner, leases: seq<Lease>): map<Owner, seq<Lease>> {
    if leases != [] then owners[owner := leases] else owners - {owner}
  }

  function Unregister(s: State, lease: Lease): State
    requires lease in s.leases
  {
    var owner := s.leases[lease];
    s.(leases := s.leases - {lease}, owners := SetOwned(s.owners, owner, Remove(OwnedBy(s, owner), lease)),
       count := s.count - 1, permits := s.permits + 1)
  }

  predicate Possible(s: State, e: Event) {
    match e
    case Take(_) => s.permits > 0
    case Register(owner, lease) => owner in s.inFlight && lease !in s.used
    case GiveBack(owner) => owner in s.inFlight
    case Release(_, _) => true
  }

  function Apply(s: State, e: Event): State
    requires Possible(s, e)
  {
    match e
    case Take(owner) => s.(permits := s.permits - 1, inFlight := s.inFlight + multiset{owner})
    case Register(owner, lease) =>
      s.(inFlight := s.inFlight - multiset{owner}, count := s.count + 1, used := s.used + {lease},
         owners := s.owners[owner := OwnedBy(s, owner) + [lease]], leases := s.leases[lease := owner])
    case GiveBack(owner) => s.(inFlight := s.inFlight - multiset{owner}, permits := s.permits + 1)
    case Release(owner, which) =>
      var target := Target(s, owner, which);
      if target.None? then s else Unregister(s, target.value)
  }

  // ---------------------------------------------------------------- the books

  ghost predicate Distinct(xs: seq<Lease>) {
    xs == [] || (xs[0] !in xs[1..] && Distinct(xs[1..]))
  }

  /** `owners` is exactly the inverse of `leases`. */
  ghost predicate Inverse(s: State) {
    && (forall o :: o in s.owners ==> s.owners[o] != [] && Distinct(s.owners[o]))
    && (forall o, l :: o in s.owners && l in s.owners[o] ==> l in s.leases && s.leases[l] == o)
    && (forall l :: l in s.leases ==> s.leases[l] in s.owners && l in s.owners[s.leases[l]])
  }

  ghost predicate Balanced(s: State, max: nat) {
    && s.permits + |s.leases| + |s.inFlight| == max
    && s.count == |s.leases|
    && Inverse(s)
    && s.leases.Keys <= s.used
  }

  lemma {:induction false} RemoveDistinct(xs: seq<Lease>, x: Lease)
    requires Distinct(xs)
    ensures Distinct(Remove(xs, x)) && x !in Remove(xs, x)
  {
    if xs != [] && xs[0] != x {
      RemoveDistinct(xs[1..], x);
      assert Remove(xs, x)[1..] == Remove(xs[1..], x);
    }
  }

  lemma {:induction false} AppendDistinct(xs: seq<Lease>, x: Lease)
    requires Distinct(xs) && x !in xs
    ensures Distinct(xs + [x])
  {
    if xs != [] {
      AppendDistinct(xs[1..], x);
      assert (xs + [x])[1..] == xs[1..] + [x];
    } else {
      assert (xs + [x])[1..] == [];
    }
  }

  lemma RegisterInverse(s: State, owner: Owner, lease: Lease)
    requires Inverse(s) && s.leases.Keys <= s.used && Possible(s, Register(owner, lease))
    ensures Inverse(Apply(s, Register(owner, lease)))
  {
    hide Distinct;
    var mine := OwnedBy(s, owner) + [lease];
    var next := Apply(s, Register(owner, lease));
    assert next.leases == s.leases[lease := owner] && next.owners == s.owners[owner := mine];
    assert lease !in OwnedBy(s, owner);
    AppendDistinct(OwnedBy(s, owner), lease);
    forall o, l | o in next.owners && l in next.owners[o] ensures l in next.leases && next.leases[l] == o {
      if o == owner { assert l in OwnedBy(s, owner) || l == lease; }
    }
    forall l | l in next.leases ensures next.leases[l] in next.owners && l in next.owners[next.leases[l]] {
      if l != lease && next.leases[l] == owner { assert l in OwnedBy(s, owner); }
    }
  }

  lemma UnregisterInverse(s: State, lease: Lease)
    requires Inverse(s) && lease in s.leases
    ensures Inverse(Unregister(s, lease))
  {
    hide Distinct, Remove;
    RemoveDistinct(OwnedBy(s, s.leases[lease]), lease);
  }

  lemma RegisterBalanced(s: State, owner: Owner, lease: Lease, max: nat)
    requires Balanced(s, max) && Possible(s, Register(owner, lease))
    ensures Balanced(Apply(s, Register(owner, lease)), max)
  {
    RegisterInverse(s, owner, lease);
    assert lease !in s.leases;
  }

  lemma UnregisterBalanced(s: State, lease: Lease, max: nat)
    requires Balanced(s, max) && lease in s.leases
    ensures Balanced(Unregister(s, lease), max)
  {
    UnregisterInverse(s, lease);
    assert s.leases.Keys == (s.leases - {lease}).Keys + {lease};
  }

  lemma SameInverse(s: State, next: State)
    requires Inverse(s) && next.leases == s.leases && next.owners == s.owners
    ensures Inverse(next)
  {
  }

  lemma PermitBalanced(s: State, e: Event, max: nat)
    requires Balanced(s, max) && Possible(s, e) && (e.Take? || e.GiveBack?)
    ensures Balanced(Apply(s, e), max)
  {
    hide Inverse;
    SameInverse(s, Apply(s, e));
  }

  lemma ReleaseBalanced(s: State, owner: Owner, which: Option<Lease>, max: nat)
    requires Balanced(s, max)
    ensures Balanced(Apply(s, Release(owner, which)), max)
  {
    var target := Target(s, owner, which);
    if target.Some? {
      UnregisterBalanced(s, target.value, max);
    }
  }

  lemma EventBalanced(s: State, e: Event, max: nat)
    requires Balanced(s, max) && Possible(s, e)
    ensures Balanced(Apply(s, e), max)
  {
    match e
    case Register(owner, lease) => RegisterBalanced(s, owner, lease, max);
    case Release(owner, which) => ReleaseBalanced(s, owner, which, max);
    case _ => PermitBalanced(s, e, max);
  }

  // ---------------------------------------------------------------- runs

  function Step(s: State, e: Event): State {
    if Possible(s, e) then Apply(s, e) else s
  }

  function After(s: State, events: seq<Event>): State {
    if events == [] then s else Step(After(s, events[..|events| - 1]), events[|events| - 1])
  }

  /** Every event of the run is possible where it happens. */
  predicate AllPossible(s: State, events: seq<Event>) {
    events == [] ||
    (AllPossible(s, events[..|events| - 1]) && Possible(After(s, events[..|events| - 1]), events[|events| - 1]))
  }

  lemma {:induction false} AfterSplit(s: State, a: seq<Event>, b: seq<Event>)
    ensures After(s, a + b) == After(After(s, a), b)
    decreases |b|
  {
    hide Step;
    if b == [] {
      assert a + b == a;
    } else {
      hide After;
      var front, last := b[..|b| - 1], b[|b| - 1];
      AfterSplit(s, a, front);
      AfterOne(s, a + front, last);
      AfterOne(After(s, a), front, last);
      assert b == front + [last] && a + b == a + front + [last];
    }
  }

  lemma PossibleNext(s: State, events: seq<Event>, e: Event)
    requires AllPossible(s, events) && Possible(After(s, events), e)
    ensures AllPossible(s, events + [e])
  {
    assert (events + [e])[..|events|] == events;
  }

  lemma PossibleLast(s: State, events: seq<Event>) returns (front: seq<Event>, last: Event)
    requires AllPossible(s, events) && events != []
    ensures events == front + [last] && AllPossible(s, front) && Possible(After(s, front), last)
  {
    front, last := events[..|events| - 1], events[|events| - 1];
  }

  lemma {:induction false} PossibleJoin(s: State, a: seq<Event>, b: seq<Event>)
    requires AllPossible(s, a) && AllPossible(After(s, a), b)
    ensures AllPossible(s, a + b)
    decreases |b|
  {
    if b == [] {
      assert a + b == a;
    } else {
      var front, last := PossibleLast(After(s, a), b);
      PossibleJoin(s, a, front);
      AfterSplit(s, a, front);
      PossibleNext(s, a + front, last);
      assert a + b == a + front + [last];
    }
  }

  /** In every interleaving the permits, leases and permits in flight add up, so at most `max` leases are out. */
  lemma {:induction false} RunBalanced(s: State, events: seq<Event>, max: nat)
    requires Balanced(s, max)
    ensures Balanced(After(s, events), max) && |After(s, events).leases| <= max
    decreases |events|
  {
    if events != [] {
      var n := |events| - 1;
      RunBalanced(s, events[..n], max);
      var before := After(s, events[..n]);
      if Possible(before, events[n]) { EventBalanced(before, events[n], max); }
    }
  }

  /** A lease that was released is never registered again. */
  lemma {:induction false} ReleasedStaysReleased(s: State, events: seq<Event>, lease: Lease)
    requires lease in s.used && lease !in s.leases
    ensures lease in After(s, events).used && lease !in After(s, events).leases
    decreases |events|
  {
    if events != [] {
      ReleasedStaysReleased(s, events[..|events| - 1], lease);
    }
  }

  /** Releasing a lease again later, or a lease of another limiter, changes nothing. */
  lemma RepeatedReleaseIdle(s: State, max: nat, owner: Owner, lease: Lease, events: seq<Event>, again: Owner)
    requires Balanced(s, max) && lease in s.leases
    ensures var later := After(Apply(s, Release(owner, Some(lease))), events);
            Apply(later, Release(again, Some(lease))) == later
  {
    ReleasedStaysReleased(Apply(s, Release(owner, Some(lease))), events, lease);
  }

  // ---------------------------------------------------------------- one holder among others

  /** `held` is `alone` plus one permit that `me` has been granted and not yet registered. */
  ghost predicate PlusGrant(alone: State, held: State, me: Owner) {
    && held.permits + 1 == alone.permits
    && held == alone.(permits := held.permits, inFlight := alone.inFlight + multiset{me})
  }

  /** `held` is `alone` plus the registered lease `mine` of `me`, wherever it stands in the owner's list. */
  ghost predicate PlusLease(alone: State, held: State, me: Owner, mine: Lease) {
    && held.permits + 1 == alone.permits && held.inFlight == alone.inFlight && held.count == alone.count + 1
    && mine in held.leases && held.leases[mine] == me && mine !in alone.leases
    && held.leases - {mine} == alone.leases
    && held.used == alone.used + {mine}
    && mine in OwnedBy(held, me)
    && (forall o :: OwnedBy(alone, o) == Remove(OwnedBy(held, o), mine))
  }

  /** While it waits, `me` does nothing else. */
  predicate NoneBy(events: seq<Event>, me: Owner) {
    events == [] || (NoneBy(events[..|events| - 1], me) && events[|events| - 1].owner != me)
  }

  /** No event of the run releases the lease. */
  predicate Spares(s: State, events: seq<Event>, mine: Lease) {
    events == [] ||
    (Spares(s, events[..|events| - 1], mine) && SparesNow(After(s, events[..|events| - 1]), events[|events| - 1], mine))
  }

  predicate SparesNow(s: State, e: Event, mine: Lease) {
    e.Release? ==> Target(s, e.owner, e.which) != Some(mine)
  }

  lemma InFlightOfOthers(inFlight: multiset<Owner>, me: Owner, o: Owner)
    requires o != me && o in inFlight + multiset{me}
    ensures o in inFlight && inFlight + multiset{me} - multiset{o} == inFlight - multiset{o} + multiset{me}
  {
  }

  lemma GrantStep(alone: State, held: State, me: Owner, e: Event)
    requires PlusGrant(alone, held, me) && Possible(held, e) && e.owner != me
    ensures Possible(alone, e) && PlusGrant(Apply(alone, e), Apply(held, e), me)
  {
    match e
    case Take(o) => assert alone.inFlight + multiset{me} + multiset{o} == alone.inFlight + multiset{o} + multiset{me};
    case Register(o, _) => InFlightOfOthers(alone.inFlight, me, o);
    case GiveBack(o) => InFlightOfOthers(alone.inFlight, me, o);
    case Release(o, which) => GrantRelease(alone, held, me, e);
  }

  lemma GrantRelease(alone: State, held: State, me: Owner, e: Event)
    requires PlusGrant(alone, held, me) && e.Release?
    ensures PlusGrant(Apply(alone, e), Apply(held, e), me)
  {
    assert Target(alone, e.owner, e.which) == Target(held, e.owner, e.which);
  }

  /** What others do while `me` holds a granted permit, they could have done without it, to the same effect. */
  lemma {:induction false} GrantRun(alone: State, held: State, me: Owner, events: seq<Event>)
    requires PlusGrant(alone, held, me) && AllPossible(held, events) && NoneBy(events, me)
    ensures AllPossible(alone, events) && PlusGrant(After(alone, events), After(held, events), me)
    decreases |events|
  {
    if events != [] {
      var n := |events| - 1;
      GrantRun(alone, held, me, events[..n]);
      GrantStep(After(alone, events[..n]), After(held, events[..n]), me, events[n]);
    }
  }

  // the two lists differ by one element, and the steps of others do not look at it

  lemma {:induction false} RemoveAppend(xs: seq<Lease>, x: Lease, y: Lease)
    requires x in xs || x != y
    ensures Remove(xs + [y], x) == Remove(xs, x) + [y]
  {
    if xs == [] {
      assert [y][1..] == [];
    } else {
      assert (xs + [y])[1..] == xs[1..] + [y];
      if xs[0] != x { RemoveAppend(xs[1..], x, y); }
    }
  }

  lemma {:induction false} RemoveCommutes(xs: seq<Lease>, x: Lease, y: Lease)
    requires x != y
    ensures Remove(Remove(xs, x), y) == Remove(Remove(xs, y), x)
  {
    if xs != [] {
      RemoveCommutes(xs[1..], x, y);
      if xs[0] == x {
        assert Remove(xs, y)[1..] == Remove(xs[1..], y);
      } else if xs[0] == y {
        assert Remove(xs, x)[1..] == Remove(xs[1..], x);
      } else {
        assert Remove(xs, x)[1..] == Remove(xs[1..], x) && Remove(xs, y)[1..] == Remove(xs[1..], y);
      }
    }
  }

  lemma RemoveKeepsLast(xs: seq<Lease>, x: Lease)
    requires xs != [] && xs[|xs| - 1] != x
    ensures Remove(xs, x) != [] && Remove(xs, x)[|Remove(xs, x)| - 1] == xs[|xs| - 1]
  {
    var front, last := xs[..|xs| - 1], xs[|xs| - 1];
    assert xs == front + [last];
    RemoveAppend(front, x, last);
  }

  lemma OwnedAfterRegister(s: State, e: Event, o: Owner)
    requires e.Register? && Possible(s, e)
    ensures OwnedBy(Apply(s, e), o) == OwnedBy(s, o) + (if o == e.owner then [e.lease] else [])
  {
    assert OwnedBy(s, o) + [] == OwnedBy(s, o);
  }

  lemma OwnedAfterRelease(s: State, lease: Lease, o: Owner)
    requires lease in s.leases
    ensures OwnedBy(Unregister(s, lease), o) ==
              if o == s.leases[lease] then Remove(OwnedBy(s, o), lease) else OwnedBy(s, o)
  {
  }

  lemma RegisterAmongOthers(alone: State, held: State, me: Owner, mine: Lease, e: Event)
    requires PlusLease(alone, held, me, mine) && e.Register? && Possible(held, e)
    ensures Possible(alone, e) && PlusLease(Apply(alone, e), Apply(held, e), me, mine)
  {
    var a, h := Apply(alone, e), Apply(held, e);
    assert e.lease != mine;
    forall o ensures OwnedBy(a, o) == Remove(OwnedBy(h, o), mine) {
      OwnedAfterRegister(alone, e, o);
      OwnedAfterRegister(held, e, o);
      if o == e.owner { RemoveAppend(OwnedBy(held, o), mine, e.lease); }
    }
    assert h.leases - {mine} == a.leases;
  }

  lemma ReleaseAmongOthers(alone: State, held: State, me: Owner, mine: Lease, lease: Lease)
    requires PlusLease(alone, held, me, mine) && lease in held.leases && lease != mine
    ensures lease in alone.leases && PlusLease(Unregister(alone, lease), Unregister(held, lease), me, mine)
  {
    var a, h := Unregister(alone, lease), Unregister(held, lease);
    assert alone.leases[lease] == held.leases[lease];
    forall o ensures OwnedBy(a, o) == Remove(OwnedBy(h, o), mine) {
      OwnedAfterRelease(alone, lease, o);
      OwnedAfterRelease(held, lease, o);
      if o == held.leases[lease] { RemoveCommutes(OwnedBy(held, o), mine, lease); }
    }
    assert h.leases - {mine} == a.leases;
  }

  lemma SameTarget(alone: State, held: State, me: Owner, mine: Lease, e: Event)
    requires PlusLease(alone, held, me, mine) && e.Release? && SparesNow(held, e, mine)
    requires forall l :: l in OwnedBy(held, e.owner) ==> l in held.leases
    ensures Target(alone, e.owner, e.which) == Target(held, e.owner, e.which)
  {
    var hs := OwnedBy(held, e.owner);
    assert forall l :: l in alone.leases <==> l in held.leases && l != mine;
    if e.which.None? && hs != [] {
      assert hs[|hs| - 1] in hs;
      RemoveKeepsLast(hs, mine);
    }
  }

  lemma PermitAmongOthers(alone: State, held: State, me: Owner, mine: Lease, e: Event)
    requires PlusLease(alone, held, me, mine) && (e.Take? || e.GiveBack?) && Possible(held, e)
    ensures Possible(alone, e) && PlusLease(Apply(alone, e), Apply(held, e), me, mine)
  {
    assert forall o ::
             OwnedBy(Apply(alone, e), o) == OwnedBy(alone, o) && OwnedBy(Apply(held, e), o) == OwnedBy(held, o);
  }

  lemma LeaseStep(alone: State, held: State, me: Owner, mine: Lease, e: Event)
    requires PlusLease(alone, held, me, mine) && Inverse(held) && Possible(held, e) && SparesNow(held, e, mine)
    ensures Possible(alone, e) && PlusLease(Apply(alone, e), Apply(held, e), me, mine)
  {
    match e
    case Register(_, _) => RegisterAmongOthers(alone, held, me, mine, e);
    case Release(owner, which) =>
      SameTarget(alone, held, me, mine, e);
      var target := Target(held, owner, which);
      if target.Some? { ReleaseAmongOthers(alone, held, me, mine, target.value); }
    case _ => PermitAmongOthers(alone, held, me, mine, e);
  }

  /**
   Holding a lease commutes with everything others do: any run that spares the lease is possible
   without it, and the two ends differ by the lease and its permit alone.
   */
  lemma {:induction false} LeaseRun(alone: State, held: State, me: Owner, mine: Lease, events: seq<Event>, max: nat)
    requires PlusLease(alone, held, me, mine) && Balanced(held, max)
    requires AllPossible(held, events) && Spares(held, events, mine)
    ensures AllPossible(alone, events) && PlusLease(After(alone, events), After(held, events), me, mine)
    decreases |events|
  {
    if events != [] {
      var n := |events| - 1;
      LeaseRun(alone, held, me, mine, events[..n], max);
      RunBalanced(held, events[..n], max);
      LeaseStep(After(alone, events[..n]), After(held, events[..n]), me, mine, events[n]);
    }
  }

  // ---------------------------------------------------------------- waiting, holding, leaving

  /** How a wait for a slot goes: what others do before the grant, if any, and between the grant and running again. */
  datatype Wait =
    | Ungranted(queued: seq<Event>)
    | Revoked(queued: seq<Event>, granted: seq<Event>)     // cancelled after the grant
    | Admitted(queued: seq<Event>, granted: seq<Event>)

  /** What the others do during the wait. */
  function OthersIn(wait: Wait): seq<Event> {
    if wait.Ungranted? then wait.queued else wait.queued + wait.granted
  }

  /** Everything that happens to the limiter during the wait. */
  function Script(me: Owner, mine: Lease, wait: Wait): seq<Event> {
    match wait
    case Ungranted(queued) => queued
    case Revoked(queued, granted) => queued + [Take(me)] + granted + [GiveBack(me)]
    case Admitted(queued, granted) => queued + [Take(me)] + granted + [Register(me, mine)]
  }

  /** The wait can happen: each step of the others is possible, `me` stays asleep, and its lease is a new object. */
  ghost predicate Feasible(s: State, me: Owner, mine: Lease, wait: Wait) {
    && AllPossible(s, wait.queued)
    && (!wait.Ungranted? ==>
          && After(s, wait.queued).permits > 0
          && AllPossible(Step(After(s, wait.queued), Take(me)), wait.granted) && NoneBy(wait.granted, me))
    && (wait.Admitted? ==> mine !in After(Step(After(s, wait.queued), Take(me)), wait.granted).used)
  }

  lemma AfterOne(s: State, events: seq<Event>, e: Event)
    ensures After(s, events + [e]) == Step(After(s, events), e)
  {
    assert (events + [e])[..|events|] == events;
  }

  lemma Granted(s: State, me: Owner, mine: Lease, wait: Wait)
    requires Feasible(s, me, mine, wait) && !wait.Ungranted?
    ensures AllPossible(s, OthersIn(wait))
    ensures PlusGrant(After(s, OthersIn(wait)), After(s, wait.queued + [Take(me)] + wait.granted), me)
    ensures After(s, wait.queued + [Take(me)] + wait.granted) ==
              After(Step(After(s, wait.queued), Take(me)), wait.granted)
  {
    var queued := After(s, wait.queued);
    AfterOne(s, wait.queued, Take(me));
    AfterSplit(s, wait.queued + [Take(me)], wait.granted);
    AfterSplit(s, wait.queued, wait.granted);
    GrantRun(queued, Step(queued, Take(me)), me, wait.granted);
    PossibleJoin(s, wait.queued, wait.granted);
  }

  /** A wait that is given up, before the grant or after it, leaves exactly what the others did. */
  lemma GivenUpLeavesNoTrace(s: State, me: Owner, mine: Lease, wait: Wait)
    requires Feasible(s, me, mine, wait) && !wait.Admitted?
    ensures AllPossible(s, OthersIn(wait)) && After(s, Script(me, mine, wait)) == After(s, OthersIn(wait))
  {
    if wait.Revoked? {
      Granted(s, me, mine, wait);
      var before := wait.queued + [Take(me)] + wait.granted;
      AfterOne(s, before, GiveBack(me));
      GiveBackUndoes(After(s, OthersIn(wait)), After(s, before), me);
    }
  }

  lemma GiveBackUndoes(alone: State, held: State, me: Owner)
    requires PlusGrant(alone, held, me)
    ensures Step(held, GiveBack(me)) == alone
  {
    assert alone.inFlight + multiset{me} - multiset{me} == alone.inFlight;
  }

  lemma RegisterPlusLease(alone: State, held: State, me: Owner, mine: Lease)
    requires PlusGrant(alone, held, me) && Inverse(alone) && alone.leases.Keys <= alone.used && mine !in held.used
    ensures PlusLease(alone, Step(held, Register(me, mine)), me, mine)
  {
    var h := Apply(held, Register(me, mine));
    assert alone.inFlight + multiset{me} - multiset{me} == alone.inFlight;
    assert h.leases - {mine} == alone.leases;
    forall o ensures OwnedBy(alone, o) == Remove(OwnedBy(h, o), mine) {
      OwnedAfterRegister(held, Register(me, mine), o);
      assert mine !in OwnedBy(alone, o);
      if o == me { RemoveLast(OwnedBy(alone, o), mine); }
    }
  }

  lemma {:induction false} RemoveLast(xs: seq<Lease>, x: Lease)
    requires x !in xs
    ensures Remove(xs + [x], x) == xs
  {
    if xs == [] {
      assert [x][1..] == [];
    } else {
      assert (xs + [x])[1..] == xs[1..] + [x];
      RemoveLast(xs[1..], x);
    }
  }

  /** An admitted worker differs from the others alone by its lease. */
  lemma AdmittedHolds(s: State, me: Owner, mine: Lease, wait: Wait, max: nat)
    requires Balanced(s, max) && Feasible(s, me, mine, wait) && wait.Admitted?
    ensures AllPossible(s, OthersIn(wait))
    ensures PlusLease(After(s, OthersIn(wait)), After(s, Script(me, mine, wait)), me, mine)
    ensures Balanced(After(s, Script(me, mine, wait)), max)
  {
    Granted(s, me, mine, wait);
    var before := wait.queued + [Take(me)] + wait.granted;
    AfterOne(s, before, Register(me, mine));
    RunBalanced(s, OthersIn(wait), max);
    RegisterPlusLease(After(s, OthersIn(wait)), After(s, before), me, mine);
    RunBalanced(s, Script(me, mine, wait), max);
  }

  /** The limiter apart from which lease objects ever existed. */
  function Books(s: State): State {
    s.(used := {})
  }

  lemma SameOwners(a: State, b: State)
    requires Inverse(a) && Inverse(b) && forall o :: OwnedBy(a, o) == OwnedBy(b, o)
    ensures a.owners == b.owners
  {
    forall o ensures (o in a.owners <==> o in b.owners) && (o in a.owners ==> a.owners[o] == b.owners[o]) {
      assert OwnedBy(a, o) == OwnedBy(b, o);
    }
  }

  lemma ReleaseMine(alone: State, held: State, me: Owner, mine: Lease, max: nat)
    requires PlusLease(alone, held, me, mine) && Balanced(held, max) && Balanced(alone, max)
    ensures Books(Unregister(held, mine)) == Books(alone) && Balanced(Unregister(held, mine), max)
  {
    var h := Unregister(held, mine);
    UnregisterBalanced(held, mine, max);
    forall o ensures OwnedBy(h, o) == OwnedBy(alone, o) {
      OwnedAfterRelease(held, mine, o);
    }
    SameOwners(h, alone);
  }

  /**
   Balance among others: whatever the others do while `me` waits and while it holds its lease, after
   it releases the lease the books are those of the others alone.
   */
  lemma HolderLeavesNoTrace(s: State, me: Owner, mine: Lease, wait: Wait, running: seq<Event>, who: Owner, max: nat)
    requires Balanced(s, max) && Feasible(s, me, mine, wait) && wait.Admitted?
    requires var held := After(s, Script(me, mine, wait)); AllPossible(held, running) && Spares(held, running, mine)
    ensures var held := After(s, Script(me, mine, wait)); var others := OthersIn(wait) + running;
            var end := Apply(After(held, running), Release(who, Some(mine)));
            && AllPossible(s, others) && Balanced(end, max) && mine !in end.leases
            && mine in After(held, running).leases && Books(end) == Books(After(s, others))
  {
    hide Step, Balanced, PlusLease, Spares, AllPossible, Feasible;
    var held, alone := After(s, Script(me, mine, wait)), After(s, OthersIn(wait));
    AdmittedHolds(s, me, mine, wait, max);
    LeaseRun(alone, held, me, mine, running, max);
    PossibleJoin(s, OthersIn(wait), running);
    AfterSplit(s, OthersIn(wait), running);
    RunBalanced(held, running, max);
    RunBalanced(s, OthersIn(wait) + running, max);
    ReleaseMine(After(alone, running), After(held, running), me, mine, max);
  }

  function Acquired(s: State, me: Owner, mine: Lease): State {
    Step(Step(s, Take(me)), Register(me, mine))
  }

  lemma AcquiredHolds(s: State, me: Owner, mine: Lease, max: nat)
    requires Balanced(s, max) && s.permits > 0 && mine !in s.used
    ensures PlusLease(s, Acquired(s, me, mine), me, mine) && Balanced(Acquired(s, me, mine), max)
  {
    var taken := Step(s, Take(me));
    EventBalanced(s, Take(me), max);
    EventBalanced(taken, Register(me, mine), max);
    RegisterPlusLease(s, taken, me, mine);
  }

  lemma AcquiredTarget(s: State, me: Owner, mine: Lease, which: Option<Lease>)
    requires s.permits > 0 && mine !in s.used && (which == Some(mine) || which == None)
    ensures Target(Acquired(s, me, mine), me, which) == Some(mine)
  {
    OwnedAfterRegister(Step(s, Take(me)), Register(me, mine), me);
  }

  /** A release finds the lease it names if that is held, and otherwise one of the owner's, if there is any. */
  lemma TargetIff(s: State, owner: Owner, which: Option<Lease>)
    requires Inverse(s)
    ensures which.Some? ==> Target(s, owner, which) == if which.value in s.leases then which else None
    ensures which.None? ==> (Target(s, owner, which).Some? <==> exists l :: l in s.leases && s.leases[l] == owner)
    ensures which.None? && Target(s, owner, which).Some? ==> s.leases[Target(s, owner, which).value] == owner
  {
    var mine := OwnedBy(s, owner);
    if mine != [] { assert mine[|mine| - 1] in mine; }
  }

  /** With nobody else about, acquire then release, by lease or by task, puts everything back. */
  lemma AcquireReleaseInverse(s: State, me: Owner, mine: Lease, which: Option<Lease>, max: nat)
    requires Balanced(s, max) && s.permits > 0 && mine !in s.used && (which == Some(mine) || which == None)
    ensures Books(Step(Acquired(s, me, mine), Release(me, which))) == Books(s)
  {
    AcquiredHolds(s, me, mine, max);
    AcquiredTarget(s, me, mine, which);
    ReleaseMine(s, Acquired(s, me, mine), me, mine, max);
  }

  lemma SingleStep(s: State, e: Event)
    ensures After(s, [e]) == Step(s, e) && (Possible(s, e) ==> AllPossible(s, [e]))
  {
    assert [e][..0] == [];
  }

  /** Any holder's release lets a waiting worker in, however full the limiter is. */
  lemma ReleaseAdmits(s: State, me: Owner, mine: Lease, holder: Owner, lease: Lease)
    requires lease in s.leases && mine !in s.used
    ensures Feasible(s, me, mine, Admitted([Release(holder, Some(lease))], []))
  {
    SingleStep(s, Release(holder, Some(lease)));
  }

  // ---------------------------------------------------------------- the limiter object

  lemma {:induction false} PossibleAt(s: State, events: seq<Event>, i: nat)
    requires AllPossible(s, events) && i < |events|
    ensures Possible(After(s, events[..i]), events[i])
    decreases |events|
  {
    var front, last := PossibleLast(s, events);
    if i < |front| {
      PossibleAt(s, front, i);
      assert front[..i] == events[..i];
    } else {
      assert front == events[..i];
    }
  }

  lemma AfterNext(s: State, events: seq<Event>, i: nat)
    requires i < |events|
    ensures After(s, events[..i + 1]) == Step(After(s, events[..i]), events[i])
  {
    assert events[..i + 1] == events[..i] + [events[i]];
    AfterOne(s, events[..i], events[i]);
  }

  class ConcurrencyLimiter {
    const maxConcurrent: nat
    var permits: nat                    // the semaphore
    ghost var inFlight: multiset<Owner> // permits granted and not yet registered
    var currentCount: int
    var owners: map<Owner, seq<Lease>>
    var leases: map<Lease, Owner>
    ghost var used: set<Lease>

    constructor (maxConcurrent: int)
      ensures View() == Initial(this.maxConcurrent) && Balanced(View(), this.maxConcurrent)
      ensures this.maxConcurrent == if maxConcurrent < 1 then 1 else maxConcurrent
    {
      var n := if maxConcurrent < 1 then 1 else maxConcurrent;
      this.maxConcurrent := n;
      permits, inFlight, currentCount := n, multiset{}, 0;
      owners, leases, used := map[], map[], {};
    }

    ghost function View(): State
      reads this
    {
      State(permits, inFlight, currentCount, owners, leases, used)
    }

    /** `await self._semaphore.acquire()`, at the moment the permit is granted. */
    method TakePermit(owner: Owner)
      requires permits > 0
      modifies this
      ensures View() == Apply(old(View()), Take(owner))
    {
      permits := permits - 1;
      inFlight := inFlight + multiset{owner};
    }

    method RegisterLease(owner: Owner, lease: Lease)
      requires owner in inFlight && lease !in used
      modifies this
      ensures View() == Apply(old(View()), Register(owner, lease))
    {
      var owned := if owner in owners then owners[owner] else [];
      assert owned == OwnedBy(View(), owner);
      inFlight, used := inFlight - multiset{owner}, used + {lease};
      currentCount := currentCount + 1;
      owners := owners[owner := owned + [lease]];
      leases := leases[lease := owner];
    }

    method ReturnPermit(owner: Owner)
      requires owner in inFlight
      modifies this
      ensures View() == Apply(old(View()), GiveBack(owner))
    {
      permits := permits + 1;
      inFlight := inFlight - multiset{owner};
    }

    method Release(owner: Owner, which: Option<Lease>) returns (ok: bool)
      modifies this
      ensures View() == Apply(old(View()), Event.Release(owner, which))
      ensures ok <==> Target(old(View()), owner, which).Some?
    {
      var wanted;
      if which.None? {
        var mine := if owner in owners then owners[owner] else [];
        if mine == [] { return false; }
        wanted := mine[|mine| - 1];
      } else {
        wanted := which.value;
      }
      if wanted !in leases { return false; }
      var leaseOwner := leases[wanted];
      leases := leases - {wanted};
      var rest := Remove(if leaseOwner in owners then owners[leaseOwner] else [], wanted);
      owners := if rest != [] then owners[leaseOwner := rest] else owners - {leaseOwner};
      currentCount := currentCount - 1;
      permits := permits + 1;
      ok := true;
    }

    /** Steps of other tasks, while this one is suspended. */
    method Interleave(events: seq<Event>)
      requires AllPossible(View(), events)
      modifies this
      ensures View() == After(old(View()), events)
    {
      ghost var start := View();
      for i := 0 to |events|
        invariant View() == After(start, events[..i])
      {
        PossibleAt(start, events, i);
        AfterNext(start, events, i);
        match events[i] {
          case Take(owner) => TakePermit(owner);
          case Register(owner, lease) => RegisterLease(owner, lease);
          case GiveBack(owner) => ReturnPermit(owner);
          case Release(owner, which) => var released := Release(owner, which);
        }
      }
      assert events[..|events|] == events;
    }

    /** `acquire`, with the steps of other tasks around it; true when a lease was registered. */
    method Acquire(me: Owner, mine: Lease, wait: Wait) returns (ok: bool)
      requires Feasible(View(), me, mine, wait)
      modifies this
      ensures View() == After(old(View()), Script(me, mine, wait))
      ensures ok <==> wait.Admitted?
    {
      ghost var start := View();
      Interleave(wait.queued);
      if wait.Ungranted? { return false; }
      Granted(start, me, mine, wait);
      TakePermit(me);
      Interleave(wait.granted);
      ghost var before := wait.queued + [Take(me)] + wait.granted;
      if wait.Revoked? {
        AfterOne(start, before, GiveBack(me));
        ReturnPermit(me);
        return false;
      }
      AfterOne(start, before, Register(me, mine));
      RegisterLease(me, mine);
      ok := true;
    }
  }
}
