/** The removal of old members with the health checker beside it: how many owned members are left,
    and exactly when they are a majority. */
module CleanupRounds {
  import opened Wrappers
  import opened Text
  import opened Machines
  import opened EtcdPlane
  import opened Membership
  import opened Cluster
  import opened ReconcileSpec
  import opened HealthCheck
  import opened Runs
  import opened Effects
  import opened Removals
  import opened MemberSafety
  import opened Counters
  import opened Cleanup

  // ----- Who is a member -----

  /** The machines among `names` that are members, at the addresses they have in `ms0`. */
  ghost function Seated(ms0: Machines, names: set<Name>, members: seq<Member>): set<Name> {
    set n | n in names && n in ms0 && Joins(members, EtcdMachineAddress(ms0[n]))
  }

  ghost function OwnedMembers(ms0: Machines, members: seq<Member>): set<Name> {
    Seated(ms0, Owned(ms0), members)
  }

  ghost function OldMembers(ms0: Machines, members: seq<Member>): set<Name> {
    Seated(ms0, Unowned(ms0), members)
  }

  predicate Seats(ms0: Machines, n: Name, m: Member)
    requires n in ms0
  {
    EtcdMachineAddress(ms0[n]) != "" && PeersAt(m, EtcdMachineAddress(ms0[n]))
  }

  /** Every member is one of the machines. */
  ghost predicate Manned(ms0: Machines, members: seq<Member>) {
    forall m :: m in members ==> exists n :: n in ms0 && Seats(ms0, n, m)
  }

  lemma JoinsMore(m: Member, members: seq<Member>, address: string)
    ensures Joins([m] + members, address) <==> PeersAt(m, address) || Joins(members, address)
  {
    var all := [m] + members;
    if PeersAt(m, address) {
      assert PeersAt(all[0], address);
    }
    if Joins(members, address) {
      var i :| 0 <= i < |members| && PeersAt(members[i], address);
      assert PeersAt(all[i + 1], address);
    }
  }

  lemma SeatedMore(ms0: Machines, m: Member, members: seq<Member>, n: Name)
    requires OwnAddresses(ms0) && n in ms0 && Seats(ms0, n, m) && Differs(m, members)
    ensures Seated(ms0, ms0.Keys, [m] + members) == Seated(ms0, ms0.Keys, members) + {n}
    ensures n !in Seated(ms0, ms0.Keys, members)
  {
    forall k | k in ms0
      ensures k in Seated(ms0, ms0.Keys, [m] + members) <==> k in Seated(ms0, ms0.Keys, members) || k == n
    {
      JoinsMore(m, members, EtcdMachineAddress(ms0[k]));
      URLsInjective(EtcdMachineAddress(ms0[k]), EtcdMachineAddress(ms0[n]));
    }
  }

  lemma {:induction false} AsManySeated(ms0: Machines, members: seq<Member>)
    requires OwnAddresses(ms0) && Distinct(members) && Manned(ms0, members)
    ensures |Seated(ms0, ms0.Keys, members)| == |members|
  {
    if members == [] {
      assert Seated(ms0, ms0.Keys, members) == {};
    } else {
      DistinctTail(members);
      MannedShrinks(ms0, members, members[1..]);
      AsManySeated(ms0, members[1..]);
      assert [members[0]] + members[1..] == members;
      OneMoreSeated(ms0, members[0], members[1..]);
    }
  }

  lemma OneMoreSeated(ms0: Machines, m: Member, rest: seq<Member>)
    requires OwnAddresses(ms0) && Differs(m, rest) && Manned(ms0, [m] + rest)
    ensures |Seated(ms0, ms0.Keys, [m] + rest)| == |Seated(ms0, ms0.Keys, rest)| + 1
  {
    assert m in [m] + rest;
    var n :| n in ms0 && Seats(ms0, n, m);
    SeatedMore(ms0, m, rest, n);
    AddOne(Seated(ms0, ms0.Keys, rest), n);
  }

  /** The members are the owned ones and the old ones. */
  lemma MembersSplit(ms0: Machines, members: seq<Member>)
    requires OwnAddresses(ms0) && Distinct(members) && Manned(ms0, members)
    ensures |OwnedMembers(ms0, members)| + |OldMembers(ms0, members)| == |members|
  {
    AsManySeated(ms0, members);
    assert Seated(ms0, ms0.Keys, members) == OwnedMembers(ms0, members) + OldMembers(ms0, members);
    assert OwnedMembers(ms0, members) !! OldMembers(ms0, members);
  }

  // ----- What is kept -----

  predicate Kept(m0: Machine, m: Machine) {
    m.owned == m0.owned && (EtcdMachineAddress(m0) != "" ==> EtcdMachineAddress(m) == EtcdMachineAddress(m0))
  }

  /** Every machine is one of `ms0`, with the same owner and, if it had one, the same address. */
  predicate AllKept(ms0: Machines, ms: Machines) {
    ms.Keys <= ms0.Keys && forall n :: n in ms ==> Kept(ms0[n], ms[n])
  }

  /** The active owned machines that are no member any more: the deletion call of their removal
      failed. */
  ghost function Unseated(ms0: Machines, f: Fleet): set<Name> {
    ActiveOwned(f.machines) - OwnedMembers(ms0, f.members)
  }

  /** An owned machine that is a member is active; at most one is not; and at most `failures` of the
      active ones are no member. */
  ghost predicate Manning(ms0: Machines, f: Fleet, replicas: nat, failures: nat) {
    && Distinct(f.members) && Manned(ms0, f.members) && AllKept(ms0, f.machines)
    && OwnedMembers(ms0, f.members) <= ActiveOwned(f.machines)
    && |ActiveOwned(f.machines)| + 1 >= replicas
    && |Unseated(ms0, f)| <= failures
  }

  /** Owned machines have addresses, and nobody else has the same. */
  ghost predicate Housed(ms0: Machines) {
    && OwnAddresses(ms0) && (forall n :: n in Owned(ms0) ==> EtcdMachineAddress(ms0[n]) != "")
  }

  /** An entry for the address of an owned machine names that machine. */
  ghost predicate KnownQueue(ms0: Machines, c: Checker) {
    forall e, o :: e in c.toRemove && o in Owned(ms0) && MachineAddressFromClientURL(e) == EtcdMachineAddress(ms0[o]) ==>
      c.toRemove[e] == o
  }

  lemma MannedShrinks(ms0: Machines, members: seq<Member>, members': seq<Member>)
    requires Manned(ms0, members) && forall m :: m in members' ==> m in members
    ensures Manned(ms0, members')
  {
  }

  lemma KeptStays(ms0: Machines, ms: Machines, ms': Machines)
    requires AllKept(ms0, ms) && KeepsOwners(ms, ms')
    ensures AllKept(ms0, ms')
  {
    SameEndpoints(ms, ms');
    assert forall n :: n in ms ==> SameMachine(ms[n], ms'[n]);
  }

  /** What is kept when the same owned machines are active and members. */
  lemma SameManning(ms0: Machines, f: Fleet, f': Fleet, replicas: nat, failures: nat)
    requires Manning(ms0, f, replicas, failures)
    requires Distinct(f'.members) && (forall m :: m in f'.members ==> m in f.members) && AllKept(ms0, f'.machines)
    requires ActiveOwned(f'.machines) == ActiveOwned(f.machines)
    requires forall o :: o in Owned(ms0) ==> (o in OwnedMembers(ms0, f'.members) <==> o in OwnedMembers(ms0, f.members))
    ensures Manning(ms0, f', replicas, failures)
  {
    MannedShrinks(ms0, f.members, f'.members);
    assert OwnedMembers(ms0, f'.members) == OwnedMembers(ms0, f.members);
  }

  lemma SameActive(ms: Machines, ms': Machines)
    requires KeepsOwners(ms, ms') && forall n :: n in Owned(ms) ==> ms'[n] == ms[n]
    ensures ActiveOwned(ms') == ActiveOwned(ms)
  {
    forall n ensures n in ActiveOwned(ms') <==> n in ActiveOwned(ms) {
      assert n in ms' <==> n in ms;
    }
  }

  /** The members of other addresses than `host` are the same. */
  lemma OthersSeated(ms0: Machines, members: seq<Member>, members': seq<Member>, host: string, n: Name)
    requires Shrinks(members, members', Only(host)) && n in Owned(ms0) && EtcdMachineAddress(ms0[n]) != host
    ensures n in OwnedMembers(ms0, members') <==> n in OwnedMembers(ms0, members)
  {
    if n !in OwnedMembers(ms0, members) {
      StaysOut(members, members', Only(host), EtcdMachineAddress(ms0[n]));
    }
  }

  // ----- One turn of the health checker -----

  /** A turn that concerns no owned machine. */
  lemma OldTurn(ms0: Machines, f: Fleet, f': Fleet, n: Name, host: string, replicas: nat, failures: nat)
    requires Manning(ms0, f, replicas, failures) && Shrinks(f.members, f'.members, Only(host))
    requires KeepsOwners(f.machines, f'.machines)
    requires forall k :: k in f.machines && k != n ==> f'.machines[k] == f.machines[k]
    requires n !in Owned(f.machines) && forall o :: o in Owned(ms0) ==> EtcdMachineAddress(ms0[o]) != host
    ensures Manning(ms0, f', replicas, failures)
  {
    KeptStays(ms0, f.machines, f'.machines);
    SameActive(f.machines, f'.machines);
    forall o | o in Owned(ms0) ensures o in OwnedMembers(ms0, f'.members) <==> o in OwnedMembers(ms0, f.members) {
      OthersSeated(ms0, f.members, f'.members, host, o);
    }
    SameManning(ms0, f, f', replicas, failures);
  }

  /** A turn for an owned machine while N are active. */
  lemma OwnTurn(ms0: Machines, f: Fleet, f': Fleet, o: Name, replicas: nat, failures: nat, fails: bool)
    requires Manning(ms0, f, replicas, failures) && Housed(ms0) && o in Owned(ms0)
    requires Shrinks(f.members, f'.members, Only(EtcdMachineAddress(ms0[o])))
    requires KeepsOwners(f.machines, f'.machines)
    requires forall k :: k in f.machines && k != o ==> f'.machines[k] == f.machines[k]
    requires |ActiveOwned(f.machines)| >= replicas
    requires Dies(f.machines, f'.machines, o) ==> o !in OwnedMembers(ms0, f'.members)
    requires !fails && o in OwnedMembers(ms0, f.members) && o !in OwnedMembers(ms0, f'.members) ==>
      o !in ActiveOwned(f'.machines)
    ensures Manning(ms0, f', replicas, failures + if fails then 1 else 0)
  {
    MannedShrinks(ms0, f.members, f'.members);
    KeptStays(ms0, f.machines, f'.machines);
    OneLeaves(f.machines, f'.machines, o);
    forall k | k in Owned(ms0) && k != o
      ensures k in OwnedMembers(ms0, f'.members) <==> k in OwnedMembers(ms0, f.members)
    {
      OthersSeated(ms0, f.members, f'.members, EtcdMachineAddress(ms0[o]), k);
    }
    OwnStaysOut(ms0, f, f', o);
    UnseatedGrows(ms0, f, f', o, fails);
  }

  lemma OwnStaysOut(ms0: Machines, f: Fleet, f': Fleet, o: Name)
    requires o in Owned(ms0) && Shrinks(f.members, f'.members, Only(EtcdMachineAddress(ms0[o])))
    ensures o in OwnedMembers(ms0, f'.members) ==> o in OwnedMembers(ms0, f.members)
  {
    if o !in OwnedMembers(ms0, f.members) {
      StaysOut(f.members, f'.members, Only(EtcdMachineAddress(ms0[o])), EtcdMachineAddress(ms0[o]));
    }
  }

  lemma OneLeaves(ms: Machines, ms': Machines, o: Name)
    requires KeepsOwners(ms, ms') && forall k :: k in ms && k != o ==> ms'[k] == ms[k]
    ensures ActiveOwned(ms) - {o} <= ActiveOwned(ms') <= ActiveOwned(ms)
    ensures |ActiveOwned(ms')| + 1 >= |ActiveOwned(ms)|
    ensures o in ActiveOwned(ms) && o !in ActiveOwned(ms') ==> Dies(ms, ms', o)
  {
    assert ActiveOwned(ms) - {o} <= ActiveOwned(ms') by {
      assert forall k :: k in ActiveOwned(ms) - {o} ==> k in ActiveOwned(ms');
    }
    SubsetSize(ActiveOwned(ms) - {o}, ActiveOwned(ms'));
    assert |ActiveOwned(ms) - {o}| + 1 >= |ActiveOwned(ms)|;
    assert forall k :: k in ms ==> SameMachine(ms[k], ms'[k]);
  }

  lemma UnseatedGrows(ms0: Machines, f: Fleet, f': Fleet, o: Name, fails: bool)
    requires ActiveOwned(f'.machines) <= ActiveOwned(f.machines)
    requires AllKept(ms0, f.machines)
    requires forall k :: k in Owned(ms0) && k != o ==>
      (k in OwnedMembers(ms0, f'.members) <==> k in OwnedMembers(ms0, f.members))
    requires !fails && o in OwnedMembers(ms0, f.members) && o !in OwnedMembers(ms0, f'.members) ==>
      o !in ActiveOwned(f'.machines)
    ensures |Unseated(ms0, f')| <= |Unseated(ms0, f)| + if fails then 1 else 0
  {
    var more := Unseated(ms0, f) + if fails then {o} else {};
    assert Unseated(ms0, f') <= more by {
      forall k | k in Unseated(ms0, f') ensures k in more {
        assert k in Owned(ms0);
      }
    }
    SubsetSize(Unseated(ms0, f'), more);
  }

  lemma TurnMans(
    ms0: Machines, f: Fleet, c: Checker, e: string, outcome: RemovalOutcome, replicas: nat, failures: nat)
    requires Manning(ms0, f, replicas, failures) && Housed(ms0) && KnownQueue(ms0, c)
    requires QueueSound(c, f.machines) && PlainAddresses(f.machines) && e in c.toRemove
    ensures Manning(ms0, RemoveOne(f, c, e, replicas, outcome).0, replicas,
                    failures + if outcome.DeleteFails? then 1 else 0)
  {
    if |ActiveOwned(f.machines)| >= replicas {
      var n, host := c.toRemove[e], MachineAddressFromClientURL(e);
      var f' := RemoveEtcdMachine(f, Some(n), host, outcome).0;
      RemovalIsSafe(f, Some(n), host, outcome);
      RemovalKeeps(f, Some(n), host, outcome);
      if o :| o in Owned(ms0) && EtcdMachineAddress(ms0[o]) == host {
        RemovalIsWhole(f, o, host, outcome);
        OwnTurn(ms0, f, f', o, replicas, failures, outcome.DeleteFails?);
      } else {
        NotOwned(ms0, f, c, e);
        OldTurn(ms0, f, f', n, host, replicas, failures);
        MoreFailures(ms0, f', replicas, failures, failures + if outcome.DeleteFails? then 1 else 0);
      }
    } else {
      MoreFailures(ms0, f, replicas, failures, failures + if outcome.DeleteFails? then 1 else 0);
    }
  }

  lemma MoreFailures(ms0: Machines, f: Fleet, replicas: nat, failures: nat, more: nat)
    requires Manning(ms0, f, replicas, failures) && failures <= more
    ensures Manning(ms0, f, replicas, more)
  {
  }

  lemma NotOwned(ms0: Machines, f: Fleet, c: Checker, e: string)
    requires Housed(ms0) && QueueSound(c, f.machines) && PlainAddresses(f.machines) && e in c.toRemove
    requires AllKept(ms0, f.machines)
    requires forall o :: o in Owned(ms0) ==> EtcdMachineAddress(ms0[o]) != MachineAddressFromClientURL(e)
    ensures c.toRemove[e] !in Owned(f.machines)
  {
    if c.toRemove[e] in f.machines {
      QueuedHost(c, f.machines, e);
    }
  }

  /** The turns of a loop whose deletion call is answered with an error. */
  function FailedDeletions(order: seq<string>, removals: map<string, RemovalOutcome>): nat {
    if order == [] then 0
    else
      FailedDeletions(order[..|order| - 1], removals)
      + if OutcomeFor(removals, order[|order| - 1]).DeleteFails? then 1 else 0
  }

  lemma {:induction false} TurnsMan(
    ms0: Machines, f: Fleet, c: Checker, order: seq<string>, removals: map<string, RemovalOutcome>,
    replicas: nat, failures: nat)
    requires Manning(ms0, f, replicas, failures) && Housed(ms0) && KnownQueue(ms0, c)
    requires QueueSound(c, f.machines) && PlainAddresses(f.machines)
    requires forall e :: e in order ==> e in c.toRemove
    requires forall i, j :: 0 <= i < j < |order| ==> order[i] != order[j]
    ensures
      var f' := RemoveQueued(f, c, order, replicas, removals).0;
      Manning(ms0, f', replicas, failures + FailedDeletions(order, removals))
    decreases order
  {
    if order != [] {
      var most, last := order[..|order| - 1], order[|order| - 1];
      TurnsMan(ms0, f, c, most, removals, replicas, failures);
      TurnsKeep(f, c, most, replicas, removals);
      var (g, d, _) := RemoveQueued(f, c, most, replicas, removals);
      assert last !in most;
      SameEndpoints(f.machines, g.machines);
      PlainStays(f.machines, g.machines);
      QueueStaysSound(c, f.machines, g.machines);
      TurnMans(ms0, g, d, last, OutcomeFor(removals, last), replicas, failures + FailedDeletions(most, removals));
    }
  }

  // ----- One Reconcile -----

  /** The loop over old machines takes no owned machine's seat. */
  lemma LoopMans(
    ms0: Machines, f: Fleet, order: seq<Name>, removals: map<Name, RemovalOutcome>, replicas: nat, failures: nat)
    requires Manning(ms0, f, replicas, failures) && Housed(ms0) && Apart(f.machines)
    requires forall n :: n in order ==> n in f.machines && n in Unowned(f.machines)
    ensures Manning(ms0, RemoveEach(f, f.machines, order, removals).0, replicas, failures)
    ensures Apart(RemoveEach(f, f.machines, order, removals).0.machines)
  {
    LoopSpares(f, order, removals);
    LoopEnds(ms0, f, RemoveEach(f, f.machines, order, removals).0, replicas, failures);
  }

  lemma LoopSpares(f: Fleet, order: seq<Name>, removals: map<Name, RemovalOutcome>)
    requires Distinct(f.members) && Apart(f.machines)
    requires forall n :: n in order ==> n in f.machines && n in Unowned(f.machines)
    ensures
      var f' := RemoveEach(f, f.machines, order, removals).0;
      && Shrinks(f.members, f'.members, AddressesOf(f.machines, Unowned(f.machines)))
      && KeepsOwners(f.machines, f'.machines)
      && (forall n :: n in Owned(f.machines) ==> f'.machines[n] == f.machines[n]) && Apart(f'.machines)
  {
    var f' := RemoveEach(f, f.machines, order, removals).0;
    RemovalsAreSafe(f, f.machines, order, removals, Unowned(f.machines));
    RemovalsKeep(f, f.machines, order, removals);
    OwnedUntouched(f.machines, f'.machines);
  }

  lemma LoopEnds(ms0: Machines, f: Fleet, f': Fleet, replicas: nat, failures: nat)
    requires Manning(ms0, f, replicas, failures) && Housed(ms0) && Apart(f.machines)
    requires Shrinks(f.members, f'.members, AddressesOf(f.machines, Unowned(f.machines)))
    requires KeepsOwners(f.machines, f'.machines) && forall n :: n in Owned(f.machines) ==> f'.machines[n] == f.machines[n]
    ensures Manning(ms0, f', replicas, failures)
  {
    KeptStays(ms0, f.machines, f'.machines);
    SameActive(f.machines, f'.machines);
    forall o | o in Owned(ms0) ensures o in OwnedMembers(ms0, f'.members) <==> o in OwnedMembers(ms0, f.members) {
      LoopSeats(ms0, f, f'.members, o);
    }
    SameManning(ms0, f, f', replicas, failures);
  }

  lemma LoopSeats(ms0: Machines, f: Fleet, members: seq<Member>, o: Name)
    requires Housed(ms0) && Apart(f.machines) && o in Owned(ms0)
    requires AllKept(ms0, f.machines)
    requires OwnedMembers(ms0, f.members) <= ActiveOwned(f.machines)
    requires Shrinks(f.members, members, AddressesOf(f.machines, Unowned(f.machines)))
    ensures o in OwnedMembers(ms0, members) <==> o in OwnedMembers(ms0, f.members)
  {
    var gone, address := AddressesOf(f.machines, Unowned(f.machines)), EtcdMachineAddress(ms0[o]);
    if o in OwnedMembers(ms0, f.members) {
      assert o in Owned(f.machines) && EtcdMachineAddress(f.machines[o]) == address;
      assert !gone(address);
    } else {
      StaysOut(f.members, members, gone, address);
    }
  }

  // ----- Worlds -----

  /** The start: N owned machines and some old ones, which are the members there are, after the
      control plane was upgraded. */
  ghost predicate CleanupStart(w: World) {
    && Upgraded(w) && w.cluster.value.controlPlaneUpgraded && Housed(w.machines) && Manned(w.machines, w.members)
  }

  ghost predicate Tended(w0: World, w: World, failures: nat) {
    && w0.cluster.Some? && Live(w)
    && var ec := w.cluster.value;
    && ec.spec == w0.cluster.value.spec && ec.controlPlaneUpgraded && !ec.conditions.initialized.False?
    && Manning(w0.machines, w.Fleet(), ec.spec.replicas, failures) && Apart(w.machines)
  }

  predicate DuringCleanupRounds(e: Event) {
    DuringCleanup(e) || e.HealthRound? || e.RemovalTurn?
  }

  /** Old machines remain, so that the cleanup goes before any scale-up. */
  ghost predicate OldRemain(w: World, e: Event) {
    Unowned(w.machines) != {}
  }

  /** The removals of an event whose deletion call is answered with an error. */
  function FailuresOf(e: Event): nat {
    match e
    case HealthRound(_, r, order) => FailedDeletions(order, r.removals)
    case RemovalTurn(_, _, outcome) => if outcome.DeleteFails? then 1 else 0
    case _ => 0
  }

  function FailuresIn(es: seq<Event>): nat {
    if es == [] then 0 else FailuresIn(es[..|es| - 1]) + FailuresOf(es[|es| - 1])
  }

  lemma StartsTended(w0: World)
    requires CleanupStart(w0)
    ensures Tended(w0, w0, 0)
  {
    assert ActiveOwned(w0.machines) == Owned(w0.machines);
    assert OwnedMembers(w0.machines, w0.members) == Owned(w0.machines);
    assert Unseated(w0.machines, w0.Fleet()) == {};
  }

  lemma ReconcileTends(w0: World, w: World, ds: Domains, a: Answers, failures: nat)
    requires Tended(w0, w, failures) && Housed(w0.machines) && Unowned(w.machines) != {}
    ensures Tended(w0, ReconcileStep(w, ds, a).0, failures)
  {
    if a.entry == Proceeds {
      var d, marked := ReconcileLive(w, ds, a);
      var spec := w.cluster.value.spec;
      if d.CleanUpOldMembers? {
        LoopMans(w0.machines, w.Fleet(), Arrange(Unowned(w.machines), a.order), a.removals, spec.replicas, failures);
        CleanUpActs(w.Fleet(), spec, w.now, ds, a, d);
      } else {
        IdleAct(w.Fleet(), spec, w.now, ds, a, d);
      }
    }
  }

  lemma CleanUpActs(f: Fleet, spec: Spec, now: int, ds: Domains, a: Answers, d: Decision)
    requires d.CleanUpOldMembers?
    ensures Act(f, spec, now, ds, a, d).0 == RemoveEach(f, f.machines, Arrange(Unowned(f.machines), a.order), a.removals).0
  {
  }

  lemma ApartAfter(ms: Machines, ms': Machines)
    requires Apart(ms) && KeepsOwners(ms, ms')
    ensures Apart(ms')
  {
    SameEndpoints(ms, ms');
    assert Owned(ms') == Owned(ms);
    assert Unowned(ms') == Unowned(ms);
  }

  /** What the removals of a round do to the fleet. */
  lemma QueueMans(w0: World, w: World, c: Checker, r: RoundAnswers, order: seq<string>, failures: nat)
    requires Tended(w0, w, failures) && Housed(w0.machines) && KnownQueue(w0.machines, c)
    requires QueueSound(c, w.machines) && PlainAddresses(w.machines)
    requires Visits(order, Checked(c, w.machines, w.cluster.value, r).toRemove.Keys)
    ensures
      var checked, replicas := Checked(c, w.machines, w.cluster.value, r), w.cluster.value.spec.replicas;
      var f' := RemoveQueued(w.Fleet(), checked, order, replicas, r.removals).0;
      && Manning(w0.machines, f', replicas, failures + FailedDeletions(order, r.removals)) && Apart(f'.machines)
  {
    var checked, replicas := Checked(c, w.machines, w.cluster.value, r), w.cluster.value.spec.replicas;
    CheckedKnows(w0.machines, c, w.machines, w.cluster.value, r);
    TurnsMan(w0.machines, w.Fleet(), checked, order, r.removals, replicas, failures);
    TurnsKeep(w.Fleet(), checked, order, replicas, r.removals);
    ApartAfter(w.machines, RemoveQueued(w.Fleet(), checked, order, replicas, r.removals).0.machines);
  }

  lemma CheckedKnows(ms0: Machines, c: Checker, ms: Machines, ec: EtcdadmCluster, r: RoundAnswers)
    requires KnownQueue(ms0, c) && Housed(ms0) && QueueSound(c, ms) && PlainAddresses(ms) && AllKept(ms0, ms)
    ensures KnownQueue(ms0, Checked(c, ms, ec, r)) && QueueSound(Checked(c, ms, ec, r), ms)
  {
    var names := Arrange(ms.Keys, r.order);
    ChecksKnow(ms0, Prune(c, ms), ms, names, r.health, Threshold(ec.retries));
    ChecksKeepQueue(Prune(c, ms), ms, names, r.health, Threshold(ec.retries));
  }

  lemma RoundMans(w0: World, w: World, c: Checker, r: RoundAnswers, order: seq<string>, failures: nat)
    requires Tended(w0, w, failures) && Housed(w0.machines) && KnownQueue(w0.machines, c)
    requires QueueSound(c, w.machines) && PlainAddresses(w.machines)
    requires Removes(w, c, r) ==> Visits(order, Checked(c, w.machines, w.cluster.value, r).toRemove.Keys)
    ensures Tended(w0, Round(w, c, r, order).0, failures + FailedDeletions(order, r.removals))
  {
    var w', more := Round(w, c, r, order).0, failures + FailedDeletions(order, r.removals);
    RoundKeepsObject(w, c, r, order);
    if Removes(w, c, r) {
      QueueMans(w0, w, c, r, order, failures);
    } else {
      MoreFailures(w0.machines, w.Fleet(), w.cluster.value.spec.replicas, failures, more);
    }
    StillTended(w0, w, w', failures, more);
  }

  lemma RoundKeepsObject(w: World, c: Checker, r: RoundAnswers, order: seq<string>)
    requires w.cluster.Some?
    requires Removes(w, c, r) ==> Visits(order, Checked(c, w.machines, w.cluster.value, r).toRemove.Keys)
    ensures
      var w' := Round(w, c, r, order).0;
      var checked, replicas := Checked(c, w.machines, w.cluster.value, r), w.cluster.value.spec.replicas;
      && w'.cluster.Some? && w'.cluster.value == w.cluster.value.(status := w'.cluster.value.status)
      && w'.Fleet() == if Removes(w, c, r) then RemoveQueued(w.Fleet(), checked, order, replicas, r.removals).0
                       else w.Fleet()
  {
  }

  lemma StillTended(w0: World, w: World, w': World, failures: nat, more: nat)
    requires Tended(w0, w, failures) && w'.cluster.Some?
    requires w'.cluster.value == w.cluster.value.(status := w'.cluster.value.status)
    requires Manning(w0.machines, w'.Fleet(), w.cluster.value.spec.replicas, more) && Apart(w'.machines)
    ensures Tended(w0, w', more)
  {
  }

  lemma RoundKnows(ms0: Machines, w: World, c: Checker, r: RoundAnswers, order: seq<string>)
    requires KnownQueue(ms0, c) && Housed(ms0) && AllKept(ms0, w.machines)
    requires QueueSound(c, w.machines) && PlainAddresses(w.machines)
    requires Removes(w, c, r) ==> Visits(order, Checked(c, w.machines, w.cluster.value, r).toRemove.Keys)
    ensures KnownQueue(ms0, Round(w, c, r, order).1)
  {
    if !Passed(w, r) {
      CheckedKnows(ms0, c, w.machines, w.cluster.value, r);
    }
  }

  lemma {:induction false} ChecksKnow(
    ms0: Machines, c: Checker, ms: Machines, order: seq<Name>, health: map<Name, Health>, threshold: int)
    requires KnownQueue(ms0, c) && Housed(ms0) && PlainAddresses(ms) && forall n :: n in order ==> n in ms
    requires AllKept(ms0, ms)
    ensures KnownQueue(ms0, CheckEach(c, ms, order, health, threshold))
  {
    if order != [] {
      var most, last := order[..|order| - 1], order[|order| - 1];
      ChecksKnow(ms0, c, ms, most, health, threshold);
      CheckKnows(ms0, CheckEach(c, ms, most, health, threshold), last, ms[last], HealthFor(health, last), threshold);
    }
  }

  lemma CheckKnows(ms0: Machines, c: Checker, n: Name, m: Machine, h: Health, threshold: int)
    requires KnownQueue(ms0, c) && Housed(ms0) && Plain(EtcdMachineAddress(m)) && n in ms0 && Kept(ms0[n], m)
    ensures KnownQueue(ms0, CheckOne(c, n, m, h, threshold))
  {
    var c' := CheckOne(c, n, m, h, threshold);
    HostOfPlain(EtcdMachineAddress(m));
    forall e, o | e in c'.toRemove && o in Owned(ms0) && MachineAddressFromClientURL(e) == EtcdMachineAddress(ms0[o])
      ensures c'.toRemove[e] == o
    {
      if !(e in c.toRemove && c'.toRemove[e] == c.toRemove[e]) {
        assert e == MemberClientURL(EtcdMachineAddress(m)) && c'.toRemove[e] == n && n in Owned(ms0);
      }
    }
  }

  lemma TurnTends(w0: World, w: World, c: Checker, endpoint: string, machine: Name, outcome: RemovalOutcome, failures: nat)
    requires Tended(w0, w, failures) && Housed(w0.machines) && KnownQueue(w0.machines, c) && Sound(w, c)
    requires endpoint in c.toRemove && c.toRemove[endpoint] == machine
    ensures
      var one, replicas := Checker(map[], map[endpoint := machine]), w.cluster.value.spec.replicas;
      var w' := w.WithFleet(RemoveOne(w.Fleet(), one, endpoint, replicas, outcome).0);
      Tended(w0, w', failures + if outcome.DeleteFails? then 1 else 0)
  {
    var one, replicas := Checker(map[], map[endpoint := machine]), w.cluster.value.spec.replicas;
    var f' := RemoveOne(w.Fleet(), one, endpoint, replicas, outcome).0;
    TurnMans(w0.machines, w.Fleet(), one, endpoint, outcome, replicas, failures);
    TurnKeeps(w.Fleet(), one, endpoint, replicas, outcome);
    ApartAfter(w.machines, f'.machines);
    StillTended(w0, w, w.WithFleet(f'), failures, failures + if outcome.DeleteFails? then 1 else 0);
  }

  lemma EventTends(w0: World, w: World, ds: Domains, e: Event, failures: nat)
    requires Tended(w0, w, failures) && Housed(w0.machines) && Possible(w, e) && DuringCleanup(e) && !e.Reconciled?
    ensures Tended(w0, Apply(w, ds, e), failures)
  {
    if e.Vanished? {
      VanishTends(w0.machines, w.Fleet(), w.cluster.value.spec.replicas, failures, e.n);
    } else if e.Addressed? {
      AddressTends(w0.machines, w.Fleet(), w.cluster.value.spec.replicas, failures, e.n, e.addresses);
    }
  }

  lemma VanishTends(ms0: Machines, f: Fleet, replicas: nat, failures: nat, n: Name)
    requires Manning(ms0, f, replicas, failures) && Apart(f.machines) && n in f.machines && f.machines[n].terminating
    ensures Manning(ms0, f.(machines := f.machines - {n}), replicas, failures) && Apart(f.machines - {n})
  {
    var ms' := f.machines - {n};
    VanishedKept(ms0, f.machines, n);
    SameManning(ms0, f, f.(machines := ms'), replicas, failures);
  }

  lemma VanishedKept(ms0: Machines, ms: Machines, n: Name)
    requires AllKept(ms0, ms) && Apart(ms) && n in ms && ms[n].terminating
    ensures AllKept(ms0, ms - {n}) && Apart(ms - {n}) && ActiveOwned(ms - {n}) == ActiveOwned(ms)
  {
    var ms' := ms - {n};
    assert Owned(ms') <= Owned(ms) && Unowned(ms') <= Unowned(ms);
    assert ActiveOwned(ms') == ActiveOwned(ms);
  }

  lemma AddressTends(ms0: Machines, f: Fleet, replicas: nat, failures: nat, n: Name, addresses: seq<MachineAddress>)
    requires Manning(ms0, f, replicas, failures) && Housed(ms0) && Apart(f.machines)
    requires n in f.machines && EtcdMachineAddress(f.machines[n]) == ""
    requires
      var address := EtcdMachineAddress(f.machines[n].(addresses := addresses));
      forall k :: k in f.machines ==> EtcdMachineAddress(f.machines[k]) != address
    ensures
      var ms' := f.machines[n := f.machines[n].(addresses := addresses)];
      Manning(ms0, f.(machines := ms'), replicas, failures) && Apart(ms')
  {
    AddressedKept(ms0, f.machines, n, addresses);
    var ms' := f.machines[n := f.machines[n].(addresses := addresses)];
    SameManning(ms0, f, f.(machines := ms'), replicas, failures);
  }

  lemma AddressedKept(ms0: Machines, ms: Machines, n: Name, addresses: seq<MachineAddress>)
    requires AllKept(ms0, ms) && Housed(ms0) && Apart(ms) && n in ms && EtcdMachineAddress(ms[n]) == ""
    requires
      var address := EtcdMachineAddress(ms[n].(addresses := addresses));
      forall k :: k in ms ==> EtcdMachineAddress(ms[k]) != address
    ensures
      var ms' := ms[n := ms[n].(addresses := addresses)];
      AllKept(ms0, ms') && Apart(ms') && ActiveOwned(ms') == ActiveOwned(ms)
  {
    var ms' := ms[n := ms[n].(addresses := addresses)];
    HousedHasAddress(ms0, ms, n);
    AddressedApart(ms, n, addresses);
    assert ActiveOwned(ms') == ActiveOwned(ms);
    forall k | k in ms' ensures Kept(ms0[k], ms'[k]) {
      assert Kept(ms0[k], ms[k]);
    }
  }

  lemma HousedHasAddress(ms0: Machines, ms: Machines, n: Name)
    requires Housed(ms0) && AllKept(ms0, ms) && n in ms && EtcdMachineAddress(ms[n]) == ""
    ensures n !in Owned(ms) && EtcdMachineAddress(ms0[n]) == ""
  {
    assert Kept(ms0[n], ms[n]);
    assert n in Owned(ms0) <==> n in Owned(ms);
  }

  // ----- Runs -----

  lemma StepTends(w0: World, w: World, ds: Domains, e: Event, c: Checker, failures: nat)
    requires Tended(w0, w, failures) && Housed(w0.machines) && KnownQueue(w0.machines, c) && Sound(w, c)
    requires Possible(w, e) && Belongs(w, c, e) && DuringCleanupRounds(e) && OldRemain(w, e)
    ensures Tended(w0, Apply(w, ds, e), failures + FailuresOf(e))
    ensures KnownQueue(w0.machines, if e.HealthRound? then Round(w, c, e.r, e.order).1 else c)
  {
    match e
    case Reconciled(a) => ReconcileTends(w0, w, ds, a, failures);
    case HealthRound(_, r, order) =>
      RoundMans(w0, w, c, r, order, failures);
      RoundKnows(w0.machines, w, c, r, order);
    case RemovalTurn(endpoint, machine, outcome) => TurnTends(w0, w, c, endpoint, machine, outcome, failures);
    case _ => EventTends(w0, w, ds, e, failures);
  }

  lemma {:induction false} StaysTended(w0: World, ds: Domains, es: seq<Event>, c0: Checker)
    requires CleanupStart(w0) && Sound(w0, c0) && KnownQueue(w0.machines, c0)
    requires PossibleRun(w0, ds, es) && Threaded(w0, ds, es, c0) && Along(w0, ds, es, OldRemain)
    requires forall e :: e in es ==> DuringCleanupRounds(e)
    ensures Tended(w0, Run(w0, ds, es), FailuresIn(es))
    ensures KnownQueue(w0.machines, CheckerAfter(w0, ds, es, c0))
  {
    if es == [] {
      StartsTended(w0);
    } else {
      var most, e := es[..|es| - 1], es[|es| - 1];
      StaysTended(w0, ds, most, c0);
      MemberBeforeMachine(w0, ds, most, c0);
      StepTends(w0, Run(w0, ds, most), ds, e, CheckerAfter(w0, ds, most, c0), FailuresIn(most));
    }
  }

  /** In every run of the cleanup with the health checker beside it, while old machines remain:
      every member is an owned one or an old one; at least N - 1 owned ones are left, but for one
      more for each removal whose deletion call failed; and they are a majority if and only if
      fewer old ones are left, which is certain once two old ones are gone. If no deletion call
      failed, the owned members are exactly as many as the active owned machines. */
  lemma OwnedMembersRemain(w0: World, ds: Domains, es: seq<Event>, c0: Checker)
    requires CleanupStart(w0) && Sound(w0, c0) && KnownQueue(w0.machines, c0)
    requires PossibleRun(w0, ds, es) && Threaded(w0, ds, es, c0) && Along(w0, ds, es, OldRemain)
    requires forall e :: e in es ==> DuringCleanupRounds(e)
    ensures
      var w := Run(w0, ds, es);
      var replicas := w0.cluster.value.spec.replicas;
      var owned, older := |OwnedMembers(w0.machines, w.members)|, |OldMembers(w0.machines, w.members)|;
      && owned + older == |w.members|
      && owned + 1 + FailuresIn(es) >= replicas
      && (2 * owned > |w.members| <==> older < owned)
      && (older + 2 + FailuresIn(es) <= replicas ==> 2 * owned > |w.members|)
      && (FailuresIn(es) == 0 ==> owned == |ActiveOwned(w.machines)|)
  {
    StaysTended(w0, ds, es, c0);
    SeatsLeft(w0, Run(w0, ds, es), FailuresIn(es));
  }

  lemma Parts<T>(a: set<T>, b: set<T>)
    requires a <= b
    ensures |b| == |a| + |b - a|
  {
    assert b == a + (b - a);
  }

  lemma SeatsLeft(w0: World, w: World, failures: nat)
    requires Tended(w0, w, failures) && Housed(w0.machines)
    ensures
      var owned := |OwnedMembers(w0.machines, w.members)|;
      && owned + |OldMembers(w0.machines, w.members)| == |w.members|
      && owned + 1 + failures >= w0.cluster.value.spec.replicas
      && (failures == 0 ==> owned == |ActiveOwned(w.machines)|)
  {
    MembersSplit(w0.machines, w.members);
    Parts(OwnedMembers(w0.machines, w.members), ActiveOwned(w.machines));
  }
}
