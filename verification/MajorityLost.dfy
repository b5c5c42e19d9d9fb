/** A cleanup that has to stop, and a round of the health check after it: the owned members are no
    majority any more. */
module MajorityLost {
  import opened Wrappers
  import opened Text
  import opened Machines
  import opened EtcdPlane
  import opened Membership
  import opened Cluster
  import opened ReconcileSpec
  import opened HealthCheck
  import opened Runs
  import opened Removals
  import opened MemberSafety
  import opened Counters
  import opened Quorum
  import opened CleanupRounds

  // ----- States and answers -----

  /** N owned and N old machines, each of them a member, where the health check is not paused. */
  ghost predicate FullHouse(w: World) {
    && CleanupStart(w) && w.cluster.value.spec.replicas > 1 && !SkipsHealthCheck(w.cluster.value)
    && |w.machines| == 2 * w.cluster.value.spec.replicas && WithAddress(w.machines) == w.machines.Keys
    && PlainAddresses(w.machines) && Mirrors(w.members, w.machines)
  }

  /** A cleanup that takes out `u` and then meets an error. */
  predicate StopsAfter(w: World, a: Answers, u: Name) {
    && a.entry == Proceeds && a.externalReference && a.listing && a.ownedPlane
    && u in Unowned(w.machines) && a.order != [] && a.order[0] == u && OutcomeFor(a.removals, u) == Succeeds
    && forall n :: n in Unowned(w.machines) && n != u ==> OutcomeFor(a.removals, n) == ClientFails
  }

  /** Checks that queue a machine and let the gate open, of a checker whose queue is empty. */
  predicate OpensTheGate(ms: Machines, ec: EtcdadmCluster, c: Checker, r: RoundAnswers) {
    && r.ownerFound && r.listing && c.toRemove == map[] && MemberClientURL("") !in c.frequency
    && Checked(c, ms, ec, r).toRemove != map[] && 2 * |Failing(ms, r.health)| < |ms|
    && forall e :: e in Checked(c, ms, ec, r).toRemove ==> OutcomeFor(r.removals, e) == Succeeds
  }

  // ----- The Reconcile -----

  lemma FirstFirst(names: set<Name>, wish: seq<Name>)
    requires wish != [] && wish[0] in names
    ensures Arrange(names, wish) != [] && Arrange(names, wish)[0] == wish[0]
  {
  }

  lemma OnlyTheFirst(f: Fleet, order: seq<Name>, removals: map<Name, RemovalOutcome>)
    requires |order| > 1 && forall n :: n in order ==> n in f.machines
    requires OutcomeFor(removals, order[0]) == Succeeds && OutcomeFor(removals, order[1]) == ClientFails
    ensures
      RemoveEach(f, f.machines, order, removals).0
      == RemoveEtcdMachine(f, Some(order[0]), EtcdMachineAddress(f.machines[order[0]]), Succeeds).0
  {
    var g := RemoveEtcdMachine(f, Some(order[0]), EtcdMachineAddress(f.machines[order[0]]), Succeeds).0;
    assert order[1..][0] == order[1];
    assert RemoveEach(g, f.machines, order[1..], removals).0 == g;
  }

  /** What that cleanup leaves. */
  lemma FirstOut(f: Fleet, a: Answers, u: Name)
    requires Distinct(f.members) && |f.members| > 1 && |Unowned(f.machines)| > 1
    requires u in Unowned(f.machines) && a.order != [] && a.order[0] == u && OutcomeFor(a.removals, u) == Succeeds
    requires forall n :: n in Unowned(f.machines) && n != u ==> OutcomeFor(a.removals, n) == ClientFails
    requires Joins(f.members, EtcdMachineAddress(f.machines[u]))
    ensures
      var f' := RemoveEach(f, f.machines, Arrange(Unowned(f.machines), a.order), a.removals).0;
      && f'.machines == f.machines[u := f.machines[u].(terminating := true)] && |f'.members| == |f.members| - 1
      && Shrinks(f.members, f'.members, Only(EtcdMachineAddress(f.machines[u])))
  {
    var order := Arrange(Unowned(f.machines), a.order);
    FirstFirst(Unowned(f.machines), a.order);
    AsLong(order, Unowned(f.machines));
    assert order[1] in order;
    OnlyTheFirst(f, order, a.removals);
    OneMemberLess(f, u, EtcdMachineAddress(f.machines[u]));
    RemovalIsSafe(f, Some(u), EtcdMachineAddress(f.machines[u]), Succeeds);
  }

  lemma AsLong(order: seq<Name>, names: set<Name>)
    requires Visits(order, names) && |names| > 1
    ensures |order| > 1
  {
    if |order| <= 1 {
      assert names <= if order == [] then {} else {order[0]};
      SubsetSize(names, if order == [] then {} else {order[0]});
    }
  }

  /** A cleanup leaves the gates of the health check open. */
  lemma CleanupKeepsChecks(w: World, ds: Domains, a: Answers)
    requires Live(w) && a.entry == Proceeds && Decide(w.machines, w.cluster.value, w.now, a).CleanUpOldMembers?
    requires !SkipsHealthCheck(w.cluster.value)
    ensures
      var w' := ReconcileStep(w, ds, a).0;
      && w'.cluster.Some? && !SkipsHealthCheck(w'.cluster.value) && w'.cluster.value.retries == w.cluster.value.retries
  {
    var ec := w.cluster.value;
    var (f, marked, r) := ReconcileNormal(w.Fleet(), ec, w.now, ds, a);
    assert marked == MarkMembers(w.machines, ec);
    FinishKeeps(w.WithFleet(f), marked, r, a);
    StatusKeeps(marked, w.secret, CheckOwnedMachines(f.machines, a.health), a);
  }

  // ----- Without the machine -----

  lemma HalfAreOld(w: World)
    requires FullHouse(w)
    ensures |Unowned(w.machines)| == w.cluster.value.spec.replicas
    ensures |w.members| == 2 * w.cluster.value.spec.replicas
  {
    OwnedSplits(w.machines);
    assert |w.machines| == |w.machines.Keys|;
  }

  lemma OldJoins(w: World, u: Name)
    requires FullHouse(w) && u in Unowned(w.machines)
    ensures Joins(w.members, EtcdMachineAddress(w.machines[u]))
  {
    assert u in WithAddress(w.machines);
  }

  /** What `w` is after the cleanup has taken out `u`. */
  ghost predicate TakenOut(w0: World, w: World, u: Name)
    requires u in w0.machines
  {
    && w.machines == w0.machines[u := w0.machines[u].(terminating := true)]
    && |w.members| == |w0.members| - 1
    && Shrinks(w0.members, w.members, Only(EtcdMachineAddress(w0.machines[u])))
  }

  lemma CleanupStops(w0: World, ds: Domains, a: Answers, u: Name)
    requires FullHouse(w0) && StopsAfter(w0, a, u)
    ensures TakenOut(w0, ReconcileStep(w0, ds, a).0, u)
  {
    HalfAreOld(w0);
    OldJoins(w0, u);
    CleanupActs(w0, ds, a);
    FirstOut(w0.Fleet(), a, u);
  }

  /** The same for the status, and nothing is lost that the rounds need. */
  lemma CleanupLeaves(w0: World, ds: Domains, a: Answers, u: Name)
    requires FullHouse(w0) && StopsAfter(w0, a, u)
    ensures
      var w1 := ReconcileStep(w0, ds, a).0;
      Tended(w0, w1, 0) && !SkipsHealthCheck(w1.cluster.value) && w1.cluster.value.retries == w0.cluster.value.retries
  {
    StartsTended(w0);
    ReconcileTends(w0, w0, ds, a, 0);
    CleanupKeepsChecks(w0, ds, a);
  }

  lemma CleanupActs(w: World, ds: Domains, a: Answers)
    requires Live(w) && a.entry == Proceeds && Decide(w.machines, w.cluster.value, w.now, a).CleanUpOldMembers?
    ensures ReconcileStep(w, ds, a).0.Fleet()
         == RemoveEach(w.Fleet(), w.machines, Arrange(Unowned(w.machines), a.order), a.removals).0
  {
    var ec := w.cluster.value;
    var (f, marked, r) := ReconcileNormal(w.Fleet(), ec, w.now, ds, a);
    FinishKeeps(w.WithFleet(f), marked, r, a);
  }

  /** The members that are left are the machines that are left. */
  lemma StillMirrors(members: seq<Member>, members': seq<Member>, ms: Machines, u: Name)
    requires Mirrors(members, ms) && OwnAddresses(ms) && WithAddress(ms) == ms.Keys && u in ms
    requires Shrinks(members, members', Only(EtcdMachineAddress(ms[u]))) && |members'| == |members| - 1
    ensures Mirrors(members', ms - {u}) && WithAddress(ms - {u}) == ms.Keys - {u} && |ms - {u}| == |members'|
  {
    OthersHaveAddress(ms, u);
    forall n | n in ms.Keys - {u} ensures Joins(members', EtcdMachineAddress((ms - {u})[n])) {
      OtherStays(members, members', ms, u, n);
    }
  }

  lemma OthersHaveAddress(ms: Machines, u: Name)
    requires WithAddress(ms) == ms.Keys && u in ms
    ensures WithAddress(ms - {u}) == ms.Keys - {u} && |ms - {u}| == |ms.Keys - {u}| == |ms| - 1
  {
    var ms' := ms - {u};
    forall n ensures n in WithAddress(ms') <==> n in ms.Keys - {u} {
      assert n in WithAddress(ms) <==> n in ms;
    }
    assert |ms'| == |ms'.Keys| && ms'.Keys == ms.Keys - {u} && |ms| == |ms.Keys|;
  }

  lemma OtherStays(members: seq<Member>, members': seq<Member>, ms: Machines, u: Name, n: Name)
    requires OwnAddresses(ms) && WithAddress(ms) == ms.Keys && u in ms && n in ms && n != u
    requires Joins(members, EtcdMachineAddress(ms[n])) && Shrinks(members, members', Only(EtcdMachineAddress(ms[u])))
    ensures Joins(members', EtcdMachineAddress(ms[n]))
  {
    assert n in WithAddress(ms);
  }

  /** A health check round in that state comes to its removals. */
  lemma ThenFresh(w0: World, w: World, c: Checker, r: RoundAnswers, u: Name)
    requires FullHouse(w0) && u in Unowned(w0.machines) && OpensTheGate(w0.machines - {u}, w0.cluster.value, c, r)
    requires w.cluster.Some? && !SkipsHealthCheck(w.cluster.value)
    requires w.cluster.value.retries == w0.cluster.value.retries && w.cluster.value.spec == w0.cluster.value.spec
    requires w.machines == w0.machines - {u} && |w.members| == |w0.members| - 1
    requires Shrinks(w0.members, w.members, Only(EtcdMachineAddress(w0.machines[u])))
    ensures FreshRound(w, c, r) && Removes(w, c, r)
  {
    FreshMachines(w0, u);
    StillMirrors(w0.members, w.members, w0.machines, u);
    HalfAreOld(w0);
    SameChecks(c, w.machines, w0.cluster.value, w.cluster.value, r);
    GateOpens(w, c, r);
  }

  lemma SameChecks(c: Checker, ms: Machines, ec: EtcdadmCluster, ec': EtcdadmCluster, r: RoundAnswers)
    requires ec'.retries == ec.retries
    ensures Checked(c, ms, ec', r) == Checked(c, ms, ec, r)
  {
  }

  lemma FreshMachines(w0: World, u: Name)
    requires FullHouse(w0) && u in Unowned(w0.machines)
    ensures
      var ms := w0.machines - {u};
      && OwnAddresses(ms) && PlainAddresses(ms) && ActiveOwned(ms) == Owned(ms)
      && |Owned(ms)| == w0.cluster.value.spec.replicas
  {
    SameOwners(w0.machines, u);
    assert ActiveOwned(w0.machines) == Owned(w0.machines);
  }

  lemma SameOwners(ms: Machines, u: Name)
    requires u in Unowned(ms)
    ensures Owned(ms - {u}) == Owned(ms) && ActiveOwned(ms - {u}) == ActiveOwned(ms)
  {
  }

  // ----- The run -----

  lemma {:induction false} NoneFail(order: seq<string>, removals: map<string, RemovalOutcome>)
    requires forall e :: e in order ==> OutcomeFor(removals, e) == Succeeds
    ensures FailedDeletions(order, removals) == 0
  {
    if order != [] {
      NoneFail(order[..|order| - 1], removals);
    }
  }

  lemma TwoSteps(w0: World, ds: Domains, a: Event, b: Event)
    requires Possible(w0, a) && Possible(Apply(w0, ds, a), b)
    ensures PossibleRun(w0, ds, [a, b]) && Run(w0, ds, [a, b]) == Apply(Apply(w0, ds, a), ds, b)
  {
    RunMore(w0, ds, [], a);
    assert [] + [a] == [a];
    RunMore(w0, ds, [a], b);
    assert [a] + [b] == [a, b];
  }

  /** From N owned and N old members: a cleanup meets an error after its first removal, and a round
      of the health check passes its gate and removes an owned machine that failed. Of the 2N - 2
      members left N - 1 are owned, which is no majority, whatever the number of replicas. */
  lemma RoundTakesTheMajority(
    w0: World, ds: Domains, a: Answers, u: Name, c: Checker, r: RoundAnswers, order: seq<string>)
    requires FullHouse(w0) && StopsAfter(w0, a, u)
    requires OpensTheGate(w0.machines - {u}, w0.cluster.value, c, r)
    requires Visits(order, Checked(c, w0.machines - {u}, w0.cluster.value, r).toRemove.Keys)
    ensures
      var es := [Reconciled(a), Vanished(u), HealthRound(c, r, order)];
      && PossibleRun(w0, ds, es)
      && var members := Run(w0, ds, es).members;
      && |OwnedMembers(w0.machines, members)| == w0.cluster.value.spec.replicas - 1
      && |members| == 2 * |OwnedMembers(w0.machines, members)|
  {
    OneIsGone(w0, ds, a, u);
    ThenOneMore(w0, Run(w0, ds, [Reconciled(a), Vanished(u)]), c, r, order, u);
    ThirdStep(w0, ds, Reconciled(a), Vanished(u), HealthRound(c, r, order));
  }

  lemma ThenOneMore(w0: World, w: World, c: Checker, r: RoundAnswers, order: seq<string>, u: Name)
    requires FullHouse(w0) && u in Unowned(w0.machines) && OpensTheGate(w0.machines - {u}, w0.cluster.value, c, r)
    requires Tended(w0, w, 0) && !SkipsHealthCheck(w.cluster.value)
    requires w.cluster.value.retries == w0.cluster.value.retries
    requires w.machines == w0.machines - {u} && |w.members| == |w0.members| - 1
    requires Shrinks(w0.members, w.members, Only(EtcdMachineAddress(w0.machines[u])))
    requires Visits(order, Checked(c, w0.machines - {u}, w0.cluster.value, r).toRemove.Keys)
    ensures Possible(w, HealthRound(c, r, order))
    ensures
      var members := Round(w, c, r, order).0.members;
      && |OwnedMembers(w0.machines, members)| == w0.cluster.value.spec.replicas - 1
      && |members| == 2 * |OwnedMembers(w0.machines, members)|
  {
    SameChecks(c, w.machines, w0.cluster.value, w.cluster.value, r);
    ThenFresh(w0, w, c, r, u);
    RoundTakesOne(w0, w, c, r, order);
    HalfAreOld(w0);
  }

  lemma ThirdStep(w0: World, ds: Domains, a: Event, b: Event, e: Event)
    requires PossibleRun(w0, ds, [a, b]) && Possible(Run(w0, ds, [a, b]), e)
    ensures PossibleRun(w0, ds, [a, b, e]) && Run(w0, ds, [a, b, e]) == Apply(Run(w0, ds, [a, b]), ds, e)
  {
    RunMore(w0, ds, [a, b], e);
    assert [a, b] + [e] == [a, b, e];
  }

  /** The state after the cleanup, once the machine it took out is gone. */
  lemma OneIsGone(w0: World, ds: Domains, a: Answers, u: Name)
    requires FullHouse(w0) && StopsAfter(w0, a, u)
    ensures
      var es := [Reconciled(a), Vanished(u)];
      && PossibleRun(w0, ds, es)
      && var w := Run(w0, ds, es);
      && Tended(w0, w, 0) && w.machines == w0.machines - {u} && |w.members| == |w0.members| - 1
      && Shrinks(w0.members, w.members, Only(EtcdMachineAddress(w0.machines[u])))
      && !SkipsHealthCheck(w.cluster.value) && w.cluster.value.retries == w0.cluster.value.retries
  {
    CleanupStops(w0, ds, a, u);
    CleanupLeaves(w0, ds, a, u);
    TwoSteps(w0, ds, Reconciled(a), Vanished(u));
    Gone(w0, ReconcileStep(w0, ds, a).0, u);
  }

  lemma Gone(w0: World, w1: World, u: Name)
    requires Tended(w0, w1, 0) && u in w0.machines && TakenOut(w0, w1, u)
    ensures
      var w := w1.(machines := w1.machines - {u});
      Tended(w0, w, 0) && w.machines == w0.machines - {u}
  {
    var w := w1.(machines := w1.machines - {u});
    VanishTends(w0.machines, w1.Fleet(), w1.cluster.value.spec.replicas, 0, u);
    assert w.Fleet() == w1.Fleet().(machines := w1.machines - {u});
    StillTended(w0, w1, w, 0, 0);
  }

  lemma RoundTakesOne(w0: World, w: World, c: Checker, r: RoundAnswers, order: seq<string>)
    requires Tended(w0, w, 0) && Housed(w0.machines) && FreshRound(w, c, r) && Removes(w, c, r)
    requires Visits(order, Checked(c, w.machines, w.cluster.value, r).toRemove.Keys)
    ensures
      var members := Round(w, c, r, order).0.members;
      && |members| == |w.members| - 1
      && |OwnedMembers(w0.machines, members)| == w0.cluster.value.spec.replicas - 1
  {
    OneIsRemoved(w, c, r, order);
    RoundMembers(w, c, r, order);
    AllTurns(w, Checked(c, w.machines, w.cluster.value, r), r, order);
    RoundMans(w0, w, c, r, order, 0);
    NoneFail(order, r.removals);
    SeatsLeft(w0, Round(w, c, r, order).0, 0);
  }
}
