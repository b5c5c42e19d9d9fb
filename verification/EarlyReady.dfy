/** When Ready is true in the middle of a rollout: exactly when the rollout could not be marked. */
module EarlyReady {
  import opened Wrappers
  import opened Machines
  import opened EtcdPlane
  import opened Cluster
  import opened ReconcileSpec
  import opened HealthCheck
  import opened Runs
  import opened Rollout
  import opened Pacing
  import opened Ready
  import Bootstrap
  import MemberSafety

  /** One persisted Reconcile while outdated machines are left to roll: it marks the rollout
      exactly if it is marked already or the Reconcile can read the machines. */
  lemma MarkIsExact(w0: World, w: World, ds: Domains, a: Answers)
    requires UnderWay(w0, w) && Told(w0, w) && PicksEligible(ds) && Old(w0, w) != {}
    requires a.entry == Proceeds && Persisted(a)
    requires w.cluster.value.conditions.specUpToDate.False? ==> w.cluster.value.Rolling()
    ensures
      var w' := ReconcileStep(w, ds, a).0;
      && UnderWay(w0, w') && Told(w0, w')
      && (w'.cluster.value.Rolling() <==> w.cluster.value.Rolling() || Reads(a))
      && (!Reads(a) ==> w'.machines == w.machines)
  {
    var d, move := ReconcileMoves(w0, w, ds, a);
    Decisions(w0, w, a, d);
    assert |Old(w0, w)| > 0;
  }

  /** The exact condition: a persisted Reconcile while outdated machines are left to roll leaves
      Ready true if and only if the rollout is not marked, an early return keeps the Reconcile from
      marking it, and all N machines owned are healthy. */
  lemma ReadyIsExact(w0: World, w: World, ds: Domains, a: Answers)
    requires UnderWay(w0, w) && Told(w0, w) && PicksEligible(ds) && Old(w0, w) != {}
    requires a.entry == Proceeds && Persisted(a)
    requires w.cluster.value.conditions.specUpToDate.False? ==> w.cluster.value.Rolling()
    requires w.cluster.value.spec.replicas == 1 ==> !w.cluster.value.status.ready
    ensures
      var w' := ReconcileStep(w, ds, a).0;
      && w'.cluster.Some?
      && (w'.cluster.value.status.ready <==>
            !w.cluster.value.Rolling() && !Reads(a) && AllOwnedHealthy(w', a))
  {
    MarkIsExact(w0, w, ds, a);
    ReconcileReady(w, ds, a);
    Parts(w0, ReconcileStep(w, ds, a).0);
  }

  // ----- The failing family -----

  /** A Reconcile that cannot list the machines, in an API server that recovers for its status
      block, where all machines are healthy. */
  function ListsLate(health: map<Name, Health>): Answers {
    Answers(Proceeds, true, false, true, true, true, true, true, 0, true, Passes, [], map[],
            true, health, true, true, true, true)
  }

  lemma LateListing(w0: World, w: World, ds: Domains, health: map<Name, Health>)
    requires UnderWay(w0, w) && Told(w0, w) && PicksEligible(ds) && Old(w0, w) != {}
    requires w.cluster.value.spec.replicas > 1 && |Owned(w.machines)| == w.cluster.value.spec.replicas
    requires !w.cluster.value.conditions.specUpToDate.False?
    requires forall n :: n in Owned(w.machines) ==> HealthFor(health, n) == Passes && EtcdMachineAddress(w.machines[n]) != ""
    ensures
      var w' := ReconcileStep(w, ds, ListsLate(health)).0;
      && w'.cluster.Some? && w'.cluster.value.status.ready && w'.machines == w.machines
      && w'.cluster.value.spec == w.cluster.value.spec
      && (!SkipsHealthCheck(w.cluster.value) ==> !SkipsHealthCheck(w'.cluster.value))
  {
    var a := ListsLate(health);
    ReadyIsExact(w0, w, ds, a);
    MarkIsExact(w0, w, ds, a);
    LateMarks(w, ds, a);
  }

  lemma LateMarks(w: World, ds: Domains, a: Answers)
    requires Live(w) && a.entry == Proceeds && Persisted(a) && !a.listing
    ensures
      var w' := ReconcileStep(w, ds, a).0;
      && w'.cluster.Some?
      && (!SkipsHealthCheck(w.cluster.value) ==> !SkipsHealthCheck(w'.cluster.value))
  {
    var ec := w.cluster.value;
    var (f, marked, r) := ReconcileNormal(w.Fleet(), ec, w.now, ds, a);
    assert marked == ec;
    FinishKeeps(w.WithFleet(f), marked, r, a);
    Bootstrap.FinishCompletes(w.WithFleet(f), marked, r, a);
  }

  /** The machine created last gets its address. */
  lemma AddressArrives(w0: World, ds: Domains, es: seq<Event>, m: Name, addresses: seq<MachineAddress>)
    returns (es': seq<Event>)
    requires PossibleRun(w0, ds, es) && (forall e :: e in es ==> DuringRollout(e))
    requires UnderWay(w0, Run(w0, ds, es)) && Told(w0, Run(w0, ds, es))
    requires
      var w := Run(w0, ds, es);
      && m in w.machines && EtcdMachineAddress(w.machines[m]) == ""
      && forall k :: k in w.machines ==> EtcdMachineAddress(w.machines[k]) != AddressIn(addresses)
    ensures PossibleRun(w0, ds, es') && (forall e :: e in es' ==> DuringRollout(e))
    ensures
      var w, w' := Run(w0, ds, es), Run(w0, ds, es');
      && UnderWay(w0, w') && Told(w0, w') && w'.cluster == w.cluster
      && Old(w0, w') == Old(w0, w) && New(w0, w') == New(w0, w)
      && w'.machines == w.machines[m := w.machines[m].(addresses := addresses)]
  {
    AddressKeeps(w0, Run(w0, ds, es), ds, m, addresses);
    RunMore(w0, ds, es, Addressed(m, addresses));
    es' := es + [Addressed(m, addresses)];
  }

  lemma AddressKeeps(w0: World, w: World, ds: Domains, m: Name, addresses: seq<MachineAddress>)
    requires UnderWay(w0, w) && Told(w0, w) && m in w.machines && EtcdMachineAddress(w.machines[m]) == ""
    requires forall k :: k in w.machines ==> EtcdMachineAddress(w.machines[k]) != AddressIn(addresses)
    ensures Possible(w, Addressed(m, addresses))
    ensures
      var w' := w.(machines := w.machines[m := w.machines[m].(addresses := addresses)]);
      && UnderWay(w0, w') && Told(w0, w') && Apply(w, ds, Addressed(m, addresses)) == w'
      && Old(w0, w') == Old(w0, w) && New(w0, w') == New(w0, w)
  {
    OnlyAddresses(w.machines[m], addresses);
    EnvironmentKeeps(w0, w, ds, Addressed(m, addresses));
  }

  /** The address that a machine with these addresses has. */
  function AddressIn(addresses: seq<MachineAddress>): string {
    EtcdMachineAddress(Machine(true, None, None, false, 0, "", false, addresses))
  }

  lemma OnlyAddresses(m: Machine, addresses: seq<MachineAddress>)
    ensures EtcdMachineAddress(m.(addresses := addresses)) == AddressIn(addresses)
  {
  }

  /** A run of lost patches up to a rollout that is half done and not marked. */
  lemma HalfDone(w0: World, ds: Domains, m: Name) returns (es: seq<Event>)
    requires RolloutStart(w0) && PicksEligible(ds)
    requires w0.cluster.value.spec.replicas >= 3 && !w0.cluster.value.conditions.specUpToDate.False?
    requires m !in w0.machines
    ensures PossibleRun(w0, ds, es) && (forall e :: e in es ==> DuringRollout(e))
    ensures
      var w := Run(w0, ds, es);
      && UnderWay(w0, w) && Told(w0, w) && w.cluster == w0.cluster
      && |Old(w0, w)| == w0.cluster.value.spec.replicas - 1 && |New(w0, w)| == 1 && New(w0, w) == {m}
      && KeepsAddresses(w0.machines, w.machines)
  {
    LostStart(w0);
    var x1, x2;
    var kept, made := w0.cluster.value.spec.replicas, 0;
    es, x1, kept, made := LostStep(w0, ds, [], m, kept, made, []);
    es, x2, kept, made := LostStep(w0, ds, es, m, kept, made, [] + [x1]);
    OnlyMember(New(w0, Run(w0, ds, es)), m);
  }

  lemma OnlyMember(s: set<Name>, m: Name)
    requires |s| == 1 && forall k :: k in s ==> k == m
    ensures s == {m}
  {
    assert s <= {m};
    SubsetSize(s, {m});
  }

  /** Every rollout of three or more replicas that is not marked at its start can show Ready in the
      middle: its first patches are lost, and then a Reconcile fails to list the machines before
      its status block finds them all healthy. The health checker runs in that state too. */
  lemma LostPatchesShowReady(w0: World, ds: Domains, m: Name, addresses: seq<MachineAddress>, health: map<Name, Health>)
    returns (es: seq<Event>)
    requires RolloutStart(w0) && PicksEligible(ds) && m !in w0.machines
    requires w0.cluster.value.spec.replicas >= 3 && !w0.cluster.value.conditions.specUpToDate.False?
    requires AddressIn(addresses) != "" && HealthFor(health, m) == Passes
    requires forall k :: k in w0.machines ==>
      EtcdMachineAddress(w0.machines[k]) !in ["", AddressIn(addresses)] && HealthFor(health, k) == Passes
    ensures PossibleRun(w0, ds, es) && (forall e :: e in es ==> DuringRollout(e))
    ensures
      var w := Run(w0, ds, es);
      && w.cluster.Some? && Started(w0, w) && NeedRollout(w.machines, w.cluster.value.spec) != {}
      && w.cluster.value.status.ready
      && (!SkipsHealthCheck(w0.cluster.value) ==> !SkipsHealthCheck(w.cluster.value))
  {
    es := HalfDoneHealthy(w0, ds, m, addresses, health);
    LateListing(w0, Run(w0, ds, es), ds, health);
    StillHalfDone(w0, ds, es, health);
    es := es + [Reconciled(ListsLate(health))];
  }

  lemma HalfDoneHealthy(w0: World, ds: Domains, m: Name, addresses: seq<MachineAddress>, health: map<Name, Health>)
    returns (es: seq<Event>)
    requires RolloutStart(w0) && PicksEligible(ds) && m !in w0.machines
    requires w0.cluster.value.spec.replicas >= 3 && !w0.cluster.value.conditions.specUpToDate.False?
    requires AddressIn(addresses) != "" && HealthFor(health, m) == Passes
    requires forall k :: k in w0.machines ==>
      EtcdMachineAddress(w0.machines[k]) !in ["", AddressIn(addresses)] && HealthFor(health, k) == Passes
    ensures PossibleRun(w0, ds, es) && (forall e :: e in es ==> DuringRollout(e))
    ensures
      var w := Run(w0, ds, es);
      && UnderWay(w0, w) && Told(w0, w) && w.cluster == w0.cluster && Old(w0, w) != {} && New(w0, w) != {}
      && |Owned(w.machines)| == w.cluster.value.spec.replicas
      && forall n :: n in Owned(w.machines) ==>
           HealthFor(health, n) == Passes && EtcdMachineAddress(w.machines[n]) != ""
  {
    es := HalfDone(w0, ds, m);
    HalfDoneAddresses(w0, Run(w0, ds, es), m, addresses);
    ghost var before := Run(w0, ds, es);
    es := AddressArrives(w0, ds, es, m, addresses);
    var w := Run(w0, ds, es);
    Parts(w0, w);
    AllAddressed(w0, before, w, m, addresses, health);
  }

  lemma AllAddressed(
    w0: World, before: World, w: World, m: Name, addresses: seq<MachineAddress>, health: map<Name, Health>)
    requires New(w0, w) == {m} && m in before.machines && AddressIn(addresses) != "" && HealthFor(health, m) == Passes
    requires w.machines == before.machines[m := before.machines[m].(addresses := addresses)]
    requires forall k :: k in w0.machines ==>
      && k in before.machines && EtcdMachineAddress(before.machines[k]) == EtcdMachineAddress(w0.machines[k]) != ""
      && HealthFor(health, k) == Passes
    requires m !in w0.machines
    ensures forall n :: n in w.machines ==> HealthFor(health, n) == Passes && EtcdMachineAddress(w.machines[n]) != ""
  {
    OnlyAddresses(before.machines[m], addresses);
    forall n | n in w.machines ensures HealthFor(health, n) == Passes && EtcdMachineAddress(w.machines[n]) != "" {
      assert n in w0.machines || n in New(w0, w);
    }
  }

  lemma StillHalfDone(w0: World, ds: Domains, es: seq<Event>, health: map<Name, Health>)
    requires PossibleRun(w0, ds, es)
    requires
      var w := Run(w0, ds, es);
      && UnderWay(w0, w) && New(w0, w) != {} && Old(w0, w) != {}
      && ReconcileStep(w, ds, ListsLate(health)).0.machines == w.machines
      && ReconcileStep(w, ds, ListsLate(health)).0.cluster.Some?
      && ReconcileStep(w, ds, ListsLate(health)).0.cluster.value.spec == w.cluster.value.spec
    ensures PossibleRun(w0, ds, es + [Reconciled(ListsLate(health))])
    ensures
      var w, w' := Run(w0, ds, es), Run(w0, ds, es + [Reconciled(ListsLate(health))]);
      && w' == ReconcileStep(w, ds, ListsLate(health)).0
      && Started(w0, w') && NeedRollout(w'.machines, w'.cluster.value.spec) != {}
  {
    RunMore(w0, ds, es, Reconciled(ListsLate(health)));
    Parts(w0, Run(w0, ds, es));
  }

  lemma HalfDoneAddresses(w0: World, w: World, m: Name, addresses: seq<MachineAddress>)
    requires w0.machines.Keys <= w.machines.Keys && New(w0, w) == {m} && KeepsAddresses(w0.machines, w.machines)
    requires AddressIn(addresses) != ""
    requires forall k :: k in w0.machines ==> EtcdMachineAddress(w0.machines[k]) !in ["", AddressIn(addresses)]
    ensures m in w.machines && EtcdMachineAddress(w.machines[m]) == ""
    ensures forall k :: k in w0.machines ==> EtcdMachineAddress(w.machines[k]) == EtcdMachineAddress(w0.machines[k])
    ensures forall k :: k in w.machines ==> EtcdMachineAddress(w.machines[k]) != AddressIn(addresses)
  {
    assert m in New(w0, w);
    forall k | k in w0.machines ensures EtcdMachineAddress(w.machines[k]) == EtcdMachineAddress(w0.machines[k]) {
      MemberSafety.SameAddress(w0.machines[k], w.machines[k]);
    }
    forall k | k in w.machines ensures EtcdMachineAddress(w.machines[k]) != AddressIn(addresses) {
      assert k in w0.machines || k in New(w0, w);
    }
  }
}
