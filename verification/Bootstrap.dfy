/** The start of a cluster: one machine until initialisation has been observed, then one more per
    step up to N; and when creation counts as complete. */
module Bootstrap {
  import opened Machines
  import opened EtcdPlane
  import opened Membership
  import opened Cluster
  import opened ReconcileSpec
  import opened HealthCheck
  import opened Runs
  import opened Rollout
  import opened Effects
  import opened Ready
  import opened Pacing

  // ----- States -----

  predicate AllCurrent(ms: Machines, spec: Spec) {
    forall n :: n in ms ==> Current(ms[n], spec)
  }

  /** No machines, and nothing has been said about initialisation. */
  predicate BootstrapStart(w: World) {
    && w.cluster.Some? && !w.cluster.value.deleting && w.cluster.value.spec.Valid()
    && w.machines == map[]
    && w.cluster.value.conditions.initialized == Unknown
    && !w.cluster.value.status.creationComplete
  }

  /** More than one machine only once a Reconcile has seen the initialisation reported. */
  ghost predicate Booting(w: World, spec: Spec) {
    && w.cluster.Some? && w.cluster.value.spec == spec && !w.cluster.value.deleting && spec.Valid()
    && AllCurrent(w.machines, spec) && |w.machines| <= spec.replicas
    && (w.machines != map[] ==> w.cluster.value.finalizer)
    && var initialized := w.cluster.value.conditions.initialized;
    && (initialized == True ==> w.cluster.value.status.initialized)
    && (|w.machines| == 0 ==> initialized != True)
    && (|w.machines| == 1 ==> initialized != Unknown)
    && (|w.machines| > 1 ==> initialized == True)
  }

  predicate DuringBootstrap(e: Event) {
    e.Reconciled? || e.HealthRound? || e.Addressed? || e.Joined? || e.Ticked? || e.InitReported? || e.ControlPlaneUpgraded?
  }

  /** A Reconcile that finds no machine persists what it marks, unless the EtcdadmCluster says
      already that initialisation is awaited. */
  ghost predicate SaysFirst(w: World, e: Event) {
    e.Reconciled? && w.machines == map[] ==>
      Persisted(e.a) || (w.cluster.Some? && w.cluster.value.conditions.initialized.False?)
  }

  // ----- Machines -----

  lemma CurrentSets(ms: Machines, spec: Spec)
    requires AllCurrent(ms, spec)
    ensures Owned(ms) == ActiveOwned(ms) == ms.Keys && |Owned(ms)| == |ms|
    ensures Unowned(ms) == {} && NeedRollout(ms, spec) == {}
    ensures ms == map[] <==> |ms| == 0
  {
    assert Owned(ms) == ms.Keys;
    assert ActiveOwned(ms) == ms.Keys;
    assert |ms.Keys| == |ms|;
  }

  lemma OneMoreMachine(ms: Machines, n: Name, m: Machine)
    requires n !in ms
    ensures |ms[n := m]| == |ms| + 1
  {
    assert ms[n := m].Keys == ms.Keys + {n};
    AddOne(ms.Keys, n);
  }

  // ----- One Reconcile -----

  lemma BootingDecides(w: World, a: Answers, d: Decision)
    requires w.cluster.Some? && Booting(w, w.cluster.value.spec) && DecisionFacts(w.machines, w.cluster.value, w.now, a, d)
    ensures
      var count, replicas := |w.machines|, w.cluster.value.spec.replicas;
      var initialized := w.cluster.value.conditions.initialized;
      && (d.Unreadable? || d.WholePlaneUnreadable? || d.InScale()) && !d.ScaleDown?
      && (d.Initialize? ==> count == 0)
      && (d.NoteInit? ==> count == 1 && w.cluster.value.status.initialized)
      && (d.AwaitInit? ==> count == 1 && !w.cluster.value.status.initialized)
      && (d.ScaleUp? ==> initialized == True && 0 < count < replicas)
      && (d.Settled? ==> count == replicas && initialized == True)
  {
    CurrentSets(w.machines, w.cluster.value.spec);
  }

  /** The machines after the step: the same, or one more. */
  lemma BootingActs(w: World, ds: Domains, a: Answers, d: Decision)
    requires w.cluster.Some? && Booting(w, w.cluster.value.spec) && DecisionFacts(w.machines, w.cluster.value, w.now, a, d)
    ensures
      var spec := w.cluster.value.spec;
      var ms := Act(w.Fleet(), spec, w.now, ds, a, d).0.machines;
      && AllCurrent(ms, spec)
      && if (d.Initialize? && a.firstCertificates && a.creation && a.newName !in w.machines)
            || (d.ScaleUp? && a.creation && a.newName !in w.machines)
         then |ms| == |w.machines| + 1
         else ms == w.machines
  {
    BootingDecides(w, a, d);
    var spec := w.cluster.value.spec;
    OneMoreMachineIf(w.machines, a.newName, MachineMade(w.Fleet(), spec, w.now, ds));
  }

  lemma OneMoreMachineIf(ms: Machines, n: Name, m: Machine)
    ensures n !in ms ==> |ms[n := m]| == |ms| + 1
  {
    if n !in ms {
      OneMoreMachine(ms, n, m);
    }
  }

  lemma BootingStep(w: World, w': World, a: Answers, d: Decision, marked: EtcdadmCluster)
    requires w.cluster.Some? && Booting(w, w.cluster.value.spec) && Live(w) && SaysFirst(w, Reconciled(a))
    requires DecisionFacts(w.machines, w.cluster.value, w.now, a, d) && MarkFacts(w.machines, w.cluster.value, d, marked)
    requires Live(w') && w'.cluster.value.spec == w.cluster.value.spec
    requires if Persisted(a) then DecidesLike(marked, w'.cluster.value) else w'.cluster == w.cluster
    requires AllCurrent(w'.machines, w.cluster.value.spec)
    requires w'.machines == w.machines || (|w'.machines| == |w.machines| + 1 && (d.Initialize? || d.ScaleUp?))
    ensures Booting(w', w.cluster.value.spec)
  {
    BootingDecides(w, a, d);
    CurrentSets(w.machines, w.cluster.value.spec);
  }

  lemma BootingReconcile(w: World, ds: Domains, a: Answers)
    requires w.cluster.Some? && Booting(w, w.cluster.value.spec) && SaysFirst(w, Reconciled(a))
    ensures
      var w' := ReconcileStep(w, ds, a).0;
      && Booting(w', w.cluster.value.spec) && |w.machines| <= |w'.machines| <= |w.machines| + 1
      && (|w'.machines| > |w.machines| > 0 ==> w.cluster.value.conditions.initialized == True)
  {
    if Live(w) && a.entry == Proceeds {
      var d, marked := ReconcileLive(w, ds, a);
      BootingDecides(w, a, d);
      BootingActs(w, ds, a, d);
      BootingStep(w, ReconcileStep(w, ds, a).0, a, d, marked);
    }
  }

  // ----- When creation is complete -----

  lemma NotAllHealthyCompletesNothing(ec: EtcdadmCluster, secret: Secret, checked: map<Name, EtcdMachine>, a: Answers)
    requires ec.deleting || !AllHealthy(ec, checked)
    ensures UpdateStatus(ec, secret, checked, a).0.status.creationComplete == ec.status.creationComplete
  {
    HealthyTable(ec, checked, Arrange(checked.Keys, a.order));
  }

  lemma StatusCompletes(ec: EtcdadmCluster, secret: Secret, checked: map<Name, EtcdMachine>, a: Answers)
    ensures
      var ec' := UpdateStatus(ec, secret, checked, a).0;
      && (ec.status.creationComplete ==> ec'.status.creationComplete)
      && (ec'.status.creationComplete ==> ec.status.creationComplete || AllHealthy(ec, checked))
  {
    StatusKeeps(ec, secret, checked, a);
    if ec.deleting || !AllHealthy(ec, checked) {
      NotAllHealthyCompletesNothing(ec, secret, checked, a);
    }
  }

  lemma FinishCompletes(w: World, ec: EtcdadmCluster, r: Result, a: Answers)
    requires w.cluster.Some? && ec.status == w.cluster.value.status
    ensures
      var w' := Finish(w, ec, r, a).0;
      w'.cluster.Some? ==>
        && (w.cluster.value.status.creationComplete ==> w'.cluster.value.status.creationComplete)
        && (w'.cluster.value.status.creationComplete ==>
              w.cluster.value.status.creationComplete || AllHealthy(ec, CheckOwnedMachines(w.machines, a.health)))
  {
    if a.statusListing {
      var checked := CheckOwnedMachines(w.machines, a.health);
      StatusCompletes(ec, w.secret, checked, a);
      var (ec', secret, ok) := UpdateStatus(ec, w.secret, checked, a);
      PersistCompletes(w, ec', secret, ok, r, a);
    }
  }

  lemma PersistCompletes(w: World, ec: EtcdadmCluster, secret: Secret, ok: bool, r: Result, a: Answers)
    requires w.cluster.Some?
    ensures
      var w' := Persist(w, ec, secret, ok, r, a).0;
      w'.cluster.Some? ==>
        w'.cluster.value.status.creationComplete
        == if a.patch then ec.status.creationComplete else w.cluster.value.status.creationComplete
  {
  }

  /** A Reconcile never unsets CreationComplete, and sets it only when exactly N machines are
      owned, each with an address and a check that passed. */
  lemma ReconcileCompletes(w: World, ds: Domains, a: Answers)
    requires w.cluster.Some? && ReconcileStep(w, ds, a).0.cluster.Some?
    ensures
      var w' := ReconcileStep(w, ds, a).0;
      && (w.cluster.value.status.creationComplete ==> w'.cluster.value.status.creationComplete)
      && (w'.cluster.value.status.creationComplete && !w.cluster.value.status.creationComplete ==> AllOwnedHealthy(w', a))
  {
    var w' := ReconcileStep(w, ds, a).0;
    if w.cluster.value.finalizer && a.entry == Proceeds {
      var ec := w.cluster.value;
      if ec.deleting {
        var (f, marked, r) := ReconcileDelete(w.Fleet(), ec, a);
        FinishCompletes(w.WithFleet(f), marked, r, a);
        FinishFrame(w.WithFleet(f), marked, r, a);
        if w'.cluster.value.status.creationComplete && !ec.status.creationComplete {
          HealthyMeans(w', marked, a);
        }
      } else {
        var (f, marked, r) := ReconcileNormal(w.Fleet(), ec, w.now, ds, a);
        FinishCompletes(w.WithFleet(f), marked, r, a);
        FinishFrame(w.WithFleet(f), marked, r, a);
        if w'.cluster.value.status.creationComplete && !ec.status.creationComplete {
          HealthyMeans(w', marked, a);
        }
      }
    }
  }

  lemma FinishFrame(w: World, ec: EtcdadmCluster, r: Result, a: Answers)
    requires w.cluster.Some? && w.cluster.value.spec == ec.spec
    ensures
      var w' := Finish(w, ec, r, a).0;
      && w'.machines == w.machines
      && (w'.cluster.Some? ==> w'.cluster.value.spec == ec.spec)
  {
    StatusKeeps(ec, w.secret, CheckOwnedMachines(w.machines, a.health), a);
  }

  // ----- Runs -----

  lemma StepCompletes(w: World, ds: Domains, e: Event)
    requires w.cluster.Some? && Possible(w, e) && Apply(w, ds, e).cluster.Some?
    ensures
      var w' := Apply(w, ds, e);
      && (w.cluster.value.status.creationComplete ==> w'.cluster.value.status.creationComplete)
      && (w'.cluster.value.status.creationComplete && !w.cluster.value.status.creationComplete ==>
            e.Reconciled? && AllOwnedHealthy(w', e.a))
  {
    if e.Reconciled? {
      ReconcileCompletes(w, ds, e.a);
    }
  }

  lemma GoneStaysGone(w: World, ds: Domains, e: Event)
    requires w.cluster.None? && Possible(w, e)
    ensures Apply(w, ds, e).cluster.None?
  {
  }

  /** In every run, whatever happens: CreationComplete is never unset. */
  lemma {:induction false} NeverUnset(w0: World, ds: Domains, es: seq<Event>)
    requires w0.cluster.Some? && w0.cluster.value.status.creationComplete && PossibleRun(w0, ds, es)
    ensures Run(w0, ds, es).cluster.Some? ==> Run(w0, ds, es).cluster.value.status.creationComplete
  {
    if es != [] {
      var w := Run(w0, ds, es[..|es| - 1]);
      NeverUnset(w0, ds, es[..|es| - 1]);
      if w.cluster.None? {
        GoneStaysGone(w, ds, es[|es| - 1]);
      } else if Run(w0, ds, es).cluster.Some? {
        StepCompletes(w, ds, es[|es| - 1]);
      }
    }
  }

  /** Before creation is complete a round of the health check changes nothing at all. */
  lemma RoundWaits(w: World, c: Checker, r: RoundAnswers, order: seq<string>)
    requires w.cluster.Some? && !w.cluster.value.status.creationComplete
    ensures !Removes(w, c, r) && Round(w, c, r, order) == (w, c)
  {
  }

  lemma AddressedCurrent(ms: Machines, spec: Spec, n: Name, addresses: seq<MachineAddress>)
    requires AllCurrent(ms, spec) && n in ms
    ensures
      var ms' := ms[n := ms[n].(addresses := addresses)];
      AllCurrent(ms', spec) && |ms'| == |ms|
  {
    var ms' := ms[n := ms[n].(addresses := addresses)];
    assert ms'.Keys == ms.Keys;
    assert |ms'| == |ms'.Keys|;
  }

  lemma BootingEnvironment(w: World, ds: Domains, e: Event)
    requires w.cluster.Some? && Booting(w, w.cluster.value.spec)
    requires Possible(w, e) && DuringBootstrap(e) && !e.Reconciled? && !e.HealthRound?
    ensures Booting(Apply(w, ds, e), w.cluster.value.spec) && |Apply(w, ds, e).machines| == |w.machines|
  {
    if e.Addressed? {
      AddressedCurrent(w.machines, w.cluster.value.spec, e.n, e.addresses);
    }
  }

  /** No step takes a machine away or adds more than one, and after the first one it adds only
      when a Reconcile has noted the initialisation before. */
  lemma BootingEvent(w: World, ds: Domains, e: Event)
    requires w.cluster.Some? && Booting(w, w.cluster.value.spec) && !w.cluster.value.status.creationComplete
    requires Possible(w, e) && DuringBootstrap(e) && SaysFirst(w, e)
    ensures
      var w' := Apply(w, ds, e);
      && Booting(w', w.cluster.value.spec) && |w.machines| <= |w'.machines| <= |w.machines| + 1
      && (|w'.machines| > |w.machines| > 0 ==> w.cluster.value.conditions.initialized == True)
  {
    match e
    case Reconciled(a) => BootingReconcile(w, ds, a);
    case HealthRound(c, r, order) => RoundWaits(w, c, r, order);
    case _ => BootingEnvironment(w, ds, e);
  }

  lemma StartsBooting(w0: World)
    requires BootstrapStart(w0)
    ensures Booting(w0, w0.cluster.value.spec)
  {
  }

  /** In every run from zero machines, at every point until creation is complete and at the point
      where it first is: all machines are owned and match, they are at most N, and more than one
      only when initialisation was reported and a Reconcile has noted it. */
  lemma {:induction false} BootstrapOrder(w0: World, ds: Domains, es: seq<Event>)
    requires BootstrapStart(w0)
    requires PossibleRun(w0, ds, es) && forall e :: e in es ==> DuringBootstrap(e)
    requires Along(w0, ds, es, SaysFirst) && Along(w0, ds, es, StillIncomplete)
    ensures
      var w := Run(w0, ds, es);
      var spec := w0.cluster.value.spec;
      && Booting(w, spec)
      && |w.machines| <= spec.replicas && (forall n :: n in w.machines ==> Current(w.machines[n], spec))
      && (|w.machines| > 1 ==> w.cluster.value.status.initialized && w.cluster.value.conditions.initialized == True)
  {
    StartsBooting(w0);
    if es != [] {
      BootstrapOrder(w0, ds, es[..|es| - 1]);
      BootingEvent(Run(w0, ds, es[..|es| - 1]), ds, es[|es| - 1]);
    }
  }

  /** Creation was not complete before the event. */
  ghost predicate StillIncomplete(w: World, e: Event) {
    w.cluster.Some? ==> !w.cluster.value.status.creationComplete
  }

  /** When creation is first complete, N machines are owned, all of them match, none is
      terminating, and all passed their checks. */
  lemma BootstrapEnds(w0: World, ds: Domains, es: seq<Event>)
    requires BootstrapStart(w0) && es != []
    requires PossibleRun(w0, ds, es) && forall e :: e in es ==> DuringBootstrap(e)
    requires Along(w0, ds, es, SaysFirst) && Along(w0, ds, es, StillIncomplete)
    requires Run(w0, ds, es).cluster.Some? ==> Run(w0, ds, es).cluster.value.status.creationComplete
    ensures
      var w, e := Run(w0, ds, es), es[|es| - 1];
      var spec := w0.cluster.value.spec;
      && w.cluster.Some? && w.cluster.value.spec == spec
      && Owned(w.machines) == ActiveOwned(w.machines) == w.machines.Keys && |w.machines| == spec.replicas
      && e.Reconciled? && AllOwnedHealthy(w, e.a)
      && (spec.replicas > 1 ==> w.cluster.value.status.initialized)
  {
    BootstrapOrder(w0, ds, es);
    BootstrapOrder(w0, ds, es[..|es| - 1]);
    StepCompletes(Run(w0, ds, es[..|es| - 1]), ds, es[|es| - 1]);
    CurrentSets(Run(w0, ds, es).machines, w0.cluster.value.spec);
  }

  // ----- Progress -----

  /** Every step goes on: with its calls going well a Reconcile puts up the first machine, takes
      note of the initialisation, or puts up one more, until there are N. */
  lemma BootstrapProgress(w: World, ds: Domains, a: Answers)
    requires w.cluster.Some? && Booting(w, w.cluster.value.spec) && Live(w)
    requires Favourable(w, a) && a.firstCertificates && Persisted(a)
    ensures
      var w' := ReconcileStep(w, ds, a).0;
      var replicas := w.cluster.value.spec.replicas;
      var noted := w.cluster.value.conditions.initialized == True;
      && w'.cluster.Some?
      && (w.machines == map[] ==> |w'.machines| == 1)
      && (w.machines != map[] && !noted ==>
            w'.machines == w.machines
            && (w'.cluster.value.conditions.initialized == True <==> w.cluster.value.status.initialized))
      && (w.machines != map[] && noted ==>
            |w'.machines| == if |w.machines| < replicas then |w.machines| + 1 else |w.machines|)
  {
    var d, marked := ReconcileLive(w, ds, a);
    CurrentSets(w.machines, w.cluster.value.spec);
    BootingDecides(w, a, d);
    BootingActs(w, ds, a, d);
  }

  // ----- Where the order is lost -----

  /** While there is one machine and initialisation has not been reported, no machine is added
      exactly when the EtcdadmCluster in the API server says that initialisation is awaited. */
  lemma InitGateIsExact(w: World, ds: Domains, a: Answers)
    requires Live(w) && AllCurrent(w.machines, w.cluster.value.spec) && |w.machines| == 1 < w.cluster.value.spec.replicas
    requires !w.cluster.value.status.initialized && Favourable(w, a)
    ensures ReconcileStep(w, ds, a).0.machines == w.machines <==> w.cluster.value.conditions.initialized.False?
  {
    var d, marked := ReconcileLive(w, ds, a);
    CurrentSets(w.machines, w.cluster.value.spec);
    ScaleUpAdds(w.Fleet(), w.cluster.value.spec, w.now, ds, a, d);
  }

  lemma ScaleUpAdds(f: Fleet, spec: Spec, now: int, ds: Domains, a: Answers, d: Decision)
    requires a.creation && a.newName !in f.machines
    ensures d.ScaleUp? ==> Act(f, spec, now, ds, a, d).0.machines.Keys == f.machines.Keys + {a.newName}
    ensures d.AwaitInit? || d.NoteInit? || d.Settled? ==> Act(f, spec, now, ds, a, d).0 == f
  {
  }

  /** In every start with three or more replicas whose first Reconcile is not persisted the next one
      puts up a second machine before initialisation was reported, whatever becomes of its patch. */
  lemma LostPatchLosesTheOrder(w0: World, ds: Domains, a: Answers, b: Answers)
    requires BootstrapStart(w0) && Live(w0) && w0.cluster.value.spec.replicas >= 3
    requires !w0.cluster.value.status.initialized
    requires Willing(w0, a) && a.firstCertificates && !Persisted(a)
    requires Willing(w0, b) && b.newName != a.newName
    ensures
      var es := [Reconciled(a), Reconciled(b)];
      && PossibleRun(w0, ds, es)
      && var w := Run(w0, ds, es);
      |w.machines| == 2 && w.cluster.Some? && !w.cluster.value.status.initialized
  {
    TwoSteps(w0, ds, a, b);
    FirstLost(w0, ds, a);
    SecondMachine(ReconcileStep(w0, ds, a).0, ds, b);
  }

  lemma TwoSteps(w0: World, ds: Domains, a: Answers, b: Answers)
    ensures
      var es := [Reconciled(a), Reconciled(b)];
      PossibleRun(w0, ds, es) && Run(w0, ds, es) == ReconcileStep(ReconcileStep(w0, ds, a).0, ds, b).0
  {
    RunMore(w0, ds, [], Reconciled(a));
    assert [] + [Reconciled(a)] == [Reconciled(a)];
    RunMore(w0, ds, [Reconciled(a)], Reconciled(b));
    assert [Reconciled(a)] + [Reconciled(b)] == [Reconciled(a), Reconciled(b)];
  }

  lemma FirstLost(w0: World, ds: Domains, a: Answers)
    requires BootstrapStart(w0) && Live(w0) && Willing(w0, a) && a.firstCertificates && !Persisted(a)
    ensures
      var w1 := ReconcileStep(w0, ds, a).0;
      w1.cluster == w0.cluster && w1.machines.Keys == {a.newName} && AllCurrent(w1.machines, w0.cluster.value.spec)
  {
    var d, marked := ReconcileLive(w0, ds, a);
    CurrentSets(w0.machines, w0.cluster.value.spec);
    StartsBooting(w0);
    BootingActs(w0, ds, a, d);
    ActKeeps(w0.Fleet(), w0.cluster.value.spec, w0.now, ds, a, d);
  }

  lemma SecondMachine(w1: World, ds: Domains, b: Answers)
    requires Live(w1) && AllCurrent(w1.machines, w1.cluster.value.spec) && |w1.machines.Keys| == 1 && Willing(w1, b)
    requires w1.cluster.value.conditions.initialized == Unknown && w1.cluster.value.spec.replicas >= 3
    ensures
      var w := ReconcileStep(w1, ds, b).0;
      && |w.machines| == 2 && w.cluster.Some?
      && w.cluster.value.status.initialized == w1.cluster.value.status.initialized
  {
    var d, marked := ReconcileLive(w1, ds, b);
    CurrentSets(w1.machines, w1.cluster.value.spec);
    ScaleUpAdds(w1.Fleet(), w1.cluster.value.spec, w1.now, ds, b, d);
    AddOne(w1.machines.Keys, b.newName);
    var ms := ReconcileStep(w1, ds, b).0.machines;
    assert |ms| == |ms.Keys|;
  }
}
