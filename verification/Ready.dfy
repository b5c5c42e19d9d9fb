/** What the status says while a rollout goes on, when Ready is set at all, and that the periodic
    health check stands back. */
module Ready {
  import opened Text
  import opened Machines
  import opened EtcdPlane
  import opened Cluster
  import opened ReconcileSpec
  import opened HealthCheck
  import opened Runs
  import opened Rollout
  import opened Pacing

  // ----- When the status block sets Ready -----

  /** All machines seen by the status block are healthy, and they are as many as asked for. */
  ghost predicate AllHealthy(ec: EtcdadmCluster, checked: map<Name, EtcdMachine>) {
    |checked| == ec.spec.replicas && forall n :: n in checked ==> checked[n].Healthy()
  }

  lemma HealthyTable(ec: EtcdadmCluster, checked: map<Name, EtcdMachine>, order: seq<Name>)
    requires Visits(order, checked.Keys)
    ensures AllHealthy(ec, checked) <==>
              |HealthyMachines(checked)| == ec.spec.replicas && FirstUnhealthy(checked, order).None?
  {
    var healthy := HealthyMachines(checked);
    SubsetSize(healthy, checked.Keys);
    assert |checked| == |checked.Keys|;
    if forall n :: n in checked ==> checked[n].Healthy() {
      assert healthy == checked.Keys;
    }
  }

  /** The status block with all machines healthy, and otherwise. */
  lemma StatusPublishes(ec: EtcdadmCluster, secret: Secret, checked: map<Name, EtcdMachine>, a: Answers)
    requires !ec.deleting && AllHealthy(ec, checked)
    ensures
      var order := Arrange(checked.Keys, a.order);
      var ec' := ec.(conditions := ec.conditions.(resizeCompleted := True, endpointsAvailable := True),
                     status := ec.status.(readyReplicas := |HealthyMachines(checked)|, ready := true));
      UpdateStatus(ec, secret, checked, a) == PublishEndpoints(ec', secret, Sort(Endpoints(checked, order)), a)
  {
    HealthyTable(ec, checked, Arrange(checked.Keys, a.order));
  }

  lemma StatusIdles(ec: EtcdadmCluster, secret: Secret, checked: map<Name, EtcdMachine>, a: Answers)
    requires ec.deleting || !AllHealthy(ec, checked)
    ensures
      var (ec', secret', ok) := UpdateStatus(ec, secret, checked, a);
      ec'.status.endpoints == ec.status.endpoints && secret' == secret
  {
    HealthyTable(ec, checked, Arrange(checked.Keys, a.order));
  }

  lemma PublishWrites(ec: EtcdadmCluster, secret: Secret, urls: seq<string>, a: Answers)
    ensures
      var (ec', secret', ok) := PublishEndpoints(ec, secret, urls, a);
      && ec'.status.endpoints == Join(urls)
      && if ec.status.endpoints != Join(urls) && a.secretRead && a.secretWrite
         then secret' == Secret(if urls == [] then "" else MachineAddressFromClientURL(urls[0]), Join(urls))
         else secret' == secret
  {
  }

  lemma PublishingIsReady(ec: EtcdadmCluster, secret: Secret, endpoints: seq<string>, a: Answers)
    ensures PublishEndpoints(ec, secret, endpoints, a).0.status.ready == ec.status.ready
  {
  }

  lemma NotAllHealthy(ec: EtcdadmCluster, secret: Secret, checked: map<Name, EtcdMachine>, a: Answers)
    requires !ec.deleting && !AllHealthy(ec, checked)
    ensures
      UpdateStatus(ec, secret, checked, a).0.status.ready ==>
        ec.status.ready && |HealthyMachines(checked)| == ec.spec.replicas
  {
    HealthyTable(ec, checked, Arrange(checked.Keys, a.order));
  }

  lemma HealthyCount(checked: map<Name, EtcdMachine>)
    ensures |HealthyMachines(checked)| <= |checked|
    ensures |HealthyMachines(checked)| == |checked| ==> forall n :: n in checked ==> checked[n].Healthy()
  {
    SubsetSize(HealthyMachines(checked), checked.Keys);
    assert |checked| == |checked.Keys|;
    if |HealthyMachines(checked)| == |checked| {
      assert forall n :: n in checked ==> n in HealthyMachines(checked);
    }
  }

  lemma MoreThanHealthy(ec: EtcdadmCluster, checked: map<Name, EtcdMachine>)
    requires |HealthyMachines(checked)| == ec.spec.replicas && !AllHealthy(ec, checked)
    ensures |checked| > ec.spec.replicas
  {
    HealthyCount(checked);
  }

  /** Ready is newly set only when exactly the machines asked for are owned and all are healthy.
      With no more machines than that it is cleared otherwise. */
  lemma ReadyTable(ec: EtcdadmCluster, secret: Secret, checked: map<Name, EtcdMachine>, a: Answers)
    requires !ec.deleting
    ensures
      var ready := UpdateStatus(ec, secret, checked, a).0.status.ready;
      && (AllHealthy(ec, checked) ==> ready)
      && (ready ==> AllHealthy(ec, checked) || (ec.status.ready && |checked| > ec.spec.replicas))
  {
    if AllHealthy(ec, checked) {
      StatusPublishes(ec, secret, checked, a);
      var ec' := ec.(conditions := ec.conditions.(resizeCompleted := True, endpointsAvailable := True),
                     status := ec.status.(readyReplicas := |HealthyMachines(checked)|, ready := true));
      PublishingIsReady(ec', secret, Sort(Endpoints(checked, Arrange(checked.Keys, a.order))), a);
    } else {
      NotAllHealthy(ec, secret, checked, a);
      if |HealthyMachines(checked)| == ec.spec.replicas {
        MoreThanHealthy(ec, checked);
      }
    }
  }

  lemma FinishReady(w: World, ec: EtcdadmCluster, r: Result, a: Answers)
    requires !ec.deleting && Persisted(a)
    ensures
      var w' := Finish(w, ec, r, a).0;
      var checked := CheckOwnedMachines(w.machines, a.health);
      && w'.cluster.Some?
      && (ec.Rolling() ==> !w'.cluster.value.status.ready)
      && (!ec.Rolling() && AllHealthy(ec, checked) ==> w'.cluster.value.status.ready)
      && (w'.cluster.value.status.ready ==>
            AllHealthy(ec, checked) || (ec.status.ready && |checked| > ec.spec.replicas))
  {
    var checked := CheckOwnedMachines(w.machines, a.health);
    StatusKeeps(ec, w.secret, checked, a);
    ReadyTable(ec, w.secret, checked, a);
    var ec' := UpdateStatus(ec, w.secret, checked, a).0;
    assert DecidesLike(ec, ec');
  }

  lemma FinishAsksAgain(w: World, ec: EtcdadmCluster, r: Result, a: Answers)
    requires !ec.deleting
    ensures
      var (w', r') := Finish(w, ec, r, a);
      !r'.failed ==> Persisted(a) && w'.cluster.Some? && (w'.cluster.value.status.ready || r'.requeue != NoRequeue)
  {
    StatusKeeps(ec, w.secret, CheckOwnedMachines(w.machines, a.health), a);
  }

  /** A Reconcile that ends without error and without Ready asks to be run again, after a
      positive time. */
  lemma ReconcileRequeues(w: World, ds: Domains, a: Answers)
    requires Live(w) && a.entry == Proceeds
    ensures
      var (w', r) := ReconcileStep(w, ds, a);
      !r.failed && w'.cluster.Some? && !w'.cluster.value.status.ready ==>
        r.requeue != NoRequeue && (r.requeue.After? ==> r.requeue.seconds > 0)
  {
    var ec := w.cluster.value;
    var d := Decide(w.machines, ec, w.now, a);
    var (f, ok) := Act(w.Fleet(), ec.spec, w.now, ds, a, d);
    assert ResultOf(d, ok).requeue.After? ==> ResultOf(d, ok).requeue.seconds > 0 by {
      WaitsArePositive(w.machines, ec, w.now, a);
    }
    FinishAsksAgain(w.WithFleet(f), Mark(w.machines, ec, d, a), ResultOf(d, ok), a);
    FinishRequeue(w.WithFleet(f), Mark(w.machines, ec, d, a), ResultOf(d, ok), a);
  }

  lemma WaitsArePositive(ms: Machines, ec: EtcdadmCluster, now: int, a: Answers)
    ensures Decide(ms, ec, now, a).WaitForAge? ==> Decide(ms, ec, now, a).seconds > 0
  {
  }

  lemma FinishRequeue(w: World, ec: EtcdadmCluster, r: Result, a: Answers)
    ensures
      var r' := Finish(w, ec, r, a).1;
      r'.requeue == r.requeue || r'.requeue == After(20)
  {
  }

  lemma HealthyMeans(w: World, ec: EtcdadmCluster, a: Answers)
    requires w.cluster.Some? && w.cluster.value.spec == ec.spec
    requires AllHealthy(ec, CheckOwnedMachines(w.machines, a.health))
    ensures AllOwnedHealthy(w, a)
  {
    var checked := CheckOwnedMachines(w.machines, a.health);
    assert checked.Keys == Owned(w.machines);
    assert |checked| == |checked.Keys|;
    forall n | n in Owned(w.machines) ensures HealthFor(a.health, n) == Passes && EtcdMachineAddress(w.machines[n]) != "" {
      assert checked[n].Healthy();
    }
  }

  lemma MeansHealthy(w: World, ec: EtcdadmCluster, a: Answers)
    requires w.cluster.Some? && w.cluster.value.spec == ec.spec && AllOwnedHealthy(w, a)
    ensures AllHealthy(ec, CheckOwnedMachines(w.machines, a.health))
  {
    var checked := CheckOwnedMachines(w.machines, a.health);
    AsManyChecked(w.machines, a.health);
    forall n | n in checked ensures checked[n].Healthy() {
      assert n in Owned(w.machines);
    }
  }

  lemma AsManyChecked(ms: Machines, health: map<Name, Health>)
    ensures |CheckOwnedMachines(ms, health)| == |Owned(ms)|
  {
    var checked := CheckOwnedMachines(ms, health);
    assert checked.Keys == Owned(ms);
    assert |checked| == |checked.Keys|;
  }

  /** What the deferred block leaves in the API server, as far as Ready is concerned. */
  lemma FinishedReady(w: World, ec: EtcdadmCluster, r: Result, a: Answers)
    requires !ec.deleting && Persisted(a)
    ensures
      var w' := Finish(w, ec, r, a).0;
      && w'.cluster.Some? && w'.machines == w.machines
      && (w'.cluster.value.Rolling() ==> !w'.cluster.value.status.ready)
      && (!w'.cluster.value.Rolling() && AllOwnedHealthy(w', a) ==> w'.cluster.value.status.ready)
      && (w'.cluster.value.status.ready ==>
            AllOwnedHealthy(w', a) || (ec.status.ready && |Owned(w'.machines)| > ec.spec.replicas))
  {
    FinishKeeps(w, ec, r, a);
    FinishReady(w, ec, r, a);
    AsManyChecked(w.machines, a.health);
    if AllHealthy(ec, CheckOwnedMachines(w.machines, a.health)) {
      HealthyMeans(Finish(w, ec, r, a).0, ec, a);
    } else if AllOwnedHealthy(Finish(w, ec, r, a).0, a) {
      MeansHealthy(Finish(w, ec, r, a).0, ec, a);
    }
  }

  /** What a Reconcile leaves in the API server, as far as Ready is concerned. */
  lemma ReconcileReady(w: World, ds: Domains, a: Answers)
    requires Live(w) && a.entry == Proceeds && Persisted(a)
    ensures
      var w' := ReconcileStep(w, ds, a).0;
      && Live(w')
      && (w'.cluster.value.Rolling() ==> !w'.cluster.value.status.ready)
      && (!w'.cluster.value.Rolling() && AllOwnedHealthy(w', a) ==> w'.cluster.value.status.ready)
      && (w'.cluster.value.status.ready ==>
            || AllOwnedHealthy(w', a)
            || (w.cluster.value.status.ready && |Owned(w'.machines)| > w.cluster.value.spec.replicas))
  {
    var (f, marked, r) := ReconcileNormal(w.Fleet(), w.cluster.value, w.now, ds, a);
    FinishKeeps(w.WithFleet(f), marked, r, a);
    FinishedReady(w.WithFleet(f), marked, r, a);
  }

  /** All machines asked for are owned, have an address and passed their checks. */
  ghost predicate AllOwnedHealthy(w: World, a: Answers)
    requires w.cluster.Some?
  {
    && |Owned(w.machines)| == w.cluster.value.spec.replicas
    && forall n :: n in Owned(w.machines) ==> HealthFor(a.health, n) == Passes && EtcdMachineAddress(w.machines[n]) != ""
  }

  // ----- During a rollout -----

  /** A Reconcile that finds N owned machines all matching the spec and all healthy. */
  ghost predicate FindsItDone(ds: Domains, w: World, e: Event) {
    && w.cluster.Some? && e.Reconciled? && e.a.entry == Proceeds
    && var w' := ReconcileStep(w, ds, e.a).0;
    w'.cluster.Some? && RolledOut(w') && AllOwnedHealthy(w', e.a)
  }

  ghost function NotYetDone(ds: Domains): (World, Event) -> bool {
    (w, e) => !FindsItDone(ds, w, e)
  }

  /** The rollout has taken its first step. */
  predicate Started(w0: World, w: World)
    requires w.cluster.Some?
  {
    New(w0, w) != {} || |Old(w0, w)| < w.cluster.value.spec.replicas
  }

  /** The EtcdadmCluster says that a rollout is under way, or nothing needs one any more. */
  predicate Announced(w0: World, w: World)
    requires w.cluster.Some?
  {
    w.cluster.value.Rolling() || (Old(w0, w) == {} && w.cluster.value.conditions.specUpToDate == True)
  }

  /** No rollout is marked, or this one is, with Ready false. */
  predicate MarkedRightly(w: World) {
    w.cluster.Some? && w.cluster.value.conditions.specUpToDate.False? ==>
      w.cluster.value.Rolling() && !w.cluster.value.status.ready
  }

  ghost predicate Quiet(w0: World, w: World) {
    && Paced(w0, w)
    && (w.cluster.value.conditions.specUpToDate.False? ==> w.cluster.value.Rolling())
    && (Started(w0, w) ==> Announced(w0, w))
    && (Started(w0, w) || w.cluster.value.Rolling() ==> !w.cluster.value.status.ready)
  }

  lemma StaysAnnounced(w0: World, w: World, ds: Domains, a: Answers)
    requires Quiet(w0, w) && PicksEligible(ds) && a.entry == Proceeds && SaysSo(w, Reconciled(a))
    ensures
      var w' := ReconcileStep(w, ds, a).0;
      && UnderWay(w0, w') && w'.machines.Keys >= w.machines.Keys
      && (w'.cluster.value.conditions.specUpToDate.False? ==> w'.cluster.value.Rolling())
      && (Started(w0, w') ==> Announced(w0, w'))
      && (!Persisted(a) ==> w'.cluster == w.cluster && (Started(w0, w') ==> Started(w0, w) || w.cluster.value.Rolling()))
  {
    var w' := ReconcileStep(w, ds, a).0;
    var d, move := ReconcileMoves(w0, w, ds, a);
    Decisions(w0, w, a, d);
    if move.Makes? {
      AfterCreation(w0.machines.Keys, w.machines, move.name, w'.machines[move.name]);
    } else if move.Lets? {
      AfterDisowning(w0.machines.Keys, w.machines, move.name);
    }
    assert Old(w0, w) == {} <==> |Old(w0, w)| == 0;
  }

  lemma QuietReconcile(w0: World, w: World, ds: Domains, a: Answers)
    requires Quiet(w0, w) && PicksEligible(ds) && a.entry == Proceeds && SaysSo(w, Reconciled(a))
    requires !FindsItDone(ds, w, Reconciled(a))
    ensures Quiet(w0, ReconcileStep(w, ds, a).0)
  {
    var w' := ReconcileStep(w, ds, a).0;
    PacedReconcile(w0, w, ds, a);
    StaysAnnounced(w0, w, ds, a);
    Parts(w0, w');
    if Persisted(a) {
      ReconcileReady(w, ds, a);
      assert Old(w0, w') == {} ==> |Owned(w'.machines)| <= w'.cluster.value.spec.replicas;
    }
  }

  lemma QuietEnvironment(w0: World, w: World, ds: Domains, e: Event)
    requires Quiet(w0, w) && Possible(w, e) && DuringRollout(e) && !e.Reconciled?
    ensures Quiet(w0, Apply(w, ds, e))
  {
    PacedEnvironment(w0, w, ds, e);
    EnvironmentKeeps(w0, w, ds, e);
    EnvironmentFrame(w, ds, e);
  }

  lemma {:induction false} StaysQuiet(w0: World, ds: Domains, es: seq<Event>)
    requires RolloutStart(w0) && PicksEligible(ds) && MarkedRightly(w0)
    requires PossibleRun(w0, ds, es) && forall e :: e in es ==> DuringRollout(e)
    requires Along(w0, ds, es, SaysSo) && Along(w0, ds, es, NotYetDone(ds))
    ensures Quiet(w0, Run(w0, ds, es))
  {
    if es == [] {
      QuietStart(w0);
    } else {
      var e := es[|es| - 1];
      StaysQuiet(w0, ds, es[..|es| - 1]);
      var w := Run(w0, ds, es[..|es| - 1]);
      if !e.Reconciled? {
        QuietEnvironment(w0, w, ds, e);
      } else if e.a.entry != Proceeds {
        ReconcileBlocked(w, ds, e.a);
      } else {
        QuietReconcile(w0, w, ds, e.a);
      }
    }
  }

  lemma QuietStart(w0: World)
    requires RolloutStart(w0) && MarkedRightly(w0)
    ensures Quiet(w0, w0)
  {
    StartsUnderWay(w0);
  }

  lemma RoundPauses(w: World, c: Checker, r: RoundAnswers)
    requires w.cluster.Some? && w.cluster.value.Rolling()
    ensures Passed(w, r) && Round(w, c, r, []) == (w, c)
  {
  }

  /** From the first step of a rollout on, until a Reconcile finds N owned machines that all match
      and are all healthy, in runs in which each patch gets through until one has said that the
      rollout is under way: the API server says so, or nothing needs a rollout any more; Ready is
      false there; and a round of the health check changes nothing while the rollout is marked. */
  lemma NotReadyDuringRollout(w0: World, ds: Domains, es: seq<Event>, c: Checker, r: RoundAnswers)
    requires RolloutStart(w0) && PicksEligible(ds) && MarkedRightly(w0)
    requires PossibleRun(w0, ds, es) && forall e :: e in es ==> DuringRollout(e)
    requires Along(w0, ds, es, SaysSo) && Along(w0, ds, es, NotYetDone(ds))
    ensures
      var w := Run(w0, ds, es);
      && w.cluster.Some?
      && (Started(w0, w) ==>
            && Announced(w0, w) && !w.cluster.value.status.ready
            && (w.cluster.value.Rolling() || NeedRollout(w.machines, w.cluster.value.spec) == {}))
      && (w.cluster.value.Rolling() ==> Passed(w, r) && Round(w, c, r, []) == (w, c))
  {
    var w := Run(w0, ds, es);
    StaysQuiet(w0, ds, es);
    Parts(w0, w);
    if w.cluster.value.Rolling() {
      RoundPauses(w, c, r);
    }
  }

  // ----- Rounds of the health check during a rollout -----

  /** Rounds of the health check fall only in the time when the EtcdadmCluster says that a rollout
      is under way. */
  ghost predicate RoundsWhileRolling(w: World, e: Event) {
    e.HealthRound? ==> w.cluster.Some? && w.cluster.value.Rolling()
  }

  function WithoutRounds(es: seq<Event>): seq<Event> {
    if es == [] then []
    else WithoutRounds(es[..|es| - 1]) + if es[|es| - 1].HealthRound? then [] else [es[|es| - 1]]
  }

  /** A run with such rounds goes where the run without them goes. */
  lemma {:induction false} RoundsAreInvisible(w0: World, ds: Domains, es: seq<Event>)
    requires PossibleRun(w0, ds, es) && Along(w0, ds, es, RoundsWhileRolling)
    ensures PossibleRun(w0, ds, WithoutRounds(es)) && Run(w0, ds, WithoutRounds(es)) == Run(w0, ds, es)
    ensures forall e :: e in WithoutRounds(es) ==> e in es && !e.HealthRound?
  {
    if es != [] {
      var most, e := es[..|es| - 1], es[|es| - 1];
      RoundsAreInvisible(w0, ds, most);
      if e.HealthRound? {
        RollingRound(Run(w0, ds, most), ds, e);
        assert WithoutRounds(es) == WithoutRounds(most);
      } else {
        RunMore(w0, ds, WithoutRounds(most), e);
      }
    }
  }

  lemma RollingRound(w: World, ds: Domains, e: Event)
    requires e.HealthRound? && Possible(w, e) && w.cluster.Some? && w.cluster.value.Rolling()
    ensures Apply(w, ds, e) == w
  {
  }

  // ----- Rounds at any other time -----

  /** The round finds the rollout marked, or fewer than N machines active, or nothing to remove.
      Outside of that a round may remove a machine, as it may before the rollout has begun. */
  ghost predicate RoundsHarmless(w: World, e: Event) {
    e.HealthRound? && w.cluster.Some? ==>
      || w.cluster.value.Rolling()
      || |ActiveOwned(w.machines)| < w.cluster.value.spec.replicas
      || !Removes(w, e.c, e.r)
  }

  lemma HarmlessRound(w: World, ds: Domains, e: Event)
    requires Live(w) && e.HealthRound? && Possible(w, e) && RoundsHarmless(w, e)
    ensures
      var w' := Apply(w, ds, e);
      && w'.Fleet() == w.Fleet() && w'.now == w.now && Live(w')
      && w'.cluster.value == w.cluster.value.(status := w'.cluster.value.status)
  {
    if Removes(w, e.c, e.r) && !w.cluster.value.Rolling() {
      var c := Checked(e.c, w.machines, w.cluster.value, e.r);
      IdleTurns(w.Fleet(), c, e.order, w.cluster.value.spec.replicas, e.r.removals);
    }
  }

  lemma HarmlessKeeps(w0: World, w: World, ds: Domains, e: Event)
    requires UnderWay(w0, w) && Told(w0, w) && e.HealthRound? && Possible(w, e) && RoundsHarmless(w, e)
    ensures UnderWay(w0, Apply(w, ds, e)) && Told(w0, Apply(w, ds, e))
  {
    HarmlessRound(w, ds, e);
    ReaddressingKeeps(w0, w, Apply(w, ds, e));
  }

  /** A whole rollout is in order with the health checker beside it, in every run in which no round
      finds N active machines, a machine to remove, and no mark of the rollout. */
  lemma {:induction false} WholeRolloutWithRounds(w0: World, ds: Domains, es: seq<Event>)
    requires RolloutStart(w0) && PicksEligible(ds)
    requires PossibleRun(w0, ds, es) && Along(w0, ds, es, RoundsHarmless)
    requires forall e :: e in es ==> DuringRollout(e) || e.HealthRound?
    ensures
      var w := Run(w0, ds, es);
      InOrder(w0, w) && UnderWay(w0, w) && Told(w0, w)
  {
    if es == [] {
      StartsUnderWay(w0);
    } else {
      var most, e := es[..|es| - 1], es[|es| - 1];
      WholeRolloutWithRounds(w0, ds, most);
      if e.HealthRound? {
        HarmlessKeeps(w0, Run(w0, ds, most), ds, e);
      } else {
        RolloutStepKeeps(w0, Run(w0, ds, most), ds, e);
      }
    }
    UnderWayInOrder(w0, Run(w0, ds, es));
  }
}
