/** Runs of the cluster: the controller's steps and those of its environment in any order. */
module Runs {
  import opened Wrappers
  import opened Text
  import opened Machines
  import opened EtcdPlane
  import opened Membership
  import opened Cluster
  import opened ReconcileSpec
  import opened HealthCheck

  /** `Reconciled` is one Reconcile, `HealthRound` one round of the health checker with whatever
      counters it holds, `RemovalTurn` one turn of its removal loop on its own. The others are
      steps of the environment. */
  datatype Event =
    | Reconciled(a: Answers)
    | HealthRound(c: Checker, r: RoundAnswers, order: seq<string>)
    | RemovalTurn(endpoint: string, machine: Name, outcome: RemovalOutcome)
    | Addressed(n: Name, addresses: seq<MachineAddress>)
    | Joined(member: Member)
    | Vanished(n: Name)
    | Ticked(seconds: nat)
    | InitReported
    | ControlPlaneUpgraded
    | DeletionRequested
    | OwnershipEdited(n: Name, owned: bool)

  ghost predicate Possible(w: World, e: Event) {
    match e
    case Reconciled(_) => true
    case HealthRound(c, r, order) =>
      Removes(w, c, r) ==> Visits(order, Checked(c, w.machines, w.cluster.value, r).toRemove.Keys)
    case RemovalTurn(_, _, _) => w.cluster.Some?
    case Addressed(n, addresses) =>
      && n in w.machines && EtcdMachineAddress(w.machines[n]) == ""
      && var address := EtcdMachineAddress(w.machines[n].(addresses := addresses));
         forall k :: k in w.machines ==> EtcdMachineAddress(w.machines[k]) != address
    case Joined(member) =>
      && (exists n :: n in w.machines && EtcdMachineAddress(w.machines[n]) != ""
                      && PeersAt(member, EtcdMachineAddress(w.machines[n])))
      && forall m :: m in w.members ==> m.id != member.id && m.peerURLs != member.peerURLs
    case Vanished(n) => n in w.machines && w.machines[n].terminating
    case OwnershipEdited(n, _) => n in w.machines
    case _ => true
  }

  function WithCluster(w: World, change: EtcdadmCluster -> EtcdadmCluster): World {
    if w.cluster.None? then w else w.(cluster := Stored(change(w.cluster.value)))
  }

  ghost function Apply(w: World, ds: Domains, e: Event): World
    requires Possible(w, e)
  {
    match e
    case Reconciled(a) => ReconcileStep(w, ds, a).0
    case HealthRound(c, r, order) => Round(w, c, r, order).0
    case RemovalTurn(endpoint, machine, outcome) =>
      w.WithFleet(RemoveOne(w.Fleet(), Checker(map[], map[endpoint := machine]), endpoint,
                            w.cluster.value.spec.replicas, outcome).0)
    case Addressed(n, addresses) => w.(machines := w.machines[n := w.machines[n].(addresses := addresses)])
    case Joined(member) => w.(members := w.members + [member])
    case Vanished(n) => w.(machines := w.machines - {n})
    case Ticked(seconds) => w.(now := w.now + seconds)
    case InitReported => WithCluster(w, (ec: EtcdadmCluster) => ec.(status := ec.status.(initialized := true)))
    case ControlPlaneUpgraded => WithCluster(w, (ec: EtcdadmCluster) => ec.(controlPlaneUpgraded := true))
    case DeletionRequested => WithCluster(w, (ec: EtcdadmCluster) => ec.(deleting := true))
    case OwnershipEdited(n, owned) => w.(machines := w.machines[n := w.machines[n].(owned := owned)])
  }

  ghost predicate PossibleRun(w: World, ds: Domains, es: seq<Event>)
    decreases |es|, 0
  {
    es == [] || (PossibleRun(w, ds, es[..|es| - 1]) && Possible(Run(w, ds, es[..|es| - 1]), es[|es| - 1]))
  }

  /** The state after a run. */
  ghost function Run(w: World, ds: Domains, es: seq<Event>): World
    requires PossibleRun(w, ds, es)
    decreases |es|, 1
  {
    if es == [] then w else Apply(Run(w, ds, es[..|es| - 1]), ds, es[|es| - 1])
  }

  lemma RunMore(w: World, ds: Domains, es: seq<Event>, e: Event)
    requires PossibleRun(w, ds, es) && Possible(Run(w, ds, es), e)
    ensures PossibleRun(w, ds, es + [e]) && Run(w, ds, es + [e]) == Apply(Run(w, ds, es), ds, e)
  {
    assert (es + [e])[..|es|] == es;
  }

  /** `p` holds of every event of a run and the state it finds. */
  ghost predicate Along(w: World, ds: Domains, es: seq<Event>, p: (World, Event) -> bool)
    requires PossibleRun(w, ds, es)
  {
    es == [] || (Along(w, ds, es[..|es| - 1], p) && p(Run(w, ds, es[..|es| - 1]), es[|es| - 1]))
  }

  // ----- What one Reconcile does to a live cluster -----

  /** The EtcdadmCluster that a Reconcile computes reaches the API server. */
  predicate Persisted(a: Answers) {
    a.statusListing && a.patch
  }

  /** `reconcile` gets as far as the switch between rollout and scaling, if it has no old members
      to remove. */
  predicate Reads(a: Answers) {
    a.externalReference && a.listing && a.ownedPlane && a.wholePlane
  }

  predicate Live(w: World) {
    w.cluster.Some? && w.cluster.value.finalizer && !w.cluster.value.deleting
  }

  /** `b` agrees with `a` on everything that decisions depend on. */
  predicate DecidesLike(a: EtcdadmCluster, b: EtcdadmCluster) {
    && b.spec == a.spec && b.finalizer == a.finalizer && b.deleting == a.deleting && b.paused == a.paused
    && b.controlPlaneUpgraded == a.controlPlaneUpgraded && b.upgrading == a.upgrading && b.retries == a.retries
    && b.status.initialized == a.status.initialized
    && b.conditions.specUpToDate == a.conditions.specUpToDate
    && b.conditions.certificates == a.conditions.certificates
    && b.conditions.initialized == a.conditions.initialized
    && b.conditions.noOutdatedMembers == a.conditions.noOutdatedMembers
  }

  lemma PublishKeeps(ec: EtcdadmCluster, secret: Secret, endpoints: seq<string>, a: Answers)
    ensures DecidesLike(ec, PublishEndpoints(ec, secret, endpoints, a).0)
    ensures ec.status.creationComplete ==> PublishEndpoints(ec, secret, endpoints, a).0.status.creationComplete
  {
    var ec' := PublishEndpoints(ec, secret, endpoints, a).0;
    assert ec' == ec.(status := ec'.status);
    assert ec'.status.initialized == ec.status.initialized;
  }

  lemma DecidesLikeTransitive(a: EtcdadmCluster, b: EtcdadmCluster, c: EtcdadmCluster)
    requires DecidesLike(a, b) && DecidesLike(b, c)
    ensures DecidesLike(a, c)
  {
  }

  /** The status block while the number of healthy machines is not the one asked for. */
  lemma ResizingKeeps(ec: EtcdadmCluster, secret: Secret, checked: map<Name, EtcdMachine>, a: Answers)
    requires ec.deleting || |HealthyMachines(checked)| != ec.spec.replicas
    ensures DecidesLike(ec, UpdateStatus(ec, secret, checked, a).0)
    ensures UpdateStatus(ec, secret, checked, a).0.status.creationComplete == ec.status.creationComplete
  {
    var ec' := UpdateStatus(ec, secret, checked, a).0;
    assert ec' == ec.(conditions := ec.conditions.(resizeCompleted := ec'.conditions.resizeCompleted),
                      status := ec'.status);
  }

  lemma UnhealthyKeeps(ec: EtcdadmCluster, secret: Secret, checked: map<Name, EtcdMachine>, a: Answers)
    requires !ec.deleting && |HealthyMachines(checked)| == ec.spec.replicas
    requires FirstUnhealthy(checked, Arrange(checked.Keys, a.order)).Some?
    ensures DecidesLike(ec, UpdateStatus(ec, secret, checked, a).0)
    ensures UpdateStatus(ec, secret, checked, a).0.status.creationComplete == ec.status.creationComplete
  {
    var ec' := UpdateStatus(ec, secret, checked, a).0;
    assert ec' == ec.(status := ec'.status);
  }

  lemma StatusKeeps(ec: EtcdadmCluster, secret: Secret, checked: map<Name, EtcdMachine>, a: Answers)
    ensures DecidesLike(ec, UpdateStatus(ec, secret, checked, a).0)
    ensures ec.status.creationComplete ==> UpdateStatus(ec, secret, checked, a).0.status.creationComplete
  {
    var order := Arrange(checked.Keys, a.order);
    if ec.deleting || |HealthyMachines(checked)| != ec.spec.replicas {
      ResizingKeeps(ec, secret, checked, a);
    } else if FirstUnhealthy(checked, order).Some? {
      UnhealthyKeeps(ec, secret, checked, a);
    } else {
      var ready := ec.(conditions := ec.conditions.(resizeCompleted := True, endpointsAvailable := True),
                       status := ec.status.(readyReplicas := |HealthyMachines(checked)|, ready := true));
      PublishKeeps(ready, secret, Sort(Endpoints(checked, order)), a);
      DecidesLikeTransitive(ec, ready, PublishEndpoints(ready, secret, Sort(Endpoints(checked, order)), a).0);
    }
  }

  lemma PersistKeeps(w: World, ec: EtcdadmCluster, secret: Secret, ok: bool, r: Result, a: Answers)
    requires !ec.deleting
    ensures
      var w' := Persist(w, ec, secret, ok, r, a).0;
      && w'.Fleet() == w.Fleet() && w'.now == w.now
      && if a.patch then w'.cluster.Some? && DecidesLike(ec, w'.cluster.value) else w'.cluster == w.cluster
  {
  }

  lemma FinishKeeps(w: World, ec: EtcdadmCluster, r: Result, a: Answers)
    requires !ec.deleting
    ensures
      var w' := Finish(w, ec, r, a).0;
      && w'.Fleet() == w.Fleet() && w'.now == w.now
      && if Persisted(a) then w'.cluster.Some? && DecidesLike(ec, w'.cluster.value) else w'.cluster == w.cluster
  {
    if a.statusListing {
      StatusKeeps(ec, w.secret, CheckOwnedMachines(w.machines, a.health), a);
      var (ec', secret, ok) := UpdateStatus(ec, w.secret, CheckOwnedMachines(w.machines, a.health), a);
      PersistKeeps(w, ec', secret, ok, r, a);
      if a.patch {
        DecidesLikeTransitive(ec, ec', Persist(w, ec', secret, ok, r, a).0.cluster.value);
      }
    }
  }

  /** A Reconcile that does not get that far changes nothing in a live cluster. */
  lemma ReconcileBlocked(w: World, ds: Domains, a: Answers)
    requires Live(w) && a.entry != Proceeds
    ensures ReconcileStep(w, ds, a).0 == w
  {
  }

  // ----- When each decision is taken, and what it marks -----

  /** The newest up-to-date machine is 60 seconds old, has an address, and passes its check. */
  predicate ReadyToGoOn(ms: Machines, spec: Spec, now: int, a: Answers) {
    && UpToDate(ms, spec) != {}
    && var newest := Newest(ms, UpToDate(ms, spec));
    && ms[newest].created + 60 <= now
    && EtcdMachineAddress(ms[newest]) != ""
    && a.gate == Passes
  }

  /** A rollout step waits for the newest machine. */
  predicate MustWait(ms: Machines, ec: EtcdadmCluster) {
    ec.conditions.specUpToDate.False? && UpToDate(ms, ec.spec) != {}
  }

  ghost predicate RolloutFacts(ms: Machines, ec: EtcdadmCluster, now: int, a: Answers, d: Decision) {
    var owned, replicas := |Owned(ms)|, ec.spec.replicas;
    var rolls := d.RollCreate? || d.RollDisown?;
    && NeedRollout(ms, ec.spec) != {}
    && (d.LimitReached? <==> |Matching(ms, ec.spec)| > replicas)
    && (!d.LimitReached? ==> (rolls <==> !MustWait(ms, ec) || ReadyToGoOn(ms, ec.spec, now, a)))
    && (d.RollCreate? ==> if replicas == 1 then owned == 1 else owned < replicas)
    && (d.RollDisown? ==> if replicas == 1 then owned != 1 else owned >= replicas)
    && (rolls ==> d.checked == if MustWait(ms, ec) then Some(Newest(ms, UpToDate(ms, ec.spec))) else None)
  }

  ghost predicate ScaleFacts(ms: Machines, ec: EtcdadmCluster, a: Answers, d: Decision) {
    var owned, replicas := |Owned(ms)|, ec.spec.replicas;
    var uninitialized := owned > 0 && ec.conditions.initialized.False?;
    && NeedRollout(ms, ec.spec) == {}
    && (d.CertificatesFail? <==> ec.conditions.certificates.False? && !a.certificates)
    && (d.Initialize? ==> owned == 0 < replicas)
    && (d.AwaitInit? ==> uninitialized && !ec.status.initialized)
    && (d.NoteInit? ==> uninitialized && ec.status.initialized)
    && (d.ScaleUp? ==> !uninitialized && 0 < owned < replicas)
    && (d.ScaleDown? ==> !uninitialized && owned > replicas)
    && (d.Settled? ==> !uninitialized && owned == replicas)
  }

  ghost predicate DecisionFacts(ms: Machines, ec: EtcdadmCluster, now: int, a: Answers, d: Decision) {
    && (d.Unreadable? <==> !(a.externalReference && a.listing && a.ownedPlane))
    && (!d.Unreadable? ==> (d.CleanUpOldMembers? <==> Unowned(ms) != {} && ec.controlPlaneUpgraded))
    && (!d.Unreadable? && !d.CleanUpOldMembers? ==> (d.WholePlaneUnreadable? <==> !a.wholePlane))
    && (d.Unreadable? || d.CleanUpOldMembers? || d.WholePlaneUnreadable? || d.InRollout() || d.InScale())
    && (d.InRollout() ==> RolloutFacts(ms, ec, now, a, d))
    && (d.InScale() ==> ScaleFacts(ms, ec, a, d))
  }

  lemma RolloutTable(ms: Machines, ec: EtcdadmCluster, now: int, a: Answers)
    requires NeedRollout(ms, ec.spec) != {}
    ensures RolloutFacts(ms, ec, now, a, DecideRollout(ms, ec, now, a))
  {
    LimitMeansMatching(ms, ec.spec);
  }

  lemma ScaleTable(ms: Machines, ec: EtcdadmCluster, a: Answers)
    requires NeedRollout(ms, ec.spec) == {}
    ensures ScaleFacts(ms, ec, a, DecideScale(ms, ec, a))
  {
  }

  lemma DecisionTable(ms: Machines, ec: EtcdadmCluster, now: int, a: Answers)
    ensures DecisionFacts(ms, ec, now, a, Decide(ms, ec, now, a))
  {
    if NeedRollout(ms, ec.spec) != {} {
      RolloutTable(ms, ec, now, a);
    } else {
      ScaleTable(ms, ec, a);
    }
  }

  function SpecUpToDateAfter(before: Condition, d: Decision): Condition {
    if d.LimitReached? then False(MaxNumberOfMachinesReached)
    else if d.RollCreate? || d.RollDisown? then False(RollingUpdateInProgress)
    else if d.InScale() && before != Unknown then True
    else before
  }

  /** What a decision marks on the conditions and annotations that decisions depend on. */
  ghost predicate MarkFacts(ms: Machines, ec: EtcdadmCluster, d: Decision, r: EtcdadmCluster) {
    && OnlyMarked(ec, r)
    && r.controlPlaneUpgraded == (ec.controlPlaneUpgraded && (d.Unreadable? || Unowned(ms) != {}))
    && r.conditions.specUpToDate == SpecUpToDateAfter(ec.conditions.specUpToDate, d)
    && r.conditions.initialized == (
         if d.Initialize? then False(WaitingForEtcdadmInit) else if d.NoteInit? then True else ec.conditions.initialized)
    && (d.RollCreate? || d.RollDisown? ==> r.conditions.certificates == False(RollingUpdateInProgress))
  }

  lemma MarkScaleTable(ec: EtcdadmCluster, d: Decision, a: Answers)
    requires d.InScale()
    ensures
      var r := MarkScale(ec, d, a);
      && r.controlPlaneUpgraded == ec.controlPlaneUpgraded
      && r.conditions.specUpToDate == (if ec.conditions.specUpToDate != Unknown then True else Unknown)
      && r.conditions.initialized == (
           if d.Initialize? then False(WaitingForEtcdadmInit) else if d.NoteInit? then True else ec.conditions.initialized)
  {
    var done := MarkCertificates(MarkRolledOut(ec));
    assert done.controlPlaneUpgraded == ec.controlPlaneUpgraded && done.conditions.initialized == ec.conditions.initialized;
    assert done.conditions.specUpToDate == if ec.conditions.specUpToDate != Unknown then True else Unknown;
    MarkResizeTable(done, d, a);
  }

  lemma MarkResizeTable(ec: EtcdadmCluster, d: Decision, a: Answers)
    ensures
      var r := MarkResize(ec, d, a);
      && r.controlPlaneUpgraded == ec.controlPlaneUpgraded && r.conditions.specUpToDate == ec.conditions.specUpToDate
      && r.conditions.initialized == (
           if d.Initialize? then False(WaitingForEtcdadmInit) else if d.NoteInit? then True else ec.conditions.initialized)
  {
  }

  lemma MarkMembersTable(ms: Machines, ec: EtcdadmCluster)
    ensures
      var r := MarkMembers(ms, ec);
      && r.controlPlaneUpgraded == (ec.controlPlaneUpgraded && Unowned(ms) != {})
      && r.conditions.specUpToDate == ec.conditions.specUpToDate
      && r.conditions.initialized == ec.conditions.initialized
  {
  }

  lemma MarkTable(ms: Machines, ec: EtcdadmCluster, d: Decision, a: Answers)
    ensures MarkFacts(ms, ec, d, Mark(ms, ec, d, a))
  {
    MarkMembersTable(ms, ec);
    if d.InScale() {
      MarkScaleTable(MarkMembers(ms, ec), d, a);
    }
    if !d.Unreadable? && !d.CleanUpOldMembers? {
      MarkStepTable(MarkMembers(ms, ec), d, a);
    }
  }

  lemma MarkStepTable(ec: EtcdadmCluster, d: Decision, a: Answers)
    ensures
      var r := MarkStep(ec, d, a);
      && r.controlPlaneUpgraded == ec.controlPlaneUpgraded
      && r.conditions.specUpToDate == SpecUpToDateAfter(ec.conditions.specUpToDate, d)
      && r.conditions.initialized == (
           if d.Initialize? then False(WaitingForEtcdadmInit) else if d.NoteInit? then True else ec.conditions.initialized)
      && (d.RollCreate? || d.RollDisown? ==> r.conditions.certificates == False(RollingUpdateInProgress))
  {
    if d.InScale() {
      MarkScaleTable(ec, d, a);
    }
  }

  /** A Reconcile that gets as far as the deferred block: it comes to a decision, acts on it, and
      what it marks reaches the API server exactly when it is persisted. */
  lemma ReconcileLive(w: World, ds: Domains, a: Answers) returns (d: Decision, marked: EtcdadmCluster)
    requires Live(w) && a.entry == Proceeds
    ensures
      var ec := w.cluster.value;
      var w' := ReconcileStep(w, ds, a).0;
      && DecisionFacts(w.machines, ec, w.now, a, d) && MarkFacts(w.machines, ec, d, marked)
      && w'.now == w.now && Live(w') && w'.cluster.value.spec == ec.spec
      && w'.Fleet() == Act(w.Fleet(), ec.spec, w.now, ds, a, d).0
      && if Persisted(a) then DecidesLike(marked, w'.cluster.value) else w'.cluster == w.cluster
  {
    var ec := w.cluster.value;
    d := Decide(w.machines, ec, w.now, a);
    marked := Mark(w.machines, ec, d, a);
    DecisionTable(w.machines, ec, w.now, a);
    MarkTable(w.machines, ec, d, a);
    var f := Act(w.Fleet(), ec.spec, w.now, ds, a, d).0;
    FinishKeeps(w.WithFleet(f), marked, ReconcileNormal(w.Fleet(), ec, w.now, ds, a).2, a);
  }
}
