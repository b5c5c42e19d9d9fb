/** The rest of what a Reconcile tells the outside world: ready replicas, outdated members, the
    upgrade annotation, the resize condition, and when health checks resume. */
module Bookkeeping {
  import opened Machines
  import opened EtcdPlane
  import opened Cluster
  import opened ReconcileSpec
  import opened HealthCheck
  import opened Runs
  import opened Ready

  /** The owned machines that have an address and passed their check. */
  function HealthyOwned(ms: Machines, health: map<Name, Health>): set<Name> {
    set n | n in Owned(ms) && EtcdMachineAddress(ms[n]) != "" && HealthFor(health, n) == Passes
  }

  lemma HealthyAreOwned(ms: Machines, health: map<Name, Health>)
    ensures HealthyMachines(CheckOwnedMachines(ms, health)) == HealthyOwned(ms, health)
  {
    var checked := CheckOwnedMachines(ms, health);
    forall n ensures n in HealthyMachines(checked) <==> n in HealthyOwned(ms, health) {
      assert n in checked <==> n in Owned(ms);
    }
  }

  ghost predicate Counts(ec: EtcdadmCluster, checked: map<Name, EtcdMachine>, ec': EtcdadmCluster) {
    var healthy := |HealthyMachines(checked)|;
    && ec'.status.readyReplicas == healthy
    && (!ec.deleting && healthy != ec.spec.replicas ==>
          ec'.conditions.resizeCompleted == False(if healthy < ec.spec.replicas then ScalingUp else ScalingDown))
    && (!ec.deleting && AllHealthy(ec, checked) ==> ec'.conditions.resizeCompleted == True)
  }

  lemma StatusCounts(ec: EtcdadmCluster, secret: Secret, checked: map<Name, EtcdMachine>, a: Answers)
    ensures Counts(ec, checked, UpdateStatus(ec, secret, checked, a).0)
  {
    HealthyTable(ec, checked, Arrange(checked.Keys, a.order));
    if !ec.deleting && AllHealthy(ec, checked) {
      StatusPublishes(ec, secret, checked, a);
      var ec' := ec.(conditions := ec.conditions.(resizeCompleted := True, endpointsAvailable := True),
                     status := ec.status.(readyReplicas := |HealthyMachines(checked)|, ready := true));
      PublishingCounts(ec', secret, Text.Sort(Endpoints(checked, Arrange(checked.Keys, a.order))), a);
    } else {
      NotPublishingCounts(ec, secret, checked, a);
    }
  }

  lemma PublishingCounts(ec: EtcdadmCluster, secret: Secret, endpoints: seq<string>, a: Answers)
    ensures
      var ec' := PublishEndpoints(ec, secret, endpoints, a).0;
      ec'.status.readyReplicas == ec.status.readyReplicas && ec'.conditions == ec.conditions
  {
  }

  lemma NotPublishingCounts(ec: EtcdadmCluster, secret: Secret, checked: map<Name, EtcdMachine>, a: Answers)
    requires ec.deleting || |HealthyMachines(checked)| != ec.spec.replicas
          || FirstUnhealthy(checked, Arrange(checked.Keys, a.order)).Some?
    ensures
      var ec' := UpdateStatus(ec, secret, checked, a).0;
      && ec'.status.readyReplicas == |HealthyMachines(checked)|
      && (!ec.deleting && |HealthyMachines(checked)| != ec.spec.replicas ==>
            ec'.conditions.resizeCompleted
            == False(if |HealthyMachines(checked)| < ec.spec.replicas then ScalingUp else ScalingDown))
  {
  }

  /** A Reconcile that is persisted tells how many owned machines are healthy, and whether they
      are too few, too many, or exactly the N machines asked for. */
  lemma ReplicasAreCounted(w: World, ds: Domains, a: Answers)
    requires Live(w) && a.entry == Proceeds && Persisted(a)
    ensures
      var w' := ReconcileStep(w, ds, a).0;
      var healthy, replicas := |HealthyOwned(w'.machines, a.health)|, w.cluster.value.spec.replicas;
      && w'.cluster.Some? && w'.cluster.value.status.readyReplicas == healthy
      && (healthy < replicas ==> w'.cluster.value.conditions.resizeCompleted == False(ScalingUp))
      && (healthy > replicas ==> w'.cluster.value.conditions.resizeCompleted == False(ScalingDown))
      && (healthy == replicas == |Owned(w'.machines)| ==> w'.cluster.value.conditions.resizeCompleted == True)
  {
    var (f, marked, r) := ReconcileNormal(w.Fleet(), w.cluster.value, w.now, ds, a);
    FinishCounts(w.WithFleet(f), marked, r, a);
  }

  lemma FinishCounts(w: World, ec: EtcdadmCluster, r: Result, a: Answers)
    requires !ec.deleting && Persisted(a)
    ensures
      var w' := Finish(w, ec, r, a).0;
      var healthy, replicas := |HealthyOwned(w.machines, a.health)|, ec.spec.replicas;
      && w'.cluster.Some? && w'.machines == w.machines && w'.cluster.value.status.readyReplicas == healthy
      && (healthy < replicas ==> w'.cluster.value.conditions.resizeCompleted == False(ScalingUp))
      && (healthy > replicas ==> w'.cluster.value.conditions.resizeCompleted == False(ScalingDown))
      && (healthy == replicas == |Owned(w.machines)| ==> w'.cluster.value.conditions.resizeCompleted == True)
  {
    var checked := CheckOwnedMachines(w.machines, a.health);
    StatusCounts(ec, w.secret, checked, a);
    StatusKeeps(ec, w.secret, checked, a);
    HealthyAreOwned(w.machines, a.health);
    AsManyChecked(w.machines, a.health);
    HealthyCount(checked);
    var (ec', secret, ok) := UpdateStatus(ec, w.secret, checked, a);
    PersistCounts(w, ec', secret, ok, r, a);
  }

  lemma PersistCounts(w: World, ec: EtcdadmCluster, secret: Secret, ok: bool, r: Result, a: Answers)
    requires !ec.deleting && a.patch
    ensures
      var w' := Persist(w, ec, secret, ok, r, a).0;
      && w'.cluster.Some? && w'.machines == w.machines
      && w'.cluster.value.status.readyReplicas == ec.status.readyReplicas
      && w'.cluster.value.conditions.resizeCompleted == ec.conditions.resizeCompleted
  {
  }

  lemma MarkOutdated(ms: Machines, ec: EtcdadmCluster, d: Decision, a: Answers)
    requires !d.Unreadable?
    ensures
      var r := Mark(ms, ec, d, a);
      && (r.conditions.noOutdatedMembers.False? <==> Unowned(ms) != {})
      && (r.upgrading <==> ec.upgrading && !(d.InScale() && (ec.conditions.specUpToDate != Unknown || d.Settled?)))
  {
    MembersOutdated(ms, ec);
    var marked := MarkMembers(ms, ec);
    if d.InScale() {
      ScaleOutdated(marked, d, a);
    } else if d.InRollout() {
      RolloutOutdated(marked, d);
    }
  }

  lemma MembersOutdated(ms: Machines, ec: EtcdadmCluster)
    ensures
      var r := MarkMembers(ms, ec);
      && (r.conditions.noOutdatedMembers.False? <==> Unowned(ms) != {})
      && r.upgrading == ec.upgrading && r.conditions.specUpToDate == ec.conditions.specUpToDate
  {
  }

  lemma RolloutOutdated(ec: EtcdadmCluster, d: Decision)
    ensures
      var r := MarkRollout(ec, d);
      r.upgrading == ec.upgrading && r.conditions.noOutdatedMembers == ec.conditions.noOutdatedMembers
  {
  }

  lemma ScaleOutdated(ec: EtcdadmCluster, d: Decision, a: Answers)
    requires d.InScale()
    ensures
      var r := MarkScale(ec, d, a);
      && r.upgrading == (ec.upgrading && ec.conditions.specUpToDate == Unknown && !d.Settled?)
      && r.conditions.noOutdatedMembers == ec.conditions.noOutdatedMembers
  {
    var done := MarkCertificates(MarkRolledOut(ec));
    assert done.upgrading == (ec.upgrading && ec.conditions.specUpToDate == Unknown);
    assert done.conditions.noOutdatedMembers == ec.conditions.noOutdatedMembers;
    ResizeOutdated(done, d, a);
  }

  lemma ResizeOutdated(ec: EtcdadmCluster, d: Decision, a: Answers)
    ensures
      var r := MarkResize(ec, d, a);
      && r.upgrading == (ec.upgrading && !d.Settled?)
      && r.conditions.noOutdatedMembers == ec.conditions.noOutdatedMembers
  {
  }

  /** A Reconcile that can read the machines and is persisted says that there are outdated members
      exactly while some machine is not owned. The annotation of an upgrade in progress goes only
      when nothing owned needs a rollout, and does go when N machines are owned and none does. */
  lemma OutdatedMembersAreTold(w: World, ds: Domains, a: Answers)
    requires Live(w) && a.entry == Proceeds && Persisted(a) && a.externalReference && a.listing && a.ownedPlane
    ensures
      var ec := w.cluster.value;
      var w' := ReconcileStep(w, ds, a).0;
      && w'.cluster.Some?
      && (w'.cluster.value.conditions.noOutdatedMembers.False? <==> Unowned(w.machines) != {})
      && (ec.upgrading && !w'.cluster.value.upgrading ==> NeedRollout(w.machines, ec.spec) == {})
      && (w'.cluster.value.upgrading
          <==> && ec.upgrading
               && !(Decide(w.machines, ec, w.now, a).Settled?
                    || (Decide(w.machines, ec, w.now, a).InScale() && ec.conditions.specUpToDate != Unknown)))
      && (ec.upgrading && a.wholePlane && a.certificates && !ec.conditions.initialized.False?
          && !(ec.controlPlaneUpgraded && Unowned(w.machines) != {})
          && |Owned(w.machines)| == ec.spec.replicas > 0 && NeedRollout(w.machines, ec.spec) == {}
          ==> !w'.cluster.value.upgrading)
  {
    var ec := w.cluster.value;
    var d := Decide(w.machines, ec, w.now, a);
    var (f, marked, r) := ReconcileNormal(w.Fleet(), ec, w.now, ds, a);
    DecisionTable(w.machines, ec, w.now, a);
    MarkOutdated(w.machines, ec, d, a);
    FinishKeeps(w.WithFleet(f), marked, r, a);
  }

  lemma ScaleReleases(ec: EtcdadmCluster, d: Decision, a: Answers)
    requires d.InScale() && !d.CertificatesFail?
    ensures
      var r := MarkScale(ec, d, a);
      !r.conditions.certificates.False? && !r.conditions.specUpToDate.False?
  {
    var done := MarkCertificates(MarkRolledOut(ec));
    assert !done.conditions.certificates.False? && !done.conditions.specUpToDate.False?;
  }

  /** Health checks resume after a rollout: once a persisted Reconcile has found nothing owned that
      needs one and has renewed the certificates, they are passed over only if they are paused,
      switched off, or creation is not complete. */
  lemma ChecksResume(w: World, ds: Domains, a: Answers)
    requires Live(w) && a.entry == Proceeds && Persisted(a)
    requires a.externalReference && a.listing && a.ownedPlane && a.wholePlane && a.certificates
    requires NeedRollout(w.machines, w.cluster.value.spec) == {}
    requires !(w.cluster.value.controlPlaneUpgraded && Unowned(w.machines) != {})
    ensures
      var ec := w.cluster.value;
      var w' := ReconcileStep(w, ds, a).0;
      && w'.cluster.Some?
      && (SkipsHealthCheck(w'.cluster.value) <==>
            ec.paused || ec.retries == Number(0) || !w'.cluster.value.status.creationComplete)
  {
    var ec := w.cluster.value;
    var d := Decide(w.machines, ec, w.now, a);
    var (f, marked, r) := ReconcileNormal(w.Fleet(), ec, w.now, ds, a);
    DecisionTable(w.machines, ec, w.now, a);
    ScaleReleases(MarkMembers(w.machines, ec), d, a);
    FinishKeeps(w.WithFleet(f), marked, r, a);
  }

  lemma ScaleWaits(ec: EtcdadmCluster, d: Decision, a: Answers)
    requires d.CertificatesFail?
    ensures MarkScale(ec, d, a).conditions.certificates == ec.conditions.certificates
  {
  }

  /** And until the certificates are renewed they wait: a Reconcile that finds nothing to roll but
      cannot renew them leaves every round of the health check doing nothing. */
  lemma ChecksWait(w: World, ds: Domains, a: Answers, c: Checker, r: RoundAnswers)
    requires Live(w) && a.entry == Proceeds
    requires a.externalReference && a.listing && a.ownedPlane && a.wholePlane && !a.certificates
    requires w.cluster.value.conditions.certificates.False?
    requires NeedRollout(w.machines, w.cluster.value.spec) == {}
    requires !(w.cluster.value.controlPlaneUpgraded && Unowned(w.machines) != {})
    ensures
      var w' := ReconcileStep(w, ds, a).0;
      && w'.cluster.Some? && w'.Fleet() == w.Fleet()
      && Passed(w', r) && Round(w', c, r, []) == (w', c)
  {
    var ec := w.cluster.value;
    var d := Decide(w.machines, ec, w.now, a);
    var (f, marked, r') := ReconcileNormal(w.Fleet(), ec, w.now, ds, a);
    DecisionTable(w.machines, ec, w.now, a);
    assert d.CertificatesFail?;
    MarkMembersTable(w.machines, ec);
    ScaleWaits(MarkMembers(w.machines, ec), d, a);
    FinishKeeps(w.WithFleet(f), marked, r', a);
  }

  /** What a decision makes of the certificates' condition. */
  function CertificatesAfter(before: Condition, d: Decision, a: Answers): Condition {
    if d.RollCreate? || d.RollDisown? then False(RollingUpdateInProgress)
    else if d.Initialize? && a.firstCertificates then True
    else if d.InScale() && !d.CertificatesFail? && before.False? then True
    else before
  }

  lemma ScaleCertificates(ec: EtcdadmCluster, d: Decision, a: Answers)
    requires d.InScale()
    ensures MarkScale(ec, d, a).conditions.certificates == CertificatesAfter(ec.conditions.certificates, d, a)
  {
    var done := MarkCertificates(MarkRolledOut(ec));
    assert done.conditions.certificates == if ec.conditions.certificates.False? then True else ec.conditions.certificates;
  }

  /** The certificates' condition after a persisted Reconcile: to be renewed from each step of a rollout
      on, and in order once they were generated or renewed. */
  lemma CertificatesAreTold(w: World, ds: Domains, a: Answers)
    requires Live(w) && a.entry == Proceeds && Persisted(a)
    ensures
      var ec, w' := w.cluster.value, ReconcileStep(w, ds, a).0;
      && w'.cluster.Some?
      && w'.cluster.value.conditions.certificates
         == CertificatesAfter(ec.conditions.certificates, Decide(w.machines, ec, w.now, a), a)
  {
    var ec := w.cluster.value;
    var d := Decide(w.machines, ec, w.now, a);
    var (f, marked, r) := ReconcileNormal(w.Fleet(), ec, w.now, ds, a);
    DecisionTable(w.machines, ec, w.now, a);
    MarkTable(w.machines, ec, d, a);
    assert MarkMembers(w.machines, ec).conditions.certificates == ec.conditions.certificates;
    if d.InScale() {
      ScaleCertificates(MarkMembers(w.machines, ec), d, a);
    }
    FinishKeeps(w.WithFleet(f), marked, r, a);
  }
}
