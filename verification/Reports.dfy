/** What a Reconcile reports, exactly: Ready, CreationComplete, the available endpoints, and whether
    there was an error. */
module Reports {
  import opened Wrappers
  import opened Machines
  import opened EtcdPlane
  import opened Membership
  import opened Cluster
  import opened ReconcileSpec
  import opened Runs
  import opened Ready
  import opened Bookkeeping
  import opened Removals

  // ----- The status block -----

  predicate Well(ms: Machines, health: map<Name, Health>, n: Name) {
    n in ms && EtcdMachineAddress(ms[n]) != "" && HealthFor(health, n) == Passes
  }

  predicate ListensButFails(ms: Machines, health: map<Name, Health>, n: Name) {
    n in ms && EtcdMachineAddress(ms[n]) != "" && HealthFor(health, n) == Fails
  }

  /** The first unhealthy owned machine in the order of the loop listens, but fails its check. */
  ghost predicate Spoils(ms: Machines, a: Answers) {
    var order := Arrange(Owned(ms), a.order);
    exists i :: 0 <= i < |order| && ListensButFails(ms, a.health, order[i])
             && forall j :: 0 <= j < i ==> Well(ms, a.health, order[j])
  }

  lemma {:induction false} FirstIs(checked: map<Name, EtcdMachine>, order: seq<Name>) returns (i: nat)
    requires forall n :: n in order ==> n in checked
    requires FirstUnhealthy(checked, order).Some?
    ensures i < |order| && order[i] == FirstUnhealthy(checked, order).value
    ensures forall j :: 0 <= j < i ==> checked[order[j]].Healthy()
  {
    i := 0;
    if checked[order[0]].Healthy() {
      i := FirstIs(checked, order[1..]);
      i := i + 1;
    }
  }

  lemma CheckMeans(ms: Machines, health: map<Name, Health>, n: Name)
    requires n in ms && ms[n].owned
    ensures CheckOwnedMachines(ms, health)[n].Healthy() <==> Well(ms, health, n)
    ensures !Well(ms, health, n) ==>
              (CheckOwnedMachines(ms, health)[n].listening <==> ListensButFails(ms, health, n))
    ensures ListensButFails(ms, health, n) ==> !Well(ms, health, n)
  {
    assert CheckOwnedMachines(ms, health)[n] == CheckMachine(ms[n], HealthFor(health, n));
  }

  lemma SpoilsMeans(ms: Machines, a: Answers)
    ensures
      var checked := CheckOwnedMachines(ms, a.health);
      var first := FirstUnhealthy(checked, Arrange(checked.Keys, a.order));
      Spoils(ms, a) <==> first.Some? && checked[first.value].listening
  {
    var checked := CheckOwnedMachines(ms, a.health);
    var order := Arrange(checked.Keys, a.order);
    assert checked.Keys == Owned(ms);
    forall i | 0 <= i < |order| ensures order[i] in checked && order[i] in ms && ms[order[i]].owned {
      assert order[i] in order;
    }
    var first := FirstUnhealthy(checked, order);
    if first.Some? {
      var i := FirstIs(checked, order);
      FirstDecides(ms, a, order, i);
    } else if Spoils(ms, a) {
      var k :| 0 <= k < |order| && ListensButFails(ms, a.health, order[k]);
      CheckMeans(ms, a.health, order[k]);
      assert false;
    }
  }

  lemma FirstDecides(ms: Machines, a: Answers, order: seq<Name>, i: nat)
    requires order == Arrange(Owned(ms), a.order) && i < |order|
    requires forall k :: 0 <= k < |order| ==> order[k] in ms && ms[order[k]].owned
    requires !CheckOwnedMachines(ms, a.health)[order[i]].Healthy()
    requires forall j :: 0 <= j < i ==> CheckOwnedMachines(ms, a.health)[order[j]].Healthy()
    ensures Spoils(ms, a) <==> CheckOwnedMachines(ms, a.health)[order[i]].listening
  {
    forall j | 0 <= j <= i
      ensures Well(ms, a.health, order[j]) <==> j < i
      ensures ListensButFails(ms, a.health, order[j])
         <==> j == i && CheckOwnedMachines(ms, a.health)[order[i]].listening
    {
      CheckMeans(ms, a.health, order[j]);
    }
  }

  /** All N machines asked for are owned, and healthy. */
  ghost predicate Complete(ms: Machines, a: Answers, replicas: nat) {
    |HealthyOwned(ms, a.health)| == |Owned(ms)| == replicas
  }

  lemma CompleteMeans(ec: EtcdadmCluster, ms: Machines, a: Answers)
    ensures Complete(ms, a, ec.spec.replicas) <==> AllHealthy(ec, CheckOwnedMachines(ms, a.health))
    ensures HealthyMachines(CheckOwnedMachines(ms, a.health)) == HealthyOwned(ms, a.health)
  {
    var checked := CheckOwnedMachines(ms, a.health);
    HealthyAreOwned(ms, a.health);
    AsManyChecked(ms, a.health);
    HealthyCount(checked);
    HealthyTable(ec, checked, Arrange(checked.Keys, a.order));
  }

  /** The status has the endpoint string of these machines already. */
  ghost predicate Published(ec: EtcdadmCluster, ms: Machines, a: Answers) {
    var checked := CheckOwnedMachines(ms, a.health);
    ec.status.endpoints == CanonicalEndpoints(checked, Arrange(checked.Keys, a.order))
  }

  /** The status block reports an error: it sees N healthy machines and one that listens but fails,
      or it has a new endpoint string and cannot write the Secret. */
  ghost predicate StatusFails(ec: EtcdadmCluster, ms: Machines, a: Answers) {
    || (|HealthyOwned(ms, a.health)| == ec.spec.replicas && Spoils(ms, a))
    || (Complete(ms, a, ec.spec.replicas) && !Published(ec, ms, a) && !(a.secretRead && a.secretWrite))
  }

  /** The whole status block. With a surplus of machines Ready stays as it was, unless the first
      unhealthy one listens but fails. */
  lemma StatusIsExact(ec: EtcdadmCluster, secret: Secret, ms: Machines, a: Answers)
    requires !ec.deleting
    ensures
      var (ec', secret', ok) := UpdateStatus(ec, secret, CheckOwnedMachines(ms, a.health), a);
      var complete := Complete(ms, a, ec.spec.replicas);
      && (ok <==> !StatusFails(ec, ms, a))
      && (ec'.status.ready
          <==> complete || (ec.status.ready && |HealthyOwned(ms, a.health)| == ec.spec.replicas && !Spoils(ms, a)))
      && (ec'.status.creationComplete
          <==> ec.status.creationComplete || (complete && (Published(ec, ms, a) || (a.secretRead && a.secretWrite))))
      && ec'.conditions.endpointsAvailable == (if complete then True else ec.conditions.endpointsAvailable)
  {
    CompleteMeans(ec, ms, a);
    SpoilsMeans(ms, a);
    if Complete(ms, a, ec.spec.replicas) {
      AllComplete(ec, secret, CheckOwnedMachines(ms, a.health), a);
    } else {
      NotComplete(ec, secret, CheckOwnedMachines(ms, a.health), a);
    }
  }

  lemma AllComplete(ec: EtcdadmCluster, secret: Secret, checked: map<Name, EtcdMachine>, a: Answers)
    requires !ec.deleting && AllHealthy(ec, checked)
    ensures FirstUnhealthy(checked, Arrange(checked.Keys, a.order)).None?
    ensures
      var (ec', secret', ok) := UpdateStatus(ec, secret, checked, a);
      var written := ec.status.endpoints == CanonicalEndpoints(checked, Arrange(checked.Keys, a.order))
                  || (a.secretRead && a.secretWrite);
      && (ok <==> written) && ec'.status.ready && ec'.conditions.endpointsAvailable == True
      && (ec'.status.creationComplete <==> ec.status.creationComplete || written)
  {
    HealthyTable(ec, checked, Arrange(checked.Keys, a.order));
    StatusPublishes(ec, secret, checked, a);
  }

  lemma NotComplete(ec: EtcdadmCluster, secret: Secret, checked: map<Name, EtcdMachine>, a: Answers)
    requires !ec.deleting && !AllHealthy(ec, checked)
    ensures
      var (ec', secret', ok) := UpdateStatus(ec, secret, checked, a);
      var first := FirstUnhealthy(checked, Arrange(checked.Keys, a.order));
      var spoils := first.Some? && checked[first.value].listening;
      var enough := |HealthyMachines(checked)| == ec.spec.replicas;
      && (ok <==> !(enough && spoils))
      && (ec'.status.ready <==> ec.status.ready && enough && !spoils)
      && ec'.status.creationComplete == ec.status.creationComplete
      && ec'.conditions.endpointsAvailable == ec.conditions.endpointsAvailable
  {
    HealthyTable(ec, checked, Arrange(checked.Keys, a.order));
  }

  // ----- A Reconcile -----

  lemma MarkReports(ms: Machines, ec: EtcdadmCluster, d: Decision, a: Answers)
    ensures
      var r := Mark(ms, ec, d, a);
      r.conditions.endpointsAvailable
      == if d.Initialize? then False(WaitingForEndpoints) else ec.conditions.endpointsAvailable
  {
    MembersReport(ms, ec);
    if d.InScale() {
      ScaleReports(MarkMembers(ms, ec), d, a);
    }
  }

  lemma MembersReport(ms: Machines, ec: EtcdadmCluster)
    ensures MarkMembers(ms, ec).conditions.endpointsAvailable == ec.conditions.endpointsAvailable
  {
  }

  lemma ScaleReports(ec: EtcdadmCluster, d: Decision, a: Answers)
    requires d.InScale()
    ensures
      MarkScale(ec, d, a).conditions.endpointsAvailable
      == if d.Initialize? then False(WaitingForEndpoints) else ec.conditions.endpointsAvailable
  {
    var done := MarkCertificates(MarkRolledOut(ec));
    assert done.conditions.endpointsAvailable == ec.conditions.endpointsAvailable;
  }

  /** What is in the API server after the deferred block. */
  lemma FinishIsExact(w: World, ec: EtcdadmCluster, r: Result, a: Answers)
    requires !ec.deleting && Persisted(a)
    ensures
      var w' := Finish(w, ec, r, a).0;
      var complete := Complete(w.machines, a, ec.spec.replicas);
      && w'.cluster.Some?
      && var ec' := w'.cluster.value;
      && (ec'.status.ready
          <==> && !ec.Rolling()
               && (complete || (ec.status.ready && |HealthyOwned(w.machines, a.health)| == ec.spec.replicas
                                && !Spoils(w.machines, a))))
      && (ec'.status.creationComplete
          <==> || ec.status.creationComplete
               || (complete && (Published(ec, w.machines, a) || (a.secretRead && a.secretWrite))))
      && ec'.conditions.endpointsAvailable == (if complete then True else ec.conditions.endpointsAvailable)
  {
    var checked := CheckOwnedMachines(w.machines, a.health);
    var (ec', secret, ok) := UpdateStatus(ec, w.secret, checked, a);
    StatusIsExact(ec, w.secret, w.machines, a);
    StatusKeeps(ec, w.secret, checked, a);
    PersistReports(w, ec', secret, ok, r, a);
  }

  lemma PersistReports(w: World, ec: EtcdadmCluster, secret: Secret, ok: bool, r: Result, a: Answers)
    requires !ec.deleting && a.patch
    ensures
      var w' := Persist(w, ec, secret, ok, r, a).0;
      && w'.cluster.Some?
      && w'.cluster.value.status.ready == (ec.status.ready && !ec.Rolling())
      && w'.cluster.value.status.creationComplete == ec.status.creationComplete
      && w'.cluster.value.conditions.endpointsAvailable == ec.conditions.endpointsAvailable
  {
  }

  lemma FinishFails(w: World, ec: EtcdadmCluster, r: Result, a: Answers)
    requires !ec.deleting
    ensures Finish(w, ec, r, a).1.failed
       <==> r.failed || !a.statusListing || !a.readyLabels || !a.patch || StatusFails(ec, w.machines, a)
  {
    StatusIsExact(ec, w.secret, w.machines, a);
  }

  /** What a persisted Reconcile reports. Ready: the rollout is not marked, and all N machines are
      owned and healthy; or it stays, when N are healthy among more and none spoils it. Creation is
      complete: once all N were, and the Secret has their endpoints. */
  lemma ReportIsExact(w: World, ds: Domains, a: Answers)
    requires Live(w) && a.entry == Proceeds && Persisted(a)
    ensures
      var ec := w.cluster.value;
      var w' := ReconcileStep(w, ds, a).0;
      var complete := Complete(w'.machines, a, ec.spec.replicas);
      && w'.cluster.Some?
      && var ec' := w'.cluster.value;
      && (ec'.status.ready
          <==> && !ec'.Rolling()
               && (complete || (ec.status.ready && |HealthyOwned(w'.machines, a.health)| == ec.spec.replicas
                                && !Spoils(w'.machines, a))))
      && (ec'.status.creationComplete
          <==> || ec.status.creationComplete
               || (complete && (Published(ec, w'.machines, a) || (a.secretRead && a.secretWrite))))
      && ec'.conditions.endpointsAvailable
         == (if complete then True
             else if Decide(w.machines, ec, w.now, a).Initialize? then False(WaitingForEndpoints)
             else ec.conditions.endpointsAvailable)
  {
    var ec := w.cluster.value;
    var (f, marked, r) := ReconcileNormal(w.Fleet(), ec, w.now, ds, a);
    FinishIsExact(w.WithFleet(f), marked, r, a);
    FinishKeeps(w.WithFleet(f), marked, r, a);
    MarkReports(w.machines, ec, Decide(w.machines, ec, w.now, a), a);
  }

  // ----- Errors -----

  /** The loop over old machines meets an error at the `k`th of them, after the others were removed. */
  ghost predicate StopsAt(f: Fleet, order: seq<Name>, removals: map<Name, RemovalOutcome>, k: nat)
    requires k < |order| && forall n :: n in order ==> n in f.machines
  {
    var n := order[k];
    RemovalFails(RemoveEach(f, f.machines, order[..k], removals).0, Some(n), EtcdMachineAddress(f.machines[n]),
                 OutcomeFor(removals, n))
  }

  /** What `reconcile` was decided to do meets a call that fails. */
  ghost predicate ActionFails(f: Fleet, spec: Spec, ds: Domains, a: Answers, d: Decision) {
    match d
    case Unreadable => true
    case WholePlaneUnreadable => true
    case WaitForHealth => true
    case CertificatesFail => true
    case CleanUpOldMembers =>
      var order := Arrange(Unowned(f.machines), a.order);
      exists k: nat :: k < |order| && StopsAt(f, order, a.removals, k)
    case RollCreate(_) => !a.creation || a.newName in f.machines
    case ScaleUp => !a.creation || a.newName in f.machines
    case Initialize => !a.firstCertificates || !a.creation || a.newName in f.machines
    case RollDisown(_) => !a.disowning
    case ScaleDown =>
      var n := SelectMachineForScaleDown(f.machines, Owned(f.machines), {}, ds);
      n.Some? && n.value in f.machines
      && RemovalFails(f, n, EtcdMachineAddress(f.machines[n.value]), OutcomeFor(a.removals, n.value))
    case _ => false
  }

  lemma {:induction false} LoopErrors(
    f: Fleet, listed: Machines, order: seq<Name>, removals: map<Name, RemovalOutcome>)
    requires Distinct(f.members) && forall n :: n in order ==> n in listed
    ensures
      RemoveEach(f, listed, order, removals).1
      <==> forall k: nat :: k < |order| ==>
             !RemovalFails(RemoveEach(f, listed, order[..k], removals).0, Some(order[k]),
                           EtcdMachineAddress(listed[order[k]]), OutcomeFor(removals, order[k]))
    decreases order
  {
    if order != [] {
      var n, rest := order[0], order[1..];
      var address := EtcdMachineAddress(listed[n]);
      var (g, ok) := RemoveEtcdMachine(f, Some(n), address, OutcomeFor(removals, n));
      RemovalIsExact(f, Some(n), address, OutcomeFor(removals, n));
      RemovalIsSafe(f, Some(n), address, OutcomeFor(removals, n));
      assert RemoveEach(f, listed, order[..0], removals).0 == f;
      if ok {
        LoopErrors(g, listed, rest, removals);
        forall k: nat | k < |rest|
          ensures order[k + 1] == rest[k]
          ensures RemoveEach(f, listed, order[..k + 1], removals).0 == RemoveEach(g, listed, rest[..k], removals).0
        {
          assert order[..k + 1][0] == n && order[..k + 1][1..] == rest[..k];
        }
        forall k: nat | k < |order| && k > 0 ensures order[k] == rest[k - 1] {
        }
      }
    }
  }

  lemma ActionIsExact(f: Fleet, ec: EtcdadmCluster, now: int, ds: Domains, a: Answers, d: Decision)
    requires Distinct(f.members) && PicksEligible(ds) && DecisionFacts(f.machines, ec, now, a, d)
    ensures Act(f, ec.spec, now, ds, a, d).1 <==> !ActionFails(f, ec.spec, ds, a, d)
  {
    if d.CleanUpOldMembers? {
      CleanUpFails(f, ec.spec, now, ds, a, d);
    } else if d.RollDisown? {
      DisowningFails(f, ec.spec, now, ds, a, d);
    } else if d.ScaleDown? {
      assert Owned(f.machines) != {};
      ShrinkingFails(f, ec.spec, now, ds, a, d);
    }
  }

  lemma CleanUpFails(f: Fleet, spec: Spec, now: int, ds: Domains, a: Answers, d: Decision)
    requires Distinct(f.members) && d.CleanUpOldMembers?
    ensures Act(f, spec, now, ds, a, d).1 <==> !ActionFails(f, spec, ds, a, d)
  {
    var order := Arrange(Unowned(f.machines), a.order);
    LoopErrors(f, f.machines, order, a.removals);
    assert forall k: nat :: k < |order| ==>
      (StopsAt(f, order, a.removals, k)
       <==> RemovalFails(RemoveEach(f, f.machines, order[..k], a.removals).0, Some(order[k]),
                         EtcdMachineAddress(f.machines[order[k]]), OutcomeFor(a.removals, order[k])));
  }

  lemma DisowningFails(f: Fleet, spec: Spec, now: int, ds: Domains, a: Answers, d: Decision)
    requires PicksEligible(ds) && d.RollDisown? && NeedRollout(f.machines, spec) != {}
    ensures Act(f, spec, now, ds, a, d).1 <==> a.disowning
  {
    assert Owned(f.machines) != {};
    SelectionIsTotal(f.machines, Owned(f.machines), NeedRollout(f.machines, spec), ds);
    var g := PassCheck(f, d.checked, now);
    assert g.machines == f.machines;
  }

  lemma ShrinkingFails(f: Fleet, spec: Spec, now: int, ds: Domains, a: Answers, d: Decision)
    requires Distinct(f.members) && PicksEligible(ds) && d.ScaleDown? && Owned(f.machines) != {}
    ensures Act(f, spec, now, ds, a, d).1 <==> !ActionFails(f, spec, ds, a, d)
  {
    SelectionIsTotal(f.machines, Owned(f.machines), {}, ds);
    var n := SelectMachineForScaleDown(f.machines, Owned(f.machines), {}, ds).value;
    RemovalIsExact(f, Some(n), EtcdMachineAddress(f.machines[n]), OutcomeFor(a.removals, n));
    assert Act(f, spec, now, ds, a, d) == RemoveSurplus(f, ds, a);
  }

  /** When a Reconcile reports an error: what it decided met a call that fails, or one of the calls of
      the deferred block did, or the status block found a machine that listens but fails. */
  lemma ErrorIsExact(w: World, ds: Domains, a: Answers)
    requires Live(w) && a.entry == Proceeds && Distinct(w.members) && PicksEligible(ds)
    ensures
      var (w', r) := ReconcileStep(w, ds, a);
      var ec := w.cluster.value;
      r.failed
      <==> || ActionFails(w.Fleet(), ec.spec, ds, a, Decide(w.machines, ec, w.now, a))
           || !a.statusListing || !a.readyLabels || !a.patch || StatusFails(ec, w'.machines, a)
  {
    var ec := w.cluster.value;
    var (f, marked, r) := ReconcileNormal(w.Fleet(), ec, w.now, ds, a);
    DecisionTable(w.machines, ec, w.now, a);
    ActionIsExact(w.Fleet(), ec, w.now, ds, a, Decide(w.machines, ec, w.now, a));
    FinishFails(w.WithFleet(f), marked, r, a);
    FinishKeeps(w.WithFleet(f), marked, r, a);
    assert StatusFails(marked, f.machines, a) <==> StatusFails(ec, f.machines, a);
  }
}
