/** What a Reconcile returns and reports: when the next one is due, when there was an error, and
    when Ready and CreationComplete are set. */
module Outcomes {
  import opened Machines
  import opened EtcdPlane
  import opened Cluster
  import opened ReconcileSpec
  import opened Runs
  import opened Choices

  // ----- When the next Reconcile is due -----

  /** The seconds until the newest up-to-date machine is 60 seconds old. */
  function SecondsLeft(w: World): int
    requires w.cluster.Some? && UpToDate(w.machines, w.cluster.value.spec) != {}
  {
    var newest := Newest(w.machines, UpToDate(w.machines, w.cluster.value.spec));
    w.machines[newest].created + 60 - w.now
  }

  function AddressOfNewest(w: World): string
    requires w.cluster.Some? && UpToDate(w.machines, w.cluster.value.spec) != {}
  {
    EtcdMachineAddress(w.machines[Newest(w.machines, UpToDate(w.machines, w.cluster.value.spec))])
  }

  /** A rollout is under way, as far as the API server knows, that neither the removal of old members
      nor the fail-safe holds up. */
  ghost predicate MayWait(w: World) {
    && Live(w)
    && var ec := w.cluster.value;
    && NeedRollout(w.machines, ec.spec) != {} && UpToDate(w.machines, ec.spec) != {}
    && ec.conditions.specUpToDate.False? && (Unowned(w.machines) == {} || !ec.controlPlaneUpgraded)
    && |Matching(w.machines, ec.spec)| <= ec.spec.replicas
  }

  /** A Reconcile waits for the age of the newest machine exactly while that is under 60 seconds. */
  lemma WaitIsDecided(w: World, a: Answers)
    requires Live(w)
    ensures
      var d := Decide(w.machines, w.cluster.value, w.now, a);
      && (d.WaitForAge? <==> Reads(a) && MayWait(w) && SecondsLeft(w) > 0)
      && (d.WaitForAge? ==> d.seconds == SecondsLeft(w))
      && (Reads(a) && MayWait(w) && SecondsLeft(w) <= 0 && AddressOfNewest(w) != "" && a.gate == Passes ==>
            d.RollCreate? || d.RollDisown?)
  {
    LimitMeansMatching(w.machines, w.cluster.value.spec);
  }

  /** What a Reconcile in the state `later` does, `k` seconds after one in the state `w` was told to
      come back in `left` seconds: until then it waits for the rest and leaves the machines alone; from
      then on it does not wait for the age, and with an address and a check that passes it takes a
      step of the rollout. */
  ghost predicate GoesOn(w: World, later: World, ds: Domains, b: Answers, k: nat, left: int)
    requires w.cluster.Some? && UpToDate(w.machines, w.cluster.value.spec) != {} && later.cluster.Some?
  {
    var (w', r) := ReconcileStep(later, ds, b);
    var d := Decide(later.machines, later.cluster.value, later.now, b);
    if k < left then r.requeue == After(left - k) && w'.Fleet() == w.Fleet()
    else && !d.WaitForAge? && w'.Fleet() == Act(w.Fleet(), w.cluster.value.spec, later.now, ds, b, d).0
         && (AddressOfNewest(w) != "" && b.gate == Passes ==> d.RollCreate? || d.RollDisown?)
  }

  /** A Reconcile that waits for a machine's age asks to be run again at the first moment at which
      there is nothing to wait for. */
  lemma WaitIsExact(w: World, ds: Domains, a: Answers, b: Answers, k: nat)
    requires Live(w) && a.entry == Proceeds && b.entry == Proceeds && Reads(b)
    requires Decide(w.machines, w.cluster.value, w.now, a).WaitForAge?
    ensures
      var (w1, r) := ReconcileStep(w, ds, a);
      && w1.cluster.Some? && UpToDate(w.machines, w.cluster.value.spec) != {}
      && r.requeue == After(SecondsLeft(w)) && r.requeue.seconds > 0
      && GoesOn(w, w1.(now := w1.now + k), ds, b, k, r.requeue.seconds)
  {
    WaitIsDecided(w, a);
    WaitReturns(w, ds, a);
    WaitLeaves(w, ds, a);
    var w1 := ReconcileStep(w, ds, a).0;
    WaitLater(w, w1.(now := w1.now + k), ds, b, k);
  }

  /** The same wait, `k` seconds later. */
  lemma WaitLater(w: World, later: World, ds: Domains, b: Answers, k: nat)
    requires MayWait(w) && MayWait(later) && later.Fleet() == w.Fleet() && later.now == w.now + k
    requires later.cluster.value.spec == w.cluster.value.spec && b.entry == Proceeds && Reads(b)
    ensures GoesOn(w, later, ds, b, k, SecondsLeft(w))
  {
    assert SecondsLeft(later) == SecondsLeft(w) - k;
    WaitIsDecided(later, b);
    if k < SecondsLeft(w) {
      WaitReturns(later, ds, b);
      WaitLeaves(later, ds, b);
    } else {
      ActsAsDecided(later, ds, b);
    }
  }

  lemma WaitReturns(w: World, ds: Domains, a: Answers)
    requires Live(w) && a.entry == Proceeds && Reads(a) && MayWait(w) && SecondsLeft(w) > 0
    ensures ReconcileStep(w, ds, a).1.requeue == After(SecondsLeft(w))
  {
    WaitIsDecided(w, a);
    RequeueIsExact(w, ds, a);
  }

  /** Such a Reconcile leaves everything alone that the next one's decision depends on. */
  lemma WaitLeaves(w: World, ds: Domains, a: Answers)
    requires Live(w) && a.entry == Proceeds && Reads(a) && MayWait(w) && SecondsLeft(w) > 0
    ensures
      var w1 := ReconcileStep(w, ds, a).0;
      && w1.Fleet() == w.Fleet() && w1.now == w.now && MayWait(w1)
      && w1.cluster.value.spec == w.cluster.value.spec
  {
    var ec, d := w.cluster.value, Decide(w.machines, w.cluster.value, w.now, a);
    WaitIsDecided(w, a);
    var (f, marked, r) := ReconcileNormal(w.Fleet(), ec, w.now, ds, a);
    MarkTable(w.machines, ec, d, a);
    FinishKeeps(w.WithFleet(f), marked, r, a);
    WaitMarks(w, ReconcileStep(w, ds, a).0, marked, d);
  }

  lemma WaitMarks(w: World, w1: World, marked: EtcdadmCluster, d: Decision)
    requires MayWait(w) && d.WaitForAge? && MarkFacts(w.machines, w.cluster.value, d, marked)
    requires w1.machines == w.machines && w1.cluster.Some?
    requires w1.cluster == w.cluster || DecidesLike(marked, w1.cluster.value)
    ensures MayWait(w1) && w1.cluster.value.spec == w.cluster.value.spec
  {
  }

  lemma FinishRequeues(w: World, ec: EtcdadmCluster, r: Result, a: Answers)
    requires !ec.deleting
    ensures
      var (w', r') := Finish(w, ec, r, a);
      r'.requeue == if r.requeue != NoRequeue then r.requeue
                    else if !r'.failed && w'.cluster.Some? && !w'.cluster.value.status.ready then After(20)
                    else NoRequeue
  {
    StatusKeeps(ec, w.secret, CheckOwnedMachines(w.machines, a.health), a);
  }

  /** When the next Reconcile is due: at once after old members were removed without error, at the end
      of the wait for a machine's age, and otherwise in 20 seconds if Ready is false and there was no
      error. */
  lemma RequeueIsExact(w: World, ds: Domains, a: Answers)
    requires Live(w) && a.entry == Proceeds
    ensures
      var (w', r) := ReconcileStep(w, ds, a);
      var d := Decide(w.machines, w.cluster.value, w.now, a);
      && w'.cluster.Some?
      && r.requeue ==
         if d.WaitForAge? && MayWait(w) then After(SecondsLeft(w))
         else if d.CleanUpOldMembers? && Act(w.Fleet(), w.cluster.value.spec, w.now, ds, a, d).1 then Immediately
         else if !r.failed && !w'.cluster.value.status.ready then After(20)
         else NoRequeue
  {
    var ec := w.cluster.value;
    var (f, marked, r) := ReconcileNormal(w.Fleet(), ec, w.now, ds, a);
    FinishRequeues(w.WithFleet(f), marked, r, a);
    FinishKeeps(w.WithFleet(f), marked, r, a);
    WaitIsDecided(w, a);
  }

  /** A Reconcile that ends before its main part changes nothing, or adds the finalizer: what it
      returns says so. */
  lemma EarlyEnds(w: World, ds: Domains, a: Answers)
    requires w.cluster.Some? && (a.entry != Proceeds || !w.cluster.value.finalizer)
    ensures
      var (w', r) := ReconcileStep(w, ds, a);
      && w' == w.(cluster := w'.cluster) && w'.cluster.Some?
      && w'.cluster.value == w.cluster.value.(finalizer := w'.cluster.value.finalizer)
      && (w' == w <==> a.entry != Proceeds || r.failed)
      && (r.failed <==> a.entry in {GetFails, OwnerLookupFails} || (a.entry == Proceeds && !a.patch))
      && r.requeue == (if a.entry == InfrastructureNotReady then After(5)
                       else if a.entry == NoPatchHelper then Immediately
                       else NoRequeue)
  {
  }
}
