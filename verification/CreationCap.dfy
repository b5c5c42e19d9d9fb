/** The fail-safe of the rollout branch: it bounds the creations of that branch however ownership
    is edited between the steps. */
module CreationCap {
  import opened Machines
  import opened EtcdPlane
  import opened Membership
  import opened Cluster
  import opened ReconcileSpec
  import opened HealthCheck
  import opened Runs
  import opened Effects
  import opened Rollout

  /** A Reconcile that creates a machine while an owned one needs a rollout. */
  ghost predicate CreatesInRollout(w: World, ds: Domains, e: Event) {
    && w.cluster.Some? && e.Reconciled?
    && NeedRollout(w.machines, w.cluster.value.spec) != {}
    && ReconcileStep(w, ds, e.a).0.machines.Keys != w.machines.Keys
  }

  ghost function RolloutCreations(w: World, ds: Domains, es: seq<Event>): nat
    requires PossibleRun(w, ds, es)
  {
    if es == [] then 0
    else
      var most := es[..|es| - 1];
      RolloutCreations(w, ds, most) + if CreatesInRollout(Run(w, ds, most), ds, es[|es| - 1]) then 1 else 0
  }

  lemma MatchingGrows(ms: Machines, ms': Machines, spec: Spec)
    requires KeepsMachines(ms, ms')
    ensures Matching(ms, spec) <= Matching(ms', spec)
  {
  }

  lemma MatchingCreated(ms: Machines, ms': Machines, spec: Spec, n: Name, now: int, domain: string)
    requires n !in ms && ms' == ms[n := NewMachine(spec, now, domain)]
    ensures |Matching(ms', spec)| == |Matching(ms, spec)| + 1
  {
    assert Matching(ms', spec) == Matching(ms, spec) + {n};
  }

  lemma OwnershipKeepsMatching(ms: Machines, spec: Spec, n: Name, m: Machine)
    requires n in ms && m.config == ms[n].config && m.template == ms[n].template
    ensures Matching(ms[n := m], spec) == Matching(ms, spec)
  {
  }

  /** The fields of the EtcdadmCluster that the cap depends on, and the matching machines. */
  ghost predicate Grows(w: World, w': World)
    requires w.cluster.Some?
  {
    var spec := w.cluster.value.spec;
    && w'.cluster.Some? && w'.cluster.value.spec == spec && !w'.cluster.value.deleting
    && |Matching(w'.machines, spec)| >= |Matching(w.machines, spec)|
  }

  lemma CapReconcile(w: World, ds: Domains, a: Answers)
    requires w.cluster.Some? && !w.cluster.value.deleting
    ensures
      var w' := ReconcileStep(w, ds, a).0;
      var spec := w.cluster.value.spec;
      && Grows(w, w')
      && (CreatesInRollout(w, ds, Reconciled(a)) ==>
            && |Matching(w.machines, spec)| <= spec.replicas
            && |Matching(w'.machines, spec)| == |Matching(w.machines, spec)| + 1)
  {
    var w' := ReconcileStep(w, ds, a).0;
    var spec := w.cluster.value.spec;
    ReconcileKeeps(w, ds, a);
    MatchingGrows(w.machines, w'.machines, spec);
    SubsetSize(Matching(w.machines, spec), Matching(w'.machines, spec));
    if Live(w) && a.entry == Proceeds {
      var d, marked := ReconcileLive(w, ds, a);
      ActKeeps(w.Fleet(), spec, w.now, ds, a, d);
      if w'.machines.Keys != w.machines.Keys {
        MatchingCreated(w.machines, w'.machines, spec, a.newName, w.now,
                        NextFailureDomainForScaleUp(w.machines, Owned(w.machines), spec, ds));
      }
    }
  }

  lemma CapRemovals(w: World, ds: Domains, e: Event)
    requires w.cluster.Some? && Possible(w, e) && !w.cluster.value.deleting && (e.HealthRound? || e.RemovalTurn?)
    ensures Grows(w, Apply(w, ds, e))
  {
    var w' := Apply(w, ds, e);
    var spec := w.cluster.value.spec;
    if e.HealthRound? {
      RoundKeeps(w, e.c, e.r, e.order);
    } else {
      TurnKeeps(w.Fleet(), Checker(map[], map[e.endpoint := e.machine]), e.endpoint, spec.replicas, e.outcome);
    }
    MatchingGrows(w.machines, w'.machines, spec);
    SubsetSize(Matching(w.machines, spec), Matching(w'.machines, spec));
  }

  lemma CapEdits(w: World, ds: Domains, e: Event)
    requires w.cluster.Some? && Possible(w, e) && !w.cluster.value.deleting
    requires !e.Reconciled? && !e.HealthRound? && !e.RemovalTurn? && !e.Vanished? && !e.DeletionRequested?
    ensures Grows(w, Apply(w, ds, e))
  {
    var w' := Apply(w, ds, e);
    if e.Addressed? || e.OwnershipEdited? {
      OwnershipKeepsMatching(w.machines, w.cluster.value.spec, e.n, w'.machines[e.n]);
    }
  }

  lemma CapStep(w: World, ds: Domains, e: Event)
    requires w.cluster.Some? && Possible(w, e) && !e.Vanished? && !e.DeletionRequested? && !w.cluster.value.deleting
    ensures
      var w' := Apply(w, ds, e);
      var spec := w.cluster.value.spec;
      && Grows(w, w')
      && (CreatesInRollout(w, ds, e) ==>
            && |Matching(w.machines, spec)| <= spec.replicas
            && |Matching(w'.machines, spec)| == |Matching(w.machines, spec)| + 1)
  {
    if e.Reconciled? {
      CapReconcile(w, ds, e.a);
    } else if e.HealthRound? || e.RemovalTurn? {
      CapRemovals(w, ds, e);
    } else {
      CapEdits(w, ds, e);
    }
  }

  lemma {:induction false} CapKeeps(w0: World, ds: Domains, es: seq<Event>)
    requires w0.cluster.Some? && !w0.cluster.value.deleting && PossibleRun(w0, ds, es)
    requires forall e :: e in es ==> !e.Vanished? && !e.DeletionRequested?
    ensures
      var w := Run(w0, ds, es);
      var spec := w0.cluster.value.spec;
      && w.cluster.Some? && w.cluster.value.spec == spec && !w.cluster.value.deleting
      && RolloutCreations(w0, ds, es) + |Matching(w0.machines, spec)| <= |Matching(w.machines, spec)|
      && (RolloutCreations(w0, ds, es) > 0 ==>
            RolloutCreations(w0, ds, es) + |Matching(w0.machines, spec)| <= spec.replicas + 1)
  {
    if es != [] {
      CapKeeps(w0, ds, es[..|es| - 1]);
      CapStep(Run(w0, ds, es[..|es| - 1]), ds, es[|es| - 1]);
    }
  }

  /** Whatever happens between the steps, short of a machine being lost, the rollout branch
      creates at most N + 1 machines. */
  lemma CreationsAreCapped(w0: World, ds: Domains, es: seq<Event>)
    requires w0.cluster.Some? && !w0.cluster.value.deleting && PossibleRun(w0, ds, es)
    requires forall e :: e in es ==> !e.Vanished? && !e.DeletionRequested?
    ensures RolloutCreations(w0, ds, es) <= w0.cluster.value.spec.replicas + 1
  {
    CapKeeps(w0, ds, es);
  }

  /** The guard of the branch is exact: a Reconcile whose calls succeed, and whose newest machine is
      ready, creates a machine in the rollout branch if and only if the matching machines, owned
      or not, are at most N and the owned ones are as few as a creation asks for. */
  lemma GuardIsExact(w: World, ds: Domains, a: Answers)
    requires Live(w) && NeedRollout(w.machines, w.cluster.value.spec) != {} && Favourable(w, a)
    requires Unowned(w.machines) == {} || !w.cluster.value.controlPlaneUpgraded
    ensures
      var spec, owned := w.cluster.value.spec, |Owned(w.machines)|;
      ReconcileStep(w, ds, a).0.machines.Keys != w.machines.Keys
      <==> |Matching(w.machines, spec)| <= spec.replicas
           && if spec.replicas == 1 then owned == 1 else owned < spec.replicas
  {
    var d, marked := ReconcileLive(w, ds, a);
    var spec := w.cluster.value.spec;
    ActKeeps(w.Fleet(), spec, w.now, ds, a, d);
    assert d.InRollout();
    if d.RollCreate? {
      CreationGoesThrough(w.Fleet(), spec, w.now, ds, a, d);
    }
  }

  lemma CreationGoesThrough(f: Fleet, spec: Spec, now: int, ds: Domains, a: Answers, d: Decision)
    requires d.RollCreate? && a.creation && a.newName !in f.machines
    ensures a.newName in Act(f, spec, now, ds, a, d).0.machines
  {
  }

  /** Whatever else is answered, above N it creates nothing. */
  lemma GuardHolds(w: World, ds: Domains, a: Answers)
    requires Live(w) && a.entry == Proceeds
    requires NeedRollout(w.machines, w.cluster.value.spec) != {}
    requires |Matching(w.machines, w.cluster.value.spec)| > w.cluster.value.spec.replicas
    ensures ReconcileStep(w, ds, a).0.machines.Keys == w.machines.Keys
  {
    var d, marked := ReconcileLive(w, ds, a);
    ActKeeps(w.Fleet(), w.cluster.value.spec, w.now, ds, a, d);
  }
}
