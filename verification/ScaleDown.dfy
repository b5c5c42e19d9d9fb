/** Scaling down by d: any interleaving of Reconciles and disappearances removes exactly d
    machines, one after the other. */
module ScaleDown {
  import opened Wrappers
  import opened Machines
  import opened EtcdPlane
  import opened Membership
  import opened Cluster
  import opened ReconcileSpec
  import opened Runs
  import opened Effects
  import opened Rollout
  import opened Convergence

  // ----- Selection does not look at deletion timestamps -----

  function Surplus(ms: Machines, ds: Domains): Option<Name> {
    SelectMachineForScaleDown(ms, Owned(ms), {}, ds)
  }

  /** Equal but for deletion timestamps and addresses. */
  predicate LooksLike(m: Machine, m': Machine) {
    m' == m.(terminating := m'.terminating, addresses := m'.addresses)
  }

  ghost predicate LookAlike(ms: Machines, ms': Machines) {
    ms'.Keys == ms.Keys && forall n :: n in ms ==> LooksLike(ms[n], ms'[n])
  }

  lemma OldestAlike(ms: Machines, ms': Machines, ns: set<Name>)
    requires LookAlike(ms, ms') && ns != {} && ns <= ms.Keys
    ensures Oldest(ms', ns) == Oldest(ms, ns)
  {
    var x, y := Oldest(ms, ns), Oldest(ms', ns);
    assert Before(ms, x, y) && Before(ms', y, x);
  }

  /** While the chosen machine is terminating the same one is chosen again. */
  lemma SelectsAgain(ms: Machines, ms': Machines, ds: Domains)
    requires LookAlike(ms, ms')
    ensures Surplus(ms', ds) == Surplus(ms, ds)
  {
    assert Owned(ms') == Owned(ms);
    var owned := Owned(ms);
    assert MachinesWithDeleteAnnotation(ms', owned) == MachinesWithDeleteAnnotation(ms, owned);
    assert MachinesWithDeleteAnnotation(ms', {}) == MachinesWithDeleteAnnotation(ms, {}) == {};
    SameChoice(ms, ms', owned, Pool(ms, owned, {}), ds);
  }

  lemma SameChoice(ms: Machines, ms': Machines, owned: set<Name>, pool: set<Name>, ds: Domains)
    requires LookAlike(ms, ms') && owned <= ms.Keys && pool <= ms.Keys
    ensures MachineInFailureDomainWithMostMachines(ms', owned, pool, ds)
         == MachineInFailureDomainWithMostMachines(ms, owned, pool, ds)
  {
    var elsewhere := Elsewhere(ms, pool, ds);
    assert Elsewhere(ms', pool, ds) == elsewhere;
    assert DomainOf(ms', owned) == DomainOf(ms, owned);
    if elsewhere != {} {
      OldestAlike(ms, ms', elsewhere);
    }
    var domain := FailureDomainWithMostMachines(ms, owned, pool, ds);
    assert domain == FailureDomainWithMostMachines(ms', owned, pool, ds);
    var inDomain := InFailureDomain(ms, pool, domain);
    assert InFailureDomain(ms', pool, domain) == inDomain;
    if inDomain != {} {
      OldestAlike(ms, ms', inDomain);
    }
  }

  // ----- The invariant -----

  function Doomed(ms: Machines): set<Name> {
    set n | n in ms && ms[n].owned && ms[n].terminating
  }

  /** N machines and some surplus; only `next` may be terminating, and only while there is
      surplus. */
  ghost predicate ShrinkingTo(w: World, next: Option<Name>) {
    && Live(w)
    && var ec := w.cluster.value;
    && ec.spec.Valid() && !ec.controlPlaneUpgraded && !ec.conditions.initialized.False?
    && (forall n :: n in Owned(w.machines) ==> Matches(w.machines[n], ec.spec))
    && |Owned(w.machines)| >= ec.spec.replicas
    && (Doomed(w.machines) != {} ==>
          |Owned(w.machines)| > ec.spec.replicas && next.Some? && Doomed(w.machines) == {next.value})
  }

  ghost predicate Shrinking(w: World, ds: Domains) {
    ShrinkingTo(w, Surplus(w.machines, ds))
  }

  predicate DuringScaleDown(e: Event) {
    e.Reconciled? || e.Vanished? || e.Ticked? || e.Addressed? || e.Joined? || e.InitReported?
  }

  lemma ShrinkingDecides(w: World, ds: Domains, a: Answers, d: Decision)
    requires Shrinking(w, ds) && DecisionFacts(w.machines, w.cluster.value, w.now, a, d)
    ensures d.Unreadable? || d.WholePlaneUnreadable? || d.CertificatesFail? || d.Settled? || d.ScaleDown?
    ensures d.ScaleDown? ==> |Owned(w.machines)| > w.cluster.value.spec.replicas
    ensures (a.externalReference && a.listing && a.ownedPlane && a.wholePlane && a.certificates
             && |Owned(w.machines)| > w.cluster.value.spec.replicas) ==> d.ScaleDown?
  {
    assert NeedRollout(w.machines, w.cluster.value.spec) == {};
  }

  lemma Dooms(ms: Machines, ds: Domains, n: Name)
    requires Surplus(ms, ds) == Some(n) && n in Owned(ms)
    requires Doomed(ms) <= {n}
    ensures
      var ms' := ms[n := ms[n].(terminating := true)];
      Owned(ms') == Owned(ms) && Doomed(ms') == {n} && Surplus(ms', ds) == Surplus(ms, ds)
  {
    var ms' := ms[n := ms[n].(terminating := true)];
    assert Owned(ms') == Owned(ms);
    assert Doomed(ms') == {n};
    SelectsAgain(ms, ms', ds);
  }

  lemma Vanishes(ms: Machines, n: Name)
    requires n in ms && ms[n].terminating
    ensures
      var ms' := ms - {n};
      && Doomed(ms') == Doomed(ms) - {n}
      && Owned(ms') == Owned(ms) - {n}
      && (n in Doomed(ms) <==> n in Owned(ms))
  {
    var ms' := ms - {n};
    assert Doomed(ms') == Doomed(ms) - {n};
    assert Owned(ms') == Owned(ms) - {n};
  }

  lemma ActShrinks(w: World, ds: Domains, a: Answers, d: Decision)
    requires Shrinking(w, ds) && PicksEligible(ds) && DecisionFacts(w.machines, w.cluster.value, w.now, a, d)
    ensures
      var ms := Act(w.Fleet(), w.cluster.value.spec, w.now, ds, a, d).0.machines;
      var next := Surplus(w.machines, ds);
      || ms == w.machines
      || (d.ScaleDown? && next.Some? && next.value in Owned(w.machines)
          && ms == w.machines[next.value := w.machines[next.value].(terminating := true)])
  {
    ShrinkingDecides(w, ds, a, d);
    if d.ScaleDown? {
      ShrinkingSelects(w, ds);
      SurplusRemoved(w.Fleet(), ds, a);
    } else {
      IdleAct(w.Fleet(), w.cluster.value.spec, w.now, ds, a, d);
    }
  }

  /** Steps after which the machines owned and the fields that matter are the same. */
  lemma GoesOnShrinking(w: World, w': World, next: Option<Name>)
    requires ShrinkingTo(w, next) && Live(w') && w'.cluster.value.spec == w.cluster.value.spec
    requires !w'.cluster.value.controlPlaneUpgraded && !w'.cluster.value.conditions.initialized.False?
    requires Owned(w'.machines) == Owned(w.machines)
    requires forall n :: n in Owned(w.machines) ==> LooksLike(w.machines[n], w'.machines[n])
    requires Doomed(w'.machines) == Doomed(w.machines)
          || (next.Some? && Doomed(w'.machines) == {next.value} && |Owned(w.machines)| > w.cluster.value.spec.replicas)
    ensures ShrinkingTo(w', next)
  {
  }

  lemma ShrinkingCluster(w: World, w': World, ds: Domains, a: Answers, d: Decision, marked: EtcdadmCluster)
    requires Shrinking(w, ds) && DecisionFacts(w.machines, w.cluster.value, w.now, a, d)
    requires MarkFacts(w.machines, w.cluster.value, d, marked)
    requires Live(w') && if Persisted(a) then DecidesLike(marked, w'.cluster.value) else w'.cluster == w.cluster
    ensures w'.cluster.value.spec == w.cluster.value.spec
    ensures !w'.cluster.value.controlPlaneUpgraded && !w'.cluster.value.conditions.initialized.False?
  {
    ShrinkingDecides(w, ds, a, d);
  }

  /** What a Reconcile does: nothing to the machines, or it dooms the surplus machine. */
  lemma ReconcileShrinks(w: World, ds: Domains, a: Answers) returns (d: Decision)
    requires Shrinking(w, ds) && PicksEligible(ds) && a.entry == Proceeds
    ensures
      var w' := ReconcileStep(w, ds, a).0;
      && Shrinking(w', ds) && Owned(w'.machines) == Owned(w.machines)
      && w'.cluster.value.spec == w.cluster.value.spec
      && DecisionFacts(w.machines, w.cluster.value, w.now, a, d)
      && w'.Fleet() == Act(w.Fleet(), w.cluster.value.spec, w.now, ds, a, d).0
  {
    var w' := ReconcileStep(w, ds, a).0;
    var marked;
    d, marked := ReconcileLive(w, ds, a);
    ShrinkingCluster(w, w', ds, a, d, marked);
    ActShrinks(w, ds, a, d);
    ShrinkingStep(w, w', ds, a, d);
  }

  lemma ShrinkingStep(w: World, w': World, ds: Domains, a: Answers, d: Decision)
    requires Shrinking(w, ds) && Live(w') && w'.cluster.value.spec == w.cluster.value.spec
    requires DecisionFacts(w.machines, w.cluster.value, w.now, a, d)
    requires !w'.cluster.value.controlPlaneUpgraded && !w'.cluster.value.conditions.initialized.False?
    requires
      var next := Surplus(w.machines, ds);
      || w'.machines == w.machines
      || (d.ScaleDown? && next.Some? && next.value in Owned(w.machines)
          && w'.machines == w.machines[next.value := w.machines[next.value].(terminating := true)])
    ensures Shrinking(w', ds) && Owned(w'.machines) == Owned(w.machines)
  {
    var next := Surplus(w.machines, ds);
    if w'.machines != w.machines {
      ShrinkingDecides(w, ds, a, d);
      Dooms(w.machines, ds, next.value);
    }
    GoesOnShrinking(w, w', next);
  }

  lemma ShrinkingSelects(w: World, ds: Domains)
    requires Shrinking(w, ds) && PicksEligible(ds)
    ensures Surplus(w.machines, ds).Some? && Surplus(w.machines, ds).value in Owned(w.machines)
  {
    assert Owned(w.machines) != {};
    SelectsOwned(w.machines, ds);
  }

  lemma EnvironmentShrinks(w: World, ds: Domains, e: Event)
    requires Shrinking(w, ds) && Possible(w, e) && DuringScaleDown(e) && !e.Reconciled? && !e.Vanished?
    ensures
      var w' := Apply(w, ds, e);
      Shrinking(w', ds) && w'.cluster.value.spec == w.cluster.value.spec && Owned(w'.machines) == Owned(w.machines)
  {
    var w' := Apply(w, ds, e);
    QuietEvent(w, ds, e);
    SelectsAgain(w.machines, w'.machines, ds);
    AlikeSets(w.machines, w'.machines);
    GoesOnShrinking(w, w', Surplus(w.machines, ds));
  }

  lemma QuietEvent(w: World, ds: Domains, e: Event)
    requires Live(w) && Possible(w, e) && DuringScaleDown(e) && !e.Reconciled? && !e.Vanished?
    ensures
      var w' := Apply(w, ds, e);
      && Live(w') && w'.cluster.value.spec == w.cluster.value.spec
      && w'.cluster.value.controlPlaneUpgraded == w.cluster.value.controlPlaneUpgraded
      && w'.cluster.value.conditions == w.cluster.value.conditions
      && LookAlike(w.machines, w'.machines)
      && forall n :: n in w.machines ==> w'.machines[n].terminating == w.machines[n].terminating
  {
  }

  lemma AlikeSets(ms: Machines, ms': Machines)
    requires LookAlike(ms, ms') && forall n :: n in ms ==> ms'[n].terminating == ms[n].terminating
    ensures Owned(ms') == Owned(ms) && Doomed(ms') == Doomed(ms)
  {
    assert Owned(ms') == Owned(ms);
    assert Doomed(ms') == Doomed(ms);
  }

  lemma VanishShrinks(w: World, w': World, ds: Domains, n: Name)
    requires Shrinking(w, ds) && n in w.machines && w.machines[n].terminating
    requires w' == w.(machines := w.machines - {n})
    ensures Shrinking(w', ds) && Owned(w'.machines) == Owned(w.machines) - {n}
    ensures n in Owned(w.machines) ==> n in Doomed(w.machines)
  {
    Vanishes(w.machines, n);
    if n in Owned(w.machines) {
      assert |Owned(w'.machines)| == |Owned(w.machines)| - 1;
      assert Doomed(w'.machines) == {};
    } else {
      VanishedElsewhere(w, w', ds, n);
    }
  }

  /** Machines that are not owned play no part in the selection. */
  lemma VanishedElsewhere(w: World, w': World, ds: Domains, n: Name)
    requires n in w.machines && n !in Owned(w.machines) && w'.machines == w.machines - {n}
    ensures Owned(w'.machines) == Owned(w.machines) && Surplus(w'.machines, ds) == Surplus(w.machines, ds)
  {
    var ms, ms', owned := w.machines, w'.machines, Owned(w.machines);
    assert Owned(ms') == owned;
    assert MachinesWithDeleteAnnotation(ms', owned) == MachinesWithDeleteAnnotation(ms, owned);
    var pool := Pool(ms, owned, {});
    assert pool <= owned;
    var elsewhere := Elsewhere(ms, pool, ds);
    assert Elsewhere(ms', pool, ds) == elsewhere;
    assert DomainOf(ms', owned) == DomainOf(ms, owned);
    if elsewhere != {} {
      OldestAmong(ms, ms', elsewhere);
    }
    var domain := FailureDomainWithMostMachines(ms, owned, pool, ds);
    var inDomain := InFailureDomain(ms, pool, domain);
    assert InFailureDomain(ms', pool, domain) == inDomain;
    if inDomain != {} {
      OldestAmong(ms, ms', inDomain);
    }
  }

  lemma OldestAmong(ms: Machines, ms': Machines, ns: set<Name>)
    requires ns != {} && ns <= ms.Keys && ns <= ms'.Keys && forall n :: n in ns ==> ms'[n] == ms[n]
    ensures Oldest(ms', ns) == Oldest(ms, ns)
  {
    var x, y := Oldest(ms, ns), Oldest(ms', ns);
    assert Before(ms, x, y) && Before(ms', y, x);
  }

  // ----- Runs -----

  lemma StepShrinks(w: World, ds: Domains, e: Event)
    requires Shrinking(w, ds) && PicksEligible(ds) && Possible(w, e) && DuringScaleDown(e)
    ensures
      var w' := Apply(w, ds, e);
      && Shrinking(w', ds) && w'.cluster.value.spec == w.cluster.value.spec
      && Owned(w'.machines) <= Owned(w.machines)
  {
    if e.Vanished? {
      VanishShrinks(w, Apply(w, ds, e), ds, e.n);
    } else if !e.Reconciled? {
      EnvironmentShrinks(w, ds, e);
    } else if e.a.entry != Proceeds {
      ReconcileBlocked(w, ds, e.a);
    } else {
      var d := ReconcileShrinks(w, ds, e.a);
    }
  }

  /** In every interleaving, at every point: the machines gone and those still owned make up the
      N + d of the start, at least N remain, at most one is terminating and only while more than
      N are owned. So when nothing is left to do exactly d have gone. */
  lemma {:induction false} ScaleDownIsExact(w0: World, ds: Domains, es: seq<Event>)
    requires Shrinking(w0, ds) && Doomed(w0.machines) == {} && PicksEligible(ds)
    requires PossibleRun(w0, ds, es) && forall e :: e in es ==> DuringScaleDown(e)
    ensures
      var w := Run(w0, ds, es);
      var replicas := w0.cluster.value.spec.replicas;
      var gone := Owned(w0.machines) - Owned(w.machines);
      && Shrinking(w, ds) && w.cluster.value.spec == w0.cluster.value.spec
      && Owned(w.machines) <= Owned(w0.machines) && |Owned(w.machines)| >= replicas
      && |gone| + |Owned(w.machines)| == |Owned(w0.machines)|
      && |gone + Doomed(w.machines)| <= |Owned(w0.machines)| - replicas
      && |Doomed(w.machines)| <= 1
      && (|Owned(w.machines)| == replicas ==> |gone| == |Owned(w0.machines)| - replicas && Doomed(w.machines) == {})
  {
    if es != [] {
      ScaleDownIsExact(w0, ds, es[..|es| - 1]);
      StepShrinks(Run(w0, ds, es[..|es| - 1]), ds, es[|es| - 1]);
    }
    GoneCount(w0, Run(w0, ds, es), ds);
  }

  lemma GoneCount(w0: World, w: World, ds: Domains)
    requires Shrinking(w, ds) && Owned(w.machines) <= Owned(w0.machines)
    ensures
      var gone := Owned(w0.machines) - Owned(w.machines);
      && |gone| + |Owned(w.machines)| == |Owned(w0.machines)|
      && |Doomed(w.machines)| <= 1
      && |gone + Doomed(w.machines)| <= |Owned(w0.machines)| - w.cluster.value.spec.replicas
  {
    var gone := Owned(w0.machines) - Owned(w.machines);
    assert gone + Owned(w.machines) == Owned(w0.machines);
    if Doomed(w.machines) != {} {
      var n := Surplus(w.machines, ds).value;
      assert n in Doomed(w.machines) && n !in gone;
      assert gone + Doomed(w.machines) == gone + {n};
    } else {
      assert gone + Doomed(w.machines) == gone;
    }
  }

  /** While more than N are owned, a Reconcile whose calls go well dooms the surplus machine,
      unless etcd has no other member. */
  lemma ScaleDownProgress(w: World, ds: Domains, a: Answers)
    requires Shrinking(w, ds) && PicksEligible(ds) && |Owned(w.machines)| > w.cluster.value.spec.replicas
    requires Favourable(w, a) && RemovalGoesThrough(w, ds, a)
    ensures Surplus(w.machines, ds).Some?
    ensures Doomed(ReconcileStep(w, ds, a).0.machines) == {Surplus(w.machines, ds).value}
  {
    var d := ReconcileShrinks(w, ds, a);
    ShrinkingDecides(w, ds, a, d);
    ShrinkingSelects(w, ds);
    SurplusDoomed(w, ds, a);
  }

  lemma SurplusDoomed(w: World, ds: Domains, a: Answers)
    requires w.cluster.Some? && RemovalGoesThrough(w, ds, a)
    requires Surplus(w.machines, ds).Some? && Surplus(w.machines, ds).value in Owned(w.machines)
    requires Doomed(w.machines) <= {Surplus(w.machines, ds).value}
    ensures Doomed(RemoveSurplus(w.Fleet(), ds, a).0.machines) == {Surplus(w.machines, ds).value}
  {
    var n := Surplus(w.machines, ds).value;
    if |w.members| <= 1 {
      NobodyAt(w.members, EtcdMachineAddress(w.machines[n]));
    }
    assert RemoveSurplus(w.Fleet(), ds, a).0.machines == w.machines[n := w.machines[n].(terminating := true)];
    Dooms(w.machines, ds, n);
  }
}
