/** Reconciles, health check removals and disappearing machines in any order: the owned machines
    never exceed N, and at most one of them is not active. */
module Interleaving {
  import opened Wrappers
  import opened Machines
  import opened EtcdPlane
  import opened Membership
  import opened Cluster
  import opened ReconcileSpec
  import opened HealthCheck
  import opened Runs
  import opened Effects

  ghost predicate Bounded(ms: Machines, replicas: nat) {
    replicas - 1 <= |ActiveOwned(ms)| && |Owned(ms)| <= replicas
  }

  /** Nothing owned needs a rollout. */
  predicate OwnedMatch(ms: Machines, spec: Spec) {
    forall n :: n in ms && ms[n].owned ==> Matches(ms[n], spec)
  }

  ghost predicate Steady(w: World, spec: Spec) {
    && w.cluster.Some? && w.cluster.value.spec == spec && spec.Valid() && !w.cluster.value.deleting
    && OwnedMatch(w.machines, spec) && Bounded(w.machines, spec.replicas)
  }

  /** No rollout, no edits by hand, no teardown. */
  predicate Undisturbed(e: Event) {
    !e.OwnershipEdited? && !e.DeletionRequested?
  }

  // ----- Machines -----

  lemma ActiveAmongOwned(ms: Machines)
    ensures ActiveOwned(ms) <= Owned(ms) && |ActiveOwned(ms)| <= |Owned(ms)|
  {
    SubsetSize(ActiveOwned(ms), Owned(ms));
  }

  /** When all but one machine stay as they are, at most one active machine is lost. */
  lemma OneTouched(ms: Machines, ms': Machines, x: Name, spec: Spec)
    requires KeepsOwners(ms, ms') && forall n :: n in ms && n != x ==> ms'[n] == ms[n]
    ensures Owned(ms') == Owned(ms) && |ActiveOwned(ms')| >= |ActiveOwned(ms)| - 1
    ensures OwnedMatch(ms, spec) ==> OwnedMatch(ms', spec)
  {
    assert Owned(ms') == Owned(ms);
    assert ActiveOwned(ms) - {x} <= ActiveOwned(ms');
    SubsetSize(ActiveOwned(ms) - {x}, ActiveOwned(ms'));
    if x in ActiveOwned(ms) {
      assert |ActiveOwned(ms) - {x}| == |ActiveOwned(ms)| - 1;
    } else {
      assert ActiveOwned(ms) - {x} == ActiveOwned(ms);
    }
  }

  lemma UnownedTouched(ms: Machines, ms': Machines, spec: Spec)
    requires KeepsOwners(ms, ms') && forall n :: n in ms && ms[n].owned ==> ms'[n] == ms[n]
    ensures Owned(ms') == Owned(ms) && ActiveOwned(ms') == ActiveOwned(ms)
    ensures OwnedMatch(ms, spec) ==> OwnedMatch(ms', spec)
  {
    assert Owned(ms') == Owned(ms);
    assert ActiveOwned(ms') == ActiveOwned(ms);
  }

  lemma MachineAdded(ms: Machines, spec: Spec, n: Name, now: int, domain: string)
    requires n !in ms
    ensures
      var ms' := ms[n := NewMachine(spec, now, domain)];
      && Owned(ms') == Owned(ms) + {n} && ActiveOwned(ms') == ActiveOwned(ms) + {n}
      && n !in Owned(ms) && n !in ActiveOwned(ms)
      && (OwnedMatch(ms, spec) ==> OwnedMatch(ms', spec))
  {
    var ms' := ms[n := NewMachine(spec, now, domain)];
    assert Owned(ms') == Owned(ms) + {n};
    assert ActiveOwned(ms') == ActiveOwned(ms) + {n};
  }

  lemma MachineVanished(ms: Machines, n: Name, spec: Spec)
    requires n in ms && ms[n].terminating
    ensures
      var ms' := ms - {n};
      && ActiveOwned(ms') == ActiveOwned(ms) && |Owned(ms')| <= |Owned(ms)|
      && (OwnedMatch(ms, spec) ==> OwnedMatch(ms', spec))
  {
    var ms' := ms - {n};
    assert ActiveOwned(ms') == ActiveOwned(ms);
    assert Owned(ms') <= Owned(ms);
    SubsetSize(Owned(ms'), Owned(ms));
  }

  // ----- Steps -----

  /** One turn of the removal loop, for any machine and endpoint in the queue. */
  lemma TurnBounded(f: Fleet, c: Checker, endpoint: string, outcome: RemovalOutcome, spec: Spec)
    requires endpoint in c.toRemove && Bounded(f.machines, spec.replicas) && OwnedMatch(f.machines, spec)
    ensures
      var f' := RemoveOne(f, c, endpoint, spec.replicas, outcome).0;
      Bounded(f'.machines, spec.replicas) && OwnedMatch(f'.machines, spec)
  {
    if |ActiveOwned(f.machines)| >= spec.replicas {
      var address := Text.MachineAddressFromClientURL(endpoint);
      RemovalKeeps(f, Some(c.toRemove[endpoint]), address, outcome);
      var f' := RemoveEtcdMachine(f, Some(c.toRemove[endpoint]), address, outcome).0;
      OneTouched(f.machines, f'.machines, c.toRemove[endpoint], spec);
    }
  }

  lemma {:induction false} TurnsBounded(
    f: Fleet, c: Checker, order: seq<string>, removals: map<string, RemovalOutcome>, spec: Spec)
    requires forall e :: e in order ==> e in c.toRemove
    requires forall i, j :: 0 <= i < j < |order| ==> order[i] != order[j]
    requires Bounded(f.machines, spec.replicas) && OwnedMatch(f.machines, spec)
    ensures
      var f' := RemoveQueued(f, c, order, spec.replicas, removals).0;
      Bounded(f'.machines, spec.replicas) && OwnedMatch(f'.machines, spec)
    decreases order
  {
    if order != [] {
      var most, last := order[..|order| - 1], order[|order| - 1];
      TurnsBounded(f, c, most, removals, spec);
      var (g, d, _) := RemoveQueued(f, c, most, spec.replicas, removals);
      assert last !in most;
      TurnBounded(g, d, last, OutcomeFor(removals, last), spec);
    }
  }

  lemma RoundBounded(w: World, c: Checker, r: RoundAnswers, order: seq<string>, spec: Spec)
    requires Steady(w, spec)
    requires Removes(w, c, r) ==> Visits(order, Checked(c, w.machines, w.cluster.value, r).toRemove.Keys)
    ensures Steady(Round(w, c, r, order).0, spec)
  {
    if Removes(w, c, r) {
      TurnsBounded(w.Fleet(), Checked(c, w.machines, w.cluster.value, r), order, r.removals, spec);
    }
  }

  lemma ActBounded(w: World, ds: Domains, a: Answers, d: Decision)
    requires Live(w) && Steady(w, w.cluster.value.spec)
    requires DecisionFacts(w.machines, w.cluster.value, w.now, a, d)
    ensures
      var spec := w.cluster.value.spec;
      var ms := Act(w.Fleet(), spec, w.now, ds, a, d).0.machines;
      OwnedMatch(ms, spec) && Bounded(ms, spec.replicas)
  {
    var spec := w.cluster.value.spec;
    var f' := Act(w.Fleet(), spec, w.now, ds, a, d).0;
    assert NeedRollout(w.machines, spec) == {};
    ActiveAmongOwned(w.machines);
    ActKeeps(w.Fleet(), spec, w.now, ds, a, d);
    if d.CleanUpOldMembers? {
      RemovalsKeep(w.Fleet(), w.machines, Arrange(Unowned(w.machines), a.order), a.removals);
      UnownedTouched(w.machines, f'.machines, spec);
    } else if f'.machines.Keys != w.machines.Keys {
      var domain := NextFailureDomainForScaleUp(w.machines, Owned(w.machines), spec, ds);
      MachineAdded(w.machines, spec, a.newName, w.now, domain);
      AddOne(Owned(w.machines), a.newName);
      AddOne(ActiveOwned(w.machines), a.newName);
    } else {
      assert f'.machines == w.machines;
    }
  }

  lemma ReconcileBounded(w: World, ds: Domains, a: Answers, spec: Spec)
    requires Steady(w, spec)
    ensures Steady(ReconcileStep(w, ds, a).0, spec)
  {
    if Live(w) && a.entry == Proceeds {
      var d, marked := ReconcileLive(w, ds, a);
      ActBounded(w, ds, a, d);
    }
  }

  lemma MachineAddressed(ms: Machines, n: Name, addresses: seq<MachineAddress>, spec: Spec)
    requires n in ms
    ensures
      var ms' := ms[n := ms[n].(addresses := addresses)];
      && Owned(ms') == Owned(ms) && ActiveOwned(ms') == ActiveOwned(ms)
      && (OwnedMatch(ms, spec) ==> OwnedMatch(ms', spec))
  {
    var ms' := ms[n := ms[n].(addresses := addresses)];
    assert Owned(ms') == Owned(ms);
    assert ActiveOwned(ms') == ActiveOwned(ms);
  }

  lemma EventBounded(w: World, ds: Domains, e: Event, spec: Spec)
    requires Steady(w, spec) && Possible(w, e) && Undisturbed(e)
    requires !e.Reconciled? && !e.HealthRound? && !e.RemovalTurn?
    ensures Steady(Apply(w, ds, e), spec)
  {
    if e.Addressed? {
      MachineAddressed(w.machines, e.n, e.addresses, spec);
    } else if e.Vanished? {
      MachineVanished(w.machines, e.n, spec);
    }
  }

  lemma StepBounded(w: World, ds: Domains, e: Event, spec: Spec)
    requires Steady(w, spec) && Possible(w, e) && Undisturbed(e)
    ensures Steady(Apply(w, ds, e), spec)
  {
    match e
    case Reconciled(a) => ReconcileBounded(w, ds, a, spec);
    case HealthRound(c, r, order) => RoundBounded(w, c, r, order, spec);
    case RemovalTurn(endpoint, machine, outcome) =>
      TurnBounded(w.Fleet(), Checker(map[], map[endpoint := machine]), endpoint, outcome, spec);
    case _ => EventBounded(w, ds, e, spec);
  }

  /** From N owned machines, all active and all matching: in every interleaving, at every point,
      N - 1 <= active owned <= owned <= N. */
  lemma {:induction false} StaysBounded(w0: World, ds: Domains, es: seq<Event>)
    requires w0.cluster.Some? && w0.cluster.value.spec.Valid() && !w0.cluster.value.deleting
    requires OwnedMatch(w0.machines, w0.cluster.value.spec)
    requires |Owned(w0.machines)| == w0.cluster.value.spec.replicas && ActiveOwned(w0.machines) == Owned(w0.machines)
    requires PossibleRun(w0, ds, es) && forall e :: e in es ==> Undisturbed(e)
    ensures
      var w := Run(w0, ds, es);
      var replicas := w0.cluster.value.spec.replicas;
      && Steady(w, w0.cluster.value.spec)
      && replicas - 1 <= |ActiveOwned(w.machines)| <= |Owned(w.machines)| <= replicas
  {
    ActiveAmongOwned(Run(w0, ds, es).machines);
    if es != [] {
      StaysBounded(w0, ds, es[..|es| - 1]);
      StepBounded(Run(w0, ds, es[..|es| - 1]), ds, es[|es| - 1], w0.cluster.value.spec);
    }
  }
}
