/** Reconciling converges: with the disappearance of a removed machine counted with the step that
    removed it, a measure falls at every step that acts, down to N owned matching machines. */
module Convergence {
  import opened Machines
  import opened EtcdPlane
  import opened Membership
  import opened Cluster
  import opened ReconcileSpec
  import opened Runs
  import Effects
  import opened Rollout

  // ----- States -----

  /** No machine is terminating or annotated, and an unowned machine does not match. */
  ghost predicate Plain(ms: Machines, spec: Spec) {
    forall n :: n in ms ==>
      !ms[n].terminating && !ms[n].deleteAnnotated && (Matches(ms[n], spec) ==> ms[n].owned)
  }

  ghost predicate Converging(w: World) {
    && Live(w)
    && var ec := w.cluster.value;
    && ec.spec.Valid() && !ec.controlPlaneUpgraded && !ec.conditions.initialized.False?
    && Owned(w.machines) != {} && Plain(w.machines, ec.spec)
    && (|Matching(w.machines, ec.spec)| <= ec.spec.replicas || NeedRollout(w.machines, ec.spec) == {})
  }

  predicate Converged(w: World)
    requires w.cluster.Some?
  {
    |Owned(w.machines)| == w.cluster.value.spec.replicas && NeedRollout(w.machines, w.cluster.value.spec) == {}
  }

  function Distance(a: nat, b: nat): nat {
    if a < b then b - a else a - b
  }

  /** Twice the outdated machines still owned, and how far the owned ones are from N; with one
     replica, where the new machine comes first, how far the up-to-date ones are. */
  ghost function Measure(w: World): nat
    requires w.cluster.Some?
  {
    var spec := w.cluster.value.spec;
    2 * |NeedRollout(w.machines, spec)|
    + Distance(if spec.replicas == 1 then |UpToDate(w.machines, spec)| else |Owned(w.machines)|, spec.replicas)
  }

  /** The machines that are terminating disappear. */
  function Settle(w: World): World {
    w.(machines := map n | n in w.machines && !w.machines[n].terminating :: w.machines[n])
  }

  ghost function ConvergeStep(w: World, ds: Domains, a: Answers): World {
    Settle(ReconcileStep(w, ds, a).0)
  }

  // ----- Machines -----

  lemma Splits(ms: Machines, spec: Spec)
    requires Plain(ms, spec)
    ensures
      var out, up := NeedRollout(ms, spec), UpToDate(ms, spec);
      && Owned(ms) == out + up && |Owned(ms)| == |out| + |up| && Matching(ms, spec) == up
      && (out == {} <==> |out| == 0) && (Owned(ms) == {} <==> |Owned(ms)| == 0)
  {
    var out, up := NeedRollout(ms, spec), UpToDate(ms, spec);
    assert Owned(ms) == out + up;
    assert out !! up;
    assert Matching(ms, spec) == up;
  }

  lemma MachineMade(ms: Machines, spec: Spec, n: Name, m: Machine)
    requires Plain(ms, spec) && n !in ms && Current(m, spec)
    ensures
      var ms' := ms[n := m];
      && Plain(ms', spec) && NeedRollout(ms', spec) == NeedRollout(ms, spec)
      && UpToDate(ms', spec) == UpToDate(ms, spec) + {n} && n !in UpToDate(ms, spec)
  {
    var ms' := ms[n := m];
    assert NeedRollout(ms', spec) == NeedRollout(ms, spec);
    assert UpToDate(ms', spec) == UpToDate(ms, spec) + {n};
  }

  lemma MachineLet(ms: Machines, spec: Spec, n: Name)
    requires Plain(ms, spec) && n in NeedRollout(ms, spec)
    ensures
      var ms' := ms[n := ms[n].(owned := false)];
      && Plain(ms', spec) && UpToDate(ms', spec) == UpToDate(ms, spec)
      && |NeedRollout(ms', spec)| == |NeedRollout(ms, spec)| - 1
  {
    var ms' := ms[n := ms[n].(owned := false)];
    assert UpToDate(ms', spec) == UpToDate(ms, spec);
    assert NeedRollout(ms', spec) == NeedRollout(ms, spec) - {n};
  }

  lemma MachineGone(ms: Machines, spec: Spec, n: Name)
    requires Plain(ms, spec) && n in UpToDate(ms, spec)
    ensures
      var ms' := ms - {n};
      && Plain(ms', spec) && NeedRollout(ms', spec) == NeedRollout(ms, spec)
      && |UpToDate(ms', spec)| == |UpToDate(ms, spec)| - 1
  {
    var ms' := ms - {n};
    assert NeedRollout(ms', spec) == NeedRollout(ms, spec);
    assert UpToDate(ms', spec) == UpToDate(ms, spec) - {n};
  }

  lemma SettlePlain(w: World, spec: Spec)
    requires Plain(w.machines, spec)
    ensures Settle(w) == w
  {
    assert Settle(w).machines == w.machines;
  }

  lemma SettleRemoved(w: World, ms: Machines, spec: Spec, n: Name)
    requires Plain(ms, spec) && n in ms && w.machines == ms[n := ms[n].(terminating := true)]
    ensures Settle(w).machines == ms - {n}
  {
    assert Settle(w).machines == ms - {n};
  }

  // ----- Decisions -----

  lemma ConvergingDecides(w: World, a: Answers, d: Decision)
    requires Converging(w) && DecisionFacts(w.machines, w.cluster.value, w.now, a, d)
    ensures
      var spec := w.cluster.value.spec;
      var out, up, replicas := |NeedRollout(w.machines, spec)|, |UpToDate(w.machines, spec)|, spec.replicas;
      && !d.LimitReached? && !d.CleanUpOldMembers? && !d.Initialize? && !d.AwaitInit? && !d.NoteInit?
      && (d.RollCreate? ==> out > 0 && up <= replicas && if replicas == 1 then out + up == 1 else out + up < replicas)
      && (d.RollDisown? ==> out > 0 && up <= replicas && if replicas == 1 then out + up > 1 else out + up >= replicas)
      && (d.ScaleUp? ==> out == 0 && up < replicas)
      && (d.ScaleDown? ==> out == 0 && up > replicas)
      && (d.Settled? ==> Converged(w))
      && (d.InScale() <==> out == 0 && !d.Unreadable? && !d.WholePlaneUnreadable?)
  {
    Splits(w.machines, w.cluster.value.spec);
  }

  lemma SelectsOutdated(ms: Machines, spec: Spec, ds: Domains)
    requires Plain(ms, spec) && PicksEligible(ds) && NeedRollout(ms, spec) != {}
    ensures
      var r := SelectMachineForScaleDown(ms, Owned(ms), NeedRollout(ms, spec), ds);
      r.Some? && r.value in NeedRollout(ms, spec)
  {
    SelectionIsTotal(ms, Owned(ms), NeedRollout(ms, spec), ds);
    assert MachinesWithDeleteAnnotation(ms, Owned(ms)) == {};
  }

  lemma SelectsOwned(ms: Machines, ds: Domains)
    requires PicksEligible(ds) && Owned(ms) != {}
    ensures
      var r := SelectMachineForScaleDown(ms, Owned(ms), {}, ds);
      r.Some? && r.value in Owned(ms)
  {
    SelectionIsTotal(ms, Owned(ms), {}, ds);
  }

  /** The removal of a surplus machine asks for the deletion of that machine or of none. */
  lemma SurplusRemoved(f: Fleet, ds: Domains, a: Answers)
    ensures
      var r := SelectMachineForScaleDown(f.machines, Owned(f.machines), {}, ds);
      var f' := RemoveSurplus(f, ds, a).0;
      f'.machines == f.machines
      || (r.Some? && r.value in f.machines
          && f'.machines == f.machines[r.value := f.machines[r.value].(terminating := true)])
  {
  }

  // ----- The step -----

  lemma MeasureOf(w: World, out: nat, up: nat)
    requires w.cluster.Some? && Plain(w.machines, w.cluster.value.spec)
    requires out == |NeedRollout(w.machines, w.cluster.value.spec)| && up == |UpToDate(w.machines, w.cluster.value.spec)|
    ensures
      var replicas := w.cluster.value.spec.replicas;
      Measure(w) == 2 * out + Distance(if replicas == 1 then up else out + up, replicas)
  {
    Splits(w.machines, w.cluster.value.spec);
  }

  /** Out and up before and after a step, by what the step does. */
  lemma Made(w: World, w': World, n: Name, m: Machine)
    requires Converging(w) && Live(w') && w'.cluster.value.spec == w.cluster.value.spec
    requires n !in w.machines && Current(m, w.cluster.value.spec) && w'.machines == w.machines[n := m]
    requires
      var spec := w.cluster.value.spec;
      var out, up := |NeedRollout(w.machines, spec)|, |UpToDate(w.machines, spec)|;
      if spec.replicas == 1 then up == 0 else out + up < spec.replicas
    ensures
      var spec := w.cluster.value.spec;
      && Plain(w'.machines, spec) && Owned(w'.machines) != {} && Measure(w') < Measure(w)
      && |Matching(w'.machines, spec)| <= spec.replicas
  {
    var spec := w.cluster.value.spec;
    MachineMade(w.machines, spec, n, m);
    AddOne(UpToDate(w.machines, spec), n);
    Splits(w.machines, spec);
    Splits(w'.machines, spec);
    MeasureOf(w, |NeedRollout(w.machines, spec)|, |UpToDate(w.machines, spec)|);
    MeasureOf(w', |NeedRollout(w.machines, spec)|, |UpToDate(w.machines, spec)| + 1);
  }

  lemma LetGo(w: World, w': World, n: Name)
    requires Converging(w) && Live(w') && w'.cluster.value.spec == w.cluster.value.spec
    requires n in NeedRollout(w.machines, w.cluster.value.spec)
    requires w'.machines == w.machines[n := w.machines[n].(owned := false)]
    requires
      var spec := w.cluster.value.spec;
      var out, up := |NeedRollout(w.machines, spec)|, |UpToDate(w.machines, spec)|;
      up <= spec.replicas && out + up >= spec.replicas && out + up > 1
    ensures
      var spec := w.cluster.value.spec;
      && Plain(w'.machines, spec) && Owned(w'.machines) != {} && Measure(w') < Measure(w)
      && |Matching(w'.machines, spec)| <= spec.replicas
  {
    var spec := w.cluster.value.spec;
    MachineLet(w.machines, spec, n);
    Splits(w.machines, spec);
    Splits(w'.machines, spec);
    MeasureOf(w, |NeedRollout(w.machines, spec)|, |UpToDate(w.machines, spec)|);
    MeasureOf(w', |NeedRollout(w.machines, spec)| - 1, |UpToDate(w.machines, spec)|);
  }

  lemma Gone(w: World, w': World, n: Name)
    requires Converging(w) && Live(w') && w'.cluster.value.spec == w.cluster.value.spec
    requires n in Owned(w.machines) && w'.machines == w.machines - {n}
    requires NeedRollout(w.machines, w.cluster.value.spec) == {}
    requires |UpToDate(w.machines, w.cluster.value.spec)| > w.cluster.value.spec.replicas
    ensures
      var spec := w.cluster.value.spec;
      && Plain(w'.machines, spec) && Owned(w'.machines) != {} && Measure(w') < Measure(w)
      && NeedRollout(w'.machines, spec) == {}
  {
    var spec := w.cluster.value.spec;
    Splits(w.machines, spec);
    MachineGone(w.machines, spec, n);
    Splits(w'.machines, spec);
    MeasureOf(w, 0, |UpToDate(w.machines, spec)|);
    MeasureOf(w', 0, |UpToDate(w.machines, spec)| - 1);
  }

  /** The fields of the EtcdadmCluster that matter stay as they should. */
  lemma ConvergingCluster(w: World, w': World, a: Answers, d: Decision, marked: EtcdadmCluster)
    requires Converging(w) && DecisionFacts(w.machines, w.cluster.value, w.now, a, d)
    requires MarkFacts(w.machines, w.cluster.value, d, marked)
    requires Live(w') && if Persisted(a) then DecidesLike(marked, w'.cluster.value) else w'.cluster == w.cluster
    ensures
      && w'.cluster.value.spec == w.cluster.value.spec && !w'.cluster.value.controlPlaneUpgraded
      && !w'.cluster.value.conditions.initialized.False?
  {
    ConvergingDecides(w, a, d);
  }

  /** The outcome of a step that went from `w` to `w1` before the disappearance. */
  ghost predicate Steps(w: World, w1: World) {
    && w.cluster.Some? && Converging(Settle(w1)) && Settle(w1).cluster.value.spec == w.cluster.value.spec
    && if w1.machines == w.machines then Settle(w1).machines == w.machines
       else Settle(w1).machines != w.machines && Measure(Settle(w1)) < Measure(w)
  }

  ghost predicate After(w: World, w1: World) {
    && Live(w) && Live(w1)
    && w1.cluster.value.spec == w.cluster.value.spec && !w1.cluster.value.controlPlaneUpgraded
    && !w1.cluster.value.conditions.initialized.False?
  }

  lemma SurplusSteps(w: World, w1: World, ds: Domains, a: Answers)
    requires Converging(w) && PicksEligible(ds) && After(w, w1)
    requires NeedRollout(w.machines, w.cluster.value.spec) == {}
    requires |UpToDate(w.machines, w.cluster.value.spec)| > w.cluster.value.spec.replicas
    requires w1.Fleet() == RemoveSurplus(w.Fleet(), ds, a).0
    ensures Steps(w, w1)
  {
    var spec := w.cluster.value.spec;
    SelectsOwned(w.machines, ds);
    SurplusRemoved(w.Fleet(), ds, a);
    var n := SelectMachineForScaleDown(w.machines, Owned(w.machines), {}, ds).value;
    if w1.machines == w.machines {
      SettlePlain(w1, spec);
    } else {
      SettleRemoved(w1, w.machines, spec, n);
      Gone(w, Settle(w1), n);
    }
  }

  lemma MoveSteps(w: World, w1: World, ds: Domains, d: Decision, a: Answers, move: Move)
    requires Converging(w) && After(w, w1)
    requires Moves(w, ds, w1, move, ChecksOf(w, d))
    requires
      var spec := w.cluster.value.spec;
      var out, up := |NeedRollout(w.machines, spec)|, |UpToDate(w.machines, spec)|;
      && (move.Makes? ==> if spec.replicas == 1 then up == 0 else out + up < spec.replicas)
      && (move.Lets? ==> up <= spec.replicas && out + up >= spec.replicas && out + up > 1
                         && move.name in NeedRollout(w.machines, spec))
    ensures Steps(w, w1)
    ensures w1.machines == w.machines <==> move.Stays?
  {
    var spec := w.cluster.value.spec;
    match move
    case Stays =>
      SettlePlain(w1, spec);
    case Makes(n) =>
      Made(w, w1, n, w1.machines[n]);
      SettlePlain(w1, spec);
    case Lets(n) =>
      LetGo(w, w1, n);
      SettlePlain(w1, spec);
      assert w1.machines[n] != w.machines[n];
  }

  /** Every step keeps to converging states, and every step that changes the machines brings the
      measure down. */
  lemma ConvergeStepDecreases(w: World, ds: Domains, a: Answers) returns (d: Decision)
    requires Converging(w) && PicksEligible(ds) && a.entry == Proceeds
    ensures
      var w1 := ReconcileStep(w, ds, a).0;
      && Steps(w, w1)
      && DecisionFacts(w.machines, w.cluster.value, w.now, a, d)
      && w1.Fleet() == Act(w.Fleet(), w.cluster.value.spec, w.now, ds, a, d).0
      && (!d.ScaleDown? ==>
            (w1.machines != w.machines <==>
               ((d.RollCreate? || d.ScaleUp?) && a.creation && a.newName !in w.machines) || (d.RollDisown? && a.disowning)))
  {
    var w1 := ReconcileStep(w, ds, a).0;
    var spec := w.cluster.value.spec;
    var marked;
    d, marked := ReconcileLive(w, ds, a);
    ConvergingDecides(w, a, d);
    ConvergingCluster(w, w1, a, d, marked);
    if d.ScaleDown? {
      SurplusSteps(w, w1, ds, a);
    } else {
      var selected := SelectMachineForScaleDown(w.machines, Owned(w.machines), NeedRollout(w.machines, spec), ds);
      ActMoves(w, w1, ds, a, d);
      if d.RollDisown? {
        SelectsOutdated(w.machines, spec, ds);
      }
      MoveSteps(w, w1, ds, d, a, MoveOf(w, d, a, selected));
    }
  }

  // ----- Runs -----

  ghost function Next(w: World, ds: Domains, e: Event): World
    requires Possible(w, e)
  {
    if e.Reconciled? then ConvergeStep(w, ds, e.a) else Apply(w, ds, e)
  }

  ghost predicate PossibleFrom(w: World, ds: Domains, es: seq<Event>)
    decreases |es|
  {
    es == [] || (Possible(w, es[0]) && DuringRollout(es[0]) && PossibleFrom(Next(w, ds, es[0]), ds, es[1..]))
  }

  ghost function Last(w: World, ds: Domains, es: seq<Event>): World
    requires PossibleFrom(w, ds, es)
    decreases |es|
  {
    if es == [] then w else Last(Next(w, ds, es[0]), ds, es[1..])
  }

  /** The Reconciles of a run that changed which machines there are or who owns them. */
  ghost function ActingSteps(w: World, ds: Domains, es: seq<Event>): nat
    requires PossibleFrom(w, ds, es)
    decreases |es|
  {
    if es == [] then 0
    else
      (if es[0].Reconciled? && Next(w, ds, es[0]).machines != w.machines then 1 else 0)
      + ActingSteps(Next(w, ds, es[0]), ds, es[1..])
  }

  lemma AddressKeeps(ms: Machines, spec: Spec, n: Name, addresses: seq<MachineAddress>)
    requires n in ms && Plain(ms, spec)
    ensures
      var ms' := ms[n := ms[n].(addresses := addresses)];
      && Plain(ms', spec) && Owned(ms') == Owned(ms) && NeedRollout(ms', spec) == NeedRollout(ms, spec)
      && Matching(ms', spec) == Matching(ms, spec) && UpToDate(ms', spec) == UpToDate(ms, spec)
  {
    var ms' := ms[n := ms[n].(addresses := addresses)];
    assert Owned(ms') == Owned(ms);
    assert NeedRollout(ms', spec) == NeedRollout(ms, spec);
    assert Matching(ms', spec) == Matching(ms, spec);
  }

  lemma NextConverges(w: World, ds: Domains, e: Event)
    requires Converging(w) && PicksEligible(ds) && Possible(w, e) && DuringRollout(e)
    ensures
      var w' := Next(w, ds, e);
      && Converging(w') && w'.cluster.value.spec == w.cluster.value.spec
      && Measure(w') + (if e.Reconciled? && w'.machines != w.machines then 1 else 0) <= Measure(w)
  {
    if e.Reconciled? {
      if e.a.entry != Proceeds {
        ReconcileBlocked(w, ds, e.a);
        SettlePlain(w, w.cluster.value.spec);
      } else {
        var d := ConvergeStepDecreases(w, ds, e.a);
        SameMeasure(w, Next(w, ds, e));
      }
    } else if e.Addressed? {
      AddressKeeps(w.machines, w.cluster.value.spec, e.n, e.addresses);
    }
  }

  lemma SameMeasure(w: World, w': World)
    requires w.cluster.Some? && w'.cluster.Some? && w'.cluster.value.spec == w.cluster.value.spec
    ensures w'.machines == w.machines ==> Measure(w') == Measure(w)
  {
  }

  /** In every run the acting Reconciles use up the measure, so they are at most as many as it
      was at the start; and it is used up exactly when N matching machines are owned. */
  lemma {:induction false} Converges(w: World, ds: Domains, es: seq<Event>)
    requires Converging(w) && PicksEligible(ds) && PossibleFrom(w, ds, es)
    ensures
      var w' := Last(w, ds, es);
      && Converging(w') && w'.cluster.value.spec == w.cluster.value.spec
      && Measure(w') + ActingSteps(w, ds, es) <= Measure(w)
      && (Measure(w') == 0 <==> Converged(w'))
    decreases |es|
  {
    if es == [] {
      ZeroMeasure(w);
    } else {
      NextConverges(w, ds, es[0]);
      Converges(Next(w, ds, es[0]), ds, es[1..]);
    }
  }

  lemma ZeroMeasure(w: World)
    requires Converging(w)
    ensures Measure(w) == 0 <==> Converged(w)
  {
    Splits(w.machines, w.cluster.value.spec);
  }

  /** At N owned matching machines a Reconcile changes no machine and no member. */
  lemma ConvergedStays(w: World, ds: Domains, a: Answers)
    requires Converging(w) && PicksEligible(ds) && Converged(w)
    ensures ConvergeStep(w, ds, a).machines == w.machines && ConvergeStep(w, ds, a).members == w.members
  {
    if a.entry != Proceeds {
      ReconcileBlocked(w, ds, a);
      SettlePlain(w, w.cluster.value.spec);
    } else {
      var d := ConvergeStepDecreases(w, ds, a);
      ConvergedActs(w, a, d);
      Effects.IdleAct(w.Fleet(), w.cluster.value.spec, w.now, ds, a, d);
    }
  }

  lemma ConvergedActs(w: World, a: Answers, d: Decision)
    requires Converging(w) && Converged(w) && DecisionFacts(w.machines, w.cluster.value, w.now, a, d)
    ensures d.Unreadable? || d.WholePlaneUnreadable? || d.CertificatesFail? || d.Settled?
  {
    ConvergingDecides(w, a, d);
    Splits(w.machines, w.cluster.value.spec);
  }

  /** The removal of the surplus machine that is selected meets no failing call, nor the refusal
      to remove the last member. */
  ghost predicate RemovalGoesThrough(w: World, ds: Domains, a: Answers) {
    var selected := SelectMachineForScaleDown(w.machines, Owned(w.machines), {}, ds);
    selected.Some? && selected.value in w.machines ==>
      && OutcomeFor(a.removals, selected.value) == Succeeds
      && (|w.members| > 1
          || forall m :: m in w.members ==> !PeersAt(m, EtcdMachineAddress(w.machines[selected.value])))
  }

  /** Before that point a Reconcile whose calls go well acts, and so brings the measure down. */
  lemma ConvergenceProgress(w: World, ds: Domains, a: Answers)
    requires Converging(w) && PicksEligible(ds) && !Converged(w)
    requires Favourable(w, a) && RemovalGoesThrough(w, ds, a)
    ensures Converging(ConvergeStep(w, ds, a)) && Measure(ConvergeStep(w, ds, a)) < Measure(w)
  {
    var d := ConvergeStepDecreases(w, ds, a);
    ConvergingDecides(w, a, d);
    Splits(w.machines, w.cluster.value.spec);
    if d.ScaleDown? {
      SelectsOwned(w.machines, ds);
      SurplusAsksDeletion(w, ds, a);
    }
  }

  lemma SurplusAsksDeletion(w: World, ds: Domains, a: Answers)
    requires Converging(w) && RemovalGoesThrough(w, ds, a)
    requires
      var selected := SelectMachineForScaleDown(w.machines, Owned(w.machines), {}, ds);
      selected.Some? && selected.value in w.machines
    ensures RemoveSurplus(w.Fleet(), ds, a).0.machines != w.machines
  {
    var n := SelectMachineForScaleDown(w.machines, Owned(w.machines), {}, ds).value;
    if |w.members| <= 1 {
      NobodyAt(w.members, EtcdMachineAddress(w.machines[n]));
    }
    assert RemoveSurplus(w.Fleet(), ds, a).0.machines == w.machines[n := w.machines[n].(terminating := true)];
    assert !w.machines[n].terminating;
  }
}
