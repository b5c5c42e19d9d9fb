/** New machines go to the failure domain with the fewest up-to-date ones, which keeps the domains
    balanced through a whole start and a whole rollout. */
module Balance {
  import opened Machines
  import opened EtcdPlane
  import opened Membership
  import opened Cluster
  import opened ReconcileSpec
  import opened Runs
  import opened Effects
  import opened Rollout
  import opened Bootstrap

  /** All machines are in failure domains of the cluster, and any two domains hold equally many
      up to one. */
  ghost predicate Balanced(domainOf: map<Name, string>, names: seq<string>) {
    && (forall n :: n in domainOf ==> domainOf[n] in names)
    && forall f, g :: f in names && g in names ==> |InDomain(domainOf, f)| <= |InDomain(domainOf, g)| + 1
  }

  ghost predicate UpToDateBalanced(w: World, ds: Domains) {
    w.cluster.Some? ==> Balanced(DomainOf(w.machines, UpToDate(w.machines, w.cluster.value.spec)), ds.names)
  }

  // ----- Domains -----

  lemma OneMoreIn(domainOf: map<Name, string>, n: Name, f: string, g: string)
    requires n !in domainOf
    ensures |InDomain(domainOf[n := f], g)| == |InDomain(domainOf, g)| + if g == f then 1 else 0
  {
    var before := InDomain(domainOf, g);
    if g == f {
      assert InDomain(domainOf[n := f], g) == before + {n};
      AddOne(before, n);
    } else {
      assert InDomain(domainOf[n := f], g) == before;
    }
  }

  /** A machine placed by PickFewest keeps the balance. */
  lemma PlacedBalanced(domainOf: map<Name, string>, ds: Domains, n: Name)
    requires Balanced(domainOf, ds.names) && PicksLeastPopulated(ds) && ds.names != [] && n !in domainOf
    ensures Balanced(domainOf[n := ds.fewest(domainOf)], ds.names)
  {
    var fewest := ds.fewest(domainOf);
    var domainOf' := domainOf[n := fewest];
    forall f, g | f in ds.names && g in ds.names ensures |InDomain(domainOf', f)| <= |InDomain(domainOf', g)| + 1 {
      OneMoreIn(domainOf, n, fewest, f);
      OneMoreIn(domainOf, n, fewest, g);
      assert |InDomain(domainOf, fewest)| <= |InDomain(domainOf, g)|;
    }
  }

  lemma EmptyBalanced(names: seq<string>)
    ensures Balanced(map[], names)
  {
    forall f ensures InDomain(map[], f) == {} {
    }
  }

  lemma SameDomains(ms: Machines, ms': Machines, ns: set<Name>)
    requires ns <= ms.Keys && ns <= ms'.Keys && forall n :: n in ns ==> ms'[n].domain == ms[n].domain
    ensures DomainOf(ms', ns) == DomainOf(ms, ns)
  {
  }

  lemma OneMoreDomain(ms: Machines, ns: set<Name>, n: Name, m: Machine)
    requires ns <= ms.Keys && n !in ms
    ensures DomainOf(ms[n := m], ns + {n}) == DomainOf(ms, ns)[n := m.domain]
  {
  }

  // ----- Steps -----

  /** A machine more, made by scale-up. */
  lemma CreationBalanced(ms: Machines, spec: Spec, ds: Domains, n: Name, now: int)
    requires Balanced(DomainOf(ms, UpToDate(ms, spec)), ds.names) && PicksLeastPopulated(ds) && ds.names != [] && n !in ms
    ensures
      var ms' := ms[n := NewMachine(spec, now, NextFailureDomainForScaleUp(ms, Owned(ms), spec, ds))];
      Balanced(DomainOf(ms', UpToDate(ms', spec)), ds.names)
  {
    var m := NewMachine(spec, now, NextFailureDomainForScaleUp(ms, Owned(ms), spec, ds));
    var ms' := ms[n := m];
    assert UpToDate(ms', spec) == UpToDate(ms, spec) + {n};
    OneMoreDomain(ms, UpToDate(ms, spec), n, m);
    PlacedBalanced(DomainOf(ms, UpToDate(ms, spec)), ds, n);
  }

  lemma SameUpToDate(ms: Machines, ms': Machines, spec: Spec, ds: Domains)
    requires Balanced(DomainOf(ms, UpToDate(ms, spec)), ds.names)
    requires UpToDate(ms', spec) == UpToDate(ms, spec) <= ms.Keys && ms.Keys <= ms'.Keys
    requires forall n :: n in ms ==> ms'[n].domain == ms[n].domain
    ensures Balanced(DomainOf(ms', UpToDate(ms', spec)), ds.names)
  {
    SameDomains(ms, ms', UpToDate(ms, spec));
  }

  // ----- A rollout -----

  lemma MoveBalanced(w: World, w': World, ds: Domains, move: Move, checks: seq<Action>, spec: Spec)
    requires Moves(w, ds, w', move, checks) && spec == w.cluster.value.spec
    requires PicksLeastPopulated(ds) && ds.names != []
    requires Balanced(DomainOf(w.machines, UpToDate(w.machines, spec)), ds.names)
    requires !move.Makes? ==> UpToDate(w'.machines, spec) == UpToDate(w.machines, spec)
    ensures Balanced(DomainOf(w'.machines, UpToDate(w'.machines, spec)), ds.names)
  {
    if move.Makes? {
      CreationBalanced(w.machines, spec, ds, move.name, w.now);
    } else {
      SameUpToDate(w.machines, w'.machines, spec, ds);
    }
  }

  /** What a move does to the machines created since the start. */
  lemma MoveNew(w0: World, w: World, w': World, ds: Domains, move: Move, checks: seq<Action>)
    requires UnderWay(w0, w) && UnderWay(w0, w') && Moves(w, ds, w', move, checks)
    ensures
      var spec := w.cluster.value.spec;
      && w'.cluster.value.spec == spec
      && UpToDate(w.machines, spec) == New(w0, w) && UpToDate(w'.machines, spec) == New(w0, w')
      && (!move.Makes? ==> UpToDate(w'.machines, spec) == UpToDate(w.machines, spec))
  {
    Parts(w0, w);
    Parts(w0, w');
    MoveKeys(w, w', ds, move, checks);
  }

  lemma MoveKeys(w: World, w': World, ds: Domains, move: Move, checks: seq<Action>)
    requires Moves(w, ds, w', move, checks)
    ensures !move.Makes? ==> w'.machines.Keys == w.machines.Keys
  {
  }

  lemma RolloutStepBalanced(w0: World, w: World, ds: Domains, a: Answers)
    requires UnderWay(w0, w) && Told(w0, w) && PicksEligible(ds) && a.entry == Proceeds
    requires PicksLeastPopulated(ds) && ds.names != [] && Balanced(DomainOf(w.machines, New(w0, w)), ds.names)
    ensures
      var w' := ReconcileStep(w, ds, a).0;
      UnderWay(w0, w') && Balanced(DomainOf(w'.machines, New(w0, w')), ds.names)
  {
    var w' := ReconcileStep(w, ds, a).0;
    var d, move := ReconcileMoves(w0, w, ds, a);
    MoveNew(w0, w, w', ds, move, ChecksOf(w, d));
    MoveBalanced(w, w', ds, move, ChecksOf(w, d), w.cluster.value.spec);
  }

  /** Throughout every rollout any two failure domains hold equally many of the new machines, up
      to one. */
  lemma {:induction false} RolloutBalanced(w0: World, ds: Domains, es: seq<Event>)
    requires RolloutStart(w0) && PicksEligible(ds) && PicksLeastPopulated(ds) && ds.names != []
    requires PossibleRun(w0, ds, es) && forall e :: e in es ==> DuringRollout(e)
    ensures
      var w := Run(w0, ds, es);
      && UpToDate(w.machines, w0.cluster.value.spec) == New(w0, w)
      && Balanced(DomainOf(w.machines, New(w0, w)), ds.names)
  {
    if es == [] {
      StartBalanced(w0, ds);
    } else {
      var most, e := es[..|es| - 1], es[|es| - 1];
      RolloutBalanced(w0, ds, most);
      StaysUnderWay(w0, ds, most);
      RolloutEventBalanced(w0, Run(w0, ds, most), ds, e);
      StaysUnderWay(w0, ds, es);
      Parts(w0, Run(w0, ds, es));
    }
  }

  lemma StartBalanced(w0: World, ds: Domains)
    requires RolloutStart(w0)
    ensures UpToDate(w0.machines, w0.cluster.value.spec) == New(w0, w0)
    ensures Balanced(DomainOf(w0.machines, New(w0, w0)), ds.names)
  {
    StartsUnderWay(w0);
    Parts(w0, w0);
    EmptyBalanced(ds.names);
    assert DomainOf(w0.machines, New(w0, w0)) == map[];
  }

  lemma EnvironmentBalanced(w0: World, w: World, ds: Domains, e: Event)
    requires UnderWay(w0, w) && Told(w0, w) && Possible(w, e) && DuringRollout(e) && !e.Reconciled?
    requires Balanced(DomainOf(w.machines, New(w0, w)), ds.names)
    ensures Balanced(DomainOf(Apply(w, ds, e).machines, New(w0, Apply(w, ds, e))), ds.names)
  {
    EnvironmentKeeps(w0, w, ds, e);
    EnvironmentFrame(w, ds, e);
    SameDomains(w.machines, Apply(w, ds, e).machines, New(w0, w));
  }

  lemma RolloutEventBalanced(w0: World, w: World, ds: Domains, e: Event)
    requires UnderWay(w0, w) && Told(w0, w) && PicksEligible(ds) && Possible(w, e) && DuringRollout(e)
    requires PicksLeastPopulated(ds) && ds.names != [] && Balanced(DomainOf(w.machines, New(w0, w)), ds.names)
    ensures Balanced(DomainOf(Apply(w, ds, e).machines, New(w0, Apply(w, ds, e))), ds.names)
  {
    if !e.Reconciled? {
      EnvironmentBalanced(w0, w, ds, e);
    } else if e.a.entry != Proceeds {
      ReconcileBlocked(w, ds, e.a);
    } else {
      RolloutStepBalanced(w0, w, ds, e.a);
    }
  }

  // ----- A start -----

  lemma CurrentUpToDate(ms: Machines, spec: Spec)
    requires AllCurrent(ms, spec)
    ensures UpToDate(ms, spec) == ms.Keys
  {
    assert UpToDate(ms, spec) == ms.Keys;
  }

  lemma BootingStepBalanced(w: World, ds: Domains, a: Answers)
    requires w.cluster.Some? && Booting(w, w.cluster.value.spec) && SaysFirst(w, Reconciled(a))
    requires PicksLeastPopulated(ds) && ds.names != [] && UpToDateBalanced(w, ds)
    ensures UpToDateBalanced(ReconcileStep(w, ds, a).0, ds)
  {
    var w' := ReconcileStep(w, ds, a).0;
    var spec := w.cluster.value.spec;
    BootingReconcile(w, ds, a);
    if Live(w) && a.entry == Proceeds {
      var d, marked := ReconcileLive(w, ds, a);
      BootingDecides(w, a, d);
      ActKeeps(w.Fleet(), spec, w.now, ds, a, d);
      if w'.machines.Keys != w.machines.Keys {
        CreationBalanced(w.machines, spec, ds, a.newName, w.now);
      } else {
        BootingActs(w, ds, a, d);
      }
    }
  }

  lemma BootingEventBalanced(w: World, ds: Domains, e: Event)
    requires w.cluster.Some? && Booting(w, w.cluster.value.spec) && !w.cluster.value.status.creationComplete
    requires Possible(w, e) && DuringBootstrap(e) && SaysFirst(w, e)
    requires PicksLeastPopulated(ds) && ds.names != [] && UpToDateBalanced(w, ds)
    ensures UpToDateBalanced(Apply(w, ds, e), ds)
  {
    if e.Reconciled? {
      BootingStepBalanced(w, ds, e.a);
    } else {
      BootingEvent(w, ds, e);
      QuietEventDomains(w, ds, e);
      CurrentUpToDate(w.machines, w.cluster.value.spec);
      CurrentUpToDate(Apply(w, ds, e).machines, w.cluster.value.spec);
      SameDomains(w.machines, Apply(w, ds, e).machines, w.machines.Keys);
    }
  }

  lemma QuietEventDomains(w: World, ds: Domains, e: Event)
    requires w.cluster.Some? && !w.cluster.value.status.creationComplete
    requires Possible(w, e) && DuringBootstrap(e) && !e.Reconciled?
    ensures Apply(w, ds, e).machines.Keys == w.machines.Keys
    ensures forall n :: n in w.machines ==> Apply(w, ds, e).machines[n].domain == w.machines[n].domain
  {
    if e.HealthRound? {
      RoundWaits(w, e.c, e.r, e.order);
    }
  }

  /** Throughout every start any two failure domains hold equally many machines, up to one. */
  lemma {:induction false} BootstrapBalanced(w0: World, ds: Domains, es: seq<Event>)
    requires BootstrapStart(w0) && PicksLeastPopulated(ds) && ds.names != []
    requires PossibleRun(w0, ds, es) && forall e :: e in es ==> DuringBootstrap(e)
    requires Along(w0, ds, es, SaysFirst) && Along(w0, ds, es, StillIncomplete)
    ensures
      var w := Run(w0, ds, es);
      && UpToDate(w.machines, w0.cluster.value.spec) == w.machines.Keys
      && Balanced(DomainOf(w.machines, w.machines.Keys), ds.names)
  {
    BootstrapOrder(w0, ds, es);
    CurrentUpToDate(Run(w0, ds, es).machines, w0.cluster.value.spec);
    if es == [] {
      EmptyBalanced(ds.names);
      assert DomainOf(w0.machines, w0.machines.Keys) == map[];
    } else {
      var most, e := es[..|es| - 1], es[|es| - 1];
      BootstrapBalanced(w0, ds, most);
      BootstrapOrder(w0, ds, most);
      BootingEventBalanced(Run(w0, ds, most), ds, e);
    }
  }
}
