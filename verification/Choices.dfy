/** Which machines a Reconcile rolls, gives up and deletes, in terms of what is written on the
    machines themselves. */
module Choices {
  import opened Wrappers
  import opened Machines
  import opened EtcdPlane
  import opened Membership
  import opened Cluster
  import opened ReconcileSpec
  import opened Runs
  import opened Effects
  import opened Removals
  import opened ScaleDown

  // ----- What needs a rollout -----

  /** The machine was made from something else than the spec asks for, as far as that can be found. */
  predicate FromOther(m: Machine, spec: Spec) {
    m.config !in {None, Some(spec.config)} || m.template !in {None, Some(spec.template)}
  }

  /** Nothing needs a rollout exactly when every owned machine without deletion timestamp has a
      configuration and a template that are missing or those of the spec. */
  lemma RolloutNeeded(ms: Machines, spec: Spec)
    ensures
      NeedRollout(ms, spec) == {}
      <==> forall n :: n in ms && ms[n].owned && !ms[n].terminating ==>
             ms[n].config in {None, Some(spec.config)} && ms[n].template in {None, Some(spec.template)}
  {
    if NeedRollout(ms, spec) == {} {
      forall n | n in ms && ms[n].owned && !ms[n].terminating ensures !FromOther(ms[n], spec) {
        assert n !in NeedRollout(ms, spec);
      }
    }
  }

  /** A machine made from one spec needs a rollout under another exactly when its configuration or
      its template is another; the number of replicas does not matter. */
  lemma MadeFromAnother(ms: Machines, n: Name, before: Spec, spec: Spec, created: int, domain: string)
    requires n in ms && ms[n] == NewMachine(before, created, domain)
    ensures n in NeedRollout(ms, spec) <==> before.config != spec.config || before.template != spec.template
  {
  }

  /** Where a Reconcile that can read the machines and has no old members to remove goes: into the
      rollout branch exactly when an active owned machine was found to be made from something else. */
  lemma RolloutIsTriggered(w: World, ds: Domains, a: Answers) returns (d: Decision)
    requires Live(w) && a.entry == Proceeds && a.externalReference && a.listing && a.ownedPlane && a.wholePlane
    requires w.cluster.value.controlPlaneUpgraded ==> forall n :: n in w.machines ==> w.machines[n].owned
    ensures d == Decide(w.machines, w.cluster.value, w.now, a)
    ensures ReconcileStep(w, ds, a).0.Fleet() == Act(w.Fleet(), w.cluster.value.spec, w.now, ds, a, d).0
    ensures
      d.InRollout()
      <==> exists n :: n in w.machines && w.machines[n].owned && !w.machines[n].terminating
                       && FromOther(w.machines[n], w.cluster.value.spec)
  {
    var ec := w.cluster.value;
    d := Decide(w.machines, ec, w.now, a);
    ActsAsDecided(w, ds, a);
    RolloutNeeded(w.machines, ec.spec);
    assert Unowned(w.machines) == {} || !ec.controlPlaneUpgraded;
  }

  lemma ActsAsDecided(w: World, ds: Domains, a: Answers)
    requires Live(w) && a.entry == Proceeds
    ensures
      var d := Decide(w.machines, w.cluster.value, w.now, a);
      ReconcileStep(w, ds, a).0.Fleet() == Act(w.Fleet(), w.cluster.value.spec, w.now, ds, a, d).0
  {
    var (f, marked, r) := ReconcileNormal(w.Fleet(), w.cluster.value, w.now, ds, a);
    FinishKeeps(w.WithFleet(f), marked, r, a);
  }

  // ----- Which machine is given up -----

  /** Some machine of `ns` is annotated for deletion. */
  ghost predicate SomeAnnotated(ms: Machines, ns: set<Name>) {
    exists n :: n in ns && n in ms && ms[n].deleteAnnotated
  }

  /** The machines that are annotated, and outdated, just as `r` is. */
  function Rivals(ms: Machines, owned: set<Name>, outdated: set<Name>, r: Name): set<Name>
    requires r in ms
  {
    set n | n in owned && n in ms && ms[n].deleteAnnotated == ms[r].deleteAnnotated && (n in outdated <==> r in outdated)
  }

  /** The machine given up is annotated for deletion whenever some owned machine is. It is annotated
      and outdated whenever some outdated one is annotated; and outdated whenever some machine is
      and none is annotated. */
  lemma AnnotatedFirst(ms: Machines, owned: set<Name>, outdated: set<Name>, d: Domains)
    requires owned <= ms.Keys && outdated <= owned && owned != {} && PicksEligible(d)
    ensures
      var r := SelectMachineForScaleDown(ms, owned, outdated, d);
      && r.Some? && r.value in owned
      && (ms[r.value].deleteAnnotated <==> SomeAnnotated(ms, owned))
      && (r.value in outdated <==> SomeAnnotated(ms, outdated) || (outdated != {} && !SomeAnnotated(ms, owned)))
  {
    SelectionIsTotal(ms, owned, outdated, d);
    PoolIs(ms, owned, outdated);
  }

  lemma PoolIs(ms: Machines, owned: set<Name>, outdated: set<Name>)
    requires owned <= ms.Keys && outdated <= owned
    ensures SomeAnnotated(ms, owned) <==> MachinesWithDeleteAnnotation(ms, owned) != {}
    ensures SomeAnnotated(ms, outdated) <==> MachinesWithDeleteAnnotation(ms, outdated) != {}
    ensures forall n :: n in Pool(ms, owned, outdated) ==>
      && (ms[n].deleteAnnotated <==> SomeAnnotated(ms, owned))
      && (n in outdated <==> SomeAnnotated(ms, outdated) || (outdated != {} && !SomeAnnotated(ms, owned)))
    ensures forall r :: r in Pool(ms, owned, outdated) ==> Pool(ms, owned, outdated) == Rivals(ms, owned, outdated, r)
  {
    if SomeAnnotated(ms, outdated) {
      var n :| n in outdated && ms[n].deleteAnnotated;
      assert n in MachinesWithDeleteAnnotation(ms, outdated) && n in MachinesWithDeleteAnnotation(ms, owned);
    } else if SomeAnnotated(ms, owned) {
      var n :| n in owned && ms[n].deleteAnnotated;
      assert n in MachinesWithDeleteAnnotation(ms, owned);
    }
  }

  /** Created earlier, or at the same time with the smaller name. */
  predicate Older(ms: Machines, a: Name, b: Name)
    requires a in ms && b in ms
  {
    ms[a].created < ms[b].created || (ms[a].created == ms[b].created && a <= b)
  }

  /** The failure domain that each machine is in. */
  function Placed(ms: Machines, ns: set<Name>): map<Name, string>
    requires ns <= ms.Keys
  {
    map n | n in ns :: ms[n].domain
  }

  /** Among its rivals the machine given up is the oldest of those outside all failure domains of the
      cluster, if there are any, and otherwise the oldest in the failure domain picked. */
  lemma OldestOfItsDomain(ms: Machines, owned: set<Name>, outdated: set<Name>, d: Domains)
    requires owned <= ms.Keys && outdated <= owned && owned != {} && PicksEligible(d)
    ensures
      var r := SelectMachineForScaleDown(ms, owned, outdated, d);
      && r.Some? && r.value in owned
      && var rivals := Rivals(ms, owned, outdated, r.value);
      if exists n :: n in rivals && ms[n].domain !in d.names
      then ms[r.value].domain !in d.names
           && forall n :: n in rivals && ms[n].domain !in d.names ==> Older(ms, r.value, n)
      else ms[r.value].domain == d.most(Placed(ms, owned), rivals)
           && forall n :: n in rivals && ms[n].domain == ms[r.value].domain ==> Older(ms, r.value, n)
  {
    SelectionIsTotal(ms, owned, outdated, d);
    PoolIs(ms, owned, outdated);
    var r := SelectMachineForScaleDown(ms, owned, outdated, d).value;
    var pool := Pool(ms, owned, outdated);
    assert pool == Rivals(ms, owned, outdated, r);
    ChosenAmong(ms, owned, pool, d);
  }

  lemma ChosenAmong(ms: Machines, owned: set<Name>, pool: set<Name>, d: Domains)
    requires owned <= ms.Keys && pool <= ms.Keys
    requires MachineInFailureDomainWithMostMachines(ms, owned, pool, d).Some?
    ensures
      var r := MachineInFailureDomainWithMostMachines(ms, owned, pool, d).value;
      && r in pool
      && if exists n :: n in pool && ms[n].domain !in d.names
         then ms[r].domain !in d.names && forall n :: n in pool && ms[n].domain !in d.names ==> Older(ms, r, n)
         else ms[r].domain == d.most(Placed(ms, owned), pool)
              && forall n :: n in pool && ms[n].domain == ms[r].domain ==> Older(ms, r, n)
  {
    var elsewhere := Elsewhere(ms, pool, d);
    var domain := FailureDomainWithMostMachines(ms, owned, pool, d);
    var inDomain := InFailureDomain(ms, pool, domain);
    var r := Oldest(ms, inDomain);
    forall n | n in pool && ms[n].domain == domain ensures Older(ms, r, n) {
      assert n in inDomain;
    }
    if exists n :: n in pool && ms[n].domain !in d.names {
      var n :| n in pool && ms[n].domain !in d.names;
      assert n in elsewhere;
      var first := Oldest(ms, elsewhere);
      assert first in inDomain && Older(ms, r, first);
      forall k | k in pool && ms[k].domain !in d.names ensures Older(ms, r, k) {
        assert k in elsewhere && Older(ms, first, k);
      }
    } else {
      assert elsewhere == {};
      assert DomainOf(ms, owned) == Placed(ms, owned);
    }
  }

  // ----- What a Reconcile does to the machines of its cluster -----

  ghost function OutdatedOf(ms: Machines, spec: Spec): set<Name> {
    set n | n in ms && ms[n].owned && !ms[n].terminating && FromOther(ms[n], spec)
  }

  lemma OutdatedAre(ms: Machines, spec: Spec)
    ensures NeedRollout(ms, spec) == OutdatedOf(ms, spec) <= Owned(ms) <= ms.Keys
  {
    forall n ensures n in NeedRollout(ms, spec) <==> n in OutdatedOf(ms, spec) {
      assert n in ms ==> (Matches(ms[n], spec) <==> !FromOther(ms[n], spec));
    }
  }

  /** Whatever the state and the answers: an owned machine whose deletion a Reconcile asks for is
      annotated for deletion if and only if some owned machine is. */
  lemma DoomedIsAnnotated(w: World, ds: Domains, a: Answers, n: Name)
    requires Live(w) && PicksEligible(ds)
    requires Dies(w.machines, ReconcileStep(w, ds, a).0.machines, n) && w.machines[n].owned
    ensures w.machines[n].deleteAnnotated
       <==> exists k :: k in w.machines && w.machines[k].owned && w.machines[k].deleteAnnotated
  {
    var spec, d := w.cluster.value.spec, Decide(w.machines, w.cluster.value, w.now, a);
    if a.entry != Proceeds {
      ReconcileBlocked(w, ds, a);
    } else {
      ActsAsDecided(w, ds, a);
      OnlySurplusDies(w.Fleet(), spec, w.now, ds, a, d, n);
      AnnotatedFirst(w.machines, Owned(w.machines), {}, ds);
    }
    assert SomeAnnotated(w.machines, Owned(w.machines))
      <==> exists k :: k in w.machines && w.machines[k].owned && w.machines[k].deleteAnnotated;
  }

  lemma OnlySurplusDies(f: Fleet, spec: Spec, now: int, ds: Domains, a: Answers, d: Decision, n: Name)
    requires Dies(f.machines, Act(f, spec, now, ds, a, d).0.machines, n) && f.machines[n].owned
    ensures SelectMachineForScaleDown(f.machines, Owned(f.machines), {}, ds) == Some(n) && Owned(f.machines) != {}
  {
    if d.CleanUpOldMembers? {
      RemovalsKeep(f, f.machines, Arrange(Unowned(f.machines), a.order), a.removals);
    } else if d.ScaleDown? {
      var selected := SelectMachineForScaleDown(f.machines, Owned(f.machines), {}, ds);
      if selected.Some? {
        var address := EtcdMachineAddress(f.machines[selected.value]);
        RemovalKeeps(f, selected, address, OutcomeFor(a.removals, selected.value));
      }
    }
    assert n in Owned(f.machines);
  }

  /** A machine that a Reconcile gives up in a rollout is annotated if and only if some owned machine
      is, and outdated if and only if some outdated one is annotated or none is annotated at all. */
  lemma DisownedIsChosen(w: World, ds: Domains, a: Answers, n: Name)
    requires Live(w) && PicksEligible(ds) && n in w.machines && w.machines[n].owned
    requires n in ReconcileStep(w, ds, a).0.machines && !ReconcileStep(w, ds, a).0.machines[n].owned
    ensures
      var ms, outdated := w.machines, OutdatedOf(w.machines, w.cluster.value.spec);
      && (ms[n].deleteAnnotated <==> exists k :: k in ms && ms[k].owned && ms[k].deleteAnnotated)
      && (n in outdated <==>
            || (exists k :: k in outdated && ms[k].deleteAnnotated)
            || forall k :: k in ms && ms[k].owned ==> !ms[k].deleteAnnotated)
  {
    var spec, d := w.cluster.value.spec, Decide(w.machines, w.cluster.value, w.now, a);
    if a.entry != Proceeds {
      ReconcileBlocked(w, ds, a);
    } else {
      ActsAsDecided(w, ds, a);
      DecisionTable(w.machines, w.cluster.value, w.now, a);
      OnlySelectedGoes(w.Fleet(), spec, w.now, ds, a, d, n);
      OutdatedAre(w.machines, spec);
      AnnotatedFirst(w.machines, Owned(w.machines), OutdatedOf(w.machines, spec), ds);
    }
    assert SomeAnnotated(w.machines, Owned(w.machines))
      <==> exists k :: k in w.machines && w.machines[k].owned && w.machines[k].deleteAnnotated;
  }

  lemma OnlySelectedGoes(f: Fleet, spec: Spec, now: int, ds: Domains, a: Answers, d: Decision, n: Name)
    requires n in f.machines && f.machines[n].owned
    requires var ms' := Act(f, spec, now, ds, a, d).0.machines; n in ms' && !ms'[n].owned
    ensures d.RollDisown?
    ensures SelectMachineForScaleDown(f.machines, Owned(f.machines), NeedRollout(f.machines, spec), ds) == Some(n)
  {
    ActKeeps(f, spec, now, ds, a, d);
  }

  ghost function TakesAnnotated(ds: Domains): (World, Event) -> bool {
    (w: World, e: Event) =>
      e.Reconciled? && Live(w) ==>
        forall n :: Dies(w.machines, ReconcileStep(w, ds, e.a).0.machines, n) && w.machines[n].owned ==>
          (w.machines[n].deleteAnnotated
           <==> exists k :: k in w.machines && w.machines[k].owned && w.machines[k].deleteAnnotated)
  }

  /** So it is at every Reconcile of every run, whatever happens in it. */
  lemma {:induction false} AlwaysAnnotated(w0: World, ds: Domains, es: seq<Event>)
    requires PicksEligible(ds) && PossibleRun(w0, ds, es)
    ensures Along(w0, ds, es, TakesAnnotated(ds))
  {
    if es != [] {
      AlwaysAnnotated(w0, ds, es[..|es| - 1]);
      OneTakesAnnotated(Run(w0, ds, es[..|es| - 1]), ds, es[|es| - 1]);
    }
  }

  lemma OneTakesAnnotated(w: World, ds: Domains, e: Event)
    requires PicksEligible(ds)
    ensures TakesAnnotated(ds)(w, e)
  {
    if e.Reconciled? && Live(w) {
      forall n | Dies(w.machines, ReconcileStep(w, ds, e.a).0.machines, n) && w.machines[n].owned
        ensures w.machines[n].deleteAnnotated
           <==> exists k :: k in w.machines && w.machines[k].owned && w.machines[k].deleteAnnotated
      {
        DoomedIsAnnotated(w, ds, e.a, n);
      }
    }
  }

  // ----- A whole scale-down -----

  function AnnotatedOf(ms: Machines): set<Name> {
    set n | n in ms && ms[n].owned && ms[n].deleteAnnotated
  }

  /** The machines owned at the start that are gone or about to go. */
  function Leaving(start: Machines, ms: Machines): set<Name> {
    Owned(start) - Owned(ms) + Doomed(ms)
  }

  /** Either only annotated machines leave, or no annotated one stays; and no machine that is still
      owned has changed but for its address and its deletion timestamp. */
  ghost predicate AnnotatedLeave(start: Machines, ms: Machines) {
    && Owned(ms) <= Owned(start) && (forall n :: n in Owned(ms) ==> LooksLike(start[n], ms[n]))
    && (Leaving(start, ms) <= AnnotatedOf(start) || AnnotatedOf(start) <= Leaving(start, ms))
  }

  lemma DoomingLeaves(start: Machines, ms: Machines, n: Name, ds: Domains)
    requires AnnotatedLeave(start, ms) && n in Owned(ms) && PicksEligible(ds) && Surplus(ms, ds) == Some(n)
    ensures AnnotatedLeave(start, ms[n := ms[n].(terminating := true)])
  {
    var ms' := ms[n := ms[n].(terminating := true)];
    AnnotatedFirst(ms, Owned(ms), {}, ds);
    assert Owned(ms') == Owned(ms);
    assert Leaving(start, ms') == Leaving(start, ms) + {n};
    if ms[n].deleteAnnotated {
      assert n in AnnotatedOf(start);
    } else {
      forall k | k in AnnotatedOf(start) ensures k !in Owned(ms) {
        if k in ms {
          assert ms[k].owned && LooksLike(start[k], ms[k]) ==> SomeAnnotated(ms, Owned(ms));
        }
      }
    }
  }

  lemma QuietLeaves(start: Machines, ms: Machines, ms': Machines)
    requires AnnotatedLeave(start, ms) && LookAlike(ms, ms')
    requires forall n :: n in ms ==> ms'[n].terminating == ms[n].terminating
    ensures AnnotatedLeave(start, ms')
  {
    AlikeSets(ms, ms');
    assert Leaving(start, ms') == Leaving(start, ms);
    forall n | n in Owned(ms') ensures LooksLike(start[n], ms'[n]) {
      assert LooksLike(start[n], ms[n]) && LooksLike(ms[n], ms'[n]);
    }
  }

  lemma VanishingLeaves(start: Machines, ms: Machines, n: Name)
    requires AnnotatedLeave(start, ms) && n in ms && ms[n].terminating
    ensures AnnotatedLeave(start, ms - {n})
  {
    Vanishes(ms, n);
    assert Leaving(start, ms - {n}) == Leaving(start, ms);
  }

  lemma ReconcileLeaves(start: Machines, w: World, ds: Domains, a: Answers)
    requires AnnotatedLeave(start, w.machines) && Shrinking(w, ds) && PicksEligible(ds)
    ensures AnnotatedLeave(start, ReconcileStep(w, ds, a).0.machines)
  {
    if a.entry == Proceeds {
      var d := ReconcileShrinks(w, ds, a);
      ActShrinks(w, ds, a, d);
      if ReconcileStep(w, ds, a).0.machines != w.machines {
        DoomingLeaves(start, w.machines, Surplus(w.machines, ds).value, ds);
      }
    }
  }

  /** In every interleaving of a scale-down, at every point: if some machine without the annotation
      has left or is about to, so have all annotated ones. */
  lemma {:induction false} AnnotatedLeaveFirst(w0: World, ds: Domains, es: seq<Event>)
    requires Shrinking(w0, ds) && Doomed(w0.machines) == {} && PicksEligible(ds)
    requires PossibleRun(w0, ds, es) && forall e :: e in es ==> DuringScaleDown(e)
    ensures
      var w := Run(w0, ds, es);
      && Shrinking(w, ds) && AnnotatedLeave(w0.machines, w.machines)
      && forall n, k :: n in Leaving(w0.machines, w.machines) && !w0.machines[n].deleteAnnotated
                        && k in w0.machines && w0.machines[k].owned && w0.machines[k].deleteAnnotated
                        ==> k in Leaving(w0.machines, w.machines)
  {
    if es == [] {
      assert Leaving(w0.machines, w0.machines) == {};
    } else {
      AnnotatedLeaveFirst(w0, ds, es[..|es| - 1]);
      EventLeaves(w0.machines, Run(w0, ds, es[..|es| - 1]), ds, es[|es| - 1]);
    }
    AllAnnotated(w0.machines, Run(w0, ds, es).machines);
  }

  lemma AllAnnotated(start: Machines, ms: Machines)
    requires AnnotatedLeave(start, ms)
    ensures forall n, k :: n in Leaving(start, ms) && !start[n].deleteAnnotated
                           && k in start && start[k].owned && start[k].deleteAnnotated
                           ==> k in Leaving(start, ms)
  {
    assert forall k :: k in start && start[k].owned && start[k].deleteAnnotated ==> k in AnnotatedOf(start);
    assert forall n :: n in Leaving(start, ms) ==> n in start;
  }

  lemma EventLeaves(start: Machines, w: World, ds: Domains, e: Event)
    requires AnnotatedLeave(start, w.machines) && Shrinking(w, ds) && PicksEligible(ds)
    requires Possible(w, e) && DuringScaleDown(e)
    ensures Shrinking(Apply(w, ds, e), ds) && AnnotatedLeave(start, Apply(w, ds, e).machines)
  {
    StepShrinks(w, ds, e);
    if e.Reconciled? {
      ReconcileLeaves(start, w, ds, e.a);
    } else if e.Vanished? {
      VanishingLeaves(start, w.machines, e.n);
    } else {
      QuietEvent(w, ds, e);
      QuietLeaves(start, w.machines, Apply(w, ds, e).machines);
    }
  }
}
