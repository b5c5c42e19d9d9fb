/** The removal of old members after the control plane has been upgraded: no owned machine's
    member goes, and soon the owned members are a majority on their own. */
module Cleanup {
  import opened Wrappers
  import opened Text
  import opened Machines
  import opened EtcdPlane
  import opened Membership
  import opened Cluster
  import opened ReconcileSpec
  import opened Runs
  import opened Effects
  import opened Removals
  import opened MemberSafety

  // ----- States -----

  /** No old machine has the address of an owned one. */
  ghost predicate Apart(ms: Machines) {
    forall o, u :: o in Owned(ms) && u in Unowned(ms) ==> EtcdMachineAddress(ms[o]) != EtcdMachineAddress(ms[u])
  }

  ghost predicate OwnedJoin(ms: Machines, members: seq<Member>) {
    forall n :: n in Owned(ms) ==> Joins(members, EtcdMachineAddress(ms[n]))
  }

  /** A rollout is behind: N owned machines, all matching and all members, with an address each
      that is not an old machine's. */
  ghost predicate Upgraded(w: World) {
    && Live(w)
    && var spec := w.cluster.value.spec;
    && spec.Valid() && !w.cluster.value.conditions.initialized.False?
    && |Owned(w.machines)| == spec.replicas
    && (forall n :: n in Owned(w.machines) ==>
          Matches(w.machines[n], spec) && !w.machines[n].terminating && EtcdMachineAddress(w.machines[n]) != "")
    && Apart(w.machines) && Distinct(w.members) && OwnedJoin(w.machines, w.members)
  }

  predicate DuringCleanup(e: Event) {
    e.Reconciled? || e.Vanished? || e.Addressed? || e.Ticked? || e.InitReported? || e.ControlPlaneUpgraded?
  }

  /** The owned machines of `ms` are those of `ms0`, and the members are among those of before. */
  ghost predicate After(ms0: Machines, members0: seq<Member>, ms: Machines, members: seq<Member>) {
    && Owned(ms) == Owned(ms0) && (forall n :: n in Owned(ms0) ==> ms[n] == ms0[n])
    && (forall m :: m in members ==> m in members0) && |members| <= |members0|
  }

  // ----- The loop -----

  /** In any order, with any errors: the loop over old machines takes out no owned machine's
      member and touches no owned machine. */
  lemma LoopSparesOwned(f: Fleet, order: seq<Name>, removals: map<Name, RemovalOutcome>)
    requires Distinct(f.members) && Apart(f.machines)
    requires forall n :: n in order ==> n in f.machines && n in Unowned(f.machines)
    ensures
      var f' := RemoveEach(f, f.machines, order, removals).0;
      && Distinct(f'.members) && After(f.machines, f.members, f'.machines, f'.members)
      && (OwnedJoin(f.machines, f.members) ==> OwnedJoin(f'.machines, f'.members))
      && Apart(f'.machines)
  {
    var f' := RemoveEach(f, f.machines, order, removals).0;
    RemovalsAreSafe(f, f.machines, order, removals, Unowned(f.machines));
    RemovalsKeep(f, f.machines, order, removals);
    OwnedUntouched(f.machines, f'.machines);
    OwnedSpared(f.machines, f.members, f'.members);
  }

  lemma OwnedUntouched(ms: Machines, ms': Machines)
    requires KeepsOwners(ms, ms') && forall n :: n in Owned(ms) ==> ms'[n] == ms[n]
    ensures Owned(ms') == Owned(ms) && (Apart(ms) ==> Apart(ms'))
  {
    SameEndpoints(ms, ms');
    assert Owned(ms') == Owned(ms);
    assert Unowned(ms') == Unowned(ms);
  }

  lemma OwnedSpared(ms: Machines, members: seq<Member>, members': seq<Member>)
    requires Apart(ms) && Shrinks(members, members', AddressesOf(ms, Unowned(ms)))
    ensures OwnedJoin(ms, members) ==> OwnedJoin(ms, members')
  {
    var gone := AddressesOf(ms, Unowned(ms));
    forall n | n in Owned(ms)
      ensures Joins(members, EtcdMachineAddress(ms[n])) ==> Joins(members', EtcdMachineAddress(ms[n]))
    {
      assert !gone(EtcdMachineAddress(ms[n]));
    }
  }

  // ----- Steps -----

  lemma UpgradedDecides(w: World, a: Answers, d: Decision)
    requires Upgraded(w) && DecisionFacts(w.machines, w.cluster.value, w.now, a, d)
    ensures d.Unreadable? || d.CleanUpOldMembers? || d.WholePlaneUnreadable? || d.CertificatesFail? || d.Settled?
  {
    assert NeedRollout(w.machines, w.cluster.value.spec) == {};
  }

  lemma UpgradedActs(w: World, ds: Domains, a: Answers, d: Decision)
    requires Upgraded(w) && DecisionFacts(w.machines, w.cluster.value, w.now, a, d)
    ensures
      var f' := Act(w.Fleet(), w.cluster.value.spec, w.now, ds, a, d).0;
      && Distinct(f'.members) && After(w.machines, w.members, f'.machines, f'.members)
      && OwnedJoin(f'.machines, f'.members) && Apart(f'.machines)
  {
    UpgradedDecides(w, a, d);
    if d.CleanUpOldMembers? {
      LoopSparesOwned(w.Fleet(), Arrange(Unowned(w.machines), a.order), a.removals);
    } else {
      IdleAct(w.Fleet(), w.cluster.value.spec, w.now, ds, a, d);
    }
  }

  lemma StaysUpgraded(w: World, w': World)
    requires Upgraded(w) && Live(w') && w'.cluster.value.spec == w.cluster.value.spec
    requires !w'.cluster.value.conditions.initialized.False?
    requires Distinct(w'.members) && After(w.machines, w.members, w'.machines, w'.members)
    requires OwnedJoin(w'.machines, w'.members) && Apart(w'.machines)
    ensures Upgraded(w')
  {
  }

  lemma ReconcileCleans(w: World, ds: Domains, a: Answers)
    requires Upgraded(w)
    ensures
      var w' := ReconcileStep(w, ds, a).0;
      && Upgraded(w') && w'.cluster.value.spec == w.cluster.value.spec
      && After(w.machines, w.members, w'.machines, w'.members)
  {
    if a.entry == Proceeds {
      var d, marked := ReconcileLive(w, ds, a);
      UpgradedDecides(w, a, d);
      UpgradedActs(w, ds, a, d);
      StaysUpgraded(w, ReconcileStep(w, ds, a).0);
    }
  }

  lemma VanishedApart(ms: Machines, n: Name)
    requires Apart(ms) && n in ms && n !in Owned(ms)
    ensures Apart(ms - {n}) && Owned(ms - {n}) == Owned(ms)
  {
    var ms' := ms - {n};
    assert Owned(ms') == Owned(ms);
    assert Unowned(ms') <= Unowned(ms);
  }

  lemma AddressedApart(ms: Machines, n: Name, addresses: seq<MachineAddress>)
    requires Apart(ms) && n in ms && n !in Owned(ms)
    requires
      var address := EtcdMachineAddress(ms[n].(addresses := addresses));
      forall k :: k in ms ==> EtcdMachineAddress(ms[k]) != address
    ensures
      var ms' := ms[n := ms[n].(addresses := addresses)];
      Apart(ms') && Owned(ms') == Owned(ms)
  {
    var ms' := ms[n := ms[n].(addresses := addresses)];
    assert Owned(ms') == Owned(ms);
    assert Unowned(ms') == Unowned(ms);
  }

  lemma EnvironmentCleans(w: World, ds: Domains, e: Event)
    requires Upgraded(w) && Possible(w, e) && DuringCleanup(e) && !e.Reconciled?
    ensures
      var w' := Apply(w, ds, e);
      && Upgraded(w') && w'.cluster.value.spec == w.cluster.value.spec
      && After(w.machines, w.members, w'.machines, w'.members)
  {
    if e.Vanished? {
      VanishedApart(w.machines, e.n);
    } else if e.Addressed? {
      AddressedApart(w.machines, e.n, e.addresses);
    }
    StaysUpgraded(w, Apply(w, ds, e));
  }

  // ----- Runs -----

  lemma {:induction false} StaysClean(w0: World, ds: Domains, es: seq<Event>)
    requires Upgraded(w0) && PossibleRun(w0, ds, es) && forall e :: e in es ==> DuringCleanup(e)
    ensures
      var w := Run(w0, ds, es);
      && Upgraded(w) && w.cluster.value.spec == w0.cluster.value.spec
      && After(w0.machines, w0.members, w.machines, w.members)
  {
    if es != [] {
      StaysClean(w0, ds, es[..|es| - 1]);
      if es[|es| - 1].Reconciled? {
        ReconcileCleans(Run(w0, ds, es[..|es| - 1]), ds, es[|es| - 1].a);
      } else {
        EnvironmentCleans(Run(w0, ds, es[..|es| - 1]), ds, es[|es| - 1]);
      }
    }
  }

  /** In every run of the cleanup, whatever the orders and errors: every owned machine stays owned
      and a member; and from N owned members and at most N others, once one member is gone the
      owned ones are a majority of every membership that follows. */
  lemma CleanupKeepsMajority(w0: World, ds: Domains, es: seq<Event>)
    requires Upgraded(w0) && |w0.members| <= 2 * w0.cluster.value.spec.replicas
    requires PossibleRun(w0, ds, es) && forall e :: e in es ==> DuringCleanup(e)
    ensures
      var w := Run(w0, ds, es);
      && Owned(w.machines) == Owned(w0.machines) && |Owned(w.machines)| == w0.cluster.value.spec.replicas
      && (forall n :: n in Owned(w.machines) ==> Joins(w.members, EtcdMachineAddress(w.machines[n])))
      && (forall m :: m in w.members ==> m in w0.members)
      && (|w.members| < |w0.members| ==> 2 * |Owned(w.machines)| > |w.members|)
  {
    StaysClean(w0, ds, es);
  }

  /** The annotation that the control plane has been upgraded is dropped exactly by a Reconcile
      that can read the machines, sees none that is not owned, and is persisted. */
  lemma AnnotationDrops(w: World, ds: Domains, a: Answers)
    requires Live(w) && w.cluster.value.controlPlaneUpgraded
    ensures
      var w' := ReconcileStep(w, ds, a).0;
      && w'.cluster.Some?
      && (!w'.cluster.value.controlPlaneUpgraded <==>
            a.entry == Proceeds && a.externalReference && a.listing && a.ownedPlane
            && Unowned(w.machines) == {} && Persisted(a))
  {
    if a.entry == Proceeds {
      var d, marked := ReconcileLive(w, ds, a);
    }
  }

  // ----- Before the control plane is upgraded -----

  lemma SelectedIsOwned(ms: Machines, outdated: set<Name>, ds: Domains)
    requires outdated <= Owned(ms)
    ensures
      var r := SelectMachineForScaleDown(ms, Owned(ms), outdated, ds);
      r.Some? ==> r.value in Owned(ms)
  {
  }

  /** Every machine that is not owned stays as it is, and a member if it was one. */
  ghost predicate Spares(f: Fleet, f': Fleet) {
    && (forall n :: n in Unowned(f.machines) ==> n in f'.machines && f'.machines[n] == f.machines[n])
    && forall n :: n in Unowned(f.machines) && Joins(f.members, EtcdMachineAddress(f.machines[n])) ==>
         Joins(f'.members, EtcdMachineAddress(f.machines[n]))
  }

  lemma SurplusSparesOld(f: Fleet, ds: Domains, a: Answers)
    requires Distinct(f.members) && Apart(f.machines)
    ensures
      var f' := RemoveSurplus(f, ds, a).0;
      Spares(f, f')
  {
    var selected := SelectMachineForScaleDown(f.machines, Owned(f.machines), {}, ds);
    SelectedIsOwned(f.machines, {}, ds);
    if selected.Some? {
      var address := EtcdMachineAddress(f.machines[selected.value]);
      RemovalIsSafe(f, selected, address, OutcomeFor(a.removals, selected.value));
      RemovalKeeps(f, selected, address, OutcomeFor(a.removals, selected.value));
    }
  }

  lemma DisowningSparesOld(f: Fleet, spec: Spec, ds: Domains, a: Answers)
    ensures
      var f' := DisownMachine(f, spec, ds, a).0;
      Spares(f, f')
  {
    SelectedIsOwned(f.machines, NeedRollout(f.machines, spec), ds);
  }

  lemma CreationSparesOld(f: Fleet, spec: Spec, now: int, ds: Domains, a: Answers, d: Decision)
    requires d.RollCreate? || d.Initialize? || d.ScaleUp?
    ensures Spares(f, Act(f, spec, now, ds, a, d).0)
  {
    CreationActs(f, spec, now, ds, a, d);
    OthersAreSafe(f, spec, now, ds, a, d);
  }

  lemma ShrinkingSparesOld(f: Fleet, spec: Spec, now: int, ds: Domains, a: Answers, d: Decision)
    requires d.ScaleDown? && Distinct(f.members) && Apart(f.machines)
    ensures Spares(f, Act(f, spec, now, ds, a, d).0)
  {
    SurplusSparesOld(f, ds, a);
    assert Act(f, spec, now, ds, a, d).0 == RemoveSurplus(f, ds, a).0;
  }

  lemma RollingSparesOld(f: Fleet, spec: Spec, now: int, ds: Domains, a: Answers, d: Decision)
    requires d.RollDisown?
    ensures Spares(f, Act(f, spec, now, ds, a, d).0)
  {
    var g := PassCheck(f, d.checked, now);
    DisowningSparesOld(g, spec, ds, a);
    assert Act(f, spec, now, ds, a, d).0 == DisownMachine(g, spec, ds, a).0;
    assert Spares(f, DisownMachine(g, spec, ds, a).0);
  }

  lemma ActSparesOld(f: Fleet, spec: Spec, now: int, ds: Domains, a: Answers, d: Decision)
    requires Distinct(f.members) && Apart(f.machines) && !d.CleanUpOldMembers?
    ensures Spares(f, Act(f, spec, now, ds, a, d).0)
  {
    if d.ScaleDown? {
      ShrinkingSparesOld(f, spec, now, ds, a, d);
    } else if d.RollDisown? {
      RollingSparesOld(f, spec, now, ds, a, d);
    } else if d.RollCreate? || d.Initialize? || d.ScaleUp? {
      CreationSparesOld(f, spec, now, ds, a, d);
    } else {
      IdleAct(f, spec, now, ds, a, d);
    }
  }

  /** Until the control plane has been upgraded its old endpoints stay: a Reconcile leaves every
      machine that is not owned as it is, and a member if it was one. */
  lemma OldMembersWait(w: World, ds: Domains, a: Answers)
    requires Live(w) && !w.cluster.value.controlPlaneUpgraded && Distinct(w.members) && Apart(w.machines)
    ensures
      Spares(w.Fleet(), ReconcileStep(w, ds, a).0.Fleet())
  {
    if a.entry == Proceeds {
      var d, marked := ReconcileLive(w, ds, a);
      ActSparesOld(w.Fleet(), w.cluster.value.spec, w.now, ds, a, d);
    }
  }

  // ----- Progress -----

  lemma TwoMembers(members: seq<Member>, a: string, b: string)
    requires Joins(members, a) && Joins(members, b) && a != b
    ensures |members| > 1
  {
    var i :| 0 <= i < |members| && PeersAt(members[i], a);
    var j :| 0 <= j < |members| && PeersAt(members[j], b);
    URLsInjective(a, b);
  }

  ghost predicate Out(listed: Machines, n: Name, f: Fleet)
    requires n in listed
  {
    n in f.machines && f.machines[n].terminating && !Joins(f.members, EtcdMachineAddress(listed[n]))
  }

  lemma {:induction false} LoopCompletes(
    f: Fleet, listed: Machines, order: seq<Name>, removals: map<Name, RemovalOutcome>, owner: string)
    requires Distinct(f.members) && Joins(f.members, owner) && listed.Keys == f.machines.Keys
    requires forall n :: n in order ==> n in listed && EtcdMachineAddress(listed[n]) != owner
    requires forall n :: n in order ==> OutcomeFor(removals, n) == Succeeds
    ensures
      var (f', ok) := RemoveEach(f, listed, order, removals);
      && ok && Distinct(f'.members) && f'.machines.Keys == f.machines.Keys
      && (forall n :: n in order ==> Out(listed, n, f'))
    decreases order
  {
    if order != [] {
      var n := order[0];
      var address := EtcdMachineAddress(listed[n]);
      var g := RemoveEtcdMachine(f, Some(n), address, Succeeds).0;
      OneOut(f, listed, n, owner);
      var rest := order[1..];
      LoopCompletes(g, listed, rest, removals, owner);
      var f' := RemoveEach(g, listed, rest, removals).0;
      RemovalsAreSafe(g, listed, rest, removals, listed.Keys);
      RemovalsKeep(g, listed, rest, removals);
      StaysOut(g.members, f'.members, AddressesOf(listed, listed.Keys), address);
      assert Out(listed, n, f');
    }
  }

  lemma OneOut(f: Fleet, listed: Machines, n: Name, owner: string)
    requires Distinct(f.members) && Joins(f.members, owner) && n in f.machines && n in listed
    requires EtcdMachineAddress(listed[n]) != owner
    ensures
      var (g, ok) := RemoveEtcdMachine(f, Some(n), EtcdMachineAddress(listed[n]), Succeeds);
      && ok && Out(listed, n, g) && Distinct(g.members) && Joins(g.members, owner) && g.machines.Keys == f.machines.Keys
  {
    var address := EtcdMachineAddress(listed[n]);
    RemovalSucceeds(f, n, address);
    RemovalIsSafe(f, Some(n), address, Succeeds);
    RemovalKeeps(f, Some(n), address, Succeeds);
    if Joins(f.members, address) {
      TwoMembers(f.members, address, owner);
    }
  }

  /** A cleanup whose calls go well takes out every old member and asks for the deletion of every
      old machine in one Reconcile. */
  lemma CleanupProgress(w: World, ds: Domains, a: Answers)
    requires Upgraded(w) && w.cluster.value.controlPlaneUpgraded
    requires a.entry == Proceeds && a.externalReference && a.listing && a.ownedPlane
    requires forall n :: n in Unowned(w.machines) ==> OutcomeFor(a.removals, n) == Succeeds
    ensures
      var w' := ReconcileStep(w, ds, a).0;
      forall n :: n in Unowned(w.machines) ==>
        n in w'.machines && w'.machines[n].terminating && !Joins(w'.members, EtcdMachineAddress(w.machines[n]))
  {
    if Unowned(w.machines) != {} {
      var d, marked := ReconcileLive(w, ds, a);
      assert d.CleanUpOldMembers?;
      assert |Owned(w.machines)| > 0;
      var o :| o in Owned(w.machines);
      var order := Arrange(Unowned(w.machines), a.order);
      LoopCompletes(w.Fleet(), w.machines, order, a.removals, EtcdMachineAddress(w.machines[o]));
      forall n | n in Unowned(w.machines)
        ensures
          var w' := ReconcileStep(w, ds, a).0;
          n in w'.machines && w'.machines[n].terminating && !Joins(w'.members, EtcdMachineAddress(w.machines[n]))
      {
        assert n in order;
        assert Out(w.machines, n, RemoveEach(w.Fleet(), w.machines, order, a.removals).0);
      }
    }
  }
}
