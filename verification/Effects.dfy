/** What the controller's steps can do to the machines in any state: they add at most one, take
    none away, never adopt one, and delete one only by asking for it. */
module Effects {
  import opened Wrappers
  import opened Text
  import opened Machines
  import opened EtcdPlane
  import opened Membership
  import opened Cluster
  import opened ReconcileSpec
  import opened HealthCheck
  import opened Runs

  /** A machine is what it was, except that it may have lost its owner or be terminating. */
  predicate SameMachine(m: Machine, m': Machine) {
    && m' == m.(owned := m'.owned, terminating := m'.terminating)
    && (m'.owned ==> m.owned) && (m.terminating ==> m'.terminating)
  }

  ghost predicate KeepsMachines(ms: Machines, ms': Machines) {
    ms.Keys <= ms'.Keys && forall n :: n in ms ==> SameMachine(ms[n], ms'[n])
  }

  /** No machine came, and none changed hands. */
  ghost predicate KeepsOwners(ms: Machines, ms': Machines) {
    ms'.Keys == ms.Keys && forall n :: n in ms ==> SameMachine(ms[n], ms'[n]) && ms'[n].owned == ms[n].owned
  }

  lemma KeepsOwnersTransitive(a: Machines, b: Machines, c: Machines)
    requires KeepsOwners(a, b) && KeepsOwners(b, c)
    ensures KeepsOwners(a, c)
  {
    forall n | n in a ensures SameMachine(a[n], c[n]) && c[n].owned == a[n].owned {
      assert SameMachine(a[n], b[n]) && SameMachine(b[n], c[n]);
    }
  }

  lemma DeletionKeeps(f: Fleet, machine: Option<Name>, succeeds: bool)
    ensures KeepsOwners(f.machines, DeleteMachine(f, machine, succeeds).0.machines)
    ensures DeleteMachine(f, machine, succeeds).0.members == f.members
    ensures forall n :: n in f.machines && Some(n) != machine ==>
              DeleteMachine(f, machine, succeeds).0.machines[n] == f.machines[n]
  {
  }

  lemma RemovalKeeps(f: Fleet, machine: Option<Name>, address: string, outcome: RemovalOutcome)
    ensures
      var f' := RemoveEtcdMachine(f, machine, address, outcome).0;
      && KeepsOwners(f.machines, f'.machines)
      && forall n :: n in f.machines && Some(n) != machine ==> f'.machines[n] == f.machines[n]
  {
    var i := MemberIndex(f.members, [PeerURL(address)]);
    DeletionKeeps(f, machine, !outcome.DeleteFails?);
    if i < |f.members| {
      var id := f.members[i].id;
      DeletionKeeps(f.(members := WithoutMember(f.members, id), log := f.log + [MemberRemoved(id)]),
                    machine, !outcome.DeleteFails?);
    }
  }

  lemma {:induction false} RemovalsKeep(f: Fleet, listed: Machines, order: seq<Name>, removals: map<Name, RemovalOutcome>)
    requires forall n :: n in order ==> n in listed
    ensures
      var f' := RemoveEach(f, listed, order, removals).0;
      && KeepsOwners(f.machines, f'.machines)
      && forall n :: n in f.machines && n !in order ==> f'.machines[n] == f.machines[n]
    decreases order
  {
    if order != [] {
      var n := order[0];
      var (g, ok) := RemoveEtcdMachine(f, Some(n), EtcdMachineAddress(listed[n]), OutcomeFor(removals, n));
      RemovalKeeps(f, Some(n), EtcdMachineAddress(listed[n]), OutcomeFor(removals, n));
      if ok {
        RemovalsKeep(g, listed, order[1..], removals);
        KeepsOwnersTransitive(f.machines, g.machines, RemoveEach(g, listed, order[1..], removals).0.machines);
      }
    }
  }

  lemma {:induction false} DeletionsKeep(f: Fleet, order: seq<Name>, removals: map<Name, RemovalOutcome>)
    ensures KeepsOwners(f.machines, DeleteEach(f, order, removals).0.machines)
    ensures DeleteEach(f, order, removals).0.members == f.members
    decreases order
  {
    if order != [] {
      var outcome := OutcomeFor(removals, order[0]);
      var g := DeleteMachine(f, Some(order[0]), outcome != DeleteFails).0;
      DeletionKeeps(f, Some(order[0]), outcome != DeleteFails);
      DeletionsKeep(g, order[1..], removals);
      KeepsOwnersTransitive(f.machines, g.machines, DeleteEach(g, order[1..], removals).0.machines);
    }
  }

  lemma TurnKeeps(f: Fleet, c: Checker, endpoint: string, replicas: nat, outcome: RemovalOutcome)
    requires endpoint in c.toRemove
    ensures KeepsOwners(f.machines, RemoveOne(f, c, endpoint, replicas, outcome).0.machines)
  {
    RemovalKeeps(f, Some(c.toRemove[endpoint]), MachineAddressFromClientURL(endpoint), outcome);
  }

  lemma {:induction false} TurnsKeep(
    f: Fleet, c: Checker, order: seq<string>, replicas: nat, removals: map<string, RemovalOutcome>)
    requires forall e :: e in order ==> e in c.toRemove
    requires forall i, j :: 0 <= i < j < |order| ==> order[i] != order[j]
    ensures KeepsOwners(f.machines, RemoveQueued(f, c, order, replicas, removals).0.machines)
    decreases order
  {
    if order != [] {
      var most, last := order[..|order| - 1], order[|order| - 1];
      TurnsKeep(f, c, most, replicas, removals);
      var (g, d, _) := RemoveQueued(f, c, most, replicas, removals);
      assert last !in most;
      TurnKeeps(g, d, last, replicas, OutcomeFor(removals, last));
      KeepsOwnersTransitive(f.machines, g.machines, RemoveOne(g, d, last, replicas, OutcomeFor(removals, last)).0.machines);
    }
  }

  lemma RoundKeeps(w: World, c: Checker, r: RoundAnswers, order: seq<string>)
    requires Removes(w, c, r) ==> Visits(order, Checked(c, w.machines, w.cluster.value, r).toRemove.Keys)
    ensures KeepsOwners(w.machines, Round(w, c, r, order).0.machines)
  {
    if Removes(w, c, r) {
      TurnsKeep(w.Fleet(), Checked(c, w.machines, w.cluster.value, r), order, w.cluster.value.spec.replicas, r.removals);
    }
  }

  lemma SurplusKeeps(f: Fleet, ds: Domains, a: Answers)
    ensures KeepsOwners(f.machines, RemoveSurplus(f, ds, a).0.machines)
  {
    var selected := SelectMachineForScaleDown(f.machines, Owned(f.machines), {}, ds);
    if selected.Some? {
      RemovalKeeps(f, selected, EtcdMachineAddress(f.machines[selected.value]), OutcomeFor(a.removals, selected.value));
    }
  }

  /** The machine a decision may make. */
  function MachineMade(f: Fleet, spec: Spec, now: int, ds: Domains): Machine {
    NewMachine(spec, now, NextFailureDomainForScaleUp(f.machines, Owned(f.machines), spec, ds))
  }

  lemma CreationActs(f: Fleet, spec: Spec, now: int, ds: Domains, a: Answers, d: Decision)
    requires d.RollCreate? || d.Initialize? || d.ScaleUp?
    ensures
      var ms := Act(f, spec, now, ds, a, d).0.machines;
      ms == f.machines || (a.newName !in f.machines && ms == f.machines[a.newName := MachineMade(f, spec, now, ds)])
  {
  }

  lemma DisowningActs(f: Fleet, spec: Spec, now: int, ds: Domains, a: Answers, d: Decision)
    requires d.RollDisown?
    ensures
      var ms := Act(f, spec, now, ds, a, d).0.machines;
      KeepsMachines(f.machines, ms) && ms.Keys == f.machines.Keys
  {
    var g := PassCheck(f, d.checked, now);
    var ms := DisownMachine(g, spec, ds, a).0.machines;
    assert g.machines == f.machines;
    assert Act(f, spec, now, ds, a, d).0.machines == ms;
  }

  lemma RemovingActs(f: Fleet, spec: Spec, now: int, ds: Domains, a: Answers, d: Decision)
    requires d.CleanUpOldMembers? || d.ScaleDown?
    ensures KeepsOwners(f.machines, Act(f, spec, now, ds, a, d).0.machines)
  {
    if d.CleanUpOldMembers? {
      RemovalsKeep(f, f.machines, Arrange(Unowned(f.machines), a.order), a.removals);
    } else {
      SurplusKeeps(f, ds, a);
    }
  }

  /** Every other decision leaves the machines, the members and the log alone. */
  lemma IdleAct(f: Fleet, spec: Spec, now: int, ds: Domains, a: Answers, d: Decision)
    requires !(d.RollCreate? || d.Initialize? || d.ScaleUp? || d.RollDisown? || d.CleanUpOldMembers? || d.ScaleDown?)
    ensures Act(f, spec, now, ds, a, d).0 == f
  {
  }

  /** The machines after a decision. */
  lemma ActKeeps(f: Fleet, spec: Spec, now: int, ds: Domains, a: Answers, d: Decision)
    ensures
      var f' := Act(f, spec, now, ds, a, d).0;
      && KeepsMachines(f.machines, f'.machines)
      && (f'.machines.Keys == f.machines.Keys
          || ((d.RollCreate? || d.Initialize? || d.ScaleUp?)
              && a.newName !in f.machines
              && f'.machines == f.machines[a.newName := MachineMade(f, spec, now, ds)]))
      && (f'.machines.Keys == f.machines.Keys && !d.RollDisown? ==> KeepsOwners(f.machines, f'.machines))
  {
    if d.RollCreate? || d.Initialize? || d.ScaleUp? {
      CreationActs(f, spec, now, ds, a, d);
    } else if d.RollDisown? {
      DisowningActs(f, spec, now, ds, a, d);
    } else if d.CleanUpOldMembers? || d.ScaleDown? {
      RemovingActs(f, spec, now, ds, a, d);
    } else {
      IdleAct(f, spec, now, ds, a, d);
    }
  }

  lemma FinishLeavesMachines(w: World, ec: EtcdadmCluster, r: Result, a: Answers)
    ensures Finish(w, ec, r, a).0.machines == w.machines && Finish(w, ec, r, a).0.now == w.now
  {
  }

  /** The machines after a Reconcile, in any state. */
  lemma ReconcileKeeps(w: World, ds: Domains, a: Answers)
    ensures KeepsMachines(w.machines, ReconcileStep(w, ds, a).0.machines)
    ensures ReconcileStep(w, ds, a).0.now == w.now
    ensures !Live(w) || a.entry != Proceeds ==> KeepsOwners(w.machines, ReconcileStep(w, ds, a).0.machines)
  {
    if w.cluster.Some? && w.cluster.value.finalizer && a.entry == Proceeds {
      var ec := w.cluster.value;
      if ec.deleting {
        DeletionKeepsAll(w, ds, a);
      } else {
        var (f, marked, r) := ReconcileNormal(w.Fleet(), ec, w.now, ds, a);
        ActKeeps(w.Fleet(), ec.spec, w.now, ds, a, Decide(w.machines, ec, w.now, a));
        FinishLeavesMachines(w.WithFleet(f), marked, r, a);
      }
    } else {
      assert ReconcileStep(w, ds, a).0.machines == w.machines;
    }
  }

  lemma DeletionKeepsAll(w: World, ds: Domains, a: Answers)
    requires w.cluster.Some? && w.cluster.value.finalizer && w.cluster.value.deleting && a.entry == Proceeds
    ensures KeepsOwners(w.machines, ReconcileStep(w, ds, a).0.machines) && ReconcileStep(w, ds, a).0.now == w.now
  {
    var (f, ec, r) := ReconcileDelete(w.Fleet(), w.cluster.value, a);
    DeletionsKeep(w.Fleet(), Arrange(NotTerminating(w.machines), a.order), a.removals);
    FinishLeavesMachines(w.WithFleet(f), ec, r, a);
  }
}
