/** No orphans: machines exist only under the finalizer, and teardown only takes away. */
module Teardown {
  import opened Wrappers
  import opened Machines
  import opened EtcdPlane
  import opened Membership
  import opened Cluster
  import opened ReconcileSpec
  import opened HealthCheck
  import opened Runs
  import opened Effects

  /** Whatever machines there are, the EtcdadmCluster is there too, with its finalizer. */
  predicate Guarded(w: World) {
    w.machines != map[] ==> w.cluster.Some? && w.cluster.value.finalizer
  }

  /** The EtcdadmCluster is being deleted, or is gone. */
  predicate GoingAway(w: World) {
    w.cluster.None? || w.cluster.value.deleting
  }

  lemma SameKeysEmpty(ms: Machines, ms': Machines)
    requires ms'.Keys == ms.Keys
    ensures ms == map[] <==> ms' == map[]
  {
    if ms == map[] {
      assert ms'.Keys == {};
    } else {
      assert ms.Keys != {};
    }
  }

  lemma FinishDeleting(w: World, ec: EtcdadmCluster, r: Result, a: Answers)
    requires ec.deleting
    ensures
      var w' := Finish(w, ec, r, a).0;
      && w'.machines == w.machines
      && (if Persisted(a)
          then (if ec.finalizer then w'.cluster.Some? && w'.cluster.value.finalizer && w'.cluster.value.deleting
                     && w'.cluster.value.conditions.resizeCompleted == ec.conditions.resizeCompleted
                else w'.cluster.None?)
          else w'.cluster == w.cluster)
  {
    StatusKeeps(ec, w.secret, CheckOwnedMachines(w.machines, a.health), a);
  }

  /** The parts of a Reconcile of an EtcdadmCluster that is being deleted. */
  lemma DeletingParts(w: World, ds: Domains, a: Answers)
    requires w.cluster.Some? && w.cluster.value.deleting && w.cluster.value.finalizer && a.entry == Proceeds
    ensures
      var (f, ec, r) := ReconcileDelete(w.Fleet(), w.cluster.value, a);
      && ReconcileStep(w, ds, a) == Finish(w.WithFleet(f), ec, r, a)
      && f.machines.Keys == w.machines.Keys && ec.deleting
      && (!ec.finalizer <==> a.listing && w.machines == map[])
  {
    DeletionsKeep(w.Fleet(), Arrange(NotTerminating(w.machines), a.order), a.removals);
    assert |w.machines| == 0 <==> w.machines == map[];
  }

  /** One Reconcile of an EtcdadmCluster that is being deleted. */
  lemma ReconcileDeleting(w: World, ds: Domains, a: Answers)
    requires w.cluster.Some? && w.cluster.value.deleting && w.cluster.value.finalizer && a.entry == Proceeds
    ensures
      var w' := ReconcileStep(w, ds, a).0;
      && w'.machines.Keys == w.machines.Keys && GoingAway(w')
      && (w'.cluster.None? <==> a.listing && w.machines == map[] && Persisted(a))
      && (w'.cluster.Some? ==> w'.cluster.value.finalizer)
  {
    var (f, ec, r) := ReconcileDelete(w.Fleet(), w.cluster.value, a);
    DeletingParts(w, ds, a);
    FinishDeleting(w.WithFleet(f), ec, r, a);
  }

  /** What every step keeps: the guard, and once it is going away the shrinking of the machines;
      the finalizer goes only from an EtcdadmCluster without machines. */
  ghost predicate KeepsGuard(w: World, w': World) {
    && Guarded(w')
    && (GoingAway(w) ==> GoingAway(w') && w'.machines.Keys <= w.machines.Keys)
    && (w.cluster.Some? && w.cluster.value.finalizer && (w'.cluster.None? || !w'.cluster.value.finalizer) ==>
          w.cluster.value.deleting && w.machines == map[])
  }

  lemma ReconcileGuarded(w: World, ds: Domains, a: Answers)
    requires Guarded(w)
    ensures KeepsGuard(w, ReconcileStep(w, ds, a).0)
  {
    var w' := ReconcileStep(w, ds, a).0;
    if Live(w) && a.entry == Proceeds {
      var d, marked := ReconcileLive(w, ds, a);
    } else if w.cluster.Some? && w.cluster.value.finalizer && a.entry == Proceeds {
      ReconcileDeleting(w, ds, a);
      SameKeysEmpty(w.machines, w'.machines);
    } else {
      assert w'.machines == w.machines;
    }
  }

  lemma RoundGuarded(w: World, c: Checker, r: RoundAnswers, order: seq<string>)
    requires Guarded(w)
    requires Removes(w, c, r) ==> Visits(order, Checked(c, w.machines, w.cluster.value, r).toRemove.Keys)
    ensures KeepsGuard(w, Round(w, c, r, order).0)
  {
    RoundKeeps(w, c, r, order);
    SameKeysEmpty(w.machines, Round(w, c, r, order).0.machines);
  }

  lemma EventGuarded(w: World, ds: Domains, e: Event)
    requires Guarded(w) && Possible(w, e) && !e.Reconciled? && !e.HealthRound?
    ensures KeepsGuard(w, Apply(w, ds, e))
  {
    var w' := Apply(w, ds, e);
    if e.RemovalTurn? {
      var c := Checker(map[], map[e.endpoint := e.machine]);
      TurnKeeps(w.Fleet(), c, e.endpoint, w.cluster.value.spec.replicas, e.outcome);
      SameKeysEmpty(w.machines, w'.machines);
    } else if !e.Vanished? {
      assert w'.machines.Keys == w.machines.Keys;
      SameKeysEmpty(w.machines, w'.machines);
    }
  }

  lemma StepGuarded(w: World, ds: Domains, e: Event)
    requires Guarded(w) && Possible(w, e)
    ensures KeepsGuard(w, Apply(w, ds, e))
  {
    match e
    case Reconciled(a) => ReconcileGuarded(w, ds, a);
    case HealthRound(c, r, order) => RoundGuarded(w, c, r, order);
    case _ => EventGuarded(w, ds, e);
  }

  /** In every run that starts without machines, machines exist only while the EtcdadmCluster
      and its finalizer do. */
  lemma {:induction false} NoOrphans(w0: World, ds: Domains, es: seq<Event>)
    requires w0.machines == map[] && PossibleRun(w0, ds, es)
    ensures
      var w := Run(w0, ds, es);
      w.machines != map[] ==> w.cluster.Some? && w.cluster.value.finalizer
  {
    if es != [] {
      NoOrphans(w0, ds, es[..|es| - 1]);
      StepGuarded(Run(w0, ds, es[..|es| - 1]), ds, es[|es| - 1]);
    }
  }

  /** Once deletion is requested no machine is created again: the set of machines only shrinks. */
  lemma {:induction false} OnlyShrinks(w0: World, ds: Domains, es: seq<Event>)
    requires Guarded(w0) && GoingAway(w0) && PossibleRun(w0, ds, es)
    ensures
      var w := Run(w0, ds, es);
      && Guarded(w) && GoingAway(w)
      && w.machines.Keys <= w0.machines.Keys
  {
    if es != [] {
      OnlyShrinks(w0, ds, es[..|es| - 1]);
      StepGuarded(Run(w0, ds, es[..|es| - 1]), ds, es[|es| - 1]);
    }
  }

  lemma {:induction false} DeletionsReach(f: Fleet, order: seq<Name>, removals: map<Name, RemovalOutcome>)
    requires DeleteEach(f, order, removals).1
    ensures
      var f' := DeleteEach(f, order, removals).0;
      forall n :: n in order && n in f.machines ==> n in f'.machines && f'.machines[n].terminating
    decreases order
  {
    if order != [] {
      var outcome := OutcomeFor(removals, order[0]);
      var g := DeleteMachine(f, Some(order[0]), outcome != DeleteFails).0;
      DeletionKeeps(f, Some(order[0]), outcome != DeleteFails);
      DeletionsReach(g, order[1..], removals);
      DeletionsKeep(g, order[1..], removals);
    }
  }

  /** The delete requests, for every answer to them: each machine whose request does not fail gets
      its deletion timestamp, and no other does. */
  lemma {:induction false} DeletionsAreExact(f: Fleet, order: seq<Name>, removals: map<Name, RemovalOutcome>)
    requires forall n :: n in order ==> n in f.machines
    requires forall i, j :: 0 <= i < j < |order| ==> order[i] != order[j]
    ensures
      var (f', ok) := DeleteEach(f, order, removals);
      && f'.machines.Keys == f.machines.Keys
      && (forall n :: n in f.machines ==>
            f'.machines[n].terminating
            == (f.machines[n].terminating || (n in order && OutcomeFor(removals, n) != DeleteFails)))
      && (ok <==> forall n :: n in order ==> OutcomeFor(removals, n) != DeleteFails)
    decreases order
  {
    if order != [] {
      var g := DeleteMachine(f, Some(order[0]), OutcomeFor(removals, order[0]) != DeleteFails).0;
      assert order[0] !in order[1..];
      DeletionsAreExact(g, order[1..], removals);
    }
  }

  lemma Appended(a: seq<Action>, b: seq<Action>, c: seq<Action>)
    requires a <= b <= c
    ensures a <= c && c[|a|..] == b[|a|..] + c[|b|..]
  {
    assert forall i :: |a| <= i < |b| ==> c[i] == b[i];
  }

  /** One request is logged for each of these, and none for any other machine. */
  lemma {:induction false} DeletionsAreLogged(f: Fleet, order: seq<Name>, removals: map<Name, RemovalOutcome>, n: Name)
    requires forall k :: k in order ==> k in f.machines
    requires forall i, j :: 0 <= i < j < |order| ==> order[i] != order[j]
    ensures
      var log := DeleteEach(f, order, removals).0.log;
      && f.log <= log
      && multiset(log[|f.log|..])[Deleted(n)]
         == if n in order && OutcomeFor(removals, n) != DeleteFails then 1 else 0
    decreases order
  {
    if order != [] {
      var g := DeleteMachine(f, Some(order[0]), OutcomeFor(removals, order[0]) != DeleteFails).0;
      assert order[0] !in order[1..];
      DeletionsAreLogged(g, order[1..], removals, n);
      var log := DeleteEach(g, order[1..], removals).0.log;
      Appended(f.log, g.log, log);
    }
  }

  /** One teardown step asks for the deletion of every machine that is not terminating, whichever of
      the requests fail, once each; and of no other. */
  lemma TeardownIsExact(w: World, ds: Domains, a: Answers)
    requires w.cluster.Some? && w.cluster.value.deleting && w.cluster.value.finalizer && a.entry == Proceeds
    ensures
      var w' := ReconcileStep(w, ds, a).0;
      && w'.machines.Keys == w.machines.Keys && w.log <= w'.log
      && (forall n :: n in w.machines ==>
            w'.machines[n].terminating
            == (w.machines[n].terminating || (a.listing && OutcomeFor(a.removals, n) != DeleteFails)))
      && forall n :: n in w.machines ==>
           multiset(w'.log[|w.log|..])[Deleted(n)]
           == if !w.machines[n].terminating && a.listing && OutcomeFor(a.removals, n) != DeleteFails then 1 else 0
  {
    var order := Arrange(NotTerminating(w.machines), a.order);
    var (f, ec, r) := ReconcileDelete(w.Fleet(), w.cluster.value, a);
    DeletingParts(w, ds, a);
    FinishLog(w.WithFleet(f), ec, r, a);
    DeletionsAreExact(w.Fleet(), order, a.removals);
    var requested := DeleteEach(w.Fleet(), order, a.removals).0.log;
    forall n
      ensures w.log <= requested
      ensures multiset(requested[|w.log|..])[Deleted(n)]
           == if n in order && OutcomeFor(a.removals, n) != DeleteFails then 1 else 0
    {
      DeletionsAreLogged(w.Fleet(), order, a.removals, n);
    }
    assert w.log[|w.log|..] == [];
  }

  lemma FinishLog(w: World, ec: EtcdadmCluster, r: Result, a: Answers)
    ensures Finish(w, ec, r, a).0.log == w.log && Finish(w, ec, r, a).0.machines == w.machines
  {
  }

  /** Teardown moves on: a Reconcile that ends without error has either asked for the deletion of
      every machine, owned or not, and is due again in 30 seconds, or found none and let the
      EtcdadmCluster go. */
  lemma TeardownProgress(w: World, ds: Domains, a: Answers)
    requires w.cluster.Some? && w.cluster.value.deleting && w.cluster.value.finalizer && a.entry == Proceeds
    requires !ReconcileStep(w, ds, a).1.failed
    ensures
      var (w', r) := ReconcileStep(w, ds, a);
      if w.machines == map[] then w'.cluster.None? && r.requeue == NoRequeue
      else && w'.machines.Keys == w.machines.Keys && (forall n :: n in w'.machines ==> w'.machines[n].terminating)
           && r.requeue == After(30)
           && w'.cluster.Some? && w'.cluster.value.conditions.resizeCompleted == False(Deleting)
  {
    ReconcileDeleting(w, ds, a);
    var order := Arrange(NotTerminating(w.machines), a.order);
    var (f, ec, r) := ReconcileDelete(w.Fleet(), w.cluster.value, a);
    NotFailedBefore(w.WithFleet(f), ec, r, a);
    FinishDeleting(w.WithFleet(f), ec, r, a);
    if w.machines != map[] {
      assert |w.machines| != 0;
      DeletionsReach(w.Fleet(), order, a.removals);
      DeletionsKeep(w.Fleet(), order, a.removals);
    }
  }

  lemma NotFailedBefore(w: World, ec: EtcdadmCluster, r: Result, a: Answers)
    ensures !Finish(w, ec, r, a).1.failed ==> !r.failed && Persisted(a)
    ensures ec.deleting ==> Finish(w, ec, r, a).1.requeue == r.requeue
  {
  }
}
