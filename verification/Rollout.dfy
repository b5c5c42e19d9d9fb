/** A whole rollout: from N owned machines that are all outdated, whatever the answers and the
    environment, to N owned machines that all match. */
module Rollout {
  import opened Wrappers
  import opened Machines
  import opened EtcdPlane
  import opened Membership
  import opened Cluster
  import opened ReconcileSpec
  import opened Runs

  // ----- Counting effects -----

  function Count(log: seq<Action>, p: Action -> bool): nat {
    if log == [] then 0
    else Count(log[..|log| - 1], p) + if p(log[|log| - 1]) then 1 else 0
  }

  lemma {:induction false} CountAppend(log: seq<Action>, more: seq<Action>, p: Action -> bool)
    ensures Count(log + more, p) == Count(log, p) + Count(more, p)
  {
    if more == [] {
      assert log + more == log;
    } else {
      var most := more[..|more| - 1];
      assert (log + more)[..|log + more| - 1] == log + most;
      CountAppend(log, most, p);
    }
  }

  const IsCreation: Action -> bool := (x: Action) => x.Created?
  const IsDisowning: Action -> bool := (x: Action) => x.Disowned?
  const IsRemoval: Action -> bool := (x: Action) => x.MemberRemoved? || x.Deleted?

  /** The effects since `w0`. */
  function Since(w0: World, w: World): seq<Action>
    requires |w0.log| <= |w.log|
  {
    w.log[|w0.log|..]
  }

  // ----- The invariant -----

  predicate Outdated(m: Machine, spec: Spec) {
    !Matches(m, spec) && !m.terminating && !m.deleteAnnotated
  }

  predicate Current(m: Machine, spec: Spec) {
    m.owned && Matches(m, spec) && !m.terminating && !m.deleteAnnotated
  }

  /** N owned machines, and every machine, owned or not, outdated. */
  predicate RolloutStart(w: World) {
    && Live(w)
    && var ec := w.cluster.value;
    && ec.spec.Valid() && !ec.controlPlaneUpgraded && !ec.conditions.initialized.False?
    && |Owned(w.machines)| == ec.spec.replicas
    && forall n :: n in w.machines ==> Outdated(w.machines[n], ec.spec)
  }

  /** The machines of `start` that are still owned. */
  function StillOwned(start: set<Name>, ms: Machines): set<Name> {
    set n | n in start && n in ms && ms[n].owned
  }

  function Old(w0: World, w: World): set<Name> {
    StillOwned(w0.machines.Keys, w.machines)
  }

  /** The machines created since. */
  function New(w0: World, w: World): set<Name> {
    w.machines.Keys - w0.machines.Keys
  }

  predicate Balance(replicas: nat, kept: nat, made: nat) {
    if replicas == 1 then 1 <= kept + made && kept <= 1 && made <= 1
    else replicas - 1 <= kept + made <= replicas
  }

  /** The machines of `start` are outdated, and those created since are up to date and owned. */
  ghost predicate Kinds(start: Machines, ms: Machines, spec: Spec) {
    && start.Keys <= ms.Keys
    && (forall n :: n in start ==> Outdated(ms[n], spec) && (ms[n].owned ==> start[n].owned))
    && (forall n :: n in ms && n !in start ==> Current(ms[n], spec))
  }

  ghost predicate UnderWay(w0: World, w: World) {
    && Live(w0) && Live(w)
    && var ec := w.cluster.value;
    && ec.spec == w0.cluster.value.spec && ec.spec.Valid()
    && !ec.controlPlaneUpgraded && !ec.conditions.initialized.False?
    && Kinds(w0.machines, w.machines, ec.spec)
    && Balance(ec.spec.replicas, |Old(w0, w)|, |New(w0, w)|)
  }

  /** The log tells what became of the machines: one disowning for each that went, one creation
      for each that came, and no removal. */
  ghost predicate Told(w0: World, w: World) {
    && Live(w0)
    && w0.members <= w.members && w0.log <= w.log
    && Count(Since(w0, w), IsCreation) == |New(w0, w)|
    && Count(Since(w0, w), IsDisowning) + |Old(w0, w)| == w0.cluster.value.spec.replicas
    && Count(Since(w0, w), IsRemoval) == 0
  }

  /** What may happen besides Reconciles while the rollout lasts. */
  predicate DuringRollout(e: Event) {
    e.Reconciled? || e.Addressed? || e.Joined? || e.Ticked? || e.InitReported?
  }

  // ----- The steps -----

  lemma PartsOf(start: Machines, ms: Machines, spec: Spec)
    requires Kinds(start, ms, spec)
    ensures
      var kept, made := StillOwned(start.Keys, ms), ms.Keys - start.Keys;
      && Owned(ms) == kept + made && kept !! made
      && NeedRollout(ms, spec) == kept
      && UpToDate(ms, spec) == made
      && Matching(ms, spec) == made
  {
    var kept, made := StillOwned(start.Keys, ms), ms.Keys - start.Keys;
    assert Owned(ms) == kept + made;
    assert NeedRollout(ms, spec) == kept;
    assert UpToDate(ms, spec) == made;
    assert Matching(ms, spec) == made;
  }

  lemma Parts(w0: World, w: World)
    requires UnderWay(w0, w)
    ensures
      var spec := w.cluster.value.spec;
      && Owned(w.machines) == Old(w0, w) + New(w0, w)
      && |Owned(w.machines)| == |Old(w0, w)| + |New(w0, w)|
      && NeedRollout(w.machines, spec) == Old(w0, w)
      && UpToDate(w.machines, spec) == New(w0, w)
      && Matching(w.machines, spec) == New(w0, w)
  {
    PartsOf(w0.machines, w.machines, w.cluster.value.spec);
  }

  /** The decisions a rollout comes to; reaching the limit is not one of them. */
  lemma Decisions(w0: World, w: World, a: Answers, d: Decision)
    requires UnderWay(w0, w) && DecisionFacts(w.machines, w.cluster.value, w.now, a, d)
    ensures
      var replicas := w.cluster.value.spec.replicas;
      var kept, made := |Old(w0, w)|, |New(w0, w)|;
      && !d.LimitReached? && !d.CleanUpOldMembers? && !d.Initialize? && !d.AwaitInit? && !d.NoteInit? && !d.ScaleDown?
      && (d.RollCreate? ==> kept > 0 && if replicas == 1 then made == 0 else kept + made < replicas)
      && (d.RollDisown? ==> kept > 0 && if replicas == 1 then made == 1 else kept + made == replicas)
      && (d.ScaleUp? ==> kept == 0 && made < replicas)
      && (d.Settled? ==> kept == 0 && made == replicas)
      && (d.InRollout() <==> kept > 0 && !d.Unreadable? && !d.WholePlaneUnreadable?)
  {
    Parts(w0, w);
  }

  /** A creation or a disowning, as far as the machines are concerned. */
  lemma AfterCreation(start: set<Name>, ms: Machines, n: Name, m: Machine)
    requires start <= ms.Keys && n !in ms
    ensures StillOwned(start, ms[n := m]) == StillOwned(start, ms)
    ensures ms[n := m].Keys - start == (ms.Keys - start) + {n}
  {
    var ms' := ms[n := m];
    assert ms'.Keys - start == (ms.Keys - start) + {n};
    assert StillOwned(start, ms') == StillOwned(start, ms);
  }

  lemma AfterDisowning(start: set<Name>, ms: Machines, n: Name)
    requires n in StillOwned(start, ms)
    ensures
      var ms' := ms[n := ms[n].(owned := false)];
      && StillOwned(start, ms') == StillOwned(start, ms) - {n} && ms'.Keys == ms.Keys
      && |StillOwned(start, ms')| == |StillOwned(start, ms)| - 1
  {
    var ms' := ms[n := ms[n].(owned := false)];
    assert StillOwned(start, ms') == StillOwned(start, ms) - {n};
  }

  /** The machine disowned is one of the outdated ones. */
  lemma SelectsOld(w0: World, w: World, ds: Domains)
    requires UnderWay(w0, w) && PicksEligible(ds) && Old(w0, w) != {}
    ensures
      var r := SelectMachineForScaleDown(w.machines, Owned(w.machines), NeedRollout(w.machines, w.cluster.value.spec), ds);
      r.Some? && r.value in Old(w0, w)
  {
    Parts(w0, w);
    SelectionIsTotal(w.machines, Owned(w.machines), Old(w0, w), ds);
    assert forall n :: n in Owned(w.machines) ==> !w.machines[n].deleteAnnotated;
    assert MachinesWithDeleteAnnotation(w.machines, Owned(w.machines)) == {};
  }

  lemma CountOne(x: Action, p: Action -> bool)
    ensures Count([x], p) == if p(x) then 1 else 0
  {
  }

  lemma CountTwo(x: Action, y: Action, p: Action -> bool)
    ensures Count([x, y], p) == (if p(x) then 1 else 0) + if p(y) then 1 else 0
  {
    assert [x, y][..1] == [x];
    CountOne(x, p);
  }

  lemma SinceGrows(w0: World, w: World, w': World, more: seq<Action>)
    requires |w0.log| <= |w.log| && w'.log == w.log + more
    ensures |w0.log| <= |w'.log| && Since(w0, w') == Since(w0, w) + more
  {
  }

  lemma SinceMore(w0: World, w: World, w': World, more: seq<Action>)
    requires |w0.log| <= |w.log| && w'.log == w.log + more
    ensures |w0.log| <= |w'.log| && Since(w0, w') == Since(w0, w) + more
    ensures forall p :: Count(Since(w0, w'), p) == Count(Since(w0, w), p) + Count(more, p)
  {
    assert Since(w0, w') == Since(w0, w) + more;
    forall p ensures Count(Since(w0, w'), p) == Count(Since(w0, w), p) + Count(more, p) {
      CountAppend(Since(w0, w), more, p);
    }
  }

  /** The steps of the rollout itself. */
  lemma KindsAfterCreation(start: Machines, ms: Machines, spec: Spec, n: Name, m: Machine)
    requires Kinds(start, ms, spec) && n !in ms && Current(m, spec)
    ensures Kinds(start, ms[n := m], spec)
  {
  }

  lemma KindsAfterDisowning(start: Machines, ms: Machines, spec: Spec, n: Name)
    requires Kinds(start, ms, spec) && n in start
    ensures Kinds(start, ms[n := ms[n].(owned := false)], spec)
  {
  }

  lemma Creates(w0: World, w: World, w': World, n: Name, m: Machine)
    requires UnderWay(w0, w) && n !in w.machines && Current(m, w.cluster.value.spec)
    requires w'.machines == w.machines[n := m]
    requires Live(w') && DecidesSame(w, w')
    requires Balance(w.cluster.value.spec.replicas, |Old(w0, w)|, |New(w0, w)| + 1)
    ensures UnderWay(w0, w') && Old(w0, w') == Old(w0, w) && New(w0, w') == New(w0, w) + {n}
    ensures |New(w0, w')| == |New(w0, w)| + 1
  {
    KindsAfterCreation(w0.machines, w.machines, w.cluster.value.spec, n, m);
    AfterCreation(w0.machines.Keys, w.machines, n, m);
    AddOne(New(w0, w), n);
  }

  lemma Disowns(w0: World, w: World, w': World, n: Name)
    requires UnderWay(w0, w) && n in Old(w0, w)
    requires w'.machines == w.machines[n := w.machines[n].(owned := false)]
    requires Live(w') && DecidesSame(w, w')
    requires Balance(w.cluster.value.spec.replicas, |Old(w0, w)| - 1, |New(w0, w)|)
    ensures UnderWay(w0, w') && Old(w0, w') == Old(w0, w) - {n} && New(w0, w') == New(w0, w)
    ensures |Old(w0, w')| == |Old(w0, w)| - 1
  {
    KindsAfterDisowning(w0.machines, w.machines, w.cluster.value.spec, n);
    AfterDisowning(w0.machines.Keys, w.machines, n);
  }

  /** The log goes on telling what became of the machines. */
  lemma Tells(w0: World, w: World, w': World, more: seq<Action>)
    requires Told(w0, w) && w.members <= w'.members && w'.log == w.log + more
    requires |New(w0, w')| == |New(w0, w)| + Count(more, IsCreation)
    requires |Old(w0, w')| == |Old(w0, w)| - Count(more, IsDisowning)
    requires Count(more, IsRemoval) == 0
    ensures Told(w0, w')
  {
    SinceMore(w0, w, w', more);
  }

  predicate DecidesSame(w: World, w': World)
    requires w.cluster.Some? && w'.cluster.Some?
  {
    && w'.cluster.value.spec == w.cluster.value.spec
    && !w'.cluster.value.controlPlaneUpgraded && !w'.cluster.value.conditions.initialized.False?
  }

  /** What a Reconcile does to the fleet during a rollout. */
  datatype Move = Stays | Makes(name: Name) | Lets(name: Name)

  ghost predicate Moves(w: World, ds: Domains, w': World, move: Move, checks: seq<Action>) {
    && w.cluster.Some? && w'.members == w.members && w'.now == w.now
    && var spec := w.cluster.value.spec;
    match move
    case Stays => w'.machines == w.machines && w'.log == w.log + checks
    case Makes(n) =>
      && n !in w.machines
      && w'.log == w.log + (checks + [Created(n, w.now)])
      && var domain := NextFailureDomainForScaleUp(w.machines, Owned(w.machines), spec, ds);
      w'.machines == w.machines[n := NewMachine(spec, w.now, domain)]
    case Lets(n) =>
      && n in w.machines && w'.machines == w.machines[n := w.machines[n].(owned := false)]
      && w'.log == w.log + (checks + [Disowned(n)])
  }

  /** The health check a step waited for, as the log shows it. */
  function ChecksOf(w: World, d: Decision): seq<Action> {
    if (d.RollCreate? || d.RollDisown?) && d.checked.Some? then [PassedCheck(d.checked.value, w.now)] else []
  }

  function MoveOf(w: World, d: Decision, a: Answers, selected: Option<Name>): Move {
    if (d.RollCreate? || d.ScaleUp?) && a.creation && a.newName !in w.machines then Makes(a.newName)
    else if d.RollDisown? && a.disowning && selected.Some? then Lets(selected.value)
    else Stays
  }

  lemma ActMoves(w: World, w': World, ds: Domains, a: Answers, d: Decision)
    requires Live(w)
    requires w'.Fleet() == Act(w.Fleet(), w.cluster.value.spec, w.now, ds, a, d).0 && w'.now == w.now
    requires !d.CleanUpOldMembers? && !d.Initialize? && !d.ScaleDown?
    ensures
      var spec := w.cluster.value.spec;
      var selected := SelectMachineForScaleDown(w.machines, Owned(w.machines), NeedRollout(w.machines, spec), ds);
      Moves(w, ds, w', MoveOf(w, d, a, selected), ChecksOf(w, d))
  {
  }

  lemma CountChecks(w: World, d: Decision, x: Action, p: Action -> bool)
    requires forall n, at :: !p(PassedCheck(n, at))
    ensures Count(ChecksOf(w, d), p) == 0
    ensures Count(ChecksOf(w, d) + [x], p) == if p(x) then 1 else 0
  {
    if ChecksOf(w, d) == [] {
      assert ChecksOf(w, d) + [x] == [x];
      CountOne(x, p);
    } else {
      CountOne(ChecksOf(w, d)[0], p);
      CountTwo(ChecksOf(w, d)[0], x, p);
    }
  }

  /** One Reconcile of a rollout: what it decides, how it moves the fleet, and that the rollout
      goes on. */
  lemma ReconcileMoves(w0: World, w: World, ds: Domains, a: Answers) returns (d: Decision, move: Move)
    requires UnderWay(w0, w) && Told(w0, w) && PicksEligible(ds) && a.entry == Proceeds
    ensures
      var w' := ReconcileStep(w, ds, a).0;
      && UnderWay(w0, w') && Told(w0, w')
      && DecisionFacts(w.machines, w.cluster.value, w.now, a, d)
      && w'.cluster.value.conditions.specUpToDate
         == (if Persisted(a) then SpecUpToDateAfter(w.cluster.value.conditions.specUpToDate, d)
             else w.cluster.value.conditions.specUpToDate)
      && (!Persisted(a) ==> w'.cluster == w.cluster)
      && Moves(w, ds, w', move, ChecksOf(w, d))
      && (move.Stays? <==>
            !(((d.RollCreate? || d.ScaleUp?) && a.creation && a.newName !in w.machines) || (d.RollDisown? && a.disowning)))
      && (move.Makes? <==> (d.RollCreate? || d.ScaleUp?) && a.creation && a.newName !in w.machines)
      && (move.Makes? ==> move.name == a.newName)
      && (move.Lets? ==> move.name in Old(w0, w))
  {
    var w' := ReconcileStep(w, ds, a).0;
    var spec := w.cluster.value.spec;
    var marked;
    d, marked := ReconcileLive(w, ds, a);
    Decisions(w0, w, a, d);
    ActMoves(w, w', ds, a, d);
    var selected := SelectMachineForScaleDown(w.machines, Owned(w.machines), NeedRollout(w.machines, spec), ds);
    if d.RollDisown? {
      SelectsOld(w0, w, ds);
    }
    move := MoveOf(w, d, a, selected);
    MoveKeeps(w0, w, w', ds, d, move);
  }

  lemma MoveKeeps(w0: World, w: World, w': World, ds: Domains, d: Decision, move: Move)
    requires UnderWay(w0, w) && Told(w0, w) && Live(w') && DecidesSame(w, w')
    requires Moves(w, ds, w', move, ChecksOf(w, d))
    requires move.Makes? ==> Balance(w.cluster.value.spec.replicas, |Old(w0, w)|, |New(w0, w)| + 1)
    requires move.Lets? ==>
      move.name in Old(w0, w) && Balance(w.cluster.value.spec.replicas, |Old(w0, w)| - 1, |New(w0, w)|)
    ensures UnderWay(w0, w') && Told(w0, w')
  {
    match move
    case Stays =>
      CountChecks(w, d, PassedCheck(0, 0), IsCreation);
      CountChecks(w, d, PassedCheck(0, 0), IsDisowning);
      CountChecks(w, d, PassedCheck(0, 0), IsRemoval);
      Tells(w0, w, w', ChecksOf(w, d));
    case Makes(n) =>
      Creates(w0, w, w', n, w'.machines[n]);
      TellsOne(w0, w, w', d, Created(n, w.now));
    case Lets(n) =>
      Disowns(w0, w, w', n);
      TellsOne(w0, w, w', d, Disowned(n));
  }

  lemma TellsOne(w0: World, w: World, w': World, d: Decision, x: Action)
    requires Told(w0, w) && w'.members == w.members && w'.log == w.log + (ChecksOf(w, d) + [x])
    requires x.Created? || x.Disowned?
    requires |New(w0, w')| == |New(w0, w)| + if x.Created? then 1 else 0
    requires |Old(w0, w')| == |Old(w0, w)| - if x.Disowned? then 1 else 0
    ensures Told(w0, w')
  {
    CountChecks(w, d, x, IsCreation);
    CountChecks(w, d, x, IsDisowning);
    CountChecks(w, d, x, IsRemoval);
    Tells(w0, w, w', ChecksOf(w, d) + [x]);
  }

  /** The machines are the same but for their addresses. */
  ghost predicate Readdressed(ms: Machines, ms': Machines) {
    ms'.Keys == ms.Keys && forall n :: n in ms ==> ms'[n] == ms[n].(addresses := ms'[n].addresses)
  }

  /** What the environment leaves alone during a rollout. */
  lemma EnvironmentFrame(w: World, ds: Domains, e: Event)
    requires Live(w) && Possible(w, e) && DuringRollout(e) && !e.Reconciled?
    ensures
      var w' := Apply(w, ds, e);
      && Readdressed(w.machines, w'.machines) && w.members <= w'.members && w'.log == w.log && w.now <= w'.now
      && Live(w') && w'.cluster.value == w.cluster.value.(status := w'.cluster.value.status)
      && w'.cluster.value.status.ready == w.cluster.value.status.ready
  {
    if e.Addressed? {
      AddressedFrame(w, ds, e);
    }
  }

  lemma AddressedFrame(w: World, ds: Domains, e: Event)
    requires Live(w) && Possible(w, e) && e.Addressed?
    ensures
      var w' := Apply(w, ds, e);
      Readdressed(w.machines, w'.machines) && w' == w.(machines := w'.machines)
  {
  }

  lemma EnvironmentKeeps(w0: World, w: World, ds: Domains, e: Event)
    requires UnderWay(w0, w) && Told(w0, w) && Possible(w, e) && DuringRollout(e) && !e.Reconciled?
    ensures UnderWay(w0, Apply(w, ds, e)) && Told(w0, Apply(w, ds, e))
    ensures Old(w0, Apply(w, ds, e)) == Old(w0, w) && New(w0, Apply(w, ds, e)) == New(w0, w)
  {
    EnvironmentFrame(w, ds, e);
    ReaddressingKeeps(w0, w, Apply(w, ds, e));
  }

  lemma ReaddressingKeeps(w0: World, w: World, w': World)
    requires UnderWay(w0, w) && Told(w0, w) && Live(w') && Readdressed(w.machines, w'.machines)
    requires w.members <= w'.members && w'.log == w.log && DecidesSame(w, w')
    ensures UnderWay(w0, w') && Told(w0, w') && Old(w0, w') == Old(w0, w) && New(w0, w') == New(w0, w)
  {
    AfterReaddressing(w0.machines, w.machines, w'.machines, w.cluster.value.spec);
    assert Since(w0, w') == Since(w0, w);
  }

  lemma AfterReaddressing(start: Machines, ms: Machines, ms': Machines, spec: Spec)
    requires Kinds(start, ms, spec) && Readdressed(ms, ms')
    ensures Kinds(start, ms', spec) && StillOwned(start.Keys, ms') == StillOwned(start.Keys, ms)
  {
    assert StillOwned(start.Keys, ms') == StillOwned(start.Keys, ms);
  }

  lemma StartsUnderWay(w0: World)
    requires RolloutStart(w0)
    ensures UnderWay(w0, w0) && Told(w0, w0) && |Old(w0, w0)| == w0.cluster.value.spec.replicas && New(w0, w0) == {}
  {
    assert Old(w0, w0) == Owned(w0.machines);
    assert Since(w0, w0) == [];
  }

  lemma RolloutStepKeeps(w0: World, w: World, ds: Domains, e: Event)
    requires UnderWay(w0, w) && Told(w0, w) && PicksEligible(ds) && Possible(w, e) && DuringRollout(e)
    ensures UnderWay(w0, Apply(w, ds, e)) && Told(w0, Apply(w, ds, e))
  {
    if !e.Reconciled? {
      EnvironmentKeeps(w0, w, ds, e);
    } else if e.a.entry != Proceeds {
      ReconcileBlocked(w, ds, e.a);
    } else {
      var d, move := ReconcileMoves(w0, w, ds, e.a);
    }
  }

  lemma {:induction false} StaysUnderWay(w0: World, ds: Domains, es: seq<Event>)
    requires RolloutStart(w0) && PicksEligible(ds)
    requires PossibleRun(w0, ds, es) && forall e :: e in es ==> DuringRollout(e)
    ensures UnderWay(w0, Run(w0, ds, es)) && Told(w0, Run(w0, ds, es))
  {
    if es == [] {
      StartsUnderWay(w0);
    } else {
      StaysUnderWay(w0, ds, es[..|es| - 1]);
      RolloutStepKeeps(w0, Run(w0, ds, es[..|es| - 1]), ds, es[|es| - 1]);
    }
  }

  // ----- The theorems -----

  /** The rollout is over: N owned machines, none needing a rollout. */
  predicate RolledOut(w: World)
    requires w.cluster.Some?
  {
    |Owned(w.machines)| == w.cluster.value.spec.replicas && NeedRollout(w.machines, w.cluster.value.spec) == {}
  }

  /** What holds at every point of a rollout: no machine is lost and no member removed; the machines
      owned are N - 1 or N (with one replica, 1 or 2); the next Reconcile never finds the upper
      limit reached; and the rollout is over exactly when N machines have been created and N
      disowned, which leaves the originals unowned and the N new machines owned and matching. */
  ghost predicate InOrder(w0: World, w: World) {
    && Told(w0, w) && w.cluster.Some? && w.cluster.value.spec == w0.cluster.value.spec
    && w0.machines.Keys <= w.machines.Keys && w0.members <= w.members
    && Count(Since(w0, w), IsRemoval) == 0
    && var replicas, owned := w0.cluster.value.spec.replicas, |Owned(w.machines)|;
    && (if replicas == 1 then 1 <= owned <= 2 else replicas - 1 <= owned <= replicas)
    && (forall a: Answers :: !Decide(w.machines, w.cluster.value, w.now, a).LimitReached?)
    && var created, disowned := Count(Since(w0, w), IsCreation), Count(Since(w0, w), IsDisowning);
    && created <= replicas && disowned <= replicas
    && (RolledOut(w) <==> created == replicas && disowned == replicas)
    && (RolledOut(w) ==>
          && Owned(w.machines) == w.machines.Keys - w0.machines.Keys
          && forall n :: n in Owned(w.machines) ==> Matches(w.machines[n], w.cluster.value.spec))
  }

  lemma NeverLimited(w0: World, w: World, a: Answers)
    requires UnderWay(w0, w)
    ensures !Decide(w.machines, w.cluster.value, w.now, a).LimitReached?
  {
    var d := Decide(w.machines, w.cluster.value, w.now, a);
    DecisionTable(w.machines, w.cluster.value, w.now, a);
    Decisions(w0, w, a, d);
  }

  lemma UnderWayInOrder(w0: World, w: World)
    requires UnderWay(w0, w) && Told(w0, w)
    ensures InOrder(w0, w)
  {
    Parts(w0, w);
    assert Old(w0, w) == {} <==> |Old(w0, w)| == 0;
    forall a: Answers ensures !Decide(w.machines, w.cluster.value, w.now, a).LimitReached? {
      NeverLimited(w0, w, a);
    }
  }

  /** A whole rollout is in order at every point of every run. */
  lemma WholeRollout(w0: World, ds: Domains, es: seq<Event>)
    requires RolloutStart(w0) && PicksEligible(ds)
    requires PossibleRun(w0, ds, es) && forall e :: e in es ==> DuringRollout(e)
    ensures InOrder(w0, Run(w0, ds, es))
  {
    StaysUnderWay(w0, ds, es);
    UnderWayInOrder(w0, Run(w0, ds, es));
  }

  /** Every call of this Reconcile that matters to a rollout goes well. */
  predicate Favourable(w: World, a: Answers)
    requires w.cluster.Some?
  {
    && a.entry == Proceeds
    && a.externalReference && a.listing && a.ownedPlane && a.wholePlane && a.certificates
    && a.creation && a.newName !in w.machines && a.disowning
    && (MustWait(w.machines, w.cluster.value) ==> ReadyToGoOn(w.machines, w.cluster.value.spec, w.now, a))
  }

  /** The rollout never gets stuck: until it is over, a Reconcile whose calls go well makes
      exactly one of the 2N moves. */
  lemma RolloutProgress(w0: World, ds: Domains, es: seq<Event>, a: Answers)
    requires RolloutStart(w0) && PicksEligible(ds)
    requires PossibleRun(w0, ds, es) && forall e :: e in es ==> DuringRollout(e)
    requires Run(w0, ds, es).cluster.Some? ==> Favourable(Run(w0, ds, es), a) && !RolledOut(Run(w0, ds, es))
    ensures
      var w := Run(w0, ds, es);
      var w' := ReconcileStep(w, ds, a).0;
      && Told(w0, w) && Told(w0, w')
      && Count(Since(w0, w'), IsCreation) + Count(Since(w0, w'), IsDisowning)
         == Count(Since(w0, w), IsCreation) + Count(Since(w0, w), IsDisowning) + 1
  {
    StaysUnderWay(w0, ds, es);
    var w := Run(w0, ds, es);
    var w' := ReconcileStep(w, ds, a).0;
    Parts(w0, w);
    var d, move := ReconcileMoves(w0, w, ds, a);
    Decisions(w0, w, a, d);
    MoveCounts(w0, w, w', ds, d, move);
  }

  lemma MoveCounts(w0: World, w: World, w': World, ds: Domains, d: Decision, move: Move)
    requires Told(w0, w) && Told(w0, w') && Moves(w, ds, w', move, ChecksOf(w, d)) && !move.Stays?
    ensures Count(Since(w0, w'), IsCreation) + Count(Since(w0, w'), IsDisowning)
         == Count(Since(w0, w), IsCreation) + Count(Since(w0, w), IsDisowning) + 1
  {
    var extra := if move.Makes? then Created(move.name, w.now) else Disowned(move.name);
    SinceMore(w0, w, w', ChecksOf(w, d) + [extra]);
    CountChecks(w, d, extra, IsCreation);
    CountChecks(w, d, extra, IsDisowning);
  }
}
