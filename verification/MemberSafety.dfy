/** Member before machine: outside teardown a machine is deleted only when etcd has no member for
    it any more, and the membership never becomes empty. */
module MemberSafety {
  import opened Text
  import opened Machines
  import opened EtcdPlane
  import opened Membership
  import opened Cluster
  import opened ReconcileSpec
  import opened HealthCheck
  import opened Runs
  import opened Effects
  import opened Removals

  // ----- The queue of the health checker -----

  ghost predicate PlainAddresses(ms: Machines) {
    forall n :: n in ms ==> Plain(EtcdMachineAddress(ms[n]))
  }

  /** Machines are queued under their own endpoints. */
  ghost predicate QueueSound(c: Checker, ms: Machines) {
    forall e :: e in c.toRemove && c.toRemove[e] in ms ==>
      MachineEtcdEndpoint(ms[c.toRemove[e]]) == e && e != ""
  }

  lemma {:induction false} ChecksKeepQueue(
    c: Checker, ms: Machines, order: seq<Name>, health: map<Name, Health>, threshold: int)
    requires QueueSound(c, ms) && forall n :: n in order ==> n in ms
    ensures QueueSound(CheckEach(c, ms, order, health, threshold), ms)
  {
    if order != [] {
      ChecksKeepQueue(c, ms, order[..|order| - 1], health, threshold);
    }
  }

  /** The host of the endpoint a machine is queued under is the machine's own address. */
  lemma QueuedHost(c: Checker, ms: Machines, e: string)
    requires QueueSound(c, ms) && PlainAddresses(ms) && e in c.toRemove && c.toRemove[e] in ms
    ensures MachineAddressFromClientURL(e) == EtcdMachineAddress(ms[c.toRemove[e]])
  {
    HostOfPlain(EtcdMachineAddress(ms[c.toRemove[e]]));
  }

  /** Removing a queued machine takes out its own member exactly when its address is free of URL
      delimiters. The machine gets its deletion timestamp in any case, and the member that goes is
      that of the host recovered: for another address its own stays, and another's may be taken. */
  lemma OwnMemberIffPlain(f: Fleet, c: Checker, endpoint: string, replicas: nat)
    requires Distinct(f.members) && |f.members| > 1 && |ActiveOwned(f.machines)| >= replicas
    requires endpoint in c.toRemove && c.toRemove[endpoint] in f.machines && QueueSound(c, f.machines)
    requires Joins(f.members, EtcdMachineAddress(f.machines[c.toRemove[endpoint]]))
    ensures
      var n := c.toRemove[endpoint];
      var address := EtcdMachineAddress(f.machines[n]);
      var f' := RemoveOne(f, c, endpoint, replicas, Succeeds).0;
      && (!Joins(f'.members, address) <==> Plain(address))
      && n in f'.machines && f'.machines[n].terminating
      && !Joins(f'.members, MachineAddressFromClientURL(endpoint))
  {
    var n := c.toRemove[endpoint];
    var host := MachineAddressFromClientURL(endpoint);
    AddressRoundTrip(EtcdMachineAddress(f.machines[n]));
    RemovalSucceeds(f, n, host);
    TurnIsSafe(f, c, endpoint, replicas, Succeeds);
  }

  // ----- Steps -----

  /** Every machine that dies in the step is out of the membership. */
  ghost predicate DeathsAreSafe(ms: Machines, ms': Machines, members: seq<Member>) {
    forall n: Name :: Dies(ms, ms', n) ==> !Joins(members, EtcdMachineAddress(ms'[n]))
  }

  ghost predicate StepIsSafe(w: World, w': World) {
    && Distinct(w'.members) && (w.members != [] ==> w'.members != [])
    && DeathsAreSafe(w.machines, w'.machines, w'.members)
  }

  lemma ActIsSafe(f: Fleet, spec: Spec, now: int, ds: Domains, a: Answers, d: Decision)
    requires Distinct(f.members)
    ensures
      var f' := Act(f, spec, now, ds, a, d).0;
      && Distinct(f'.members) && (f.members != [] ==> f'.members != [])
      && DeathsAreSafe(f.machines, f'.machines, f'.members)
  {
    if d.CleanUpOldMembers? {
      CleanUpIsSafe(f, Arrange(Unowned(f.machines), a.order), a.removals);
    } else if d.ScaleDown? {
      SurplusIsSafe(f, ds, a);
    } else {
      OthersAreSafe(f, spec, now, ds, a, d);
    }
  }

  lemma OthersAreSafe(f: Fleet, spec: Spec, now: int, ds: Domains, a: Answers, d: Decision)
    requires !d.CleanUpOldMembers? && !d.ScaleDown?
    ensures
      var f' := Act(f, spec, now, ds, a, d).0;
      f'.members == f.members && forall n: Name :: !Dies(f.machines, f'.machines, n)
  {
  }

  lemma CleanUpIsSafe(f: Fleet, order: seq<Name>, removals: map<Name, RemovalOutcome>)
    requires Distinct(f.members) && forall n :: n in order ==> n in f.machines
    ensures
      var f' := RemoveEach(f, f.machines, order, removals).0;
      && Distinct(f'.members) && (f.members != [] ==> f'.members != [])
      && DeathsAreSafe(f.machines, f'.machines, f'.members)
  {
    RemovalsAreSafe(f, f.machines, order, removals, f.machines.Keys);
    RemovalsKeep(f, f.machines, order, removals);
  }

  lemma SurplusIsSafe(f: Fleet, ds: Domains, a: Answers)
    requires Distinct(f.members)
    ensures
      var f' := RemoveSurplus(f, ds, a).0;
      && Distinct(f'.members) && (f.members != [] ==> f'.members != [])
      && DeathsAreSafe(f.machines, f'.machines, f'.members)
  {
    var selected := SelectMachineForScaleDown(f.machines, Owned(f.machines), {}, ds);
    if selected.Some? {
      var address := EtcdMachineAddress(f.machines[selected.value]);
      RemovalIsSafe(f, selected, address, OutcomeFor(a.removals, selected.value));
      RemovalKeeps(f, selected, address, OutcomeFor(a.removals, selected.value));
    }
  }

  lemma ReconcileIsSafe(w: World, ds: Domains, a: Answers)
    requires Distinct(w.members) && (w.cluster.Some? ==> !w.cluster.value.deleting)
    ensures StepIsSafe(w, ReconcileStep(w, ds, a).0)
    ensures ReconcileStep(w, ds, a).0.cluster.Some? ==> !ReconcileStep(w, ds, a).0.cluster.value.deleting
  {
    if Live(w) && a.entry == Proceeds {
      var d, marked := ReconcileLive(w, ds, a);
      ActIsSafe(w.Fleet(), w.cluster.value.spec, w.now, ds, a, d);
    }
  }

  /** What a machine's endpoint is made of survives every step but the machine's disappearance. */
  lemma QueueStaysSound(c: Checker, ms: Machines, ms': Machines)
    requires QueueSound(c, ms)
    requires forall n :: n in ms' ==>
      if n in ms then MachineEtcdEndpoint(ms[n]) != "" ==> MachineEtcdEndpoint(ms'[n]) == MachineEtcdEndpoint(ms[n])
      else forall e :: e in c.toRemove ==> c.toRemove[e] != n
    ensures QueueSound(c, ms')
  {
  }

  lemma TurnsKillSafely(
    f: Fleet, c: Checker, order: seq<string>, replicas: nat, removals: map<string, RemovalOutcome>)
    requires Distinct(f.members) && QueueSound(c, f.machines) && PlainAddresses(f.machines)
    requires forall e :: e in order ==> e in c.toRemove
    requires forall i, j :: 0 <= i < j < |order| ==> order[i] != order[j]
    ensures
      var f' := RemoveQueued(f, c, order, replicas, removals).0;
      && Distinct(f'.members) && (f.members != [] ==> f'.members != [])
      && DeathsAreSafe(f.machines, f'.machines, f'.members)
  {
    var f' := RemoveQueued(f, c, order, replicas, removals).0;
    TurnsAreSafe(f, c, order, replicas, removals);
    TurnsKeep(f, c, order, replicas, removals);
    forall n: Name | Dies(f.machines, f'.machines, n) ensures !Joins(f'.members, EtcdMachineAddress(f'.machines[n])) {
      QueuedIsOut(c, order, f.machines, f'.machines, n, f'.members);
    }
  }

  lemma QueuedIsOut(c: Checker, order: seq<string>, ms: Machines, ms': Machines, n: Name, members: seq<Member>)
    requires QueueSound(c, ms) && PlainAddresses(ms) && n in ms && n in ms' && SameMachine(ms[n], ms'[n])
    requires QueuedAndOut(c, order, n, members)
    ensures !Joins(members, EtcdMachineAddress(ms'[n]))
  {
    var e :| e in order && e in c.toRemove && c.toRemove[e] == n && !Joins(members, MachineAddressFromClientURL(e));
    QueuedHost(c, ms, e);
    assert ms'[n].addresses == ms[n].addresses;
  }

  lemma RoundIsSafe(w: World, c: Checker, r: RoundAnswers, order: seq<string>)
    requires Distinct(w.members) && QueueSound(c, w.machines) && PlainAddresses(w.machines)
    requires Removes(w, c, r) ==> Visits(order, Checked(c, w.machines, w.cluster.value, r).toRemove.Keys)
    ensures StepIsSafe(w, Round(w, c, r, order).0)
    ensures QueueSound(Round(w, c, r, order).1, Round(w, c, r, order).0.machines)
  {
    if !Passed(w, r) {
      var checked := Checked(c, w.machines, w.cluster.value, r);
      ChecksKeepQueue(Prune(c, w.machines), w.machines, Arrange(w.machines.Keys, r.order), r.health,
                      Threshold(w.cluster.value.retries));
      if Removes(w, c, r) {
        TurnsKillSafely(w.Fleet(), checked, order, w.cluster.value.spec.replicas, r.removals);
        TurnsKeep(w.Fleet(), checked, order, w.cluster.value.spec.replicas, r.removals);
        SameEndpoints(w.machines, Round(w, c, r, order).0.machines);
        QueueStaysSound(Round(w, c, r, order).1, w.machines, Round(w, c, r, order).0.machines);
      }
    }
  }

  lemma SameEndpoints(ms: Machines, ms': Machines)
    requires KeepsMachines(ms, ms') || KeepsOwners(ms, ms')
    ensures forall n :: n in ms ==>
      MachineEtcdEndpoint(ms'[n]) == MachineEtcdEndpoint(ms[n]) && EtcdMachineAddress(ms'[n]) == EtcdMachineAddress(ms[n])
  {
    forall n | n in ms
      ensures MachineEtcdEndpoint(ms'[n]) == MachineEtcdEndpoint(ms[n])
      ensures EtcdMachineAddress(ms'[n]) == EtcdMachineAddress(ms[n])
    {
      assert SameMachine(ms[n], ms'[n]);
      assert ms'[n].addresses == ms[n].addresses;
    }
  }

  // ----- Runs -----

  /** The checker at the end of a run, which goes from round to round as its rounds leave it. */
  ghost function CheckerAfter(w0: World, ds: Domains, es: seq<Event>, c0: Checker): Checker
    requires PossibleRun(w0, ds, es)
  {
    if es == [] then c0
    else
      var most, e := es[..|es| - 1], es[|es| - 1];
      if e.HealthRound? then Round(Run(w0, ds, most), e.c, e.r, e.order).1 else CheckerAfter(w0, ds, most, c0)
  }

  /** The event belongs to a run with this checker, outside teardown; new addresses are free of
      delimiters and a new name is not one that is still queued. */
  ghost predicate Belongs(w: World, c: Checker, e: Event) {
    match e
    case HealthRound(c', _, _) => c' == c
    case RemovalTurn(endpoint, machine, _) => endpoint in c.toRemove && c.toRemove[endpoint] == machine
    case Reconciled(a) => forall k :: k in c.toRemove ==> c.toRemove[k] != a.newName
    case Addressed(n, addresses) => n in w.machines && Plain(EtcdMachineAddress(w.machines[n].(addresses := addresses)))
    case DeletionRequested => false
    case _ => true
  }

  ghost predicate Threaded(w0: World, ds: Domains, es: seq<Event>, c0: Checker)
    requires PossibleRun(w0, ds, es)
  {
    es == []
    || (Threaded(w0, ds, es[..|es| - 1], c0)
        && Belongs(Run(w0, ds, es[..|es| - 1]), CheckerAfter(w0, ds, es[..|es| - 1], c0), es[|es| - 1]))
  }

  ghost predicate Sound(w: World, c: Checker) {
    && Distinct(w.members) && QueueSound(c, w.machines) && PlainAddresses(w.machines)
    && (w.cluster.Some? ==> !w.cluster.value.deleting)
  }

  lemma PlainStays(ms: Machines, ms': Machines)
    requires PlainAddresses(ms)
    requires forall n :: n in ms' ==>
      if n in ms then EtcdMachineAddress(ms'[n]) == EtcdMachineAddress(ms[n]) else ms'[n].addresses == []
    ensures PlainAddresses(ms')
  {
  }

  lemma ReconcileSound(w: World, c: Checker, ds: Domains, a: Answers)
    requires Sound(w, c) && Belongs(w, c, Reconciled(a))
    ensures Sound(ReconcileStep(w, ds, a).0, c) && StepIsSafe(w, ReconcileStep(w, ds, a).0)
  {
    var w' := ReconcileStep(w, ds, a).0;
    ReconcileIsSafe(w, ds, a);
    ReconcileKeeps(w, ds, a);
    SameEndpoints(w.machines, w'.machines);
    NewHasNoAddress(w, ds, a);
    PlainStays(w.machines, w'.machines);
    QueueStaysSound(c, w.machines, w'.machines);
  }

  lemma NewHasNoAddress(w: World, ds: Domains, a: Answers)
    requires w.cluster.Some? ==> !w.cluster.value.deleting
    ensures forall n :: n in ReconcileStep(w, ds, a).0.machines && n !in w.machines ==>
              n == a.newName && ReconcileStep(w, ds, a).0.machines[n].addresses == []
  {
    if Live(w) && a.entry == Proceeds {
      var d, marked := ReconcileLive(w, ds, a);
      ActKeeps(w.Fleet(), w.cluster.value.spec, w.now, ds, a, d);
    }
  }

  lemma TurnSound(w: World, c: Checker, ds: Domains, e: Event)
    requires Sound(w, c) && Possible(w, e) && e.RemovalTurn? && Belongs(w, c, e)
    ensures Sound(Apply(w, ds, e), c) && StepIsSafe(w, Apply(w, ds, e))
  {
    var one := Checker(map[], map[e.endpoint := e.machine]);
    var replicas := w.cluster.value.spec.replicas;
    var f' := RemoveOne(w.Fleet(), one, e.endpoint, replicas, e.outcome).0;
    TurnIsSafe(w.Fleet(), one, e.endpoint, replicas, e.outcome);
    TurnKeeps(w.Fleet(), one, e.endpoint, replicas, e.outcome);
    SameEndpoints(w.machines, f'.machines);
    PlainStays(w.machines, f'.machines);
    QueueStaysSound(c, w.machines, f'.machines);
    if e.machine in w.machines {
      QueuedHost(c, w.machines, e.endpoint);
    }
  }

  lemma RoundSound(w: World, c: Checker, ds: Domains, e: Event)
    requires Sound(w, c) && Possible(w, e) && e.HealthRound? && e.c == c
    ensures Sound(Apply(w, ds, e), Round(w, c, e.r, e.order).1) && StepIsSafe(w, Apply(w, ds, e))
  {
    var w' := Apply(w, ds, e);
    RoundIsSafe(w, c, e.r, e.order);
    RoundKeeps(w, c, e.r, e.order);
    SameEndpoints(w.machines, w'.machines);
    PlainStays(w.machines, w'.machines);
  }

  /** A new member keeps the membership distinct. */
  lemma JoinedDistinct(members: seq<Member>, member: Member)
    requires Distinct(members) && |member.peerURLs| == 1
    requires forall m :: m in members ==> m.id != member.id && m.peerURLs != member.peerURLs
    ensures Distinct(members + [member])
  {
    var all := members + [member];
    forall i, j | 0 <= i < j < |all| ensures all[i].id != all[j].id && all[i].peerURLs != all[j].peerURLs {
      assert all[i] in members;
    }
  }

  lemma JoinedSound(w: World, c: Checker, ds: Domains, e: Event)
    requires Sound(w, c) && Possible(w, e) && e.Joined?
    ensures Sound(Apply(w, ds, e), c) && StepIsSafe(w, Apply(w, ds, e))
  {
    JoinedDistinct(w.members, e.member);
  }

  lemma EnvironmentSound(w: World, c: Checker, ds: Domains, e: Event)
    requires Sound(w, c) && Possible(w, e) && Belongs(w, c, e)
    requires !e.Reconciled? && !e.HealthRound? && !e.RemovalTurn? && !e.Joined?
    ensures Sound(Apply(w, ds, e), c) && StepIsSafe(w, Apply(w, ds, e))
  {
    EnvironmentEndpoints(w, ds, e);
    OnlyAddressedSound(c, w.machines, Apply(w, ds, e).machines, e);
  }

  lemma SameAddress(m: Machine, m': Machine)
    requires m'.addresses == m.addresses
    ensures EtcdMachineAddress(m') == EtcdMachineAddress(m) && MachineEtcdEndpoint(m') == MachineEtcdEndpoint(m)
  {
  }

  lemma OnlyAddressedSound(c: Checker, ms: Machines, ms': Machines, e: Event)
    requires QueueSound(c, ms) && PlainAddresses(ms) && OnlyAddressed(ms, ms', e)
    requires e.Addressed? ==> e.n in ms && Plain(EtcdMachineAddress(ms[e.n].(addresses := e.addresses)))
    ensures QueueSound(c, ms') && PlainAddresses(ms')
  {
    forall n | n in ms'
      ensures Plain(EtcdMachineAddress(ms'[n]))
      ensures MachineEtcdEndpoint(ms[n]) != "" ==> MachineEtcdEndpoint(ms'[n]) == MachineEtcdEndpoint(ms[n])
    {
      if ms'[n].addresses == ms[n].addresses {
        SameAddress(ms[n], ms'[n]);
      }
    }
    QueueStaysSound(c, ms, ms');
  }

  /** Nobody dies, and only the machine that gets its first address changes it. */
  ghost predicate OnlyAddressed(ms: Machines, ms': Machines, e: Event) {
    && ms'.Keys <= ms.Keys
    && forall n :: n in ms' ==>
         && ms'[n].terminating == ms[n].terminating
         && (|| ms'[n].addresses == ms[n].addresses
             || (e.Addressed? && e.n == n && EtcdMachineAddress(ms[n]) == "" && ms'[n] == ms[n].(addresses := e.addresses)))
  }

  lemma EnvironmentEndpoints(w: World, ds: Domains, e: Event)
    requires Possible(w, e) && !e.Reconciled? && !e.HealthRound? && !e.RemovalTurn? && !e.Joined?
    ensures
      var w' := Apply(w, ds, e);
      && w'.members == w.members && OnlyAddressed(w.machines, w'.machines, e)
      && (w'.cluster.Some? && w'.cluster.value.deleting ==>
            e.DeletionRequested? || (w.cluster.Some? && w.cluster.value.deleting))
  {
  }

  lemma StepSound(w: World, c: Checker, ds: Domains, e: Event)
    requires Sound(w, c) && Possible(w, e) && Belongs(w, c, e)
    ensures Sound(Apply(w, ds, e), if e.HealthRound? then Round(w, c, e.r, e.order).1 else c)
    ensures StepIsSafe(w, Apply(w, ds, e))
  {
    if e.Reconciled? {
      ReconcileSound(w, c, ds, e.a);
    } else if e.HealthRound? {
      RoundSound(w, c, ds, e);
    } else if e.RemovalTurn? {
      TurnSound(w, c, ds, e);
    } else if e.Joined? {
      JoinedSound(w, c, ds, e);
    } else {
      EnvironmentSound(w, c, ds, e);
    }
  }

  /** In every run outside teardown, with members of single and distinct peer URLs: a machine
      gets its deletion timestamp only in a step that leaves no member with its peer URL, and the
      membership is never emptied. Every prefix of a run is a run, so this speaks of every step. */
  lemma {:induction false} MemberBeforeMachine(w0: World, ds: Domains, es: seq<Event>, c0: Checker)
    requires Sound(w0, c0) && PossibleRun(w0, ds, es) && Threaded(w0, ds, es, c0)
    ensures
      var w := Run(w0, ds, es);
      && Sound(w, CheckerAfter(w0, ds, es, c0))
      && (w0.members != [] ==> w.members != [])
      && (es != [] ==>
            forall n: Name :: Dies(Run(w0, ds, es[..|es| - 1]).machines, w.machines, n) ==>
              !Joins(w.members, EtcdMachineAddress(w.machines[n])))
  {
    if es != [] {
      var most, e := es[..|es| - 1], es[|es| - 1];
      MemberBeforeMachine(w0, ds, most, c0);
      StepSound(Run(w0, ds, most), CheckerAfter(w0, ds, most, c0), ds, e);
      assert DeathsAreSafe(Run(w0, ds, most).machines, Run(w0, ds, es).machines, Run(w0, ds, es).members);
    }
  }
}
