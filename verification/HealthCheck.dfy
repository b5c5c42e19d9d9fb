/** The periodic health check: failure counters and a removal queue that live across rounds, and
    the removals at the end of a round. */
module HealthCheck {
  import opened Wrappers
  import opened Text
  import opened Machines
  import opened Membership
  import opened Cluster
  import opened Reconciler

  const MAX_UNHEALTHY_COUNT := 5

  // ----- What a round computes -----

  /** The failures counted for each endpoint, and the machine queued for removal under each. */
  datatype Checker = Checker(frequency: map<string, nat>, toRemove: map<string, Name>)

  /** The answers given to one round: `order` is the order wished for in the loop over machines,
      `removals` the outcomes of the removals by endpoint. */
  datatype RoundAnswers = RoundAnswers(
    ownerFound: bool,
    listing: bool,
    order: seq<Name>,
    health: map<Name, Health>,
    removals: map<string, RemovalOutcome>,
    statusUpdate: bool)

  /** When a cluster is passed over. */
  predicate SkipsHealthCheck(ec: EtcdadmCluster) {
    || ec.paused
    || ec.retries == Number(0)
    || ec.conditions.certificates.False?
    || !ec.status.creationComplete
    || ec.conditions.specUpToDate.False?
  }

  /** The failures after which a machine is queued. What parsing returns stands as it is for an
      invalid or a negative annotation too, although the message logged speaks of the default. */
  function Threshold(retries: Retries): int {
    match retries
    case NotSet => MAX_UNHEALTHY_COUNT
    case Number(n) => n
    case Invalid(parsed) => parsed
  }

  predicate Listed(ms: Machines, endpoint: string) {
    exists n :: n in ms && MemberClientURL(EtcdMachineAddress(ms[n])) == endpoint
  }

  /** Counters of endpoints that no machine has any more are dropped; the queue is not touched. */
  function Prune(c: Checker, ms: Machines): Checker {
    c.(frequency := map endpoint | endpoint in c.frequency && Listed(ms, endpoint) :: c.frequency[endpoint])
  }

  function CheckOne(c: Checker, n: Name, m: Machine, h: Health, threshold: int): Checker {
    var endpoint := MachineEtcdEndpoint(m);
    if endpoint == "" then c
    else if h == Passes then Checker(c.frequency - {endpoint}, c.toRemove - {endpoint})
    else
      var failures := 1 + if endpoint in c.frequency then c.frequency[endpoint] else 0;
      Checker(c.frequency[endpoint := failures],
              if m.owned && failures >= threshold then c.toRemove[endpoint := n] else c.toRemove)
  }

  function CheckEach(c: Checker, ms: Machines, order: seq<Name>, health: map<Name, Health>, threshold: int): Checker
    requires forall n :: n in order ==> n in ms
  {
    if order == [] then c
    else
      var last := order[|order| - 1];
      CheckOne(CheckEach(c, ms, order[..|order| - 1], health, threshold), last, ms[last], HealthFor(health, last), threshold)
  }

  /** The checker after the checks of a round. */
  function Checked(c: Checker, ms: Machines, ec: EtcdadmCluster, a: RoundAnswers): Checker {
    CheckEach(Prune(c, ms), ms, Arrange(ms.Keys, a.order), a.health, Threshold(ec.retries))
  }

  /** The gate on removals: the machines without failures are a majority of all machines. */
  predicate QuorumPreserved(c: Checker, ms: Machines) {
    |ms| - |c.frequency| >= |ms| / 2 + 1
  }

  /** One turn of the removal loop: nothing happens while fewer machines than asked for are
      owned and not terminating. */
  function RemoveOne(f: Fleet, c: Checker, endpoint: string, replicas: nat, outcome: RemovalOutcome): (Fleet, Checker, bool)
    requires endpoint in c.toRemove
  {
    if |ActiveOwned(f.machines)| < replicas then (f, c, true)
    else
      var (f, ok) := RemoveEtcdMachine(f, Some(c.toRemove[endpoint]), MachineAddressFromClientURL(endpoint), outcome);
      (f, if ok then c.(toRemove := c.toRemove - {endpoint}) else c, ok)
  }

  /** The removal loop in the order in which it takes the queue; an error does not end it. */
  function RemoveQueued(f: Fleet, c: Checker, order: seq<string>, replicas: nat, removals: map<string, RemovalOutcome>)
    : (r: (Fleet, Checker, bool))
    requires forall e :: e in order ==> e in c.toRemove
    requires forall i, j :: 0 <= i < j < |order| ==> order[i] != order[j]
    ensures r.1.frequency == c.frequency
    ensures forall e :: e in r.1.toRemove ==> e in c.toRemove && r.1.toRemove[e] == c.toRemove[e]
    ensures forall e :: e in c.toRemove && e !in order ==> e in r.1.toRemove
  {
    if order == [] then (f, c, true)
    else
      var last := order[|order| - 1];
      var (f, c, before) := RemoveQueued(f, c, order[..|order| - 1], replicas, removals);
      var (f, c, ok) := RemoveOne(f, c, last, replicas, OutcomeFor(removals, last));
      (f, c, before && ok)
  }

  lemma QueuedOneMore(
    f: Fleet, c: Checker, order: seq<string>, endpoint: string, replicas: nat, removals: map<string, RemovalOutcome>)
    requires forall e :: e in order + [endpoint] ==> e in c.toRemove
    requires forall i, j :: 0 <= i < j < |order| ==> order[i] != order[j]
    requires endpoint !in order
    ensures
      var (f', c', before) := RemoveQueued(f, c, order, replicas, removals);
      var (f'', c'', ok) := RemoveOne(f', c', endpoint, replicas, OutcomeFor(removals, endpoint));
      RemoveQueued(f, c, order + [endpoint], replicas, removals) == (f'', c'', before && ok)
  {
    assert (order + [endpoint])[..|order|] == order;
  }

  /** While fewer than N machines are active the loop does nothing. */
  lemma {:induction false} IdleTurns(
    f: Fleet, c: Checker, order: seq<string>, replicas: nat, removals: map<string, RemovalOutcome>)
    requires forall e :: e in order ==> e in c.toRemove
    requires forall i, j :: 0 <= i < j < |order| ==> order[i] != order[j]
    requires |ActiveOwned(f.machines)| < replicas
    ensures RemoveQueued(f, c, order, replicas, removals).0 == f
    decreases order
  {
    if order != [] {
      IdleTurns(f, c, order[..|order| - 1], replicas, removals);
      assert order[|order| - 1] !in order[..|order| - 1];
    }
  }

  /** One removal that leaves fewer than N active ends the work of the loop. */
  lemma {:induction false} FirstTurnOnly(
    f: Fleet, c: Checker, order: seq<string>, replicas: nat, removals: map<string, RemovalOutcome>)
    requires order != [] && forall e :: e in order ==> e in c.toRemove
    requires forall i, j :: 0 <= i < j < |order| ==> order[i] != order[j]
    requires |ActiveOwned(RemoveOne(f, c, order[0], replicas, OutcomeFor(removals, order[0])).0.machines)| < replicas
    ensures RemoveQueued(f, c, order, replicas, removals).0
         == RemoveOne(f, c, order[0], replicas, OutcomeFor(removals, order[0])).0
    decreases order
  {
    if |order| > 1 {
      FirstTurnOnly(f, c, order[..|order| - 1], replicas, removals);
      assert order[|order| - 1] !in order[..|order| - 1];
    } else {
      assert RemoveQueued(f, c, order[..0], replicas, removals) == (f, c, true);
    }
  }

  /** What ends a round early, before any check. */
  predicate Passed(w: World, a: RoundAnswers) {
    || w.cluster.None?
    || SkipsHealthCheck(w.cluster.value)
    || !a.ownerFound
    || !a.listing
    || |w.machines| == 0
  }

  /** The round comes to its removal loop. */
  predicate Removes(w: World, c: Checker, a: RoundAnswers) {
    && !Passed(w, a)
    && var c := Checked(c, w.machines, w.cluster.value, a);
    && c.toRemove != map[]
    && QuorumPreserved(c, w.machines)
  }

  /** One round, for the order in which its removal loop takes the queue. */
  function Round(w: World, c: Checker, a: RoundAnswers, removalOrder: seq<string>): (World, Checker)
    requires Removes(w, c, a) ==> Visits(removalOrder, Checked(c, w.machines, w.cluster.value, a).toRemove.Keys)
  {
    if Passed(w, a) then (w, c)
    else
      var ec := w.cluster.value;
      var c := Checked(c, w.machines, ec, a);
      var notReady := if a.statusUpdate then Some(ec.(status := ec.status.(ready := false))) else Some(ec);
      if c.toRemove == map[] then (w, c)
      else if QuorumPreserved(c, w.machines) then
        var (f, c, ok) := RemoveQueued(w.Fleet(), c, removalOrder, ec.spec.replicas, a.removals);
        (w.WithFleet(f).(cluster := if ok then notReady else w.cluster), c)
      else (w.(cluster := notReady), c)
  }

  // ----- The round as it runs -----

  class HealthChecker {
    const reconciler: Reconciler
    var frequency: map<string, nat>
    var toRemove: map<string, Name>

    constructor (reconciler: Reconciler)
      ensures this.reconciler == reconciler && Value() == Checker(map[], map[])
    {
      this.reconciler, frequency, toRemove := reconciler, map[], map[];
    }

    function Value(): Checker
      reads this
    {
      Checker(frequency, toRemove)
    }

    method CleanUpOldMachines(machines: Machines)
      modifies `frequency
      ensures Value() == Prune(old(Value()), machines)
    {
      var remaining := frequency.Keys;
      while remaining != {}
        invariant remaining <= old(frequency).Keys
        invariant forall e :: e in frequency <==> e in old(frequency) && (e in remaining || Listed(machines, e))
        invariant forall e :: e in frequency ==> frequency[e] == old(frequency)[e]
        decreases remaining
      {
        var endpoint :| endpoint in remaining;
        remaining := remaining - {endpoint};
        var found := false;
        var names := machines.Keys;
        while names != {}
          modifies {}
          invariant names <= machines.Keys
          invariant found <==>
            exists n :: n in machines && n !in names && MemberClientURL(EtcdMachineAddress(machines[n])) == endpoint
          decreases names
        {
          var n :| n in names;
          names := names - {n};
          var address := GetEtcdMachineAddress(machines[n]);
          if MemberClientURL(address) == endpoint {
            found := true;
          }
        }
        if !found {
          frequency := frequency - {endpoint};
        }
      }
    }

    method CheckMachine(n: Name, machine: Machine, health: Health, retries: Retries)
      modifies `frequency, `toRemove
      ensures Value() == CheckOne(old(Value()), n, machine, health, Threshold(retries))
    {
      var address := GetEtcdMachineAddress(machine);
      if address == "" {
        return;
      }
      var endpoint := MemberClientURL(address);
      if health != Passes {
        frequency := frequency[endpoint := 1 + if endpoint in frequency then frequency[endpoint] else 0];
        if machine.owned {
          var unhealthyCount := MAX_UNHEALTHY_COUNT;
          if !retries.NotSet? {
            unhealthyCount := if retries.Invalid? then retries.parsed else retries.n;
          }
          if frequency[endpoint] >= unhealthyCount {
            toRemove := toRemove[endpoint := n];
          }
        }
      } else {
        if endpoint in frequency {
          frequency := frequency - {endpoint};
        }
        if endpoint in toRemove {
          toRemove := toRemove - {endpoint};
        }
      }
    }

    method PerformChecks(machines: Machines, ec: EtcdadmCluster, a: RoundAnswers)
      modifies `frequency, `toRemove
      ensures Value() == Checked(old(Value()), machines, ec, a)
    {
      CleanUpOldMachines(machines);
      ghost var pruned := Value();
      var order := Arrange(machines.Keys, a.order);
      for i := 0 to |order|
        invariant Value() == CheckEach(pruned, machines, order[..i], a.health, Threshold(ec.retries))
      {
        assert order[..i + 1][..i] == order[..i];
        CheckMachine(order[i], machines[order[i]], HealthFor(a.health, order[i]), ec.retries);
      }
      assert order[..|order|] == order;
    }

    /** The removal loop, which takes the queue in any order and reports the order it took. */
    method RemoveUnhealthy(replicas: nat, removals: map<string, RemovalOutcome>)
      returns (order: seq<string>, ok: bool)
      modifies `toRemove, reconciler.api`machines, reconciler.api`members, reconciler.api`log
      ensures Visits(order, old(toRemove).Keys)
      ensures (reconciler.api.Fleet(), Value(), ok)
           == RemoveQueued(old(reconciler.api.Fleet()), old(Value()), order, replicas, removals)
    {
      ok := true;
      order := [];
      var remaining := toRemove.Keys;
      while remaining != {}
        invariant remaining <= old(toRemove).Keys
        invariant Visits(order, old(toRemove).Keys - remaining)
        invariant (reconciler.api.Fleet(), Value(), ok)
               == RemoveQueued(old(reconciler.api.Fleet()), old(Value()), order, replicas, removals)
        decreases remaining
      {
        var endpoint :| endpoint in remaining;
        remaining := remaining - {endpoint};
        QueuedOneMore(old(reconciler.api.Fleet()), old(Value()), order, endpoint, replicas, removals);
        order := order + [endpoint];
        var removed := RemoveOneUnhealthy(endpoint, replicas, OutcomeFor(removals, endpoint));
        ok := ok && removed;
      }
    }

    method RemoveOneUnhealthy(endpoint: string, replicas: nat, outcome: RemovalOutcome) returns (ok: bool)
      requires endpoint in toRemove
      modifies `toRemove, reconciler.api`machines, reconciler.api`members, reconciler.api`log
      ensures (reconciler.api.Fleet(), Value(), ok)
           == RemoveOne(old(reconciler.api.Fleet()), old(Value()), endpoint, replicas, outcome)
    {
      var currentMachines := ActiveOwned(reconciler.api.machines);
      if |currentMachines| < replicas {
        return true;
      }
      ok := reconciler.RemoveEtcdMachine(Some(toRemove[endpoint]), MachineAddressFromClientURL(endpoint), outcome);
      if ok {
        toRemove := toRemove - {endpoint};
      }
    }

    method PeriodicHealthCheck(a: RoundAnswers) returns (removalOrder: seq<string>)
      modifies this, reconciler.api
      ensures
        var w := old(reconciler.api.World());
        && (Removes(w, old(Value()), a) ==>
              Visits(removalOrder, Checked(old(Value()), w.machines, w.cluster.value, a).toRemove.Keys))
        && (reconciler.api.World(), Value()) == Round(w, old(Value()), a, removalOrder)
    {
      var api := reconciler.api;
      removalOrder := [];
      if api.cluster.None? || SkipsHealthCheck(api.cluster.value) {
        return;
      }
      if !a.ownerFound || !a.listing || |api.machines| == 0 {
        return;
      }
      var ec := api.cluster.value;
      PerformChecks(api.machines, ec, a);
      if |toRemove| == 0 {
        return;
      }
      if QuorumPreserved(Value(), api.machines) {
        var ok: bool;
        removalOrder, ok := RemoveUnhealthy(ec.spec.replicas, a.removals);
        if !ok {
          return;
        }
      }
      if a.statusUpdate {
        api.cluster := Some(ec.(status := ec.status.(ready := false)));
      }
    }
  }
}
