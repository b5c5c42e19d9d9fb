/** Quorum safety of a health check round: whatever the order of its removals, the members that
    passed stay, and stay a majority. */
module Quorum {
  import opened Wrappers
  import opened Text
  import opened Machines
  import opened Membership
  import opened Cluster
  import opened HealthCheck
  import opened Removals
  import opened MemberSafety
  import opened Counters

  // ----- Who failed -----

  /** The machines that are past bootstrapping. */
  function WithAddress(ms: Machines): set<Name> {
    set n | n in ms && EtcdMachineAddress(ms[n]) != ""
  }

  function Failing(ms: Machines, health: map<Name, Health>): set<Name> {
    set n | n in WithAddress(ms) && HealthFor(health, n) != Passes
  }

  function Passing(ms: Machines, health: map<Name, Health>): set<Name> {
    set n | n in WithAddress(ms) && HealthFor(health, n) == Passes
  }

  function EndpointsOf(ms: Machines, ns: set<Name>): set<string>
    requires ns <= ms.Keys
  {
    set n | n in ns :: MachineEtcdEndpoint(ms[n])
  }

  lemma FailingAndPassing(ms: Machines, health: map<Name, Health>)
    ensures |WithAddress(ms)| == |Failing(ms, health)| + |Passing(ms, health)|
    ensures Failing(ms, health) <= ms.Keys && Passing(ms, health) <= ms.Keys
    ensures (forall n :: n in ms ==> EtcdMachineAddress(ms[n]) != "") ==> |WithAddress(ms)| == |ms|
  {
    assert WithAddress(ms) == Failing(ms, health) + Passing(ms, health);
    if forall n :: n in ms ==> EtcdMachineAddress(ms[n]) != "" {
      assert WithAddress(ms) == ms.Keys;
      assert |ms.Keys| == |ms|;
    }
  }

  lemma {:induction false} AsManyEndpoints(ms: Machines, ns: set<Name>)
    requires OwnAddresses(ms) && ns <= WithAddress(ms) && ns <= ms.Keys
    ensures |EndpointsOf(ms, ns)| == |ns|
    decreases ns
  {
    if ns == {} {
      assert EndpointsOf(ms, ns) == {};
    } else {
      var n :| n in ns;
      var rest := ns - {n};
      AsManyEndpoints(ms, rest);
      OneMoreEndpoint(ms, rest, n);
      assert rest + {n} == ns;
      AddOne(rest, n);
    }
  }

  lemma OneMoreEndpoint(ms: Machines, ns: set<Name>, n: Name)
    requires OwnAddresses(ms) && ns + {n} <= WithAddress(ms) && ns + {n} <= ms.Keys && n !in ns
    ensures |EndpointsOf(ms, ns + {n})| == |EndpointsOf(ms, ns)| + 1
  {
    var e := MachineEtcdEndpoint(ms[n]);
    forall k | k in ns ensures MachineEtcdEndpoint(ms[k]) != e {
      if MachineEtcdEndpoint(ms[k]) == e {
        SameEndpoint(ms, k, n);
      }
    }
    assert EndpointsOf(ms, ns + {n}) == EndpointsOf(ms, ns) + {e};
    AddOne(EndpointsOf(ms, ns), e);
  }

  // ----- After the checks -----

  /** After the checks of a round the counters are those of the endpoints that failed in it. */
  lemma CountersAreTheFailing(c: Checker, ms: Machines, ec: EtcdadmCluster, a: RoundAnswers)
    requires OwnAddresses(ms) && MemberClientURL("") !in c.frequency
    ensures Failing(ms, a.health) <= ms.Keys
    ensures Checked(c, ms, ec, a).frequency.Keys == EndpointsOf(ms, Failing(ms, a.health))
  {
    var c' := Checked(c, ms, ec, a);
    var failing := EndpointsOf(ms, Failing(ms, a.health));
    forall e ensures e in c'.frequency <==> e in failing {
      CounterIsFailing(c, ms, ec, a, e);
    }
  }

  lemma CounterIsFailing(c: Checker, ms: Machines, ec: EtcdadmCluster, a: RoundAnswers, e: string)
    requires OwnAddresses(ms) && MemberClientURL("") !in c.frequency
    ensures Failing(ms, a.health) <= ms.Keys
    ensures e in Checked(c, ms, ec, a).frequency <==> e in EndpointsOf(ms, Failing(ms, a.health))
  {
    var c' := Checked(c, ms, ec, a);
    assert e in c'.frequency <==> At(c', e).failures.Some?;
    if Held(ms, e) {
      var n :| n in ms && MachineEtcdEndpoint(ms[n]) == e;
      CheckedHere(c, ms, ec, a, n);
      forall k | k in Failing(ms, a.health) && MachineEtcdEndpoint(ms[k]) == e ensures k == n {
        SameEndpoint(ms, k, n);
      }
      assert n in Failing(ms, a.health) <==> HealthFor(a.health, n) != Passes;
    } else {
      assert At(c, MemberClientURL("")).failures == None;
      CheckedElsewhere(c, ms, ec, a, e);
    }
  }

  /** The gate on removals: fewer than half of all machines failed. It counts machines that are
      bootstrapping among the others. */
  lemma GateMeans(c: Checker, ms: Machines, ec: EtcdadmCluster, a: RoundAnswers)
    requires OwnAddresses(ms) && MemberClientURL("") !in c.frequency
    ensures QuorumPreserved(Checked(c, ms, ec, a), ms) <==> 2 * |Failing(ms, a.health)| < |ms|
  {
    var c' := Checked(c, ms, ec, a);
    CountersAreTheFailing(c, ms, ec, a);
    AsManyEndpoints(ms, Failing(ms, a.health));
    assert |c'.frequency| == |c'.frequency.Keys|;
  }

  lemma PassingNotQueued(c: Checker, ms: Machines, ec: EtcdadmCluster, a: RoundAnswers, n: Name)
    requires OwnAddresses(ms) && n in Passing(ms, a.health)
    ensures MachineEtcdEndpoint(ms[n]) !in Checked(c, ms, ec, a).toRemove
  {
    CheckedHere(c, ms, ec, a, n);
    assert At(Checked(c, ms, ec, a), MachineEtcdEndpoint(ms[n])).queued == None;
  }

  // ----- The queue's keys -----

  /** Every key of the queue is the client URL of its own host. */
  ghost predicate Keyed(c: Checker) {
    forall e :: e in c.toRemove ==> e == MemberClientURL(MachineAddressFromClientURL(e))
  }

  lemma {:induction false} ChecksKeepKeys(
    c: Checker, ms: Machines, order: seq<Name>, health: map<Name, Health>, threshold: int)
    requires Keyed(c) && PlainAddresses(ms) && forall n :: n in order ==> n in ms
    ensures Keyed(CheckEach(c, ms, order, health, threshold))
  {
    if order != [] {
      var most, last := order[..|order| - 1], order[|order| - 1];
      ChecksKeepKeys(c, ms, most, health, threshold);
      CheckKeepsKeys(CheckEach(c, ms, most, health, threshold), last, ms[last], HealthFor(health, last), threshold);
    }
  }

  lemma CheckKeepsKeys(c: Checker, n: Name, m: Machine, h: Health, threshold: int)
    requires Keyed(c) && Plain(EtcdMachineAddress(m))
    ensures Keyed(CheckOne(c, n, m, h, threshold))
  {
    HostOfPlain(EtcdMachineAddress(m));
    var c' := CheckOne(c, n, m, h, threshold);
    forall e | e in c'.toRemove ensures e == MemberClientURL(MachineAddressFromClientURL(e)) {
      assert e in c.toRemove || e == MemberClientURL(EtcdMachineAddress(m));
    }
  }

  lemma CheckedKeyed(c: Checker, ms: Machines, ec: EtcdadmCluster, a: RoundAnswers)
    requires Keyed(c) && PlainAddresses(ms)
    ensures Keyed(Checked(c, ms, ec, a))
  {
    ChecksKeepKeys(Prune(c, ms), ms, Arrange(ms.Keys, a.order), a.health, Threshold(ec.retries));
  }

  /** Every checker that started empty has such keys, and no counter for the empty address. */
  lemma {:induction false} AlwaysKeyed(ts: seq<Tick>)
    requires PossibleTicks(NO_FAILURES, ts) && forall t :: t in ts ==> PlainAddresses(t.w.machines)
    ensures Keyed(AfterTicks(NO_FAILURES, ts)) && MemberClientURL("") !in AfterTicks(NO_FAILURES, ts).frequency
  {
    CountersRefineHistory(ts);
    NoEmptyAddress(History(ts));
    assert At(AfterTicks(NO_FAILURES, ts), MemberClientURL("")).failures == None;
    if ts != [] {
      var most, t := ts[..|ts| - 1], ts[|ts| - 1];
      AlwaysKeyed(most);
      if !Passed(t.w, t.a) {
        CheckedKeyed(AfterTicks(NO_FAILURES, most), t.w.machines, t.w.cluster.value, t.a);
      }
    }
  }

  // ----- The removals -----

  /** There is one member for each machine that has an address, and no other. */
  ghost predicate Mirrors(members: seq<Member>, ms: Machines) {
    && Distinct(members) && |members| == |WithAddress(ms)|
    && forall n :: n in WithAddress(ms) ==> Joins(members, EtcdMachineAddress(ms[n]))
  }

  /** The membership after the first `k` turns of the removal loop. */
  function MembersAfter(w: World, c: Checker, a: RoundAnswers, order: seq<string>, k: nat): seq<Member>
    requires w.cluster.Some? && Visits(order, c.toRemove.Keys) && k <= |order|
  {
    RemoveQueued(w.Fleet(), c, order[..k], w.cluster.value.spec.replicas, a.removals).0.members
  }

  lemma NotInQueue(c: Checker, address: string)
    requires Keyed(c) && MemberClientURL(address) !in c.toRemove
    ensures !AddressesIn(c.toRemove.Keys)(address)
  {
  }

  /** At every point of the removal loop, in any order and with any errors, every machine that
      passed this round is still a member, and no member has come. */
  lemma PassingStay(w: World, c: Checker, a: RoundAnswers, order: seq<string>, k: nat)
    requires w.cluster.Some? && OwnAddresses(w.machines) && PlainAddresses(w.machines) && Keyed(c)
    requires Mirrors(w.members, w.machines)
    requires Visits(order, Checked(c, w.machines, w.cluster.value, a).toRemove.Keys) && k <= |order|
    ensures
      var members := MembersAfter(w, Checked(c, w.machines, w.cluster.value, a), a, order, k);
      && |members| <= |WithAddress(w.machines)|
      && forall n :: n in Passing(w.machines, a.health) ==> Joins(members, EtcdMachineAddress(w.machines[n]))
  {
    var checked := Checked(c, w.machines, w.cluster.value, a);
    CheckedKeyed(c, w.machines, w.cluster.value, a);
    TurnsAreSafe(w.Fleet(), checked, order[..k], w.cluster.value.spec.replicas, a.removals);
    forall n | n in Passing(w.machines, a.health)
      ensures Joins(MembersAfter(w, checked, a, order, k), EtcdMachineAddress(w.machines[n]))
    {
      PassingNotQueued(c, w.machines, w.cluster.value, a, n);
      NotInQueue(checked, EtcdMachineAddress(w.machines[n]));
    }
  }

  /** The machines that passed the round's checks are members and more than half of them. */
  ghost predicate PassingRule(ms: Machines, health: map<Name, Health>, members: seq<Member>) {
    && (forall n :: n in Passing(ms, health) ==> Joins(members, EtcdMachineAddress(ms[n])))
    && 2 * |Passing(ms, health)| > |members|
  }

  /** The exact condition: at every point of the removal loop the machines that passed are a
      majority of the members if and only if fewer than half of the machines past bootstrapping
      failed. */
  lemma MajorityIsExact(w: World, c: Checker, a: RoundAnswers, order: seq<string>)
    requires w.cluster.Some? && OwnAddresses(w.machines) && PlainAddresses(w.machines) && Keyed(c)
    requires Mirrors(w.members, w.machines)
    requires Visits(order, Checked(c, w.machines, w.cluster.value, a).toRemove.Keys)
    ensures
      var checked := Checked(c, w.machines, w.cluster.value, a);
      (forall k: nat :: k <= |order| ==> PassingRule(w.machines, a.health, MembersAfter(w, checked, a, order, k)))
      <==> 2 * |Failing(w.machines, a.health)| < |WithAddress(w.machines)|
  {
    var checked := Checked(c, w.machines, w.cluster.value, a);
    FailingAndPassing(w.machines, a.health);
    forall k: nat | k <= |order|
      ensures 2 * |Failing(w.machines, a.health)| < |WithAddress(w.machines)| ==>
                PassingRule(w.machines, a.health, MembersAfter(w, checked, a, order, k))
    {
      PassingStay(w, c, a, order, k);
    }
    assert MembersAfter(w, checked, a, order, 0) == w.members;
  }

  /** Quorum safety: when every machine listed has an address, a round that comes to removals
      keeps the machines that passed it a strict majority of the membership at every point, in
      any order of the queue, with any errors, and whatever is left in the queue from before. */
  lemma RoundKeepsQuorum(w: World, c: Checker, a: RoundAnswers, order: seq<string>, k: nat)
    requires Removes(w, c, a) && OwnAddresses(w.machines) && PlainAddresses(w.machines) && Keyed(c)
    requires forall n :: n in w.machines ==> EtcdMachineAddress(w.machines[n]) != ""
    requires Mirrors(w.members, w.machines) && MemberClientURL("") !in c.frequency
    requires Visits(order, Checked(c, w.machines, w.cluster.value, a).toRemove.Keys) && k <= |order|
    ensures
      var members := MembersAfter(w, Checked(c, w.machines, w.cluster.value, a), a, order, k);
      && (forall n :: n in Passing(w.machines, a.health) ==> Joins(members, EtcdMachineAddress(w.machines[n])))
      && 2 * |Passing(w.machines, a.health)| > |members|
      && (k == |order| ==> Round(w, c, a, order).0.members == members)
  {
    GateMeans(c, w.machines, w.cluster.value, a);
    FailingAndPassing(w.machines, a.health);
    PassingStay(w, c, a, order, k);
    if k == |order| {
      RoundMembers(w, c, a, order);
    }
  }

  lemma RoundMembers(w: World, c: Checker, a: RoundAnswers, order: seq<string>)
    requires Removes(w, c, a)
    requires Visits(order, Checked(c, w.machines, w.cluster.value, a).toRemove.Keys)
    ensures Round(w, c, a, order).0.members
         == MembersAfter(w, Checked(c, w.machines, w.cluster.value, a), a, order, |order|)
  {
    AllTurns(w, Checked(c, w.machines, w.cluster.value, a), a, order);
  }

  // ----- What one round removes -----

  lemma FreshQueue(c: Checker, ms: Machines, ec: EtcdadmCluster, a: RoundAnswers, e: string) returns (n: Name)
    requires OwnAddresses(ms) && c.toRemove == map[] && e in Checked(c, ms, ec, a).toRemove
    ensures n in Failing(ms, a.health) && n in ms && ms[n].owned && MachineEtcdEndpoint(ms[n]) == e != ""
    ensures Checked(c, ms, ec, a).toRemove[e] == n
  {
    assert At(Checked(c, ms, ec, a), e).queued.Some? && At(c, e).queued == None;
    if !Held(ms, e) {
      CheckedElsewhere(c, ms, ec, a, e);
    }
    n :| n in ms && MachineEtcdEndpoint(ms[n]) == e && e != "";
    CheckedHere(c, ms, ec, a, n);
  }

  /** A health checker with an empty queue in a cluster of N machines, none of them terminating, of
      which some are members and the others bootstrapping; its removals meet no failing call. */
  ghost predicate FreshRound(w: World, c: Checker, a: RoundAnswers) {
    && !Passed(w, a) && c.toRemove == map[] && MemberClientURL("") !in c.frequency
    && OwnAddresses(w.machines) && PlainAddresses(w.machines)
    && Mirrors(w.members, w.machines) && |w.members| > 1
    && ActiveOwned(w.machines) == Owned(w.machines) && |Owned(w.machines)| == w.cluster.value.spec.replicas
    && Checked(c, w.machines, w.cluster.value, a).toRemove != map[]
    && forall e :: e in Checked(c, w.machines, w.cluster.value, a).toRemove ==> OutcomeFor(a.removals, e) == Succeeds
  }

  /** The deletion of a machine that failed is asked for. */
  ghost predicate FailingDies(ms: Machines, ms': Machines, health: map<Name, Health>) {
    exists n :: n in Failing(ms, health) && Dies(ms, ms', n)
  }

  /** The queue of such a round names members to be removed. */
  lemma FreshEntry(w: World, c: Checker, a: RoundAnswers, e: string) returns (n: Name)
    requires FreshRound(w, c, a) && e in Checked(c, w.machines, w.cluster.value, a).toRemove
    ensures n in Failing(w.machines, a.health) && n in ActiveOwned(w.machines)
    ensures Checked(c, w.machines, w.cluster.value, a).toRemove[e] == n
    ensures MachineAddressFromClientURL(e) == EtcdMachineAddress(w.machines[n])
    ensures Joins(w.members, EtcdMachineAddress(w.machines[n]))
  {
    n := FreshQueue(c, w.machines, w.cluster.value, a, e);
    HostOfPlain(EtcdMachineAddress(w.machines[n]));
    assert n in Owned(w.machines);
  }

  lemma FirstTurn(f: Fleet, c: Checker, e: string, n: Name, replicas: nat, health: map<Name, Health>)
    requires Distinct(f.members) && |f.members| > 1 && e in c.toRemove && c.toRemove[e] == n
    requires n in ActiveOwned(f.machines) && n in Failing(f.machines, health)
    requires |ActiveOwned(f.machines)| == replicas
    requires Joins(f.members, MachineAddressFromClientURL(e))
    ensures
      var f' := RemoveOne(f, c, e, replicas, Succeeds).0;
      && |f'.members| == |f.members| - 1 && |ActiveOwned(f'.machines)| < replicas
      && FailingDies(f.machines, f'.machines, health)
  {
    OneMemberLess(f, n, MachineAddressFromClientURL(e));
    OneActiveLess(f.machines, n);
    assert Dies(f.machines, RemoveOne(f, c, e, replicas, Succeeds).0.machines, n);
  }

  lemma OneActiveLess(ms: Machines, n: Name)
    requires n in ActiveOwned(ms)
    ensures |ActiveOwned(ms[n := ms[n].(terminating := true)])| == |ActiveOwned(ms)| - 1
  {
    assert ActiveOwned(ms[n := ms[n].(terminating := true)]) == ActiveOwned(ms) - {n};
  }

  lemma OneMemberLess(f: Fleet, n: Name, address: string)
    requires Distinct(f.members) && n in f.machines && |f.members| > 1 && Joins(f.members, address)
    ensures
      var f' := RemoveEtcdMachine(f, Some(n), address, Succeeds).0;
      && |f'.members| == |f.members| - 1
      && f'.machines == f.machines[n := f.machines[n].(terminating := true)]
  {
    var i := MemberIndex(f.members, [PeerURL(address)]);
    WithoutShrinks(f.members, address, i);
    WithoutDistinct(f.members, f.members[i].id);
  }

  /** Such a round removes nothing, or exactly one member: the latter if and only if fewer than
      half of all machines failed, those that are bootstrapping counted as well. Then the machines
      that passed are still members, and a majority of them if and only if at most half of the
      machines past bootstrapping failed. */
  lemma RoundIsExact(w: World, c: Checker, a: RoundAnswers, order: seq<string>)
    requires FreshRound(w, c, a)
    requires Visits(order, Checked(c, w.machines, w.cluster.value, a).toRemove.Keys)
    ensures
      var failing, past := |Failing(w.machines, a.health)|, |WithAddress(w.machines)|;
      && (Removes(w, c, a) <==> 2 * failing < |w.machines|)
      && var members := Round(w, c, a, order).0.members;
      && |members| == (if Removes(w, c, a) then past - 1 else past)
      && (forall n :: n in Passing(w.machines, a.health) ==> Joins(members, EtcdMachineAddress(w.machines[n])))
      && (Removes(w, c, a) ==> (PassingRule(w.machines, a.health, members) <==> 2 * failing <= past))
  {
    GateOpens(w, c, a);
    FailingAndPassing(w.machines, a.health);
    if Removes(w, c, a) {
      RoundLeaves(w, c, a, order);
    }
  }

  /** What a round that comes to removals leaves of the members. */
  lemma RoundLeaves(w: World, c: Checker, a: RoundAnswers, order: seq<string>)
    requires FreshRound(w, c, a) && Removes(w, c, a)
    requires Visits(order, Checked(c, w.machines, w.cluster.value, a).toRemove.Keys)
    ensures
      var members := Round(w, c, a, order).0.members;
      && |members| == |WithAddress(w.machines)| - 1
      && forall n :: n in Passing(w.machines, a.health) ==> Joins(members, EtcdMachineAddress(w.machines[n]))
  {
    PassingStay(w, c, a, order, |order|);
    RoundMembers(w, c, a, order);
    OneIsRemoved(w, c, a, order);
    AllTurns(w, Checked(c, w.machines, w.cluster.value, a), a, order);
  }

  lemma GateOpens(w: World, c: Checker, a: RoundAnswers)
    requires FreshRound(w, c, a)
    ensures Removes(w, c, a) <==> 2 * |Failing(w.machines, a.health)| < |w.machines|
  {
    GateMeans(c, w.machines, w.cluster.value, a);
  }

  /** The removal loop of such a round removes one member, and asks for the deletion of a machine
      that failed. */
  lemma OneIsRemoved(w: World, c: Checker, a: RoundAnswers, order: seq<string>)
    requires FreshRound(w, c, a)
    requires Visits(order, Checked(c, w.machines, w.cluster.value, a).toRemove.Keys)
    ensures
      var checked := Checked(c, w.machines, w.cluster.value, a);
      var f := RemoveQueued(w.Fleet(), checked, order, w.cluster.value.spec.replicas, a.removals).0;
      && |f.members| == |w.members| - 1 && FailingDies(w.machines, f.machines, a.health)
      && |ActiveOwned(f.machines)| < w.cluster.value.spec.replicas
  {
    var checked := Checked(c, w.machines, w.cluster.value, a);
    var n := FirstEntry(w, c, a, order);
    OneTurnRemoves(w.Fleet(), checked, order, n, w.cluster.value.spec.replicas, a);
  }

  lemma AllTurns(w: World, c: Checker, a: RoundAnswers, order: seq<string>)
    requires w.cluster.Some? && Visits(order, c.toRemove.Keys)
    ensures MembersAfter(w, c, a, order, |order|)
         == RemoveQueued(w.Fleet(), c, order, w.cluster.value.spec.replicas, a.removals).0.members
  {
    assert order[..|order|] == order;
  }

  lemma OneTurnRemoves(f: Fleet, c: Checker, order: seq<string>, n: Name, replicas: nat, a: RoundAnswers)
    requires Distinct(f.members) && |f.members| > 1 && Visits(order, c.toRemove.Keys)
    requires order != [] && order[0] in c.toRemove && c.toRemove[order[0]] == n
    requires n in ActiveOwned(f.machines) && n in Failing(f.machines, a.health) && |ActiveOwned(f.machines)| == replicas
    requires Joins(f.members, MachineAddressFromClientURL(order[0])) && OutcomeFor(a.removals, order[0]) == Succeeds
    ensures
      var f' := RemoveQueued(f, c, order, replicas, a.removals).0;
      && |f'.members| == |f.members| - 1 && |ActiveOwned(f'.machines)| < replicas
      && FailingDies(f.machines, f'.machines, a.health)
  {
    FirstTurn(f, c, order[0], n, replicas, a.health);
    FirstTurnOnly(f, c, order, replicas, a.removals);
  }

  lemma FirstEntry(w: World, c: Checker, a: RoundAnswers, order: seq<string>) returns (n: Name)
    requires FreshRound(w, c, a)
    requires Visits(order, Checked(c, w.machines, w.cluster.value, a).toRemove.Keys)
    ensures
      var checked := Checked(c, w.machines, w.cluster.value, a);
      && order != [] && order[0] in checked.toRemove && checked.toRemove[order[0]] == n
      && n in Failing(w.machines, a.health) && n in ActiveOwned(w.machines)
      && |ActiveOwned(w.machines)| == w.cluster.value.spec.replicas
      && Joins(w.members, MachineAddressFromClientURL(order[0])) && OutcomeFor(a.removals, order[0]) == Succeeds
  {
    NotEmpty(order, Checked(c, w.machines, w.cluster.value, a).toRemove);
    assert order[0] in order;
    n := FreshEntry(w, c, a, order[0]);
  }

  lemma NotEmpty(order: seq<string>, queue: map<string, Name>)
    requires Visits(order, queue.Keys) && queue != map[]
    ensures order != []
  {
    assert queue.Keys != {};
    var e :| e in queue.Keys;
    assert e in order;
  }

  /** Machines that are bootstrapping open the gate although most members failed, whenever they
      are many enough: the round removes a member, and those that passed are no majority. */
  lemma BootstrappingOpensTheGate(w: World, c: Checker, a: RoundAnswers, order: seq<string>)
    requires FreshRound(w, c, a)
    requires Visits(order, Checked(c, w.machines, w.cluster.value, a).toRemove.Keys)
    requires |WithAddress(w.machines)| < 2 * |Failing(w.machines, a.health)| < |w.machines|
    ensures
      && Removes(w, c, a)
      && |Round(w, c, a, order).0.members| == |w.members| - 1
      && 2 * |Passing(w.machines, a.health)| <= |Round(w, c, a, order).0.members|
  {
    RoundIsExact(w, c, a, order);
    FailingAndPassing(w.machines, a.health);
  }
}
