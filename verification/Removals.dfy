/** What removals do to the etcd membership: they take out only the members of the addresses they
    are given, never the last one, and a machine's member goes before the machine. */
module Removals {
  import opened Wrappers
  import opened Text
  import opened Machines
  import opened Membership
  import opened Cluster
  import opened ReconcileSpec
  import opened HealthCheck
  import opened Effects

  // ----- Memberships -----

  /** Members with a single peer URL each, all of them and all ids different. */
  ghost predicate Distinct(members: seq<Member>) {
    && (forall i :: 0 <= i < |members| ==> |members[i].peerURLs| == 1)
    && forall i, j :: 0 <= i < j < |members| ==>
         members[i].id != members[j].id && members[i].peerURLs != members[j].peerURLs
  }

  /** The machine at this address is a member. */
  ghost predicate Joins(members: seq<Member>, address: string) {
    exists i :: 0 <= i < |members| && PeersAt(members[i], address)
  }

  /** `members'` is `members` without those of some of the addresses that satisfy `gone`; it is
      still a proper membership, and not empty unless `members` was. */
  ghost predicate Shrinks(members: seq<Member>, members': seq<Member>, gone: string -> bool) {
    && Distinct(members') && |members'| <= |members| && (members != [] ==> members' != [])
    && (forall m :: m in members' ==> m in members)
    && forall address :: !gone(address) && Joins(members, address) ==> Joins(members', address)
  }

  ghost function Only(address: string): string -> bool {
    a => a == address
  }

  predicate Differs(member: Member, rest: seq<Member>) {
    forall k :: 0 <= k < |rest| ==> rest[k].id != member.id && rest[k].peerURLs != member.peerURLs
  }

  lemma DistinctTail(members: seq<Member>)
    requires Distinct(members) && members != []
    ensures Distinct(members[1..]) && Differs(members[0], members[1..])
  {
    var rest := members[1..];
    forall k | 0 <= k < |rest| ensures rest[k].id != members[0].id && rest[k].peerURLs != members[0].peerURLs {
      assert rest[k] == members[k + 1];
    }
  }

  lemma DistinctHead(member: Member, rest: seq<Member>)
    requires Distinct(rest) && |member.peerURLs| == 1 && Differs(member, rest)
    ensures Distinct([member] + rest)
  {
  }

  lemma DiffersAmong(member: Member, rest: seq<Member>, id: nat)
    requires Differs(member, rest)
    ensures Differs(member, WithoutMember(rest, id))
  {
    var less := WithoutMember(rest, id);
    forall k | 0 <= k < |less| ensures less[k].id != member.id && less[k].peerURLs != member.peerURLs {
      assert less[k] in rest;
    }
  }

  lemma {:induction false} WithoutDistinct(members: seq<Member>, id: nat)
    requires Distinct(members)
    ensures Distinct(WithoutMember(members, id))
    ensures |WithoutMember(members, id)| >= |members| - 1
  {
    if members != [] {
      DistinctTail(members);
      if members[0].id == id {
        WithoutAbsent(members[1..], id);
      } else {
        WithoutDistinct(members[1..], id);
        DiffersAmong(members[0], members[1..], id);
        DistinctHead(members[0], WithoutMember(members[1..], id));
      }
    }
  }

  lemma {:induction false} WithoutAbsent(members: seq<Member>, id: nat)
    requires forall m :: m in members ==> m.id != id
    ensures WithoutMember(members, id) == members
  {
    if members != [] {
      WithoutAbsent(members[1..], id);
    }
  }

  lemma WithoutShrinks(members: seq<Member>, address: string, i: nat)
    requires Distinct(members) && |members| > 1
    requires i < |members| && PeersAt(members[i], address)
    ensures Shrinks(members, WithoutMember(members, members[i].id), Only(address))
    ensures !Joins(WithoutMember(members, members[i].id), address)
    ensures |WithoutMember(members, members[i].id)| < |members|
  {
    var id := members[i].id;
    var rest := WithoutMember(members, id);
    WithoutDistinct(members, id);
    forall other | other != address && Joins(members, other) ensures Joins(rest, other) {
      var k :| 0 <= k < |members| && PeersAt(members[k], other);
      URLsInjective(other, address);
      assert members[k] in rest;
    }
    if |rest| == |members| {
      WithoutStrict(members, id, i);
    }
  }

  lemma {:induction false} WithoutStrict(members: seq<Member>, id: nat, i: nat)
    requires i < |members| && members[i].id == id
    ensures |WithoutMember(members, id)| < |members|
  {
    if i > 0 {
      WithoutStrict(members[1..], id, i - 1);
    }
  }

  lemma ShrinksReflexive(members: seq<Member>, gone: string -> bool)
    requires Distinct(members)
    ensures Shrinks(members, members, gone)
  {
  }

  lemma ShrinksTransitive(a: seq<Member>, b: seq<Member>, c: seq<Member>, gone: string -> bool)
    requires Shrinks(a, b, gone) && Shrinks(b, c, gone)
    ensures Shrinks(a, c, gone)
  {
  }

  lemma ShrinksWeakens(a: seq<Member>, b: seq<Member>, less: string -> bool, more: string -> bool)
    requires Shrinks(a, b, less) && forall address :: less(address) ==> more(address)
    ensures Shrinks(a, b, more)
  {
  }

  lemma StaysOut(a: seq<Member>, b: seq<Member>, gone: string -> bool, address: string)
    requires Shrinks(a, b, gone) && !Joins(a, address)
    ensures !Joins(b, address)
  {
    forall i | 0 <= i < |b| ensures !PeersAt(b[i], address) {
      assert b[i] in a;
    }
  }

  // ----- Machines and members -----

  /** `n` gets its deletion timestamp. */
  predicate Dies(ms: Machines, ms': Machines, n: Name) {
    n in ms && n in ms' && !ms[n].terminating && ms'[n].terminating
  }

  /** One removal: it takes out no member but that of the address, and a machine dies only when
      that member is out. */
  lemma RemovalIsSafe(f: Fleet, machine: Option<Name>, address: string, outcome: RemovalOutcome)
    requires Distinct(f.members)
    ensures
      var f' := RemoveEtcdMachine(f, machine, address, outcome).0;
      && Shrinks(f.members, f'.members, Only(address))
      && forall n: Name :: Dies(f.machines, f'.machines, n) ==> machine == Some(n) && !Joins(f'.members, address)
  {
    var i := MemberIndex(f.members, [PeerURL(address)]);
    ShrinksReflexive(f.members, Only(address));
    if i < |f.members| && |f.members| > 1 {
      WithoutShrinks(f.members, address, i);
    }
  }

  /** A removal fails when it comes to the call that fails: it removes a member only if there is one
      and it is not the last, and asks for the machine's deletion only if the machine is there. */
  ghost predicate RemovalFails(f: Fleet, machine: Option<Name>, address: string, outcome: RemovalOutcome) {
    match outcome
    case ClientFails => true
    case ListFails => true
    case RemoveFails => Joins(f.members, address) && |f.members| > 1
    case DeleteFails => machine.Some? && machine.value in f.machines && !(Joins(f.members, address) && |f.members| == 1)
    case Succeeds => false
  }

  /** One removal, for every outcome of its calls: when it reports an error, when the member goes,
      and which machine gets its deletion timestamp. */
  lemma RemovalIsExact(f: Fleet, machine: Option<Name>, address: string, outcome: RemovalOutcome)
    requires Distinct(f.members)
    ensures
      var (f', ok) := RemoveEtcdMachine(f, machine, address, outcome);
      && (ok <==> !RemovalFails(f, machine, address, outcome))
      && (f'.members != f.members
          <==> Joins(f.members, address) && |f.members| > 1 && outcome in {DeleteFails, Succeeds})
      && (f'.members != f.members ==> !Joins(f'.members, address))
      && forall n: Name ::
           Dies(f.machines, f'.machines, n)
           <==> && machine == Some(n) && n in f.machines && !f.machines[n].terminating
                && ok && !(Joins(f.members, address) && |f.members| == 1)
  {
    var i := MemberIndex(f.members, [PeerURL(address)]);
    if i < |f.members| {
      assert PeersAt(f.members[i], address);
      if |f.members| > 1 {
        WithoutShrinks(f.members, address, i);
      }
    } else {
      forall k | 0 <= k < |f.members| ensures !PeersAt(f.members[k], address) {
        assert f.members[k].peerURLs != [PeerURL(address)];
      }
    }
  }

  /** The machine's deletion is asked for, without error. */
  ghost predicate AsksDeletion(f: Fleet, machine: Option<Name>, address: string, outcome: RemovalOutcome) {
    && machine.Some? && machine.value in f.machines
    && !RemovalFails(f, machine, address, outcome) && !(Joins(f.members, address) && |f.members| == 1)
  }

  /** What a removal asks of etcd and of the API server, in this order: the member that goes, then
      the machine, and nothing else. */
  lemma RemovalIsOrdered(f: Fleet, machine: Option<Name>, address: string, outcome: RemovalOutcome)
    requires Distinct(f.members)
    ensures
      var f' := RemoveEtcdMachine(f, machine, address, outcome).0;
      exists gone: seq<Action> ::
        && f'.log == f.log + gone + (if AsksDeletion(f, machine, address, outcome) then [Deleted(machine.value)] else [])
        && (forall x :: x in gone ==> x.MemberRemoved?)
        && (forall m :: m in f.members ==> (MemberRemoved(m.id) in gone <==> m !in f'.members))
        && |gone| == |f.members| - |f'.members|
  {
    var f' := RemoveEtcdMachine(f, machine, address, outcome).0;
    var i := MemberIndex(f.members, [PeerURL(address)]);
    RemovalIsExact(f, machine, address, outcome);
    var gone := if f'.members != f.members then [MemberRemoved(f.members[i].id)] else [];
    RemovalIsLogged(f, machine, address, outcome, gone);
    if f'.members != f.members {
      OnlyOneGoes(f.members, i);
    }
  }

  lemma RemovalIsLogged(
    f: Fleet, machine: Option<Name>, address: string, outcome: RemovalOutcome, gone: seq<Action>)
    requires Distinct(f.members)
    requires
      var i := MemberIndex(f.members, [PeerURL(address)]);
      var f' := RemoveEtcdMachine(f, machine, address, outcome).0;
      && (f'.members != f.members ==> i < |f.members| && gone == [MemberRemoved(f.members[i].id)])
      && (f'.members == f.members ==> gone == [])
    ensures
      var i := MemberIndex(f.members, [PeerURL(address)]);
      var f' := RemoveEtcdMachine(f, machine, address, outcome).0;
      && f'.log == f.log + gone + (if AsksDeletion(f, machine, address, outcome) then [Deleted(machine.value)] else [])
      && (f'.members != f.members ==> f'.members == WithoutMember(f.members, f.members[i].id))
  {
    RemovalIsExact(f, machine, address, outcome);
    var i := MemberIndex(f.members, [PeerURL(address)]);
    if i < |f.members| {
      assert PeersAt(f.members[i], address);
      if |f.members| > 1 {
        WithoutShrinks(f.members, address, i);
      }
    }
  }

  lemma OnlyOneGoes(members: seq<Member>, i: nat)
    requires Distinct(members) && i < |members|
    ensures forall m :: m in members ==> (m.id == members[i].id <==> m == members[i])
    ensures forall m :: m in members ==> (m !in WithoutMember(members, members[i].id) <==> m.id == members[i].id)
    ensures |WithoutMember(members, members[i].id)| == |members| - 1
  {
    WithoutDistinct(members, members[i].id);
    WithoutStrict(members, members[i].id, i);
  }

  /** A removal whose calls go well takes out the member and asks for the machine's deletion,
      unless that member is the last one. */
  lemma RemovalSucceeds(f: Fleet, n: Name, address: string)
    requires Distinct(f.members) && n in f.machines
    ensures
      var (f', ok) := RemoveEtcdMachine(f, Some(n), address, Succeeds);
      && ok
      && (|f.members| > 1 || !Joins(f.members, address) ==>
            !Joins(f'.members, address) && f'.machines == f.machines[n := f.machines[n].(terminating := true)])
      && (|f.members| == 1 && Joins(f.members, address) ==> f' == f)
  {
    var i := MemberIndex(f.members, [PeerURL(address)]);
    if i < |f.members| && |f.members| > 1 {
      WithoutShrinks(f.members, address, i);
    }
  }

  /** A removal that takes out the member and whose deletion call does not fail asks for the
      machine's deletion. */
  lemma RemovalIsWhole(f: Fleet, n: Name, address: string, outcome: RemovalOutcome)
    ensures
      var f' := RemoveEtcdMachine(f, Some(n), address, outcome).0;
      !outcome.DeleteFails? && Joins(f.members, address) && !Joins(f'.members, address) && n in f.machines ==>
        n in f'.machines && f'.machines[n].terminating
  {
  }

  ghost function AddressesOf(listed: Machines, names: set<Name>): string -> bool {
    a => exists n :: n in names && n in listed && EtcdMachineAddress(listed[n]) == a
  }

  /** The removals of a loop over old machines, in any order and up to any error. */
  lemma {:induction false} RemovalsAreSafe(
    f: Fleet, listed: Machines, order: seq<Name>, removals: map<Name, RemovalOutcome>, names: set<Name>)
    requires Distinct(f.members) && forall n :: n in order ==> n in listed && n in names
    ensures
      var f' := RemoveEach(f, listed, order, removals).0;
      && Shrinks(f.members, f'.members, AddressesOf(listed, names))
      && forall n: Name :: Dies(f.machines, f'.machines, n) ==>
           n in order && n in listed && !Joins(f'.members, EtcdMachineAddress(listed[n]))
    decreases order
  {
    var gone := AddressesOf(listed, names);
    ShrinksReflexive(f.members, gone);
    if order != [] {
      var n := order[0];
      var address := EtcdMachineAddress(listed[n]);
      var (g, ok) := RemoveEtcdMachine(f, Some(n), address, OutcomeFor(removals, n));
      RemovalIsSafe(f, Some(n), address, OutcomeFor(removals, n));
      RemovalKeeps(f, Some(n), address, OutcomeFor(removals, n));
      ShrinksWeakens(f.members, g.members, Only(address), gone);
      if ok {
        var f' := RemoveEach(g, listed, order[1..], removals).0;
        RemovalsAreSafe(g, listed, order[1..], removals, names);
        RemovalsKeep(g, listed, order[1..], removals);
        ShrinksTransitive(f.members, g.members, f'.members, gone);
        forall k | Dies(f.machines, f'.machines, k)
          ensures k in order && k in listed && !Joins(f'.members, EtcdMachineAddress(listed[k]))
        {
          if Dies(f.machines, g.machines, k) {
            StaysOut(g.members, f'.members, gone, address);
          } else {
            assert Dies(g.machines, f'.machines, k);
          }
        }
      }
    }
  }

  ghost function AddressesIn(queue: set<string>): string -> bool {
    a => exists e :: e in queue && MachineAddressFromClientURL(e) == a
  }

  /** One turn of the health checker's removal loop. */
  lemma TurnIsSafe(f: Fleet, c: Checker, endpoint: string, replicas: nat, outcome: RemovalOutcome)
    requires Distinct(f.members) && endpoint in c.toRemove
    ensures
      var f' := RemoveOne(f, c, endpoint, replicas, outcome).0;
      && Shrinks(f.members, f'.members, Only(MachineAddressFromClientURL(endpoint)))
      && forall n: Name :: Dies(f.machines, f'.machines, n) ==>
           c.toRemove[endpoint] == n && !Joins(f'.members, MachineAddressFromClientURL(endpoint))
  {
    ShrinksReflexive(f.members, Only(MachineAddressFromClientURL(endpoint)));
    RemovalIsSafe(f, Some(c.toRemove[endpoint]), MachineAddressFromClientURL(endpoint), outcome);
  }

  /** `n` is queued under an endpoint of `order` whose host is no member any more. */
  ghost predicate QueuedAndOut(c: Checker, order: seq<string>, n: Name, members: seq<Member>) {
    exists e :: e in order && e in c.toRemove && c.toRemove[e] == n && !Joins(members, MachineAddressFromClientURL(e))
  }

  lemma {:induction false} TurnsAreSafe(
    f: Fleet, c: Checker, order: seq<string>, replicas: nat, removals: map<string, RemovalOutcome>)
    requires Distinct(f.members) && forall e :: e in order ==> e in c.toRemove
    requires forall i, j :: 0 <= i < j < |order| ==> order[i] != order[j]
    ensures
      var f' := RemoveQueued(f, c, order, replicas, removals).0;
      && Shrinks(f.members, f'.members, AddressesIn(c.toRemove.Keys))
      && forall n: Name :: Dies(f.machines, f'.machines, n) ==> QueuedAndOut(c, order, n, f'.members)
    decreases order
  {
    var gone := AddressesIn(c.toRemove.Keys);
    ShrinksReflexive(f.members, gone);
    if order != [] {
      var most, last := order[..|order| - 1], order[|order| - 1];
      var (g, d, _) := RemoveQueued(f, c, most, replicas, removals);
      TurnsAreSafe(f, c, most, replicas, removals);
      TurnsKeep(f, c, most, replicas, removals);
      assert last !in most;
      LastTurnIsSafe(f, g, c, d, most, last, replicas, OutcomeFor(removals, last), gone);
    }
  }

  lemma LastTurnIsSafe(
    f: Fleet, g: Fleet, c: Checker, d: Checker, most: seq<string>, last: string, replicas: nat, outcome: RemovalOutcome,
    gone: string -> bool)
    requires Shrinks(f.members, g.members, gone) && KeepsOwners(f.machines, g.machines)
    requires forall n: Name :: Dies(f.machines, g.machines, n) ==> QueuedAndOut(c, most, n, g.members)
    requires last in c.toRemove && last in d.toRemove && d.toRemove[last] == c.toRemove[last]
    requires gone(MachineAddressFromClientURL(last))
    ensures
      var f' := RemoveOne(g, d, last, replicas, outcome).0;
      && Shrinks(f.members, f'.members, gone)
      && forall n: Name :: Dies(f.machines, f'.machines, n) ==> QueuedAndOut(c, most + [last], n, f'.members)
  {
    var f' := RemoveOne(g, d, last, replicas, outcome).0;
    TurnIsSafe(g, d, last, replicas, outcome);
    ShrinksWeakens(g.members, f'.members, Only(MachineAddressFromClientURL(last)), gone);
    ShrinksTransitive(f.members, g.members, f'.members, gone);
    forall n | Dies(f.machines, f'.machines, n) ensures QueuedAndOut(c, most + [last], n, f'.members) {
      if Dies(f.machines, g.machines, n) {
        var e :| e in most && e in c.toRemove && c.toRemove[e] == n && !Joins(g.members, MachineAddressFromClientURL(e));
        StaysOut(g.members, f'.members, gone, MachineAddressFromClientURL(e));
        assert e in most + [last];
      } else {
        assert Dies(g.machines, f'.machines, n);
        assert last in most + [last];
      }
    }
  }
}
