/** The etcd membership and the removal of a member together with its machine. */
module Membership {
  import opened Wrappers
  import opened Text
  import opened Machines

  datatype Member = Member(id: nat, peerURLs: seq<string>)

  /** An effect the controller has on the API server or on etcd, or a health check a rollout
      waited for. */
  datatype Action =
    | Created(name: Name, at: int)
    | Disowned(name: Name)
    | MemberRemoved(id: nat)
    | Deleted(name: Name)
    | PassedCheck(name: Name, at: int)

  /** What a removal reads and changes, with the log of effects in their order. */
  datatype Fleet = Fleet(machines: Machines, members: seq<Member>, log: seq<Action>)

  /** How the calls of one removal end: each of the first four names the call that fails. */
  datatype RemovalOutcome = ClientFails | ListFails | RemoveFails | DeleteFails | Succeeds

  /** etcd's record of the machine at an address: one peer URL, over https, at etcd's peer port. */
  predicate PeersAt(member: Member, address: string) {
    member.peerURLs == ["https://" + address + ":2380"]
  }

  // ----- Finding a member -----

  method StringSlicesEqual(l: seq<string>, r: seq<string>) returns (equal: bool)
    ensures equal <==> l == r
  {
    if |l| != |r| {
      return false;
    }
    for i := 0 to |l|
      invariant l[..i] == r[..i]
    {
      if l[i] != r[i] {
        return false;
      }
      assert l[..i + 1] == l[..i] + [l[i]] && r[..i + 1] == r[..i] + [r[i]];
    }
    assert l[..|l|] == l && r[..|l|] == r;
    return true;
  }

  /** The index of the first member with exactly these peer URLs, or the number of members. */
  function MemberIndex(members: seq<Member>, peerURLs: seq<string>): (i: nat)
    ensures i <= |members| && (i < |members| ==> members[i].peerURLs == peerURLs)
    ensures forall k :: 0 <= k < i ==> members[k].peerURLs != peerURLs
  {
    if members == [] || members[0].peerURLs == peerURLs then 0
    else 1 + MemberIndex(members[1..], peerURLs)
  }

  lemma NobodyAt(members: seq<Member>, address: string)
    requires forall m :: m in members ==> !PeersAt(m, address)
    ensures MemberIndex(members, [PeerURL(address)]) == |members|
  {
    var i := MemberIndex(members, [PeerURL(address)]);
    if i < |members| {
      assert PeersAt(members[i], address);
    }
  }

  method MemberForPeerURLs(members: seq<Member>, peerURLs: seq<string>) returns (member: Option<Member>)
    ensures
      var i := MemberIndex(members, peerURLs);
      member == if i < |members| then Some(members[i]) else None
  {
    for i := 0 to |members|
      invariant forall k :: 0 <= k < i ==> members[k].peerURLs != peerURLs
    {
      var equal := StringSlicesEqual(members[i].peerURLs, peerURLs);
      if equal {
        return Some(members[i]);
      }
    }
    return None;
  }

  /** The membership after MemberRemove(id). */
  function WithoutMember(members: seq<Member>, id: nat): (r: seq<Member>)
    ensures forall m :: m in r <==> m in members && m.id != id
    ensures |r| <= |members|
  {
    if members == [] then []
    else if members[0].id == id then WithoutMember(members[1..], id)
    else [members[0]] + WithoutMember(members[1..], id)
  }

  // ----- Removing -----

  /** A delete request: a machine that is already gone is no error, one that is there gets its
      deletion timestamp. */
  function DeleteMachine(f: Fleet, machine: Option<Name>, succeeds: bool): (Fleet, bool) {
    if machine.None? || machine.value !in f.machines then (f, true)
    else if !succeeds then (f, false)
    else
      var n := machine.value;
      (f.(machines := f.machines[n := f.machines[n].(terminating := true)], log := f.log + [Deleted(n)]), true)
  }

  function RemoveEtcdMemberAndDeleteMachine(f: Fleet, peerURL: string, machine: Option<Name>, outcome: RemovalOutcome)
    : (Fleet, bool)
  {
    if outcome.ListFails? then (f, false)
    else
      var i := MemberIndex(f.members, [peerURL]);
      if i == |f.members| then DeleteMachine(f, machine, !outcome.DeleteFails?)
      else if |f.members| <= 1 then (f, true)
      else if outcome.RemoveFails? then (f, false)
      else
        var id := f.members[i].id;
        DeleteMachine(f.(members := WithoutMember(f.members, id), log := f.log + [MemberRemoved(id)]),
                      machine, !outcome.DeleteFails?)
  }

  /** The fleet after the removal of a machine known by an address, and whether all went well. */
  function RemoveEtcdMachine(f: Fleet, machine: Option<Name>, address: string, outcome: RemovalOutcome): (Fleet, bool) {
    if outcome.ClientFails? then (f, false)
    else RemoveEtcdMemberAndDeleteMachine(f, PeerURL(address), machine, outcome)
  }
}
