/** The machines of an etcd cluster, their addresses and endpoints, and the orders in which
    the controller looks at them. */
module Machines {
  import opened Wrappers
  import opened Text

  /** Generated machine names, abstracted to numbers ordered as the names are. */
  type Name = nat

  datatype AddressType = InternalIP | InternalDNS | ExternalIP | ExternalDNS | Hostname

  datatype MachineAddress = MachineAddress(kind: AddressType, address: string)

  /** A Machine carrying the labels of the etcd cluster. `owned` says that it has an owner
      reference to the EtcdadmCluster and `terminating` that it has a deletion timestamp.
      `config` and `template` are the etcdadm configuration and the infrastructure template it
      was made from, None where the object or its annotations cannot be found. */
  datatype Machine = Machine(
    owned: bool,
    config: Option<nat>,
    template: Option<nat>,
    terminating: bool,
    created: int,
    domain: string,
    deleteAnnotated: bool,
    addresses: seq<MachineAddress>)

  type Machines = map<Name, Machine>

  /** The part of the EtcdadmCluster's spec that machines are made from. */
  datatype Spec = Spec(replicas: nat, config: nat, template: nat) {
    /** What the webhook admits: a positive, odd number of replicas. */
    predicate Valid() {
      replicas > 0 && replicas % 2 == 1
    }
  }

  // ----- Addresses -----

  /** The last address of a kind, or "". */
  function LastOf(addresses: seq<MachineAddress>, kind: AddressType): string {
    if addresses == [] then ""
    else
      var last := addresses[|addresses| - 1];
      if last.kind == kind then last.address else LastOf(addresses[..|addresses| - 1], kind)
  }

  /** External names win over external addresses, and both over internal ones. */
  function EtcdMachineAddress(m: Machine): string {
    var found := kind => LastOf(m.addresses, kind);
    if found(ExternalDNS) != "" then found(ExternalDNS)
    else if found(ExternalIP) != "" then found(ExternalIP)
    else if found(InternalDNS) != "" then found(InternalDNS)
    else found(InternalIP)
  }

  /** External names come first, then external addresses, internal names and internal addresses;
      a host name is none of these. */
  function Rank(kind: AddressType): nat {
    match kind
    case ExternalDNS => 0
    case ExternalIP => 1
    case InternalDNS => 2
    case InternalIP => 3
    case Hostname => 4
  }

  /** The last address of its kind, if it is not empty. */
  ghost predicate Counts(m: Machine, i: nat)
    requires i < |m.addresses|
  {
    && m.addresses[i].kind != Hostname && m.addresses[i].address != ""
    && forall j :: i < j < |m.addresses| ==> m.addresses[j].kind != m.addresses[i].kind
  }

  lemma {:induction false} LastCounts(addresses: seq<MachineAddress>, kind: AddressType, i: nat)
    requires i < |addresses| && addresses[i].kind == kind
    requires forall j :: i < j < |addresses| ==> addresses[j].kind != kind
    ensures LastOf(addresses, kind) == addresses[i].address
  {
    if i < |addresses| - 1 {
      LastCounts(addresses[..|addresses| - 1], kind, i);
    }
  }

  lemma {:induction false} LastIsThere(addresses: seq<MachineAddress>, kind: AddressType) returns (i: nat)
    requires LastOf(addresses, kind) != ""
    ensures i < |addresses| && addresses[i].kind == kind && addresses[i].address == LastOf(addresses, kind)
    ensures forall j :: i < j < |addresses| ==> addresses[j].kind != kind
  {
    i := |addresses| - 1;
    if addresses[i].kind != kind {
      i := LastIsThere(addresses[..|addresses| - 1], kind);
    }
  }

  /** A machine's address is the one of the best kind among those that count; it is empty exactly
      when none counts. */
  lemma BestAddress(m: Machine)
    ensures EtcdMachineAddress(m) == "" <==> forall i :: 0 <= i < |m.addresses| ==> !Counts(m, i)
    ensures forall i :: 0 <= i < |m.addresses| && Counts(m, i)
              && (forall j :: 0 <= j < |m.addresses| && Counts(m, j) ==>
                    Rank(m.addresses[i].kind) <= Rank(m.addresses[j].kind))
              ==> EtcdMachineAddress(m) == m.addresses[i].address
  {
    forall kind | kind != Hostname && LastOf(m.addresses, kind) != ""
      ensures exists i :: 0 <= i < |m.addresses| && Counts(m, i) && m.addresses[i].kind == kind
    {
      var i := LastIsThere(m.addresses, kind);
      assert Counts(m, i);
    }
    forall i | 0 <= i < |m.addresses| && Counts(m, i)
      ensures LastOf(m.addresses, m.addresses[i].kind) == m.addresses[i].address
    {
      LastCounts(m.addresses, m.addresses[i].kind, i);
    }
  }

  method GetEtcdMachineAddress(m: Machine) returns (address: string)
    ensures address == EtcdMachineAddress(m)
  {
    var internalIP, internalDNS, externalIP, externalDNS := "", "", "", "";
    for i := 0 to |m.addresses|
      invariant internalIP == LastOf(m.addresses[..i], InternalIP)
      invariant internalDNS == LastOf(m.addresses[..i], InternalDNS)
      invariant externalIP == LastOf(m.addresses[..i], ExternalIP)
      invariant externalDNS == LastOf(m.addresses[..i], ExternalDNS)
    {
      assert m.addresses[..i + 1][..i] == m.addresses[..i];
      match m.addresses[i].kind
      case InternalIP => internalIP := m.addresses[i].address;
      case InternalDNS => internalDNS := m.addresses[i].address;
      case ExternalIP => externalIP := m.addresses[i].address;
      case ExternalDNS => externalDNS := m.addresses[i].address;
      case Hostname =>
    }
    assert m.addresses[..|m.addresses|] == m.addresses;
    if externalDNS != "" {
      return externalDNS;
    } else if externalIP != "" {
      return externalIP;
    } else if internalDNS != "" {
      return internalDNS;
    } else if internalIP != "" {
      return internalIP;
    }
    return "";
  }

  /** A machine's client URL, or "" while it has no address. */
  function MachineEtcdEndpoint(m: Machine): string {
    if EtcdMachineAddress(m) == "" then "" else MemberClientURL(EtcdMachineAddress(m))
  }

  // ----- Machines by name -----

  function Owned(ms: Machines): set<Name> {
    set n | n in ms && ms[n].owned
  }

  function Unowned(ms: Machines): set<Name> {
    set n | n in ms && !ms[n].owned
  }

  /** The owned machines that have no deletion timestamp. */
  function ActiveOwned(ms: Machines): set<Name> {
    set n | n in ms && ms[n].owned && !ms[n].terminating
  }

  lemma OwnedSplits(ms: Machines)
    ensures |ms| == |Owned(ms)| + |Unowned(ms)|
    ensures |Owned(ms)| == |ms| <==> Unowned(ms) == {}
  {
    assert ms.Keys == Owned(ms) + Unowned(ms);
    assert |ms.Keys| == |Owned(ms)| + |Unowned(ms)|;
  }

  lemma AddOne<T>(s: set<T>, x: T)
    requires x !in s
    ensures |s + {x}| == |s| + 1
  {
  }

  lemma SubsetSize<T>(a: set<T>, b: set<T>)
    requires a <= b
    ensures |a| <= |b| && (|a| == |b| ==> a == b)
  {
    assert b == a + (b - a);
    assert |b| == |a| + |b - a|;
    if |a| == |b| {
      assert b - a == {};
    }
  }

  // ----- Oldest and newest -----

  /** Creation time first, then name. */
  predicate Before(ms: Machines, a: Name, b: Name)
    requires a in ms && b in ms
  {
    ms[a].created < ms[b].created || (ms[a].created == ms[b].created && a <= b)
  }

  lemma {:induction false} OldestExists(ms: Machines, ns: set<Name>) returns (x: Name)
    requires ns != {} && ns <= ms.Keys
    ensures x in ns && forall y | y in ns :: Before(ms, x, y)
    decreases ns
  {
    x :| x in ns;
    var rest := ns - {x};
    assert forall y :: y in ns ==> y == x || y in rest;
    if rest != {} {
      var z := OldestExists(ms, rest);
      x := if Before(ms, x, z) then x else z;
    }
  }

  lemma {:induction false} NewestExists(ms: Machines, ns: set<Name>) returns (x: Name)
    requires ns != {} && ns <= ms.Keys
    ensures x in ns && forall y | y in ns :: Before(ms, y, x)
    decreases ns
  {
    x :| x in ns;
    var rest := ns - {x};
    assert forall y :: y in ns ==> y == x || y in rest;
    if rest != {} {
      var z := NewestExists(ms, rest);
      x := if Before(ms, x, z) then z else x;
    }
  }

  function Oldest(ms: Machines, ns: set<Name>): (x: Name)
    requires ns != {} && ns <= ms.Keys
    ensures x in ns && forall y | y in ns :: Before(ms, x, y)
  {
    assert exists x :: x in ns && forall y | y in ns :: Before(ms, x, y) by { var z := OldestExists(ms, ns); }
    var x :| x in ns && forall y | y in ns :: Before(ms, x, y);
    x
  }

  function Newest(ms: Machines, ns: set<Name>): (x: Name)
    requires ns != {} && ns <= ms.Keys
    ensures x in ns && forall y | y in ns :: Before(ms, y, x)
  {
    assert exists x :: x in ns && forall y | y in ns :: Before(ms, y, x) by { var z := NewestExists(ms, ns); }
    var x :| x in ns && forall y | y in ns :: Before(ms, y, x);
    x
  }

  // ----- Iteration order -----

  /** `order` visits every key once, as a loop over a Go map does. */
  ghost predicate Visits<K(!new)>(order: seq<K>, keys: set<K>) {
    && (forall k :: k in keys <==> k in order)
    && forall i, j :: 0 <= i < j < |order| ==> order[i] != order[j]
  }

  function Least(ns: set<Name>): (x: Name)
    requires ns != {}
    ensures x in ns
  {
    assert exists x :: x in ns && forall y | y in ns :: x <= y by { var z := LeastExists(ns); }
    var x :| x in ns && forall y | y in ns :: x <= y;
    x
  }

  lemma {:induction false} LeastExists(ns: set<Name>) returns (x: Name)
    requires ns != {}
    ensures x in ns && forall y | y in ns :: x <= y
    decreases ns
  {
    x :| x in ns;
    var rest := ns - {x};
    assert forall y :: y in ns ==> y == x || y in rest;
    if rest != {} {
      var z := LeastExists(rest);
      x := if x <= z then x else z;
    }
  }

  /** Some order over `names`: the one wished for as far as it goes, then by name. Every order
      is the arrangement of some wish (ArrangeAnyOrder). */
  function Arrange(names: set<Name>, wish: seq<Name>): (order: seq<Name>)
    ensures Visits(order, names)
    decreases |names|, |wish|
  {
    if names == {} then []
    else if wish != [] && wish[0] !in names then Arrange(names, wish[1..])
    else
      var first := if wish == [] then Least(names) else wish[0];
      var rest := Arrange(names - {first}, if wish == [] then [] else wish[1..]);
      assert forall k :: k in rest ==> k != first;
      [first] + rest
  }

  lemma {:induction false} ArrangeAnyOrder(names: set<Name>, order: seq<Name>)
    requires Visits(order, names)
    ensures Arrange(names, order) == order
    decreases |order|
  {
    if order != [] {
      assert order[0] in names;
      assert Visits(order[1..], names - {order[0]}) by {
        forall k ensures k in names - {order[0]} <==> k in order[1..] {
          assert order == [order[0]] + order[1..];
        }
      }
      ArrangeAnyOrder(names - {order[0]}, order[1..]);
    } else {
      assert forall k :: k in names ==> k in order;
      assert names == {};
    }
  }
}
