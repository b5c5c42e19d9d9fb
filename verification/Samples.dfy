/** States that meet the hypotheses of the theorems. */
module Samples {
  import opened Wrappers
  import opened Text
  import opened Machines
  import opened EtcdPlane
  import opened Membership
  import opened Cluster
  import opened ReconcileSpec
  import opened Rollout
  import Convergence
  import ScaleDown
  import Cleanup
  import Interleaving
  import Canonical
  import Bootstrap
  import Ready
  import Outcomes
  import opened Removals
  import opened HealthCheck
  import opened MemberSafety
  import opened Counters
  import opened Quorum
  import CleanupRounds
  import MajorityLost

  // ----- Reconciling -----

  const NO_CONDITIONS := Conditions(Unknown, Unknown, Unknown, Unknown, Unknown, Unknown)

  function Sample(spec: Spec, ms: Machines, members: seq<Member>): World {
    World(
      Some(EtcdadmCluster(spec, true, false, false, false, false, NotSet, NO_CONDITIONS, Status(false, 0, true, true, ""))),
      ms, members, Secret("", ""), 0, [])
  }

  function SampleMachine(owned: bool, config: nat, address: string): Machine {
    Machine(owned, Some(config), Some(0), false, 0, "", false,
            if address == "" then [] else [MachineAddress(InternalIP, address)])
  }

  /** Three machines of configuration 0. */
  function Three(): Machines {
    var m := SampleMachine(true, 0, "");
    map[0 := m, 1 := m, 2 := m]
  }

  lemma ThreeSets()
    ensures Owned(Three()) == ActiveOwned(Three()) == {0, 1, 2}
    ensures Matching(Three(), Spec(3, 1, 0)) == {} && ScaleDown.Doomed(Three()) == {}
  {
    assert Owned(Three()) == {0, 1, 2};
    assert ActiveOwned(Three()) == {0, 1, 2};
  }

  /** Three outdated machines: a rollout may start, and states converge from there. */
  lemma Outdated3()
    ensures
      var w := Sample(Spec(3, 1, 0), Three(), []);
      && RolloutStart(w) && w.cluster.value.conditions.specUpToDate == Unknown
      && Convergence.Converging(w)
  {
    ThreeSets();
  }

  /** Three matching machines where one is asked for: two are surplus. */
  lemma Surplus2(ds: Domains)
    ensures
      var w := Sample(Spec(1, 0, 0), Three(), []);
      ScaleDown.Shrinking(w, ds) && ScaleDown.Doomed(w.machines) == {} && |Owned(w.machines)| == 3
  {
    ThreeSets();
  }

  /** Three machines of three: a steady state. */
  lemma Steady3()
    ensures Interleaving.Steady(Sample(Spec(3, 0, 0), Three(), []), Spec(3, 0, 0))
  {
    ThreeSets();
  }

  /** A rollout under way whose newest machine is 30 seconds old: 30 more to wait. */
  lemma HalfAMinute()
    ensures
      var outdated := SampleMachine(true, 0, "");
      var ms: Machines := map[0 := outdated, 1 := outdated, 2 := SampleMachine(true, 1, "")];
      var w := Sample(Spec(3, 1, 0), ms, []).(now := 30);
      var ec := w.cluster.value;
      var rolling := w.(cluster := Some(ec.(conditions := ec.conditions.(specUpToDate := False(RollingUpdateInProgress)))));
      Outcomes.MayWait(rolling) && Outcomes.SecondsLeft(rolling) == 30
  {
    var outdated := SampleMachine(true, 0, "");
    var ms: Machines := map[0 := outdated, 1 := outdated, 2 := SampleMachine(true, 1, "")];
    assert NeedRollout(ms, Spec(3, 1, 0)) == {0, 1};
    assert UpToDate(ms, Spec(3, 1, 0)) == {2};
    assert Matching(ms, Spec(3, 1, 0)) == {2};
    assert Unowned(ms) == {};
  }

  // ----- Members -----

  function Joined1(id: nat, address: string): Member {
    Member(id, [PeerURL(address)])
  }

  lemma SampleAddress(owned: bool, config: nat, address: string)
    ensures EtcdMachineAddress(SampleMachine(owned, config, address)) == address
  {
    var m := SampleMachine(owned, config, address);
    if address != "" {
      assert m.addresses[..0] == [];
      assert forall kind :: LastOf(m.addresses, kind) == if kind == InternalIP then address else LastOf([], kind);
    }
  }

  /** One machine owned and one old, both members. */
  lemma Upgraded1()
    ensures
      Cleanup.Upgraded(Sample(Spec(1, 1, 0), map[0 := SampleMachine(true, 1, "a"), 1 := SampleMachine(false, 0, "bb")],
                              [Joined1(0, "a"), Joined1(1, "bb")]))
  {
    var ms: Machines := map[0 := SampleMachine(true, 1, "a"), 1 := SampleMachine(false, 0, "bb")];
    var members := [Joined1(0, "a"), Joined1(1, "bb")];
    SampleAddress(true, 1, "a");
    SampleAddress(false, 0, "bb");
    URLsInjective("a", "bb");
    assert Owned(ms) == {0};
    assert Unowned(ms) == {1};
    assert PeersAt(members[0], "a");
  }

  // ----- Rounds of the health check -----

  /** The names below `k`. */
  function Below(k: nat): (r: set<Name>)
    ensures |r| == k && forall n: Name :: n in r <==> n < k
  {
    if k == 0 then {} else Below(k - 1) + {k - 1}
  }

  /** Three machines that are past bootstrapping, and `b` that are not. */
  function AddressOf(n: Name): string {
    if n == 0 then "a" else if n == 1 then "bb" else if n == 2 then "ccc" else ""
  }

  function Mixed(b: nat): Machines {
    map n | n in Below(3 + b) :: SampleMachine(true, 0, AddressOf(n))
  }

  function ThreeMembers(): seq<Member> {
    seq(3, (i: nat) => Joined1(i, AddressOf(i)))
  }

  /** N machines, where one failure is too much. */
  function MixedWorld(b: nat): World {
    var w := Sample(Spec(3 + b, 0, 0), Mixed(b), ThreeMembers());
    w.(cluster := Some(w.cluster.value.(retries := Number(1))))
  }

  /** The first machine passes its check and the second fails; the third passes or fails. */
  function Checks(third: Health): RoundAnswers {
    RoundAnswers(true, true, [], map[0 := Passes, 1 := Fails, 2 := third], map[], true)
  }

  lemma MixedAddress(b: nat, n: Name)
    requires n in Mixed(b)
    ensures EtcdMachineAddress(Mixed(b)[n]) == AddressOf(n)
  {
    SampleAddress(true, 0, AddressOf(n));
  }

  lemma AddressesDiffer(m: Name, n: Name)
    ensures m != n && AddressOf(m) != "" ==> AddressOf(m) != AddressOf(n)
    ensures Plain(AddressOf(m))
  {
    assert AddressOf(m) != "" ==> |AddressOf(m)| == m + 1;
    assert AddressOf(n) != "" ==> |AddressOf(n)| == n + 1;
  }

  lemma MixedAddresses(b: nat)
    ensures OwnAddresses(Mixed(b)) && PlainAddresses(Mixed(b))
  {
    var ms := Mixed(b);
    forall m, n | m in ms && n in ms && m != n && EtcdMachineAddress(ms[m]) != ""
      ensures EtcdMachineAddress(ms[m]) != EtcdMachineAddress(ms[n])
    {
      MixedAddress(b, m);
      MixedAddress(b, n);
      AddressesDiffer(m, n);
    }
    forall n | n in ms ensures Plain(EtcdMachineAddress(ms[n])) {
      MixedAddress(b, n);
      AddressesDiffer(n, n);
    }
  }

  lemma MixedWithAddress(b: nat)
    ensures WithAddress(Mixed(b)) == {0, 1, 2}
  {
    forall n ensures n in WithAddress(Mixed(b)) <==> n in {0, 1, 2} {
      if n in Mixed(b) {
        MixedAddress(b, n);
      }
    }
  }

  lemma MixedSize(b: nat)
    ensures |Mixed(b)| == 3 + b && ActiveOwned(Mixed(b)) == Owned(Mixed(b)) && |Owned(Mixed(b))| == 3 + b
  {
    var names := Below(3 + b);
    assert Mixed(b).Keys == names;
    assert |Mixed(b)| == |Mixed(b).Keys|;
    assert Owned(Mixed(b)) == names;
    assert ActiveOwned(Mixed(b)) == names;
  }

  lemma DistinctMembers()
    ensures Distinct(ThreeMembers())
  {
    var members := ThreeMembers();
    forall i, j | 0 <= i < j < 3 ensures members[i].peerURLs != members[j].peerURLs {
      AddressesDiffer(i, j);
      URLsInjective(AddressOf(i), AddressOf(j));
    }
  }

  lemma MemberOf(n: Name)
    requires n < 3
    ensures Joins(ThreeMembers(), AddressOf(n))
  {
    assert PeersAt(ThreeMembers()[n], AddressOf(n));
  }

  lemma MixedJoins(b: nat, n: Name)
    requires n in {0, 1, 2}
    ensures n in Mixed(b) && Joins(ThreeMembers(), EtcdMachineAddress(Mixed(b)[n]))
  {
    assert n in Mixed(b);
    MixedAddress(b, n);
    MemberOf(n);
  }

  lemma MixedMirrors(b: nat)
    ensures Mirrors(ThreeMembers(), Mixed(b))
  {
    DistinctMembers();
    MixedWithAddress(b);
    MixedJoins(b, 0);
    MixedJoins(b, 1);
    MixedJoins(b, 2);
    assert |{0, 1, 2}| == 3;
  }

  lemma MixedFailing(b: nat, third: Health)
    ensures Failing(Mixed(b), Checks(third).health) == if third == Passes then {1} else {1, 2}
  {
    MixedWithAddress(b);
  }

  lemma MixedQueue(b: nat, third: Health)
    ensures Checked(NO_FAILURES, Mixed(b), MixedWorld(b).cluster.value, Checks(third)).toRemove != map[]
  {
    assert 1 in Below(3 + b);
    var e := MachineEtcdEndpoint(Mixed(b)[1]);
    MixedAddress(b, 1);
    MixedAddresses(b);
    CheckedHere(NO_FAILURES, Mixed(b), MixedWorld(b).cluster.value, Checks(third), 1);
    assert At(Checked(NO_FAILURES, Mixed(b), MixedWorld(b).cluster.value, Checks(third)), e).queued == Some(1);
  }

  /** Fresh rounds of every size. */
  lemma MixedRound(b: nat, third: Health)
    ensures FreshRound(MixedWorld(b), NO_FAILURES, Checks(third))
  {
    MixedAddresses(b);
    MixedMirrors(b);
    MixedSize(b);
    MixedQueue(b, third);
    MixedPasses(b, third);
  }

  lemma MixedPasses(b: nat, third: Health)
    ensures !Passed(MixedWorld(b), Checks(third))
  {
    MixedSize(b);
  }

  /** Whatever the number of bootstrapping machines from two on, two failures among three members
      pass the gate. */
  lemma TwoOfThreeFail(b: nat)
    requires b >= 2
    ensures FreshRound(MixedWorld(b), NO_FAILURES, Checks(Fails))
    ensures |WithAddress(Mixed(b))| < 2 * |Failing(Mixed(b), Checks(Fails).health)| < |Mixed(b)|
  {
    MixedRound(b, Fails);
    TwoFailures(b);
  }

  lemma TwoFailures(b: nat)
    requires b >= 2
    ensures |WithAddress(Mixed(b))| < 2 * |Failing(Mixed(b), Checks(Fails).health)| < |Mixed(b)|
  {
    MixedFailing(b, Fails);
    MixedWithAddress(b);
    MixedSize(b);
    assert |{0, 1, 2}| == 3 && |{1, 2}| == 2;
  }

  /** A round of three members, all of which have an address, that comes to its removals. */
  lemma OneOfThreeFails()
    ensures Removes(MixedWorld(0), NO_FAILURES, Checks(Passes)) && FreshRound(MixedWorld(0), NO_FAILURES, Checks(Passes))
    ensures WithAddress(Mixed(0)) == {0, 1, 2} && |Mixed(0)| == 3 && Keyed(NO_FAILURES)
  {
    MixedRound(0, Passes);
    MixedFailing(0, Passes);
    MixedWithAddress(0);
    MixedSize(0);
    GateOpens(MixedWorld(0), NO_FAILURES, Checks(Passes));
  }

  /** The first round of a checker that removes a machine, where one failure is too much. */
  lemma FirstRoundRemoves(order: seq<string>)
    requires Visits(order, Checked(NO_FAILURES, Mixed(0), MixedWorld(0).cluster.value, Checks(Passes)).toRemove.Keys)
    ensures PossibleTick(NO_FAILURES, Tick(MixedWorld(0), Checks(Passes), order))
    ensures Dies(Mixed(0), Round(MixedWorld(0), NO_FAILURES, Checks(Passes), order).0.machines, 1)
  {
    OneOfThreeFails();
    MixedAddresses(0);
    SecondDies(order);
  }

  lemma SecondDies(order: seq<string>)
    requires FreshRound(MixedWorld(0), NO_FAILURES, Checks(Passes)) && Removes(MixedWorld(0), NO_FAILURES, Checks(Passes))
    requires Visits(order, Checked(NO_FAILURES, Mixed(0), MixedWorld(0).cluster.value, Checks(Passes)).toRemove.Keys)
    ensures Dies(Mixed(0), Round(MixedWorld(0), NO_FAILURES, Checks(Passes), order).0.machines, 1)
  {
    OneIsRemoved(MixedWorld(0), NO_FAILURES, Checks(Passes), order);
    MixedFailing(0, Passes);
  }

  // ----- A cleanup -----

  /** As many letters as `n`, and one more. */
  function Letters(n: nat): string {
    seq(n + 1, i => 'a')
  }

  /** The machines below `k` are owned, and as many are old. */
  function House(k: nat): Machines {
    map n | n in Below(2 * k) :: SampleMachine(n < k, 0, Letters(n))
  }

  function Household(k: nat): seq<Member> {
    seq(2 * k, (i: nat) => Joined1(i, Letters(i)))
  }

  function HouseWorld(k: nat): World {
    var w := Sample(Spec(k, 0, 0), House(k), Household(k));
    w.(cluster := Some(w.cluster.value.(retries := Number(1), controlPlaneUpgraded := true)))
  }

  lemma HouseAddress(k: nat, n: Name)
    requires n < 2 * k
    ensures n in House(k) && EtcdMachineAddress(House(k)[n]) == Letters(n) != "" && Plain(Letters(n))
    ensures Joins(Household(k), Letters(n))
  {
    SampleAddress(n < k, 0, Letters(n));
    assert PeersAt(Household(k)[n], Letters(n));
  }

  lemma LettersDiffer(m: nat, n: nat)
    requires m != n
    ensures Letters(m) != Letters(n) && PeerURL(Letters(m)) != PeerURL(Letters(n))
  {
    assert |Letters(m)| != |Letters(n)|;
    URLsInjective(Letters(m), Letters(n));
  }

  lemma HouseAddresses(k: nat)
    ensures OwnAddresses(House(k)) && PlainAddresses(House(k)) && WithAddress(House(k)) == House(k).Keys
    ensures Cleanup.Apart(House(k)) && CleanupRounds.Housed(House(k))
  {
    var ms := House(k);
    forall n | n in ms ensures EtcdMachineAddress(ms[n]) == Letters(n) != "" && Plain(EtcdMachineAddress(ms[n])) {
      HouseAddress(k, n);
    }
    forall m, n | m in ms && n in ms && m != n ensures EtcdMachineAddress(ms[m]) != EtcdMachineAddress(ms[n]) {
      LettersDiffer(m, n);
    }
  }

  lemma HouseSize(k: nat)
    ensures |House(k)| == 2 * k && |Owned(House(k))| == k
  {
    assert House(k).Keys == Below(2 * k);
    assert |House(k)| == |House(k).Keys|;
    assert Owned(House(k)) == Below(k);
  }

  lemma HouseMembers(k: nat)
    ensures Distinct(Household(k)) && CleanupRounds.Manned(House(k), Household(k))
    ensures forall n :: n in House(k) ==> Joins(Household(k), EtcdMachineAddress(House(k)[n]))
  {
    var members := Household(k);
    forall i, j | 0 <= i < j < 2 * k ensures members[i].peerURLs != members[j].peerURLs {
      LettersDiffer(i, j);
    }
    forall n | n in House(k) ensures Joins(members, EtcdMachineAddress(House(k)[n])) {
      HouseAddress(k, n);
    }
    forall m | m in members ensures exists n :: n in House(k) && CleanupRounds.Seats(House(k), n, m) {
      var n :| 0 <= n < |members| && members[n] == m;
      HouseAddress(k, n);
      assert CleanupRounds.Seats(House(k), n, m);
    }
  }

  /** For every N: N owned machines and N old ones, all members. */
  lemma HouseIsFull(k: nat)
    requires k > 1 && k % 2 == 1
    ensures MajorityLost.FullHouse(HouseWorld(k))
  {
    HouseStarts(k);
    HouseAddresses(k);
    HouseSize(k);
    HouseMembers(k);
  }

  lemma HouseStarts(k: nat)
    requires k > 1 && k % 2 == 1
    ensures CleanupRounds.CleanupStart(HouseWorld(k))
  {
    HouseAddresses(k);
    HouseSize(k);
    HouseMembers(k);
  }

  /** The first machine fails its check, the others pass. */
  function FirstFails(k: nat): RoundAnswers {
    RoundAnswers(true, true, [], map n | n in Below(2 * k) :: if n == 0 then Fails else Passes, map[], true)
  }

  /** A round that would remove one owned machine once an old one is gone. */
  lemma HouseGate(k: nat)
    requires k > 1
    ensures MajorityLost.OpensTheGate(House(k) - {k}, HouseWorld(k).cluster.value, NO_FAILURES, FirstFails(k))
  {
    HouseFailing(k);
    HouseQueue(k);
  }

  lemma HouseFailing(k: nat)
    requires k > 1
    ensures 2 * |Failing(House(k) - {k}, FirstFails(k).health)| < |House(k) - {k}|
  {
    var ms, r := House(k) - {k}, FirstFails(k);
    HouseAddresses(k);
    HouseSize(k);
    MajorityLost.OthersHaveAddress(House(k), k);
    OnlyFirst(ms, k);
    SubsetSize(Failing(ms, r.health), {0});
  }

  lemma OnlyFirst(ms: Machines, k: nat)
    requires ms.Keys <= House(k).Keys
    ensures Failing(ms, FirstFails(k).health) <= {0}
  {
  }

  lemma HouseQueue(k: nat)
    requires k > 1
    ensures Checked(NO_FAILURES, House(k) - {k}, HouseWorld(k).cluster.value, FirstFails(k)).toRemove != map[]
  {
    var ms, r, ec := House(k) - {k}, FirstFails(k), HouseWorld(k).cluster.value;
    HouseAddresses(k);
    HouseAddress(k, 0);
    CheckedHere(NO_FAILURES, ms, ec, r, 0);
    assert At(Checked(NO_FAILURES, ms, ec, r), MachineEtcdEndpoint(ms[0])).queued == Some(0);
  }

  // ----- The Secret and the start -----

  /** A healthy machine whose endpoint is new to the status. */
  lemma SomethingToPublish(a: Answers)
    requires a.statusListing && a.health == map[0 := Passes]
    ensures
      var ms: Machines := map[0 := SampleMachine(true, 0, "a")];
      var checked := CheckOwnedMachines(ms, a.health);
      var before := CanonicalEndpoints(checked, Arrange(checked.Keys, a.order)) + "x";
      var ec := Sample(Spec(1, 0, 0), ms, []).cluster.value;
      Canonical.Publishes(ec.(status := ec.status.(endpoints := before)), ms, a)
  {
    OneHealthy(map[0 := SampleMachine(true, 0, "a")], a.health);
  }

  lemma OneHealthy(ms: Machines, health: map<Name, Health>)
    requires ms == map[0 := SampleMachine(true, 0, "a")] && health == map[0 := Passes]
    ensures Ready.AllHealthy(Sample(Spec(1, 0, 0), ms, []).cluster.value, CheckOwnedMachines(ms, health))
  {
    var checked := CheckOwnedMachines(ms, health);
    SampleAddress(true, 0, "a");
    assert checked.Keys == {0};
    assert |checked| == |checked.Keys|;
  }

  /** Nothing has happened yet. */
  lemma NothingYet()
    ensures
      var w := Sample(Spec(3, 0, 0), map[], []);
      Bootstrap.BootstrapStart(w.(cluster := Some(w.cluster.value.(status := Status(false, 0, false, false, "")))))
  {
  }
}
