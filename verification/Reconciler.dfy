/** The reconciler as it runs: methods that change the API server's objects, the etcd membership
    and the EtcdadmCluster in memory step by step, each proved against ReconcileSpec. */
module Reconciler {
  import opened Wrappers
  import opened Text
  import opened Machines
  import opened EtcdPlane
  import opened Membership
  import opened Cluster
  import opened ReconcileSpec

  /** The API server and etcd, with the clock. */
  class ApiServer {
    var cluster: Option<EtcdadmCluster>
    var machines: Machines
    var members: seq<Member>
    var secret: Secret
    var now: int
    var log: seq<Action>

    constructor (w: World)
      ensures World() == w
    {
      cluster, machines, members, secret, now, log := w.cluster, w.machines, w.members, w.secret, w.now, w.log;
    }

    ghost function World(): World
      reads this
    {
      Cluster.World(cluster, machines, members, secret, now, log)
    }

    ghost function Fleet(): Fleet
      reads this
    {
      World().Fleet()
    }

    /** A delete request for a machine. */
    method Delete(machine: Name, succeeds: bool) returns (ok: bool)
      modifies this`machines, this`log
      ensures (Fleet(), ok) == DeleteMachine(old(Fleet()), Some(machine), succeeds)
    {
      if machine !in machines {
        return true;
      }
      if !succeeds {
        return false;
      }
      machines := machines[machine := machines[machine].(terminating := true)];
      log := log + [Deleted(machine)];
      return true;
    }
  }

  /** The EtcdadmCluster as one Reconcile holds it in memory. */
  class EtcdadmClusterCopy {
    const spec: Spec
    const deleting: bool
    const paused: bool
    const retries: Retries
    var finalizer: bool
    var controlPlaneUpgraded: bool
    var upgrading: bool
    var conditions: Conditions
    var status: Status

    constructor (ec: EtcdadmCluster)
      ensures Value() == ec
    {
      spec, deleting, paused, retries := ec.spec, ec.deleting, ec.paused, ec.retries;
      finalizer, controlPlaneUpgraded, upgrading := ec.finalizer, ec.controlPlaneUpgraded, ec.upgrading;
      conditions, status := ec.conditions, ec.status;
    }

    function Value(): EtcdadmCluster
      reads this
    {
      EtcdadmCluster(spec, finalizer, deleting, paused, controlPlaneUpgraded, upgrading, retries, conditions, status)
    }
  }

  class Reconciler {
    const api: ApiServer
    const domains: Domains

    constructor (api: ApiServer, domains: Domains)
      ensures this.api == api && this.domains == domains
    {
      this.api, this.domains := api, domains;
    }

    // ----- scale.go -----

    method RemoveEtcdMemberAndDeleteMachine(peerURL: string, machine: Option<Name>, outcome: RemovalOutcome)
      returns (ok: bool)
      modifies api`machines, api`members, api`log
      ensures (api.Fleet(), ok)
           == Membership.RemoveEtcdMemberAndDeleteMachine(old(api.Fleet()), peerURL, machine, outcome)
    {
      if outcome.ListFails? {
        return false;
      }
      var members := api.members;
      var localMember := MemberForPeerURLs(members, [peerURL]);
      if localMember.Some? {
        if |members| > 1 {
          if outcome.RemoveFails? {
            return false;
          }
          api.members := WithoutMember(api.members, localMember.value.id);
          api.log := api.log + [MemberRemoved(localMember.value.id)];
          if machine.Some? {
            ok := api.Delete(machine.value, !outcome.DeleteFails?);
            return ok;
          }
        }
      } else {
        if machine.Some? {
          ok := api.Delete(machine.value, !outcome.DeleteFails?);
          return ok;
        }
      }
      return true;
    }

    method RemoveEtcdMachine(machine: Option<Name>, address: string, outcome: RemovalOutcome) returns (ok: bool)
      modifies api`machines, api`members, api`log
      ensures (api.Fleet(), ok) == Membership.RemoveEtcdMachine(old(api.Fleet()), machine, address, outcome)
    {
      if outcome.ClientFails? {
        return false;
      }
      ok := RemoveEtcdMemberAndDeleteMachine(PeerURL(address), machine, outcome);
    }

    method CloneConfigsAndGenerateMachine(ec: EtcdadmClusterCopy, domain: string, a: Answers) returns (ok: bool)
      modifies api`machines, api`log
      ensures api.machines
           == if ok then old(api.machines)[a.newName := NewMachine(ec.spec, api.now, domain)] else old(api.machines)
      ensures api.log == if ok then old(api.log) + [Created(a.newName, api.now)] else old(api.log)
      ensures ok <==> a.creation && a.newName !in old(api.machines)
    {
      if !a.creation || a.newName in api.machines {
        return false;
      }
      api.machines := api.machines[a.newName := NewMachine(ec.spec, api.now, domain)];
      api.log := api.log + [Created(a.newName, api.now)];
      return true;
    }

    method ScaleUpEtcdCluster(ec: EtcdadmClusterCopy, a: Answers) returns (ok: bool)
      modifies api`machines, api`log
      ensures (api.Fleet(), ok) == CreateMachine(old(api.Fleet()), ec.spec, api.now, domains, a)
    {
      var domain := NextFailureDomainForScaleUp(api.machines, Owned(api.machines), ec.spec, domains);
      ok := CloneConfigsAndGenerateMachine(ec, domain, a);
    }

    method InitializeEtcdCluster(ec: EtcdadmClusterCopy, a: Answers) returns (ok: bool)
      modifies api`machines, api`log, ec`conditions
      ensures (api.Fleet(), ok) == if a.firstCertificates then CreateMachine(old(api.Fleet()), ec.spec, api.now, domains, a)
                                   else (old(api.Fleet()), false)
      ensures ec.conditions == if a.firstCertificates then old(ec.conditions).(certificates := True) else old(ec.conditions)
    {
      if !a.firstCertificates {
        return false;
      }
      ec.conditions := ec.conditions.(certificates := True);
      ok := ScaleUpEtcdCluster(ec, a);
    }

    method ScaleDownEtcdCluster(a: Answers) returns (ok: bool)
      modifies api`machines, api`members, api`log
      ensures (api.Fleet(), ok) == RemoveSurplus(old(api.Fleet()), domains, a)
    {
      var selected := SelectMachineForScaleDown(api.machines, Owned(api.machines), {}, domains);
      if selected.None? {
        return false;
      }
      var address := GetEtcdMachineAddress(api.machines[selected.value]);
      ok := RemoveEtcdMachine(selected, address, OutcomeFor(a.removals, selected.value));
    }

    // ----- upgrade.go -----

    method RemoveFromListOfOwnedMachines(ec: EtcdadmClusterCopy, a: Answers) returns (ok: bool)
      modifies api`machines, api`log
      ensures (api.Fleet(), ok) == DisownMachine(old(api.Fleet()), ec.spec, domains, a)
    {
      var selected :=
        SelectMachineForScaleDown(api.machines, Owned(api.machines), NeedRollout(api.machines, ec.spec), domains);
      if selected.None? || !a.disowning {
        return false;
      }
      var n := selected.value;
      api.machines := api.machines[n := api.machines[n].(owned := false)];
      api.log := api.log + [Disowned(n)];
      return true;
    }

    method UpgradeEtcdCluster(ec: EtcdadmClusterCopy, a: Answers, ghost checked: Option<Name>) returns (ok: bool)
      modifies api`machines, api`log
      ensures (api.Fleet(), ok)
           == match RollStep(old(api.machines), ec.spec, checked)
              case RollCreate(_) => CreateMachine(old(api.Fleet()), ec.spec, api.now, domains, a)
              case _ => DisownMachine(old(api.Fleet()), ec.spec, domains, a)
    {
      if ec.spec.replicas == 1 {
        if |Owned(api.machines)| == ec.spec.replicas {
          ok := ScaleUpEtcdCluster(ec, a);
          return;
        }
        ok := RemoveFromListOfOwnedMachines(ec, a);
        return;
      }
      if |Owned(api.machines)| >= ec.spec.replicas {
        ok := RemoveFromListOfOwnedMachines(ec, a);
        return;
      }
      ok := ScaleUpEtcdCluster(ec, a);
    }

    // ----- controller.go: reconcile -----

    /** The loop over machines that are no longer owned, after a control plane upgrade. */
    method RemoveOldMembers(a: Answers) returns (ok: bool)
      modifies api`machines, api`members, api`log
      ensures (api.Fleet(), ok)
           == RemoveEach(old(api.Fleet()), old(api.machines), Arrange(Unowned(old(api.machines)), a.order), a.removals)
    {
      var listed := api.machines;
      var order := Arrange(Unowned(listed), a.order);
      for i := 0 to |order|
        invariant forall n :: n in order[i..] ==> n in listed
        invariant RemoveEach(old(api.Fleet()), listed, order, a.removals)
               == RemoveEach(api.Fleet(), listed, order[i..], a.removals)
      {
        var n := order[i];
        var address := GetEtcdMachineAddress(listed[n]);
        assert order[i..][0] == n && order[i..][1..] == order[i + 1..];
        ok := RemoveEtcdMachine(Some(n), address, OutcomeFor(a.removals, n));
        if !ok {
          return;
        }
      }
      return true;
    }

    method Reconcile(a: Answers) returns (r: Result)
      modifies api
      ensures (api.World(), r) == ReconcileStep(old(api.World()), domains, a)
    {
      if a.entry.GetFails? {
        return FAILED;
      }
      if api.cluster.None? {
        return DONE;
      }
      var ec := new EtcdadmClusterCopy(api.cluster.value);
      match a.entry {
        case OwnerLookupFails => return FAILED;
        case NoOwner => return DONE;
        case InfrastructureNotReady => return Result(After(5), false);
        case Paused => return DONE;
        case NoPatchHelper => return Result(Immediately, false);
        case _ =>
      }
      if !ec.finalizer {
        ec.finalizer := true;
        if !a.patch {
          return FAILED;
        }
        api.cluster := Some(ec.Value());
        return DONE;
      }
      if ec.deleting {
        r := ReconcileDelete(ec, a);
      } else {
        r := ReconcileNormal(ec, a);
      }
      r := Finish(ec, r, a);
    }

    method ReconcileNormal(ec: EtcdadmClusterCopy, a: Answers) returns (r: Result)
      modifies api`machines, api`members, api`log, ec
      ensures
        var d := Decide(old(api.machines), old(ec.Value()), api.now, a);
        && (api.Fleet(), r) == CarryOut(old(api.Fleet()), ec.spec, api.now, domains, a, d)
        && ec.Value() == Mark(old(api.machines), old(ec.Value()), d, a)
    {
      ghost var d := Decide(api.machines, ec.Value(), api.now, a);
      if !a.externalReference || !a.listing || !a.ownedPlane {
        assert d == Unreadable;
        return FAILED;
      }
      var finished: bool;
      finished, r := LookAfterOldMembers(ec, a);
      if finished {
        assert d == CleanUpOldMembers;
        return;
      }
      OldMembersDoNotDecide(api.machines, old(ec.Value()), api.now, a);
      ghost var marked := ec.Value();
      r := RollOutOrScale(ec, a);
      assert ec.Value() == MarkStep(marked, d, a);
    }

    method RollOutOrScale(ec: EtcdadmClusterCopy, a: Answers) returns (r: Result)
      modifies api`machines, api`members, api`log, ec`conditions, ec`upgrading
      ensures
        var d := DecideStep(old(api.machines), old(ec.Value()), api.now, a);
        && (api.Fleet(), r) == CarryOut(old(api.Fleet()), ec.spec, api.now, domains, a, d)
        && ec.Value() == MarkStep(old(ec.Value()), d, a)
    {
      if !a.wholePlane {
        return FAILED;
      }
      if |NeedRollout(api.machines, ec.spec)| > 0 {
        r := Rollout(ec, a);
      } else {
        r := Scale(ec, a);
      }
    }

    /** Notes whether there are machines that are no longer owned, and removes them once the
        control plane has been upgraded. */
    method LookAfterOldMembers(ec: EtcdadmClusterCopy, a: Answers) returns (finished: bool, r: Result)
      modifies api`machines, api`members, api`log, ec`conditions, ec`controlPlaneUpgraded
      ensures finished <==> Unowned(old(api.machines)) != {} && old(ec.controlPlaneUpgraded)
      ensures ec.Value() == MarkMembers(old(api.machines), old(ec.Value()))
      ensures finished ==>
                (api.Fleet(), r) == CarryOut(old(api.Fleet()), ec.spec, api.now, domains, a, CleanUpOldMembers)
      ensures !finished ==> api.Fleet() == old(api.Fleet())
    {
      OwnedSplits(api.machines);
      if |Owned(api.machines)| != |api.machines| {
        if ec.conditions.noOutdatedMembers.Unknown? || ec.conditions.noOutdatedMembers.True? {
          ec.conditions := ec.conditions.(noOutdatedMembers := False(HasOutdatedMembers));
        }
        if ec.controlPlaneUpgraded {
          var ok := RemoveOldMembers(a);
          return true, if ok then Result(Immediately, false) else FAILED;
        }
      } else {
        ec.controlPlaneUpgraded := false;
        if ec.conditions.noOutdatedMembers.False? {
          ec.conditions := ec.conditions.(noOutdatedMembers := True);
        }
      }
      return false, DONE;
    }

    /** The branch for machines that all match the spec, and the second switch. */
    method Scale(ec: EtcdadmClusterCopy, a: Answers) returns (r: Result)
      modifies api`machines, api`members, api`log, ec`conditions, ec`upgrading
      ensures
        var d := DecideScale(old(api.machines), old(ec.Value()), a);
        && (api.Fleet(), r) == CarryOut(old(api.Fleet()), ec.spec, api.now, domains, a, d)
        && ec.Value() == MarkScale(old(ec.Value()), d, a)
    {
      ghost var d := DecideScale(api.machines, ec.Value(), a);
      var ok := CompleteRollout(ec, a);
      if !ok {
        assert d == CertificatesFail;
        return FAILED;
      }
      assert d == DecideScale(api.machines, ec.Value(), a);
      r := Resize(ec, a);
    }

    method CompleteRollout(ec: EtcdadmClusterCopy, a: Answers) returns (ok: bool)
      modifies ec`conditions, ec`upgrading
      ensures ok <==> !(old(ec.conditions.certificates).False? && !a.certificates)
      ensures ec.Value() == if ok then MarkCertificates(MarkRolledOut(old(ec.Value()))) else MarkRolledOut(old(ec.Value()))
    {
      if !ec.conditions.specUpToDate.Unknown? {
        ec.conditions := ec.conditions.(specUpToDate := True);
        ec.upgrading := false;
      }
      if ec.conditions.certificates.False? {
        if !a.certificates {
          return false;
        }
        ec.conditions := ec.conditions.(certificates := True);
      }
      return true;
    }

    method Resize(ec: EtcdadmClusterCopy, a: Answers) returns (r: Result)
      requires !ec.conditions.certificates.False?
      modifies api`machines, api`members, api`log, ec`conditions, ec`upgrading
      ensures
        var d := DecideScale(old(api.machines), old(ec.Value()), a);
        && (api.Fleet(), r) == CarryOut(old(api.Fleet()), ec.spec, api.now, domains, a, d)
        && ec.Value() == MarkResize(old(ec.Value()), d, a)
    {
      ghost var d := DecideScale(api.machines, ec.Value(), a);
      var numCurrentMachines := |Owned(api.machines)|;
      if numCurrentMachines < ec.spec.replicas && numCurrentMachines == 0 {
        assert d == Initialize;
        r := CreateFirstMachine(ec, a);
      } else if numCurrentMachines > 0 && ec.conditions.initialized.False? {
        WaitingCarries(api.Fleet(), ec.spec, api.now, domains, a, d);
        if !ec.status.initialized {
          assert d == AwaitInit;
          return DONE;
        }
        assert d == NoteInit;
        ec.conditions := ec.conditions.(initialized := True);
        return DONE;
      } else {
        r := AdjustReplicas(ec, a);
      }
    }

    /** The last three cases of the second switch. */
    method AdjustReplicas(ec: EtcdadmClusterCopy, a: Answers) returns (r: Result)
      requires !ec.conditions.certificates.False?
      requires |Owned(api.machines)| == 0 ==> ec.spec.replicas == 0
      requires |Owned(api.machines)| > 0 ==> !ec.conditions.initialized.False?
      modifies api`machines, api`members, api`log, ec`upgrading
      ensures
        var d := DecideScale(old(api.machines), old(ec.Value()), a);
        && (api.Fleet(), r) == CarryOut(old(api.Fleet()), ec.spec, api.now, domains, a, d)
        && ec.Value() == MarkResize(old(ec.Value()), d, a)
    {
      ghost var d := DecideScale(api.machines, ec.Value(), a);
      var numCurrentMachines := |Owned(api.machines)|;
      var ok := true;
      if numCurrentMachines < ec.spec.replicas && numCurrentMachines > 0 {
        assert d == ScaleUp;
        ScalingCarries(api.Fleet(), ec.spec, api.now, domains, a, d);
        ok := ScaleUpEtcdCluster(ec, a);
      } else if numCurrentMachines > ec.spec.replicas {
        assert d == ScaleDown;
        ScalingCarries(api.Fleet(), ec.spec, api.now, domains, a, d);
        ok := ScaleDownEtcdCluster(a);
      } else {
        assert d == Settled;
        WaitingCarries(api.Fleet(), ec.spec, api.now, domains, a, d);
        ec.upgrading := false;
      }
      return if ok then DONE else FAILED;
    }

    /** The first machine, which is to run etcdadm init. */
    method CreateFirstMachine(ec: EtcdadmClusterCopy, a: Answers) returns (r: Result)
      modifies api`machines, api`log, ec`conditions
      ensures (api.Fleet(), r) == CarryOut(old(api.Fleet()), ec.spec, api.now, domains, a, Initialize)
      ensures ec.Value() == MarkResize(old(ec.Value()), Initialize, a)
    {
      ec.conditions := ec.conditions.(initialized := False(WaitingForEtcdadmInit));
      ec.conditions := ec.conditions.(endpointsAvailable := False(WaitingForEndpoints));
      var ok := InitializeEtcdCluster(ec, a);
      return if ok then DONE else FAILED;
    }

    /** The branch for machines that need a rollout. */
    method Rollout(ec: EtcdadmClusterCopy, a: Answers) returns (r: Result)
      requires NeedRollout(api.machines, ec.spec) != {}
      modifies api`machines, api`log, ec`conditions
      ensures
        var d := DecideRollout(old(api.machines), old(ec.Value()), api.now, a);
        && (api.Fleet(), r) == CarryOut(old(api.Fleet()), ec.spec, api.now, domains, a, d)
        && ec.Value() == MarkRollout(old(ec.Value()), d)
    {
      ghost var d := DecideRollout(api.machines, ec.Value(), api.now, a);
      if |api.machines| > |OutOfDateMachines(api.machines, api.machines.Keys, ec.spec)| + ec.spec.replicas {
        assert d == LimitReached;
        WaitingCarries(api.Fleet(), ec.spec, api.now, domains, a, d);
        ec.conditions := ec.conditions.(specUpToDate := False(MaxNumberOfMachinesReached));
        return DONE;
      }
      var proceed: bool;
      ghost var checked;
      proceed, r, checked := AwaitNewest(ec, a);
      if !proceed {
        WaitingCarries(api.Fleet(), ec.spec, api.now, domains, a, d);
        return;
      }
      r := Roll(ec, a, old(api.Fleet()), checked);
    }

    /** The next step of a rollout; `before` is the fleet before the health check it waited for. */
    method Roll(ec: EtcdadmClusterCopy, a: Answers, ghost before: Fleet, ghost checked: Option<Name>) returns (r: Result)
      requires api.Fleet() == PassCheck(before, checked, api.now)
      modifies api`machines, api`log, ec`conditions
      ensures
        var d := RollStep(before.machines, ec.spec, checked);
        && (api.Fleet(), r) == CarryOut(before, ec.spec, api.now, domains, a, d)
        && ec.Value() == MarkRolling(old(ec.Value()))
    {
      ec.conditions := ec.conditions.(specUpToDate := False(RollingUpdateInProgress));
      ec.conditions := ec.conditions.(certificates := False(RollingUpdateInProgress));
      var ok := UpgradeEtcdCluster(ec, a, checked);
      return if ok then DONE else FAILED;
    }

    /** Waits, in a rollout under way, for the newest machine to be ready. */
    method AwaitNewest(ec: EtcdadmClusterCopy, a: Answers)
      returns (proceed: bool, r: Result, ghost checked: Option<Name>)
      requires |api.machines| <= |OutOfDateMachines(api.machines, api.machines.Keys, ec.spec)| + ec.spec.replicas
      modifies api`log
      ensures
        var d := DecideRollout(old(api.machines), old(ec.Value()), api.now, a);
        if proceed then d == RollStep(old(api.machines), ec.spec, checked)
        else (d.WaitForAge? || d.WaitForAddress? || d.WaitForHealth?) && r == ResultOf(d, !d.WaitForHealth?)
      ensures api.log == PassCheck(old(api.Fleet()), if proceed then checked else None, api.now).log
    {
      ghost var d := DecideRollout(api.machines, ec.Value(), api.now, a);
      if ec.conditions.specUpToDate.False? && |UpToDate(api.machines, ec.spec)| > 0 {
        var newest := Newest(api.machines, UpToDate(api.machines, ec.spec));
        var next := api.machines[newest].created + MIN_ETCD_MEMBER_READY_SECONDS;
        if next > api.now {
          assert d == WaitForAge(next - api.now);
          return false, Result(After(next - api.now), false), None;
        }
        var address := GetEtcdMachineAddress(api.machines[newest]);
        if address == "" {
          assert d == WaitForAddress;
          return false, DONE, None;
        }
        if a.gate != Passes {
          assert d == WaitForHealth;
          return false, FAILED, None;
        }
        assert d == RollStep(api.machines, ec.spec, Some(newest));
        api.log := api.log + [PassedCheck(newest, api.now)];
        return true, DONE, Some(newest);
      }
      return true, DONE, None;
    }

    // ----- controller.go: reconcileDelete -----

    method ReconcileDelete(ec: EtcdadmClusterCopy, a: Answers) returns (r: Result)
      modifies api`machines, api`log, ec
      ensures (api.Fleet(), ec.Value(), r) == ReconcileSpec.ReconcileDelete(old(api.Fleet()), old(ec.Value()), a)
    {
      if !a.listing {
        return FAILED;
      }
      if |api.machines| == 0 {
        ec.finalizer := false;
        return DONE;
      }
      var order := Arrange(NotTerminating(api.machines), a.order);
      var errors := false;
      for i := 0 to |order|
        modifies api`machines, api`log
        invariant DeleteEach(old(api.Fleet()), order, a.removals)
               == var (f, ok) := DeleteEach(api.Fleet(), order[i..], a.removals);
                  (f, !errors && ok)
      {
        assert order[i..][0] == order[i] && order[i..][1..] == order[i + 1..];
        var ok := api.Delete(order[i], OutcomeFor(a.removals, order[i]) != DeleteFails);
        if !ok {
          errors := true;
        }
      }
      assert order[|order|..] == [];
      if errors {
        return FAILED;
      }
      ec.conditions := ec.conditions.(resizeCompleted := False(Deleting));
      return Result(After(30), false);
    }

    // ----- status.go and the deferred block -----

    method CheckOwnedMachines(a: Answers) returns (checked: map<Name, EtcdMachine>)
      ensures checked == ReconcileSpec.CheckOwnedMachines(api.machines, a.health)
    {
      var owned := Owned(api.machines);
      checked := map[];
      assert checked == CheckedSoFar(api.machines, a.health, owned);
      while owned != {}
        invariant owned <= Owned(api.machines)
        invariant checked == CheckedSoFar(api.machines, a.health, owned)
        decreases owned
      {
        var n :| n in owned;
        CheckedOneMore(api.machines, a.health, owned, n);
        owned := owned - {n};
        var m := CheckOwnedMachine(api.machines[n], HealthFor(a.health, n));
        checked := checked[n := m];
      }
    }

    method CheckOwnedMachine(machine: Machine, h: Health) returns (m: EtcdMachine)
      ensures m == CheckMachine(machine, h)
    {
      var address := GetEtcdMachineAddress(machine);
      if address == "" {
        return EtcdMachine("", false, false);
      }
      m := EtcdMachine("", false, !h.Passes?);
      if !h.PortClosed? {
        m := m.(endpoint := MemberClientURL(address), listening := true);
      }
    }

    method CountHealthy(checked: map<Name, EtcdMachine>, order: seq<Name>) returns (count: nat)
      requires Visits(order, checked.Keys)
      ensures count == |HealthyMachines(checked)|
    {
      count := 0;
      for i := 0 to |order|
        invariant count == |HealthyAmong(checked, order[..i])|
      {
        HealthyOneMore(checked, order, i);
        if checked[order[i]].Healthy() {
          count := count + 1;
        }
      }
      assert HealthyAmong(checked, order[..|order|]) == HealthyMachines(checked);
    }

    method FindUnhealthy(checked: map<Name, EtcdMachine>, order: seq<Name>) returns (unhealthy: Option<Name>)
      requires forall n :: n in order ==> n in checked
      ensures unhealthy == FirstUnhealthy(checked, order)
    {
      for i := 0 to |order|
        invariant FirstUnhealthy(checked, order) == FirstUnhealthy(checked, order[i..])
      {
        assert order[i..][0] == order[i] && order[i..][1..] == order[i + 1..];
        if !checked[order[i]].Healthy() {
          return Some(order[i]);
        }
      }
      return None;
    }

    method ListEndpoints(checked: map<Name, EtcdMachine>, order: seq<Name>) returns (endpoints: seq<string>)
      requires forall n :: n in order ==> n in checked
      ensures endpoints == Endpoints(checked, order)
    {
      endpoints := [];
      for i := 0 to |order|
        invariant endpoints == Endpoints(checked, order[..i])
      {
        assert order[..i + 1][..i] == order[..i];
        if checked[order[i]].endpoint != "" {
          endpoints := endpoints + [checked[order[i]].endpoint];
        }
      }
      assert order[..|order|] == order;
    }

    method UpdateStatus(ec: EtcdadmClusterCopy, checked: map<Name, EtcdMachine>, a: Answers) returns (ok: bool)
      modifies api`secret, ec`conditions, ec`status
      ensures (ec.Value(), api.secret, ok) == ReconcileSpec.UpdateStatus(old(ec.Value()), old(api.secret), checked, a)
    {
      var order := Arrange(checked.Keys, a.order);
      var readyReplicas := CountHealthy(checked, order);
      ec.status := ec.status.(readyReplicas := readyReplicas);
      if ec.deleting {
        return true;
      }
      if readyReplicas < ec.spec.replicas {
        ec.conditions := ec.conditions.(resizeCompleted := False(ScalingUp));
        ec.status := ec.status.(ready := false);
        return true;
      }
      if readyReplicas > ec.spec.replicas {
        ec.conditions := ec.conditions.(resizeCompleted := False(ScalingDown));
        ec.status := ec.status.(ready := false);
        return true;
      }
      var unhealthy := FindUnhealthy(checked, order);
      if unhealthy.Some? {
        if checked[unhealthy.value].listening {
          ec.status := ec.status.(ready := false);
          return false;
        } else {
          return true;
        }
      }
      ec.conditions := ec.conditions.(resizeCompleted := True);
      ec.status := ec.status.(ready := true);
      ec.conditions := ec.conditions.(endpointsAvailable := True);
      var endpoints := ListEndpoints(checked, order);
      ok := PublishEndpoints(ec, Sort(endpoints), a);
    }

    method PublishEndpoints(ec: EtcdadmClusterCopy, endpoints: seq<string>, a: Answers) returns (ok: bool)
      modifies api`secret, ec`status
      ensures (ec.Value(), api.secret, ok)
           == ReconcileSpec.PublishEndpoints(old(ec.Value()), old(api.secret), endpoints, a)
    {
      var currEndpoints := Join(endpoints);
      if ec.status.endpoints != currEndpoints {
        ec.status := ec.status.(endpoints := currEndpoints);
        if !a.secretRead {
          return false;
        }
        if !a.secretWrite {
          return false;
        }
        var address := if |endpoints| > 0 then MachineAddressFromClientURL(endpoints[0]) else "";
        api.secret := Secret(address, ec.status.endpoints);
      }
      ec.status := ec.status.(creationComplete := true);
      return true;
    }

    method Finish(ec: EtcdadmClusterCopy, res: Result, a: Answers) returns (r: Result)
      modifies api`secret, api`cluster, ec`conditions, ec`status
      ensures (api.World(), r) == ReconcileSpec.Finish(old(api.World()), old(ec.Value()), res, a)
    {
      if !a.statusListing {
        return res.(failed := true);
      }
      var failed := res.failed;
      var checked := CheckOwnedMachines(a);
      if !a.readyLabels {
        failed := true;
      }
      var ok := UpdateStatus(ec, checked, a);
      if !ok {
        failed := true;
      }
      r := Persist(ec, failed, res, a, ok);
    }

    method Persist(ec: EtcdadmClusterCopy, failedSoFar: bool, res: Result, a: Answers, ghost ok: bool) returns (r: Result)
      requires failedSoFar == (res.failed || !a.readyLabels || !ok)
      modifies api`cluster, ec`status
      ensures (api.World(), r) == ReconcileSpec.Persist(old(api.World()), old(ec.Value()), api.secret, ok, res, a)
    {
      var failed := failedSoFar;
      if ec.conditions.specUpToDate.False? && ec.conditions.specUpToDate.reason == RollingUpdateInProgress {
        ec.status := ec.status.(ready := false);
      }
      if a.patch {
        api.cluster := Stored(ec.Value());
      } else {
        failed := true;
      }
      r := res.(failed := failed);
      if !failed && res.requeue.NoRequeue? && !ec.deleting {
        if !ec.status.ready {
          r := Result(After(20), false);
        }
      }
    }
  }

  /** Decisions to wait or to note something touch no machine and no member. */
  lemma WaitingCarries(f: Fleet, spec: Spec, now: int, ds: Domains, a: Answers, d: Decision)
    requires d.LimitReached? || d.WaitForAge? || d.WaitForAddress? || d.WaitForHealth?
          || d.AwaitInit? || d.NoteInit? || d.Settled?
    ensures CarryOut(f, spec, now, ds, a, d) == (f, ResultOf(d, !d.WaitForHealth?))
  {
  }

  lemma ScalingCarries(f: Fleet, spec: Spec, now: int, ds: Domains, a: Answers, d: Decision)
    requires d.ScaleUp? || d.ScaleDown?
    ensures
      var (f', ok) := if d.ScaleUp? then CreateMachine(f, spec, now, ds, a) else RemoveSurplus(f, ds, a);
      CarryOut(f, spec, now, ds, a, d) == (f', if ok then DONE else FAILED)
  {
  }

  /** The bookkeeping on old members has no part in what is decided next. */
  lemma OldMembersDoNotDecide(ms: Machines, ec: EtcdadmCluster, now: int, a: Answers)
    ensures DecideStep(ms, MarkMembers(ms, ec), now, a) == DecideStep(ms, ec, now, a)
  {
    var marked := MarkMembers(ms, ec);
    assert marked.conditions == ec.conditions.(noOutdatedMembers := marked.conditions.noOutdatedMembers);
    RolloutDecidesAlike(ms, ec, marked, now, a);
    ScaleDecidesAlike(ms, ec, marked, a);
  }

  lemma RolloutDecidesAlike(ms: Machines, ec: EtcdadmCluster, other: EtcdadmCluster, now: int, a: Answers)
    requires other.spec == ec.spec && other.conditions.specUpToDate == ec.conditions.specUpToDate
    ensures DecideRollout(ms, other, now, a) == DecideRollout(ms, ec, now, a)
  {
  }

  lemma ScaleDecidesAlike(ms: Machines, ec: EtcdadmCluster, other: EtcdadmCluster, a: Answers)
    requires other.spec == ec.spec && other.status == ec.status
    requires other.conditions.certificates == ec.conditions.certificates
    requires other.conditions.initialized == ec.conditions.initialized
    ensures DecideScale(ms, other, a) == DecideScale(ms, ec, a)
  {
  }

  /** The checks of the owned machines that are not `left` to check. */
  ghost function CheckedSoFar(ms: Machines, health: map<Name, Health>, left: set<Name>): map<Name, EtcdMachine> {
    map n | n in ms && ms[n].owned && n !in left :: CheckMachine(ms[n], HealthFor(health, n))
  }

  lemma CheckedOneMore(ms: Machines, health: map<Name, Health>, left: set<Name>, n: Name)
    requires n in left && left <= Owned(ms)
    ensures CheckedSoFar(ms, health, left - {n})
         == CheckedSoFar(ms, health, left)[n := CheckMachine(ms[n], HealthFor(health, n))]
  {
  }

  ghost function HealthyAmong(checked: map<Name, EtcdMachine>, order: seq<Name>): set<Name> {
    set n | n in order && n in checked && checked[n].Healthy()
  }

  lemma HealthyOneMore(checked: map<Name, EtcdMachine>, order: seq<Name>, i: nat)
    requires i < |order| && Visits(order, checked.Keys)
    ensures |HealthyAmong(checked, order[..i + 1])|
         == |HealthyAmong(checked, order[..i])| + if checked[order[i]].Healthy() then 1 else 0
  {
    var n := order[i];
    assert order[..i + 1] == order[..i] + [n];
    assert n !in order[..i];
    assert HealthyAmong(checked, order[..i + 1])
        == HealthyAmong(checked, order[..i]) + if checked[n].Healthy() then {n} else {};
  }
}
