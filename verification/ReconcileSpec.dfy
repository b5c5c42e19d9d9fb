/** What one Reconcile decides and does, as functions of the state it reads and the answers its
    calls get. The methods of the module Reconciler are proved against these functions. */
module ReconcileSpec {
  import opened Wrappers
  import opened Text
  import opened Machines
  import opened EtcdPlane
  import opened Membership
  import opened Cluster

  const MIN_ETCD_MEMBER_READY_SECONDS := 60

  // ----- Deciding -----

  /** The outcomes of the two switches of `reconcile` and its early returns. A rollout step
      carries the machine whose health check it waited for, if it did. */
  datatype Decision =
    | Unreadable
    | CleanUpOldMembers
    | WholePlaneUnreadable
    | LimitReached
    | WaitForAge(seconds: int)
    | WaitForAddress
    | WaitForHealth
    | RollCreate(checked: Option<Name>)
    | RollDisown(checked: Option<Name>)
    | CertificatesFail
    | Initialize
    | AwaitInit
    | NoteInit
    | ScaleUp
    | ScaleDown
    | Settled
  {
    /** A step of the rollout branch. */
    predicate InRollout() {
      LimitReached? || WaitForAge? || WaitForAddress? || WaitForHealth? || RollCreate? || RollDisown?
    }

    /** A step of the other branch. */
    predicate InScale() {
      CertificatesFail? || Initialize? || AwaitInit? || NoteInit? || ScaleUp? || ScaleDown? || Settled?
    }
  }

  function NeedRollout(ms: Machines, spec: Spec): set<Name> {
    MachinesNeedingRollout(ms, Owned(ms), spec)
  }

  function UpToDate(ms: Machines, spec: Spec): set<Name> {
    UpToDateMachines(ms, Owned(ms), spec)
  }

  /** With one replica the new machine comes before the old one goes; otherwise after. */
  function RollStep(ms: Machines, spec: Spec, checked: Option<Name>): Decision {
    if spec.replicas == 1 then
      if |Owned(ms)| == 1 then RollCreate(checked) else RollDisown(checked)
    else if |Owned(ms)| >= spec.replicas then RollDisown(checked)
    else RollCreate(checked)
  }

  /** Successive steps of a rollout wait for the newest machine to be 60 seconds old and to pass
      a health check. */
  function DecideRollout(ms: Machines, ec: EtcdadmCluster, now: int, a: Answers): (d: Decision)
    ensures d.InRollout()
  {
    if |ms| > |OutOfDateMachines(ms, ms.Keys, ec.spec)| + ec.spec.replicas then LimitReached
    else if ec.conditions.specUpToDate.False? && UpToDate(ms, ec.spec) != {} then
      var newest := Newest(ms, UpToDate(ms, ec.spec));
      var next := ms[newest].created + MIN_ETCD_MEMBER_READY_SECONDS;
      if next > now then WaitForAge(next - now)
      else if EtcdMachineAddress(ms[newest]) == "" then WaitForAddress
      else if a.gate != Passes then WaitForHealth
      else RollStep(ms, ec.spec, Some(newest))
    else RollStep(ms, ec.spec, None)
  }

  function DecideScale(ms: Machines, ec: EtcdadmCluster, a: Answers): (d: Decision)
    ensures d.InScale()
  {
    if ec.conditions.certificates.False? && !a.certificates then CertificatesFail
    else if |Owned(ms)| < ec.spec.replicas && |Owned(ms)| == 0 then Initialize
    else if |Owned(ms)| > 0 && ec.conditions.initialized.False? then
      if ec.status.initialized then NoteInit else AwaitInit
    else if |Owned(ms)| < ec.spec.replicas then ScaleUp
    else if |Owned(ms)| > ec.spec.replicas then ScaleDown
    else Settled
  }

  function Decide(ms: Machines, ec: EtcdadmCluster, now: int, a: Answers): Decision {
    if !(a.externalReference && a.listing && a.ownedPlane) then Unreadable
    else if Unowned(ms) != {} && ec.controlPlaneUpgraded then CleanUpOldMembers
    else DecideStep(ms, ec, now, a)
  }

  /** A rollout takes precedence over scaling. */
  function DecideStep(ms: Machines, ec: EtcdadmCluster, now: int, a: Answers): Decision {
    if !a.wholePlane then WholePlaneUnreadable
    else if NeedRollout(ms, ec.spec) != {} then DecideRollout(ms, ec, now, a)
    else DecideScale(ms, ec, a)
  }

  // ----- Marking the EtcdadmCluster -----

  /** `r` differs from `ec` in conditions and annotations only. */
  predicate OnlyMarked(ec: EtcdadmCluster, r: EtcdadmCluster) {
    && r.spec == ec.spec && r.finalizer == ec.finalizer && r.deleting == ec.deleting && r.paused == ec.paused
    && r.retries == ec.retries && r.status == ec.status
  }

  /** The bookkeeping on machines that are no longer owned. */
  function MarkMembers(ms: Machines, ec: EtcdadmCluster): (r: EtcdadmCluster)
    ensures OnlyMarked(ec, r)
  {
    if Unowned(ms) != {} then
      if ec.conditions.noOutdatedMembers.False? then ec
      else ec.(conditions := ec.conditions.(noOutdatedMembers := False(HasOutdatedMembers)))
    else
      ec.(controlPlaneUpgraded := false,
          conditions := if ec.conditions.noOutdatedMembers.False? then ec.conditions.(noOutdatedMembers := True)
                        else ec.conditions)
  }

  /** The end of a rollout: nothing needs one any more. */
  function MarkRolledOut(ec: EtcdadmCluster): (r: EtcdadmCluster)
    ensures OnlyMarked(ec, r)
  {
    if ec.conditions.specUpToDate.Unknown? then ec
    else ec.(upgrading := false, conditions := ec.conditions.(specUpToDate := True))
  }

  function MarkCertificates(ec: EtcdadmCluster): (r: EtcdadmCluster)
    ensures OnlyMarked(ec, r)
  {
    if ec.conditions.certificates.False? then ec.(conditions := ec.conditions.(certificates := True)) else ec
  }

  function MarkRollout(ec: EtcdadmCluster, d: Decision): (r: EtcdadmCluster)
    ensures OnlyMarked(ec, r)
  {
    match d
    case LimitReached =>
      ec.(conditions := ec.conditions.(specUpToDate := False(MaxNumberOfMachinesReached)))
    case RollCreate(_) => MarkRolling(ec)
    case RollDisown(_) => MarkRolling(ec)
    case _ => ec
  }

  function MarkRolling(ec: EtcdadmCluster): (r: EtcdadmCluster)
    ensures OnlyMarked(ec, r)
  {
    ec.(conditions := ec.conditions.(
      specUpToDate := False(RollingUpdateInProgress),
      certificates := False(RollingUpdateInProgress)))
  }

  function MarkScale(ec: EtcdadmCluster, d: Decision, a: Answers): (r: EtcdadmCluster)
    ensures OnlyMarked(ec, r)
  {
    if d.CertificatesFail? then MarkRolledOut(ec)
    else MarkResize(MarkCertificates(MarkRolledOut(ec)), d, a)
  }

  function MarkResize(ec: EtcdadmCluster, d: Decision, a: Answers): (r: EtcdadmCluster)
    ensures OnlyMarked(ec, r)
  {
    match d
    case Initialize =>
      ec.(conditions := ec.conditions.(
        initialized := False(WaitingForEtcdadmInit),
        endpointsAvailable := False(WaitingForEndpoints),
        certificates := if a.firstCertificates then True else ec.conditions.certificates))
    case NoteInit => ec.(conditions := ec.conditions.(initialized := True))
    case Settled => ec.(upgrading := false)
    case _ => ec
  }

  function MarkStep(ec: EtcdadmCluster, d: Decision, a: Answers): (r: EtcdadmCluster)
    ensures OnlyMarked(ec, r)
  {
    if d.InRollout() then MarkRollout(ec, d)
    else if d.InScale() then MarkScale(ec, d, a)
    else ec
  }

  function Mark(ms: Machines, ec: EtcdadmCluster, d: Decision, a: Answers): (r: EtcdadmCluster)
    ensures OnlyMarked(ec, r)
  {
    if d.Unreadable? then ec
    else if d.CleanUpOldMembers? then MarkMembers(ms, ec)
    else MarkStep(MarkMembers(ms, ec), d, a)
  }

  // ----- Acting -----

  /** A machine generated from the spec, owned, in the given failure domain. */
  function NewMachine(spec: Spec, now: int, domain: string): Machine {
    Machine(true, Some(spec.config), Some(spec.template), false, now, domain, false, [])
  }

  /** Creation fails when a call fails or the generated name is taken. */
  function CreateMachine(f: Fleet, spec: Spec, now: int, ds: Domains, a: Answers): (Fleet, bool) {
    if !a.creation || a.newName in f.machines then (f, false)
    else
      var domain := NextFailureDomainForScaleUp(f.machines, Owned(f.machines), spec, ds);
      (f.(machines := f.machines[a.newName := NewMachine(spec, now, domain)],
          log := f.log + [Created(a.newName, now)]), true)
  }

  function DisownMachine(f: Fleet, spec: Spec, ds: Domains, a: Answers): (Fleet, bool) {
    var selected := SelectMachineForScaleDown(f.machines, Owned(f.machines), NeedRollout(f.machines, spec), ds);
    if selected.None? || !a.disowning then (f, false)
    else
      var n := selected.value;
      (f.(machines := f.machines[n := f.machines[n].(owned := false)], log := f.log + [Disowned(n)]), true)
  }

  function RemoveSurplus(f: Fleet, ds: Domains, a: Answers): (Fleet, bool) {
    var selected := SelectMachineForScaleDown(f.machines, Owned(f.machines), {}, ds);
    if selected.None? then (f, false)
    else
      var n := selected.value;
      RemoveEtcdMachine(f, selected, EtcdMachineAddress(f.machines[n]), OutcomeFor(a.removals, n))
  }

  /** The removals of a loop over old machines, which ends at the first error. `listed` is the
      listing the loop ranges over. */
  function RemoveEach(f: Fleet, listed: Machines, order: seq<Name>, removals: map<Name, RemovalOutcome>): (Fleet, bool)
    requires forall n :: n in order ==> n in listed
    decreases order
  {
    if order == [] then (f, true)
    else
      var n := order[0];
      var (f, ok) := RemoveEtcdMachine(f, Some(n), EtcdMachineAddress(listed[n]), OutcomeFor(removals, n));
      if ok then RemoveEach(f, listed, order[1..], removals) else (f, false)
  }

  function PassCheck(f: Fleet, checked: Option<Name>, now: int): Fleet {
    if checked.Some? then f.(log := f.log + [PassedCheck(checked.value, now)]) else f
  }

  function Act(f: Fleet, spec: Spec, now: int, ds: Domains, a: Answers, d: Decision): (Fleet, bool) {
    if d.InScale() then ActScale(f, spec, now, ds, a, d)
    else
      match d
      case CleanUpOldMembers => RemoveEach(f, f.machines, Arrange(Unowned(f.machines), a.order), a.removals)
      case RollCreate(checked) => CreateMachine(PassCheck(f, checked, now), spec, now, ds, a)
      case RollDisown(checked) => DisownMachine(PassCheck(f, checked, now), spec, ds, a)
      case _ => (f, !d.Unreadable? && !d.WholePlaneUnreadable? && !d.WaitForHealth?)
  }

  function ActScale(f: Fleet, spec: Spec, now: int, ds: Domains, a: Answers, d: Decision): (Fleet, bool) {
    match d
    case Initialize => if a.firstCertificates then CreateMachine(f, spec, now, ds, a) else (f, false)
    case ScaleUp => CreateMachine(f, spec, now, ds, a)
    case ScaleDown => RemoveSurplus(f, ds, a)
    case _ => (f, !d.CertificatesFail?)
  }

  function ResultOf(d: Decision, ok: bool): Result {
    if !ok then FAILED
    else
      match d
      case CleanUpOldMembers => Result(Immediately, false)
      case WaitForAge(seconds) => Result(After(seconds), false)
      case _ => DONE
  }

  function CarryOut(f: Fleet, spec: Spec, now: int, ds: Domains, a: Answers, d: Decision): (Fleet, Result) {
    var (f, ok) := Act(f, spec, now, ds, a, d);
    (f, ResultOf(d, ok))
  }

  /** `reconcile`. */
  function ReconcileNormal(f: Fleet, ec: EtcdadmCluster, now: int, ds: Domains, a: Answers)
    : (Fleet, EtcdadmCluster, Result)
  {
    var d := Decide(f.machines, ec, now, a);
    var (f', r) := CarryOut(f, ec.spec, now, ds, a, d);
    (f', Mark(f.machines, ec, d, a), r)
  }

  // ----- Tearing down -----

  /** The delete requests of `reconcileDelete`, which goes on after an error. */
  function DeleteEach(f: Fleet, order: seq<Name>, removals: map<Name, RemovalOutcome>): (Fleet, bool)
    decreases order
  {
    if order == [] then (f, true)
    else
      var (f, ok) := DeleteMachine(f, Some(order[0]), OutcomeFor(removals, order[0]) != DeleteFails);
      var (f, rest) := DeleteEach(f, order[1..], removals);
      (f, ok && rest)
  }

  function NotTerminating(ms: Machines): set<Name> {
    set n | n in ms && !ms[n].terminating
  }

  /** `reconcileDelete`. */
  function ReconcileDelete(f: Fleet, ec: EtcdadmCluster, a: Answers): (Fleet, EtcdadmCluster, Result) {
    if !a.listing then (f, ec, FAILED)
    else if |f.machines| == 0 then (f, ec.(finalizer := false), DONE)
    else
      var (f, ok) := DeleteEach(f, Arrange(NotTerminating(f.machines), a.order), a.removals);
      if !ok then (f, ec, FAILED)
      else (f, ec.(conditions := ec.conditions.(resizeCompleted := False(Deleting))), Result(After(30), false))
  }

  // ----- The deferred status block -----

  /** An owned machine as the status block sees it; `failed` says that its check returned an
      error. */
  datatype EtcdMachine = EtcdMachine(endpoint: string, listening: bool, failed: bool) {
    predicate Healthy() {
      listening && !failed
    }
  }

  function CheckMachine(m: Machine, h: Health): EtcdMachine {
    var endpoint := MachineEtcdEndpoint(m);
    if endpoint == "" then EtcdMachine("", false, false)
    else
      match h
      case Passes => EtcdMachine(endpoint, true, false)
      case Fails => EtcdMachine(endpoint, true, true)
      case PortClosed => EtcdMachine("", false, true)
  }

  function CheckOwnedMachines(ms: Machines, health: map<Name, Health>): map<Name, EtcdMachine> {
    map n | n in ms && ms[n].owned :: CheckMachine(ms[n], HealthFor(health, n))
  }

  function HealthyMachines(checked: map<Name, EtcdMachine>): set<Name> {
    set n | n in checked && checked[n].Healthy()
  }

  /** The endpoints of the machines that have one, in the order given. */
  function Endpoints(checked: map<Name, EtcdMachine>, order: seq<Name>): seq<string>
    requires forall n :: n in order ==> n in checked
  {
    if order == [] then []
    else
      var last := checked[order[|order| - 1]].endpoint;
      var rest := Endpoints(checked, order[..|order| - 1]);
      if last == "" then rest else rest + [last]
  }

  function FirstUnhealthy(checked: map<Name, EtcdMachine>, order: seq<Name>): (n: Option<Name>)
    requires forall n :: n in order ==> n in checked
    ensures n.Some? ==> n.value in order && !checked[n.value].Healthy()
    ensures n.None? ==> forall k :: k in order ==> checked[k].Healthy()
  {
    if order == [] then None
    else if !checked[order[0]].Healthy() then Some(order[0])
    else FirstUnhealthy(checked, order[1..])
  }

  /** The endpoint string: sorted, joined by commas. */
  function CanonicalEndpoints(checked: map<Name, EtcdMachine>, order: seq<Name>): string
    requires forall n :: n in order ==> n in checked
  {
    Join(Sort(Endpoints(checked, order)))
  }

  /** The end of `updateStatus`, once as many machines as asked for are all healthy. */
  function PublishEndpoints(ec: EtcdadmCluster, secret: Secret, endpoints: seq<string>, a: Answers)
    : (EtcdadmCluster, Secret, bool)
  {
    var joined := Join(endpoints);
    if ec.status.endpoints == joined then
      (ec.(status := ec.status.(creationComplete := true)), secret, true)
    else
      var ec := ec.(status := ec.status.(endpoints := joined));
      if !a.secretRead || !a.secretWrite then (ec, secret, false)
      else
        var address := if endpoints == [] then "" else MachineAddressFromClientURL(endpoints[0]);
        (ec.(status := ec.status.(creationComplete := true)), Secret(address, joined), true)
  }

  /** `updateStatus`. */
  function UpdateStatus(ec: EtcdadmCluster, secret: Secret, checked: map<Name, EtcdMachine>, a: Answers)
    : (EtcdadmCluster, Secret, bool)
  {
    var healthy := |HealthyMachines(checked)|;
    var order := Arrange(checked.Keys, a.order);
    var ec := ec.(status := ec.status.(readyReplicas := healthy));
    if ec.deleting then (ec, secret, true)
    else if healthy != ec.spec.replicas then
      var reason := if healthy < ec.spec.replicas then ScalingUp else ScalingDown;
      (ec.(conditions := ec.conditions.(resizeCompleted := False(reason)), status := ec.status.(ready := false)),
       secret, true)
    else
      var unhealthy := FirstUnhealthy(checked, order);
      if unhealthy.Some? then
        if checked[unhealthy.value].listening then (ec.(status := ec.status.(ready := false)), secret, false)
        else (ec, secret, true)
      else
        var ec := ec.(conditions := ec.conditions.(resizeCompleted := True, endpointsAvailable := True),
                      status := ec.status.(ready := true));
        PublishEndpoints(ec, secret, Sort(Endpoints(checked, order)), a)
  }

  /** What is in the API server after the patch of `ec`: an object that is being deleted and has
      no finalizer left is gone. */
  function Stored(ec: EtcdadmCluster): Option<EtcdadmCluster> {
    if ec.deleting && !ec.finalizer then None else Some(ec)
  }

  /** The patch at the end of a Reconcile, and what it returns. `ok` says that the status block
      returned no error. */
  function Persist(w: World, ec: EtcdadmCluster, secret: Secret, ok: bool, r: Result, a: Answers): (World, Result) {
    var ec := if ec.Rolling() then ec.(status := ec.status.(ready := false)) else ec;
    var w := w.(secret := secret, cluster := if a.patch then Stored(ec) else w.cluster);
    var failed := r.failed || !a.readyLabels || !ok || !a.patch;
    if !failed && r.requeue.NoRequeue? && !ec.deleting && !ec.status.ready then (w, Result(After(20), false))
    else (w, r.(failed := failed))
  }

  /** The deferred block of `Reconcile`, from the EtcdadmCluster in memory and the result of the
      main part. A listing that fails leaves the stored object as it was. */
  function Finish(w: World, ec: EtcdadmCluster, r: Result, a: Answers): (World, Result) {
    if !a.statusListing then (w, r.(failed := true))
    else
      var (ec, secret, ok) := UpdateStatus(ec, w.secret, CheckOwnedMachines(w.machines, a.health), a);
      Persist(w, ec, secret, ok, r, a)
  }

  // ----- Reconcile -----

  function EarlyResult(e: Entry): Result {
    match e
    case GetFails => FAILED
    case OwnerLookupFails => FAILED
    case InfrastructureNotReady => Result(After(5), false)
    case NoPatchHelper => Result(Immediately, false)
    case _ => DONE
  }

  function ReconcileStep(w: World, ds: Domains, a: Answers): (World, Result) {
    if w.cluster.None? then (w, if a.entry.GetFails? then FAILED else DONE)
    else if a.entry != Proceeds then (w, EarlyResult(a.entry))
    else
      var ec := w.cluster.value;
      if !ec.finalizer then
        if a.patch then (w.(cluster := Some(ec.(finalizer := true))), DONE) else (w, FAILED)
      else
        var (f, ec, r) :=
          if ec.deleting then ReconcileDelete(w.Fleet(), ec, a) else ReconcileNormal(w.Fleet(), ec, w.now, ds, a);
        Finish(w.WithFleet(f), ec, r, a)
  }
}
