/** The EtcdadmCluster object, the state shared by the controller's two loops, and what the
    calls that leave the controller can answer. */
module Cluster {
  import opened Wrappers
  import opened Machines
  import opened Membership

  // ----- The EtcdadmCluster -----

  datatype Reason =
    | RollingUpdateInProgress
    | MaxNumberOfMachinesReached
    | WaitingForEtcdadmInit
    | WaitingForEndpoints
    | HasOutdatedMembers
    | ScalingUp
    | ScalingDown
    | Deleting

  /** A condition that was never set is Unknown. */
  datatype Condition = Unknown | True | False(reason: Reason)

  datatype Conditions = Conditions(
    specUpToDate: Condition,
    certificates: Condition,
    initialized: Condition,
    noOutdatedMembers: Condition,
    resizeCompleted: Condition,
    endpointsAvailable: Condition)

  datatype Status = Status(
    ready: bool,
    readyReplicas: nat,
    initialized: bool,
    creationComplete: bool,
    endpoints: string)

  /** The health check retries annotation; where it is no number in range, with the number that
      parsing returns beside its error. */
  datatype Retries = NotSet | Number(n: int) | Invalid(parsed: int)

  datatype EtcdadmCluster = EtcdadmCluster(
    spec: Spec,
    finalizer: bool,
    deleting: bool,
    paused: bool,
    controlPlaneUpgraded: bool,
    upgrading: bool,
    retries: Retries,
    conditions: Conditions,
    status: Status)
  {
    /** The last persisted step of this cluster belonged to a rollout. */
    predicate Rolling() {
      conditions.specUpToDate == False(RollingUpdateInProgress)
    }
  }

  /** The Secret that tells joining machines where etcd is. */
  datatype Secret = Secret(address: string, clientUrls: string)

  /** The API server's objects, the etcd membership, the clock in seconds, and the log of the
      controller's effects. `cluster` is None once the EtcdadmCluster is gone. */
  datatype World = World(
    cluster: Option<EtcdadmCluster>,
    machines: Machines,
    members: seq<Member>,
    secret: Secret,
    now: int,
    log: seq<Action>)
  {
    function Fleet(): Fleet {
      Membership.Fleet(machines, members, log)
    }

    function WithFleet(f: Fleet): World {
      this.(machines := f.machines, members := f.members, log := f.log)
    }
  }

  // ----- What calls can answer -----

  /** How far a Reconcile gets before it looks at the EtcdadmCluster's own state. */
  datatype Entry = GetFails | OwnerLookupFails | NoOwner | InfrastructureNotReady | Paused | NoPatchHelper | Proceeds

  datatype Health = Passes | Fails | PortClosed

  /** The answers given to one Reconcile: a false field is a call that fails. `order` is the
      order wished for in loops over machines, `newName` the name generated for a machine. */
  datatype Answers = Answers(
    entry: Entry,
    externalReference: bool,
    listing: bool,
    ownedPlane: bool,
    wholePlane: bool,
    certificates: bool,
    firstCertificates: bool,
    creation: bool,
    newName: Name,
    disowning: bool,
    gate: Health,
    order: seq<Name>,
    removals: map<Name, RemovalOutcome>,
    statusListing: bool,
    health: map<Name, Health>,
    readyLabels: bool,
    secretRead: bool,
    secretWrite: bool,
    patch: bool)

  function OutcomeFor<K>(outcomes: map<K, RemovalOutcome>, k: K): RemovalOutcome {
    if k in outcomes then outcomes[k] else Succeeds
  }

  function HealthFor(health: map<Name, Health>, n: Name): Health {
    if n in health then health[n] else PortClosed
  }

  // ----- What a Reconcile returns -----

  datatype Requeue = NoRequeue | Immediately | After(seconds: int)

  datatype Result = Result(requeue: Requeue, failed: bool)

  const DONE := Result(NoRequeue, false)
  const FAILED := Result(NoRequeue, true)
}
