/** Which machines are up to date, which machine to give up, and where the next one goes. */
module EtcdPlane {
  import opened Wrappers
  import opened Machines

  /** The failure domains of the cluster, with the two choices Cluster API makes among them:
      `most` from the domain of each owned machine and the machines eligible for removal,
      `fewest` from the domain of each up-to-date machine. */
  datatype Domains = Domains(
    names: seq<string>,
    most: (map<Name, string>, set<Name>) -> string,
    fewest: map<Name, string> -> string)

  /** PickMost finds a domain that holds an eligible machine. */
  ghost predicate PicksEligible(d: Domains) {
    forall domainOf: map<Name, string>, eligible: set<Name> ::
      eligible != {} && eligible <= domainOf.Keys && (forall n :: n in eligible ==> domainOf[n] in d.names)
      ==> exists n :: n in eligible && domainOf[n] == d.most(domainOf, eligible)
  }

  function InDomain(domainOf: map<Name, string>, domain: string): set<Name> {
    set n | n in domainOf && domainOf[n] == domain
  }

  /** PickFewest finds a least-populated domain. */
  ghost predicate PicksLeastPopulated(d: Domains) {
    forall domainOf: map<Name, string> :: d.names != [] ==>
      && d.fewest(domainOf) in d.names
      && forall f :: f in d.names ==> |InDomain(domainOf, d.fewest(domainOf))| <= |InDomain(domainOf, f)|
  }

  ghost function AnEligible(domainOf: map<Name, string>, eligible: set<Name>): string {
    if n :| n in eligible && n in domainOf then domainOf[n] else ""
  }

  ghost function ALeastPopulated(names: seq<string>, domainOf: map<Name, string>): string {
    if f :| f in names && forall g :: g in names ==> |InDomain(domainOf, f)| <= |InDomain(domainOf, g)| then f else ""
  }

  lemma {:induction false} LeastPopulatedExists(names: seq<string>, domainOf: map<Name, string>) returns (f: string)
    requires names != []
    ensures f in names && forall g :: g in names ==> |InDomain(domainOf, f)| <= |InDomain(domainOf, g)|
  {
    f := names[0];
    if |names| > 1 {
      var least := LeastPopulatedExists(names[1..], domainOf);
      f := if |InDomain(domainOf, names[0])| <= |InDomain(domainOf, least)| then names[0] else least;
    }
    assert forall g :: g in names ==> g == names[0] || g in names[1..];
  }

  /** Choices that meet both contracts exist, whatever the failure domains. */
  lemma ChoicesExist(names: seq<string>) returns (d: Domains)
    ensures d.names == names && PicksEligible(d) && PicksLeastPopulated(d)
  {
    d := Domains(names, AnEligible, domainOf => ALeastPopulated(names, domainOf));
    if names != [] {
      forall domainOf: map<Name, string>
        ensures ALeastPopulated(names, domainOf) in names
        ensures forall f :: f in names ==> |InDomain(domainOf, ALeastPopulated(names, domainOf))| <= |InDomain(domainOf, f)|
      {
        var f := LeastPopulatedExists(names, domainOf);
      }
    }
  }

  function DomainOf(ms: Machines, ns: set<Name>): map<Name, string> {
    map n | n in ns && n in ms :: ms[n].domain
  }

  // ----- Matching the spec -----

  /** A configuration or template that cannot be found counts as matching. */
  predicate Matches(m: Machine, spec: Spec) {
    && (m.config.None? || m.config.value == spec.config)
    && (m.template.None? || m.template.value == spec.template)
  }

  function MachinesNeedingRollout(ms: Machines, ns: set<Name>, spec: Spec): (r: set<Name>)
    ensures r <= ns && r <= ms.Keys
  {
    set n | n in ns && n in ms && !ms[n].terminating && !Matches(ms[n], spec)
  }

  function OutOfDateMachines(ms: Machines, ns: set<Name>, spec: Spec): set<Name> {
    set n | n in ns && n in ms && !Matches(ms[n], spec)
  }

  /** Whatever does not need a rollout, which takes in outdated machines that are terminating. */
  function UpToDateMachines(ms: Machines, ns: set<Name>, spec: Spec): set<Name> {
    ns - MachinesNeedingRollout(ms, ns, spec)
  }

  /** All machines that match the spec, owned or not. */
  function Matching(ms: Machines, spec: Spec): set<Name> {
    set n | n in ms && Matches(ms[n], spec)
  }

  /** The upper limit on machines during a rollout says that the matching machines, owned or
      not, are more than the replicas asked for. */
  lemma LimitMeansMatching(ms: Machines, spec: Spec)
    ensures |ms| > |OutOfDateMachines(ms, ms.Keys, spec)| + spec.replicas <==> |Matching(ms, spec)| > spec.replicas
  {
    var outdated := OutOfDateMachines(ms, ms.Keys, spec);
    assert ms.Keys == outdated + Matching(ms, spec);
    assert |ms.Keys| == |outdated| + |Matching(ms, spec)|;
  }

  // ----- Choosing a machine to give up -----

  function MachinesWithDeleteAnnotation(ms: Machines, ns: set<Name>): (r: set<Name>)
    ensures r <= ns
  {
    set n | n in ns && n in ms && ms[n].deleteAnnotated
  }

  /** The machines of a pool that are in none of the cluster's failure domains. */
  function Elsewhere(ms: Machines, pool: set<Name>, d: Domains): set<Name>
    requires pool <= ms.Keys
  {
    set n | n in pool && ms[n].domain !in d.names
  }

  function InFailureDomain(ms: Machines, pool: set<Name>, domain: string): set<Name>
    requires pool <= ms.Keys
  {
    set n | n in pool && ms[n].domain == domain
  }

  function FailureDomainWithMostMachines(ms: Machines, owned: set<Name>, pool: set<Name>, d: Domains): string
    requires pool <= ms.Keys
  {
    var elsewhere := Elsewhere(ms, pool, d);
    if elsewhere != {} then ms[Oldest(ms, elsewhere)].domain
    else d.most(DomainOf(ms, owned), pool)
  }

  function MachineInFailureDomainWithMostMachines(ms: Machines, owned: set<Name>, pool: set<Name>, d: Domains)
    : Option<Name>
    requires pool <= ms.Keys
  {
    var domain := FailureDomainWithMostMachines(ms, owned, pool, d);
    var inDomain := InFailureDomain(ms, pool, domain);
    if inDomain == {} then None else Some(Oldest(ms, inDomain))
  }

  /** The pool of highest priority that is not empty. */
  function Pool(ms: Machines, owned: set<Name>, outdated: set<Name>): (pool: set<Name>)
    ensures pool <= owned + outdated
    ensures owned + outdated != {} ==> pool != {} || outdated == {} == owned
  {
    if MachinesWithDeleteAnnotation(ms, outdated) != {} then MachinesWithDeleteAnnotation(ms, outdated)
    else if MachinesWithDeleteAnnotation(ms, owned) != {} then MachinesWithDeleteAnnotation(ms, owned)
    else if outdated != {} then outdated
    else owned
  }

  function SelectMachineForScaleDown(ms: Machines, owned: set<Name>, outdated: set<Name>, d: Domains): Option<Name>
    requires owned <= ms.Keys && outdated <= ms.Keys
  {
    MachineInFailureDomainWithMostMachines(ms, owned, Pool(ms, owned, outdated), d)
  }

  lemma PoolIsOutdated(ms: Machines, owned: set<Name>, outdated: set<Name>)
    requires owned <= ms.Keys && outdated <= owned
    ensures
      var annotatedOutdated := MachinesWithDeleteAnnotation(ms, outdated);
      var annotated := MachinesWithDeleteAnnotation(ms, owned);
      if outdated == {} || (annotatedOutdated == {} && annotated != {})
      then Pool(ms, owned, outdated) !! outdated
      else Pool(ms, owned, outdated) <= outdated
  {
    assert forall n :: n in outdated && ms[n].deleteAnnotated ==> n in MachinesWithDeleteAnnotation(ms, outdated);
  }

  /** Selection always finds a machine: the oldest of its failure domain in the pool of highest
      priority. It is outdated whenever some machine is, unless the only annotated machines are
      not outdated. */
  lemma SelectionIsTotal(ms: Machines, owned: set<Name>, outdated: set<Name>, d: Domains)
    requires owned <= ms.Keys && outdated <= owned && owned != {}
    requires PicksEligible(d)
    ensures
      var pool := Pool(ms, owned, outdated);
      var r := SelectMachineForScaleDown(ms, owned, outdated, d);
      && r.Some? && r.value in pool
      && (forall n :: n in pool && ms[n].domain == ms[r.value].domain ==> Before(ms, r.value, n))
      && (r.value !in outdated <==>
          || outdated == {}
          || (MachinesWithDeleteAnnotation(ms, outdated) == {} && MachinesWithDeleteAnnotation(ms, owned) != {}))
  {
    var pool := Pool(ms, owned, outdated);
    assert pool != {};
    var elsewhere := Elsewhere(ms, pool, d);
    var domain := FailureDomainWithMostMachines(ms, owned, pool, d);
    var inDomain := InFailureDomain(ms, pool, domain);
    var domainOf := DomainOf(ms, owned);
    if elsewhere == {} {
      assert forall n :: n in pool ==> n !in elsewhere;
      assert forall n :: n in pool ==> domainOf[n] in d.names;
      assert pool <= domainOf.Keys;
      var n :| n in pool && domainOf[n] == d.most(domainOf, pool);
      assert n in inDomain;
    } else {
      assert Oldest(ms, elsewhere) in inDomain;
    }
    PoolIsOutdated(ms, owned, outdated);
    var r := SelectMachineForScaleDown(ms, owned, outdated, d);
    assert r == Some(Oldest(ms, inDomain));
    assert forall n :: n in pool && ms[n].domain == domain ==> n in inDomain;
  }

  // ----- Placing a new machine -----

  function NextFailureDomainForScaleUp(ms: Machines, owned: set<Name>, spec: Spec, d: Domains): string {
    if d.names == [] then ""
    else d.fewest(DomainOf(ms, UpToDateMachines(ms, owned, spec)))
  }
}
