/** The endpoint string of the status: one string for one collection of endpoints, complete when
    Ready is set, and the same in the Secret as long as the calls that write them succeed together. */
module Canonical {
  import opened Text
  import opened Machines
  import opened EtcdPlane
  import opened Cluster
  import opened ReconcileSpec
  import opened Runs
  import opened Effects
  import opened Ready
  import opened Bootstrap

  // ----- The string -----

  /** The machines that contribute the endpoint. */
  function Having(checked: map<Name, EtcdMachine>, u: string): set<Name> {
    set n | n in checked && checked[n].endpoint == u
  }

  function HavingIn(checked: map<Name, EtcdMachine>, order: seq<Name>, u: string): set<Name>
    requires forall n :: n in order ==> n in checked
  {
    set n | n in order && checked[n].endpoint == u
  }

  lemma {:induction false} EndpointsCount(checked: map<Name, EtcdMachine>, order: seq<Name>, u: string)
    requires forall n :: n in order ==> n in checked
    requires forall i, j :: 0 <= i < j < |order| ==> order[i] != order[j]
    ensures multiset(Endpoints(checked, order))[u] == if u == "" then 0 else |HavingIn(checked, order, u)|
  {
    if order == [] {
      assert HavingIn(checked, order, u) == {};
    } else {
      var most, last := order[..|order| - 1], order[|order| - 1];
      EndpointsCount(checked, most, u);
      assert last !in most;
      LastHaving(checked, most, last, u);
      assert most + [last] == order;
    }
  }

  lemma LastHaving(checked: map<Name, EtcdMachine>, most: seq<Name>, last: Name, u: string)
    requires (forall n :: n in most ==> n in checked) && last in checked && last !in most
    ensures |HavingIn(checked, most + [last], u)|
         == |HavingIn(checked, most, u)| + if checked[last].endpoint == u then 1 else 0
  {
    var before := HavingIn(checked, most, u);
    if checked[last].endpoint == u {
      assert HavingIn(checked, most + [last], u) == before + {last};
      AddOne(before, last);
    } else {
      assert HavingIn(checked, most + [last], u) == before;
    }
  }

  /** Each endpoint is listed once for each machine that contributes it, whatever the order of the
      loop over the map. */
  lemma EndpointsListed(checked: map<Name, EtcdMachine>, order: seq<Name>, u: string)
    requires Visits(order, checked.Keys)
    ensures multiset(Endpoints(checked, order))[u] == if u == "" then 0 else |Having(checked, u)|
  {
    EndpointsCount(checked, order, u);
    assert HavingIn(checked, order, u) == Having(checked, u);
  }

  lemma OrderDoesNotMatter(checked: map<Name, EtcdMachine>, order: seq<Name>, other: seq<Name>)
    requires Visits(order, checked.Keys) && Visits(other, checked.Keys)
    ensures CanonicalEndpoints(checked, order) == CanonicalEndpoints(checked, other)
  {
    var a, b := Endpoints(checked, order), Endpoints(checked, other);
    forall u ensures multiset(a)[u] == multiset(b)[u] {
      EndpointsListed(checked, order, u);
      EndpointsListed(checked, other, u);
    }
    assert multiset(a) == multiset(b);
    SortedUnique(Sort(a), Sort(b));
  }

  /** The strings an endpoint list is made of: not empty and free of commas. */
  ghost predicate Listable(urls: seq<string>) {
    forall u :: u in urls ==> u != "" && ',' !in u
  }

  lemma SortKeeps(urls: seq<string>, u: string)
    ensures u in Sort(urls) <==> u in urls
  {
    assert u in Sort(urls) <==> u in multiset(Sort(urls));
    assert u in urls <==> u in multiset(urls);
  }

  lemma SortListable(urls: seq<string>)
    requires Listable(urls)
    ensures Listable(Sort(urls))
  {
    forall u | u in Sort(urls) ensures u != "" && ',' !in u {
      SortKeeps(urls, u);
    }
  }

  /** Two collections of endpoints have the same string exactly when they are the same
      collection; and splitting the string, as the etcd client does, gives the sorted list. */
  lemma StringsAreCanonical(a: seq<string>, b: seq<string>)
    requires Listable(a) && Listable(b)
    ensures Join(Sort(a)) == Join(Sort(b)) <==> multiset(a) == multiset(b)
    ensures a != [] ==> Split(Join(Sort(a))) == Sort(a)
  {
    SortListable(a);
    SortListable(b);
    SplitJoin(Sort(a));
    SplitJoin(Sort(b));
    assert Listable([""]) ==> "" in [""];
    if multiset(a) == multiset(b) {
      SortedUnique(Sort(a), Sort(b));
    } else if Join(Sort(a)) == Join(Sort(b)) {
      SplitsApart(Sort(a), Sort(b));
    }
  }

  lemma SplitsApart(a: seq<string>, b: seq<string>)
    requires Listable(a) && Listable(b)
    requires (if a == [] then [""] else a) == (if b == [] then [""] else b)
    ensures a == b
  {
    assert a != [] ==> a[0] in a;
    assert b != [] ==> b[0] in b;
  }

  // ----- What a Ready status says -----

  predicate CommaFree(ms: Machines) {
    forall n :: n in ms ==> ',' !in EtcdMachineAddress(ms[n])
  }

  /** Clients reach the machine at the URL: over https, at etcd's client port. */
  predicate ServesAt(m: Machine, u: string) {
    EtcdMachineAddress(m) != "" && u == "https://" + EtcdMachineAddress(m) + ":2379"
  }

  function Serving(ms: Machines, u: string): set<Name> {
    set n | n in ms && ms[n].owned && ServesAt(ms[n], u)
  }

  /** The string lists the endpoints of all owned machines, in ascending order. */
  ghost predicate Lists(s: string, ms: Machines) {
    && Sorted(Split(s)) && |Split(s)| == |Owned(ms)|
    && forall u :: u != "" ==> multiset(Split(s))[u] == |Serving(ms, u)|
  }

  lemma {:induction false} AllContribute(checked: map<Name, EtcdMachine>, order: seq<Name>)
    requires forall n :: n in order ==> n in checked && checked[n].endpoint != ""
    ensures |Endpoints(checked, order)| == |order|
    ensures forall u :: u in Endpoints(checked, order) ==> exists n :: n in order && checked[n].endpoint == u
  {
    if order != [] {
      var most, last := order[..|order| - 1], order[|order| - 1];
      AllContribute(checked, most);
      forall u | u in Endpoints(checked, order) ensures exists n :: n in order && checked[n].endpoint == u {
        if u in Endpoints(checked, most) {
          var n :| n in most && checked[n].endpoint == u;
          assert n in order;
        } else {
          assert checked[last].endpoint == u;
        }
      }
    }
  }

  lemma HealthyEndpoint(ms: Machines, health: map<Name, Health>, n: Name)
    requires n in Owned(ms) && CheckOwnedMachines(ms, health)[n].Healthy()
    ensures CheckOwnedMachines(ms, health)[n].endpoint == MachineEtcdEndpoint(ms[n]) != ""
    ensures MachineEtcdEndpoint(ms[n]) == MemberClientURL(EtcdMachineAddress(ms[n]))
  {
  }

  lemma {:induction false} OrderSize(order: seq<Name>, keys: set<Name>)
    requires Visits(order, keys)
    ensures |order| == |keys|
    decreases |order|
  {
    if order == [] {
      assert keys == {};
    } else {
      var most, last := order[..|order| - 1], order[|order| - 1];
      assert order == most + [last];
      assert last !in most;
      OrderSize(most, keys - {last});
      assert last in keys;
    }
  }

  lemma NoComma(address: string)
    requires ',' !in address
    ensures ',' !in MemberClientURL(address)
  {
  }

  lemma HealthyLists(ms: Machines, health: map<Name, Health>, order: seq<Name>)
    requires CommaFree(ms) && Owned(ms) != {}
    requires Visits(order, CheckOwnedMachines(ms, health).Keys)
    requires forall n :: n in CheckOwnedMachines(ms, health) ==> CheckOwnedMachines(ms, health)[n].Healthy()
    ensures Lists(CanonicalEndpoints(CheckOwnedMachines(ms, health), order), ms)
  {
    var checked := CheckOwnedMachines(ms, health);
    var urls := Endpoints(checked, order);
    assert checked.Keys == Owned(ms);
    forall n | n in Owned(ms)
      ensures checked[n].endpoint == MachineEtcdEndpoint(ms[n]) != "" && ',' !in checked[n].endpoint
    {
      HealthyEndpoint(ms, health, n);
      NoComma(EtcdMachineAddress(ms[n]));
    }
    AllContribute(checked, order);
    OrderSize(order, checked.Keys);
    StringsAreCanonical(urls, urls);
    forall u | u != "" ensures multiset(Sort(urls))[u] == |Serving(ms, u)| {
      OwnedHaving(ms, checked, order, u);
    }
  }

  lemma OwnedHaving(ms: Machines, checked: map<Name, EtcdMachine>, order: seq<Name>, u: string)
    requires Visits(order, checked.Keys) && checked.Keys == Owned(ms) && u != ""
    requires forall n :: n in checked ==> checked[n].endpoint == MachineEtcdEndpoint(ms[n])
    ensures multiset(Sort(Endpoints(checked, order)))[u] == |Serving(ms, u)|
  {
    EndpointsListed(checked, order, u);
    forall n ensures n in Having(checked, u) <==> n in Serving(ms, u) {
      if n in Owned(ms) {
        assert MachineEtcdEndpoint(ms[n]) == u <==> ServesAt(ms[n], u);
      }
    }
    assert Having(checked, u) == Serving(ms, u);
  }

  /** With all machines healthy the endpoint string in the status is the canonical one. */
  lemma PublishedString(ec: EtcdadmCluster, secret: Secret, checked: map<Name, EtcdMachine>, a: Answers)
    requires !ec.deleting && AllHealthy(ec, checked)
    ensures UpdateStatus(ec, secret, checked, a).0.status.endpoints
         == CanonicalEndpoints(checked, Arrange(checked.Keys, a.order))
  {
    StatusPublishes(ec, secret, checked, a);
  }

  lemma FinishPublishes(w: World, ec: EtcdadmCluster, r: Result, a: Answers)
    requires !ec.deleting && Persisted(a) && CommaFree(w.machines) && ec.spec.Valid()
    requires !ec.status.ready && Finish(w, ec, r, a).0.cluster.Some? && Finish(w, ec, r, a).0.cluster.value.status.ready
    ensures Lists(Finish(w, ec, r, a).0.cluster.value.status.endpoints, w.machines)
    ensures AllHealthy(ec, CheckOwnedMachines(w.machines, a.health))
  {
    var checked := CheckOwnedMachines(w.machines, a.health);
    StatusKeeps(ec, w.secret, checked, a);
    ReadyTable(ec, w.secret, checked, a);
    PublishedString(ec, w.secret, checked, a);
    assert checked.Keys == Owned(w.machines);
    assert |checked| == |checked.Keys|;
    HealthyLists(w.machines, a.health, Arrange(checked.Keys, a.order));
  }

  /** When a Reconcile newly sets Ready, exactly N machines are owned, all of them healthy, and
      the endpoint string splits into the endpoints of exactly these machines. */
  lemma ReadyIsComplete(w: World, ds: Domains, a: Answers)
    requires Live(w) && a.entry == Proceeds && w.cluster.value.spec.Valid() && !w.cluster.value.status.ready
    ensures
      var w' := ReconcileStep(w, ds, a).0;
      && w'.cluster.Some?
      && (w'.cluster.value.status.ready && CommaFree(w'.machines) ==>
            && |Owned(w'.machines)| == w.cluster.value.spec.replicas
            && AllOwnedHealthy(w', a) && Lists(w'.cluster.value.status.endpoints, w'.machines))
  {
    var w' := ReconcileStep(w, ds, a).0;
    var ec := w.cluster.value;
    var d, marked' := ReconcileLive(w, ds, a);
    var (f, marked, r) := ReconcileNormal(w.Fleet(), ec, w.now, ds, a);
    FinishFrame(w.WithFleet(f), marked, r, a);
    if w'.cluster.value.status.ready && CommaFree(w'.machines) {
      FinishPublishes(w.WithFleet(f), marked, r, a);
      HealthyMeans(w', marked, a);
    }
  }

  // ----- The status and the Secret -----

  predicate Agrees(w: World) {
    w.cluster.Some? ==> w.cluster.value.status.endpoints == w.secret.clientUrls
  }

  /** The status block comes to write a new endpoint string. */
  ghost predicate Publishes(ec: EtcdadmCluster, ms: Machines, a: Answers) {
    var checked := CheckOwnedMachines(ms, a.health);
    && a.statusListing && !ec.deleting && AllHealthy(ec, checked)
    && ec.status.endpoints != CanonicalEndpoints(checked, Arrange(checked.Keys, a.order))
  }

  lemma StatusWrites(ec: EtcdadmCluster, secret: Secret, ms: Machines, a: Answers)
    requires a.statusListing
    ensures
      var checked := CheckOwnedMachines(ms, a.health);
      var (ec', secret', ok) := UpdateStatus(ec, secret, checked, a);
      if !Publishes(ec, ms, a) then ec'.status.endpoints == ec.status.endpoints && secret' == secret
      else ec'.status.endpoints == CanonicalEndpoints(checked, Arrange(checked.Keys, a.order))
           && (if a.secretRead && a.secretWrite then secret'.clientUrls == ec'.status.endpoints else secret' == secret)
  {
    var checked := CheckOwnedMachines(ms, a.health);
    if ec.deleting || !AllHealthy(ec, checked) {
      StatusIdles(ec, secret, checked, a);
    } else {
      StatusPublishes(ec, secret, checked, a);
      var urls := Sort(Endpoints(checked, Arrange(checked.Keys, a.order)));
      var ec' := ec.(conditions := ec.conditions.(resizeCompleted := True, endpointsAvailable := True),
                     status := ec.status.(readyReplicas := |HealthyMachines(checked)|, ready := true));
      PublishWrites(ec', secret, urls, a);
    }
  }

  /** What the deferred block leaves in the API server. */
  lemma FinishWrites(w: World, ec: EtcdadmCluster, r: Result, a: Answers)
    requires w.cluster.Some? && ec.status == w.cluster.value.status && a.statusListing
    ensures
      var w' := Finish(w, ec, r, a).0;
      var (ec', secret', ok) := UpdateStatus(ec, w.secret, CheckOwnedMachines(w.machines, a.health), a);
      && w'.secret == secret' && w'.machines == w.machines
      && (w'.cluster.Some? ==>
            w'.cluster.value.status.endpoints == if a.patch then ec'.status.endpoints else ec.status.endpoints)
      && (!ec.deleting ==> w'.cluster.Some?)
  {
    StatusKeeps(ec, w.secret, CheckOwnedMachines(w.machines, a.health), a);
  }

  lemma FinishAgrees(w: World, ec: EtcdadmCluster, r: Result, a: Answers)
    requires w.cluster.Some? && ec.status == w.cluster.value.status && Agrees(w) && !ec.deleting
    ensures Agrees(Finish(w, ec, r, a).0) <==>
              (Publishes(ec, w.machines, a) ==> (a.secretRead && a.secretWrite <==> a.patch))
  {
    if a.statusListing {
      StatusWrites(ec, w.secret, w.machines, a);
      FinishWrites(w, ec, r, a);
    }
  }

  /** From a state where the status and the Secret agree, a Reconcile keeps them so if and only if
      it has no new endpoint string to write, or writes it to both or to neither. */
  lemma AgreementIsExact(w: World, ds: Domains, a: Answers)
    requires Live(w) && a.entry == Proceeds && Agrees(w)
    ensures
      var w' := ReconcileStep(w, ds, a).0;
      Agrees(w') <==> (Publishes(w.cluster.value, w'.machines, a) ==> (a.secretRead && a.secretWrite <==> a.patch))
  {
    var ec := w.cluster.value;
    var (f, marked, r) := ReconcileNormal(w.Fleet(), ec, w.now, ds, a);
    FinishFrame(w.WithFleet(f), marked, r, a);
    FinishAgrees(w.WithFleet(f), marked, r, a);
  }

  lemma DeletingAgrees(w: World, ds: Domains, a: Answers)
    requires w.cluster.Some? && w.cluster.value.finalizer && w.cluster.value.deleting && a.entry == Proceeds && Agrees(w)
    ensures Agrees(ReconcileStep(w, ds, a).0)
  {
    var (f, ec, r) := ReconcileDelete(w.Fleet(), w.cluster.value, a);
    if a.statusListing {
      StatusWrites(ec, w.secret, f.machines, a);
      FinishWrites(w.WithFleet(f), ec, r, a);
    }
  }

  /** The Secret and the EtcdadmCluster are both written, or neither is. */
  ghost predicate WritesTogether(w: World, e: Event) {
    e.Reconciled? ==> (e.a.secretRead && e.a.secretWrite <==> e.a.patch)
  }

  lemma StepAgrees(w: World, ds: Domains, e: Event)
    requires Agrees(w) && Possible(w, e) && WritesTogether(w, e)
    ensures Agrees(Apply(w, ds, e))
  {
    if e.Reconciled? {
      if w.cluster.Some? && w.cluster.value.finalizer && e.a.entry == Proceeds {
        if w.cluster.value.deleting {
          DeletingAgrees(w, ds, e.a);
        } else {
          AgreementIsExact(w, ds, e.a);
        }
      }
    } else {
      EventAgrees(w, ds, e);
    }
  }

  lemma EventAgrees(w: World, ds: Domains, e: Event)
    requires Agrees(w) && Possible(w, e) && !e.Reconciled?
    ensures Agrees(Apply(w, ds, e))
  {
  }

  /** In every run in which the Secret's calls and the patch succeed or fail together, the Secret
      that joining machines read names the endpoints of the status. */
  lemma {:induction false} SecretAgrees(w0: World, ds: Domains, es: seq<Event>)
    requires Agrees(w0) && PossibleRun(w0, ds, es) && Along(w0, ds, es, WritesTogether)
    ensures Agrees(Run(w0, ds, es))
  {
    if es != [] {
      SecretAgrees(w0, ds, es[..|es| - 1]);
      StepAgrees(Run(w0, ds, es[..|es| - 1]), ds, es[|es| - 1]);
    }
  }

  /** The owned machines are those of `ms0`, at their addresses. */
  ghost predicate SameOwned(ms0: Machines, ms: Machines) {
    && Owned(ms) == Owned(ms0)
    && forall n :: n in Owned(ms0) ==> EtcdMachineAddress(ms[n]) == EtcdMachineAddress(ms0[n])
  }

  /** The event leaves the same machines owned. */
  ghost function LeavesOwned(ms0: Machines, ds: Domains): (World, Event) -> bool {
    (w, e) => Possible(w, e) ==> SameOwned(ms0, Apply(w, ds, e).machines) && !e.DeletionRequested?
  }

  /** The status has the string, and the Secret another one. */
  ghost predicate Stale(w: World, published: string, secret: Secret) {
    && w.cluster.Some? && !w.cluster.value.deleting
    && w.cluster.value.status.endpoints == published != secret.clientUrls && w.secret == secret
  }

  /** `published` is the string of the machines of `ms0` when they are healthy. */
  ghost predicate IsStringOf(published: string, ms0: Machines) {
    forall health: map<Name, Health>, order: seq<Name> ::
      && Visits(order, CheckOwnedMachines(ms0, health).Keys)
      && (forall n :: n in CheckOwnedMachines(ms0, health) ==> CheckOwnedMachines(ms0, health)[n].Healthy())
      ==> CanonicalEndpoints(CheckOwnedMachines(ms0, health), order) == published
  }

  lemma SameChecks(ms0: Machines, ms: Machines, health: map<Name, Health>)
    requires SameOwned(ms0, ms)
    ensures CheckOwnedMachines(ms, health) == CheckOwnedMachines(ms0, health)
  {
    var checked, checked0 := CheckOwnedMachines(ms, health), CheckOwnedMachines(ms0, health);
    forall n ensures n in checked <==> n in checked0 {
      assert n in checked <==> n in Owned(ms);
      assert n in checked0 <==> n in Owned(ms0);
    }
    forall n | n in checked ensures checked[n] == checked0[n] {
      SameCheck(ms[n], ms0[n], HealthFor(health, n));
    }
  }

  lemma SameCheck(m: Machine, m': Machine, h: Health)
    requires MachineEtcdEndpoint(m) == MachineEtcdEndpoint(m')
    ensures CheckMachine(m, h) == CheckMachine(m', h)
  {
  }

  lemma NothingNew(ec: EtcdadmCluster, ms0: Machines, ms: Machines, published: string, a: Answers)
    requires SameOwned(ms0, ms) && IsStringOf(published, ms0) && ec.status.endpoints == published
    ensures !Publishes(ec, ms, a)
  {
    SameChecks(ms0, ms, a.health);
  }

  lemma StaysStale(w: World, ds: Domains, a: Answers, ms0: Machines, published: string, secret: Secret)
    requires Stale(w, published, secret) && IsStringOf(published, ms0)
    requires SameOwned(ms0, ReconcileStep(w, ds, a).0.machines)
    ensures Stale(ReconcileStep(w, ds, a).0, published, secret)
  {
    if w.cluster.value.finalizer && a.entry == Proceeds {
      var (f, marked, r) := ReconcileNormal(w.Fleet(), w.cluster.value, w.now, ds, a);
      FinishLeavesMachines(w.WithFleet(f), marked, r, a);
      NothingNew(marked, ms0, f.machines, published, a);
      if a.statusListing {
        StatusWrites(marked, w.secret, f.machines, a);
        FinishStale(w.WithFleet(f), marked, r, a);
      }
    }
  }

  lemma FinishStale(w: World, ec: EtcdadmCluster, r: Result, a: Answers)
    requires w.cluster.Some? && ec.status == w.cluster.value.status && a.statusListing && !ec.deleting
    requires !w.cluster.value.deleting
    ensures
      var w' := Finish(w, ec, r, a).0;
      var (ec', secret', ok) := UpdateStatus(ec, w.secret, CheckOwnedMachines(w.machines, a.health), a);
      && w'.secret == secret' && w'.cluster.Some? && !w'.cluster.value.deleting
      && w'.cluster.value.status.endpoints == if a.patch then ec'.status.endpoints else ec.status.endpoints
  {
    FinishWrites(w, ec, r, a);
    StatusKeeps(ec, w.secret, CheckOwnedMachines(w.machines, a.health), a);
  }

  lemma EventStale(w: World, ds: Domains, e: Event, published: string, secret: Secret)
    requires Stale(w, published, secret) && Possible(w, e) && !e.Reconciled? && !e.DeletionRequested?
    ensures Stale(Apply(w, ds, e), published, secret)
  {
  }

  lemma {:induction false} StaleAlong(
    w1: World, ds: Domains, es: seq<Event>, ms0: Machines, published: string, secret: Secret)
    requires Stale(w1, published, secret) && IsStringOf(published, ms0)
    requires PossibleRun(w1, ds, es) && Along(w1, ds, es, LeavesOwned(ms0, ds))
    ensures Stale(Run(w1, ds, es), published, secret)
  {
    if es != [] {
      var most, e := es[..|es| - 1], es[|es| - 1];
      StaleAlong(w1, ds, most, ms0, published, secret);
      assert LeavesOwned(ms0, ds)(Run(w1, ds, most), e);
      if e.Reconciled? {
        StaysStale(Run(w1, ds, most), ds, e.a, ms0, published, secret);
      } else {
        EventStale(Run(w1, ds, most), ds, e, published, secret);
      }
    }
  }

  /** A Secret that missed an update is never repaired while the same machines are owned: once the
      status has the string, the Secret stays as it is in every run that follows, whatever calls
      succeed. */
  lemma StaleSecretStays(w: World, ds: Domains, a: Answers, es: seq<Event>)
    requires Live(w) && a.entry == Proceeds && Agrees(w) && Persisted(a) && !(a.secretRead && a.secretWrite)
    requires Publishes(w.cluster.value, ReconcileStep(w, ds, a).0.machines, a)
    requires
      var w1 := ReconcileStep(w, ds, a).0;
      PossibleRun(w1, ds, es) && Along(w1, ds, es, LeavesOwned(w1.machines, ds))
    ensures
      var w2 := Run(ReconcileStep(w, ds, a).0, ds, es);
      w2.secret == w.secret && !Agrees(w2)
  {
    var w1 := ReconcileStep(w, ds, a).0;
    FirstMisses(w, ds, a);
    StaleAlong(w1, ds, es, w1.machines, w1.cluster.value.status.endpoints, w.secret);
  }

  lemma FirstMisses(w: World, ds: Domains, a: Answers)
    requires Live(w) && a.entry == Proceeds && Agrees(w) && Persisted(a) && !(a.secretRead && a.secretWrite)
    requires Publishes(w.cluster.value, ReconcileStep(w, ds, a).0.machines, a)
    ensures
      var w1 := ReconcileStep(w, ds, a).0;
      && w1.cluster.Some? && Stale(w1, w1.cluster.value.status.endpoints, w.secret)
      && IsStringOf(w1.cluster.value.status.endpoints, w1.machines)
  {
    var (f, marked, r) := ReconcileNormal(w.Fleet(), w.cluster.value, w.now, ds, a);
    FinishStale(w.WithFleet(f), marked, r, a);
    FinishLeavesMachines(w.WithFleet(f), marked, r, a);
    StatusWrites(marked, w.secret, f.machines, a);
    CanonicalIsString(f.machines, a);
  }

  lemma CanonicalIsString(ms: Machines, a: Answers)
    requires forall n :: n in CheckOwnedMachines(ms, a.health) ==> CheckOwnedMachines(ms, a.health)[n].Healthy()
    ensures
      var checked := CheckOwnedMachines(ms, a.health);
      IsStringOf(CanonicalEndpoints(checked, Arrange(checked.Keys, a.order)), ms)
  {
    var checked := CheckOwnedMachines(ms, a.health);
    forall health: map<Name, Health>, order: seq<Name> |
      && Visits(order, CheckOwnedMachines(ms, health).Keys)
      && (forall n :: n in CheckOwnedMachines(ms, health) ==> CheckOwnedMachines(ms, health)[n].Healthy())
      ensures CanonicalEndpoints(CheckOwnedMachines(ms, health), order)
           == CanonicalEndpoints(checked, Arrange(checked.Keys, a.order))
    {
      SameWhenHealthy(ms, a.health, health);
      OrderDoesNotMatter(checked, order, Arrange(checked.Keys, a.order));
    }
  }

  lemma SameWhenHealthy(ms: Machines, h: map<Name, Health>, h': map<Name, Health>)
    requires forall n :: n in CheckOwnedMachines(ms, h) ==> CheckOwnedMachines(ms, h)[n].Healthy()
    requires forall n :: n in CheckOwnedMachines(ms, h') ==> CheckOwnedMachines(ms, h')[n].Healthy()
    ensures CheckOwnedMachines(ms, h) == CheckOwnedMachines(ms, h')
  {
    var checked, checked' := CheckOwnedMachines(ms, h), CheckOwnedMachines(ms, h');
    forall n | n in checked ensures checked[n] == checked'[n] {
      HealthyEndpoint(ms, h, n);
      HealthyEndpoint(ms, h', n);
    }
  }

  lemma {:induction false} EveryOneListed(checked: map<Name, EtcdMachine>, order: seq<Name>, n: Name)
    requires (forall k :: k in order ==> k in checked) && n in order && checked[n].endpoint != ""
    ensures checked[n].endpoint in Endpoints(checked, order)
  {
    var most, last := order[..|order| - 1], order[|order| - 1];
    if n != last {
      EveryOneListed(checked, most, n);
    }
  }

  /** When the Secret is written it names the address of an owned machine for newcomers to join, the
      one whose URL comes first, provided addresses are free of URL delimiters. */
  lemma SecretNamesAMember(ec: EtcdadmCluster, secret: Secret, ms: Machines, a: Answers) returns (n: Name)
    requires Publishes(ec, ms, a) && a.secretRead && a.secretWrite && ec.spec.Valid()
    requires forall k :: k in ms ==> Plain(EtcdMachineAddress(ms[k]))
    ensures n in Owned(ms)
    ensures UpdateStatus(ec, secret, CheckOwnedMachines(ms, a.health), a).1.address == EtcdMachineAddress(ms[n])
    ensures forall k :: k in Owned(ms) ==>
              LexLe(MemberClientURL(EtcdMachineAddress(ms[n])), MemberClientURL(EtcdMachineAddress(ms[k])))
  {
    var checked := CheckOwnedMachines(ms, a.health);
    var order := Arrange(checked.Keys, a.order);
    var urls := Endpoints(checked, order);
    assert checked.Keys == Owned(ms);
    assert |checked| == |checked.Keys|;
    forall k | k in checked ensures checked[k].endpoint == MachineEtcdEndpoint(ms[k]) != "" {
      HealthyEndpoint(ms, a.health, k);
    }
    AllContribute(checked, order);
    OrderSize(order, checked.Keys);
    n := FirstContributor(checked, order);
    HealthyEndpoint(ms, a.health, n);
    HostOfPlain(EtcdMachineAddress(ms[n]));
    SecretWritten(ec, secret, checked, a);
    forall k | k in Owned(ms)
      ensures LexLe(MemberClientURL(EtcdMachineAddress(ms[n])), MemberClientURL(EtcdMachineAddress(ms[k])))
    {
      HealthyEndpoint(ms, a.health, k);
      EveryOneListed(checked, order, k);
      FirstIsLeast(urls, checked[k].endpoint);
    }
  }

  lemma FirstIsLeast(urls: seq<string>, u: string)
    requires u in urls
    ensures Sort(urls) != [] && LexLe(Sort(urls)[0], u)
  {
    assert u in multiset(Sort(urls));
    var i :| 0 <= i < |Sort(urls)| && Sort(urls)[i] == u;
    LexTotal(u, u);
  }

  lemma FirstContributor(checked: map<Name, EtcdMachine>, order: seq<Name>) returns (n: Name)
    requires (forall k :: k in order ==> k in checked) && Endpoints(checked, order) != []
    requires forall u :: u in Endpoints(checked, order) ==> exists k :: k in order && checked[k].endpoint == u
    ensures n in order && checked[n].endpoint == Sort(Endpoints(checked, order))[0]
  {
    var urls := Endpoints(checked, order);
    SortKeeps(urls, Sort(urls)[0]);
    n :| n in order && checked[n].endpoint == Sort(urls)[0];
  }

  lemma SecretWritten(ec: EtcdadmCluster, secret: Secret, checked: map<Name, EtcdMachine>, a: Answers)
    requires !ec.deleting && AllHealthy(ec, checked) && a.secretRead && a.secretWrite
    requires ec.status.endpoints != CanonicalEndpoints(checked, Arrange(checked.Keys, a.order))
    requires Endpoints(checked, Arrange(checked.Keys, a.order)) != []
    ensures UpdateStatus(ec, secret, checked, a).1.address
         == MachineAddressFromClientURL(Sort(Endpoints(checked, Arrange(checked.Keys, a.order)))[0])
  {
    StatusPublishes(ec, secret, checked, a);
  }
}
