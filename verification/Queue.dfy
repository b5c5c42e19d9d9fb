/** The removal queue of the health checker: which entries a round leaves in it, how they come back,
    and what the round reports. */
module Queue {
  import opened Wrappers
  import opened Text
  import opened Machines
  import opened Membership
  import opened Cluster
  import opened HealthCheck
  import opened Removals
  import opened Counters

  // ----- Turns -----

  /** The removal loop's turns take every entry of the queue once. */
  ghost predicate Turns(c: Checker, order: seq<string>) {
    && (forall e :: e in order ==> e in c.toRemove)
    && forall i, j :: 0 <= i < j < |order| ==> order[i] != order[j]
  }

  /** What the first `k` turns make of the fleet. */
  function FleetAt(
    f: Fleet, c: Checker, order: seq<string>, replicas: nat, removals: map<string, RemovalOutcome>, k: nat): Fleet
    requires Turns(c, order) && k <= |order|
  {
    RemoveQueued(f, c, order[..k], replicas, removals).0
  }

  /** The `k`th turn finds fewer than N active machines. */
  ghost predicate Waits(
    f: Fleet, c: Checker, order: seq<string>, replicas: nat, removals: map<string, RemovalOutcome>, k: nat)
    requires Turns(c, order) && k < |order|
  {
    |ActiveOwned(FleetAt(f, c, order, replicas, removals, k).machines)| < replicas
  }

  /** The removal of the `k`th turn reports an error. */
  ghost predicate Errs(
    f: Fleet, c: Checker, order: seq<string>, replicas: nat, removals: map<string, RemovalOutcome>, k: nat)
    requires Turns(c, order) && k < |order|
  {
    && !Waits(f, c, order, replicas, removals, k)
    && RemovalFails(FleetAt(f, c, order, replicas, removals, k), Some(c.toRemove[order[k]]),
                    MachineAddressFromClientURL(order[k]), OutcomeFor(removals, order[k]))
  }

  /** After a removal loop an entry is in the queue if and only if its turn waited or its removal
      reported an error. */
  lemma {:induction false} EntryIsExact(
    f: Fleet, c: Checker, order: seq<string>, replicas: nat, removals: map<string, RemovalOutcome>, k: nat)
    requires Turns(c, order) && Distinct(f.members) && k < |order|
    ensures order[k] in RemoveQueued(f, c, order, replicas, removals).1.toRemove
       <==> Waits(f, c, order, replicas, removals, k) || Errs(f, c, order, replicas, removals, k)
    decreases |order|
  {
    if k < |order| - 1 {
      EntryIsExact(f, c, order[..|order| - 1], replicas, removals, k);
      EarlierTurn(f, c, order, replicas, removals, k);
      EarlierEntry(f, c, order, replicas, removals, k);
    } else {
      LastTurn(f, c, order, replicas, removals);
    }
  }

  lemma EarlierEntry(
    f: Fleet, c: Checker, order: seq<string>, replicas: nat, removals: map<string, RemovalOutcome>, k: nat)
    requires Turns(c, order) && Distinct(f.members) && k < |order| - 1
    ensures order[k] in RemoveQueued(f, c, order, replicas, removals).1.toRemove
       <==> order[k] in RemoveQueued(f, c, order[..|order| - 1], replicas, removals).1.toRemove
  {
    LastTurn(f, c, order, replicas, removals);
    assert order[k] != order[|order| - 1];
  }

  /** No removal reports an error. */
  ghost predicate NoneErrs(
    f: Fleet, c: Checker, order: seq<string>, replicas: nat, removals: map<string, RemovalOutcome>)
    requires Turns(c, order)
  {
    order == []
    || (NoneErrs(f, c, order[..|order| - 1], replicas, removals) && !Errs(f, c, order, replicas, removals, |order| - 1))
  }

  /** And the loop reports an error if and only if some removal did. */
  lemma {:induction false} LoopErrs(
    f: Fleet, c: Checker, order: seq<string>, replicas: nat, removals: map<string, RemovalOutcome>)
    requires Turns(c, order) && Distinct(f.members)
    ensures RemoveQueued(f, c, order, replicas, removals).2 <==> NoneErrs(f, c, order, replicas, removals)
    decreases |order|
  {
    if order != [] {
      LastTurn(f, c, order, replicas, removals);
      LoopErrs(f, c, order[..|order| - 1], replicas, removals);
    }
  }

  lemma EarlierTurn(
    f: Fleet, c: Checker, order: seq<string>, replicas: nat, removals: map<string, RemovalOutcome>, k: nat)
    requires Turns(c, order) && k < |order| - 1
    ensures
      var most := order[..|order| - 1];
      && order[k] == most[k]
      && (Waits(f, c, order, replicas, removals, k) <==> Waits(f, c, most, replicas, removals, k))
      && (Errs(f, c, order, replicas, removals, k) <==> Errs(f, c, most, replicas, removals, k))
  {
    assert order[..k] == order[..|order| - 1][..k];
  }

  lemma LastTurn(f: Fleet, c: Checker, order: seq<string>, replicas: nat, removals: map<string, RemovalOutcome>)
    requires Turns(c, order) && order != [] && Distinct(f.members)
    ensures
      var last := |order| - 1;
      var (g, d, before) := RemoveQueued(f, c, order[..last], replicas, removals);
      var (f', c', ok) := RemoveQueued(f, c, order, replicas, removals);
      && (order[last] in c'.toRemove
          <==> Waits(f, c, order, replicas, removals, last) || Errs(f, c, order, replicas, removals, last))
      && (forall e :: e != order[last] ==> (e in c'.toRemove <==> e in d.toRemove))
      && (ok <==> before && !Errs(f, c, order, replicas, removals, last))
  {
    var last := |order| - 1;
    var (g, d, before) := RemoveQueued(f, c, order[..last], replicas, removals);
    assert order[last] !in order[..last];
    TurnsAreSafe(f, c, order[..last], replicas, removals);
    RemovalIsExact(g, Some(c.toRemove[order[last]]), MachineAddressFromClientURL(order[last]),
                   OutcomeFor(removals, order[last]));
  }

  // ----- Rounds -----

  /** The entry `e` was in the queue after the checks of a round that came to removals, and found N
      active machines at its turn; its removal met no error. */
  ghost predicate RemovedWell(w: World, c: Checker, a: RoundAnswers, order: seq<string>, e: string)
    requires Removes(w, c, a) ==> Visits(order, Checked(c, w.machines, w.cluster.value, a).toRemove.Keys)
  {
    && Removes(w, c, a)
    && var checked, replicas := Checked(c, w.machines, w.cluster.value, a), w.cluster.value.spec.replicas;
    exists k :: 0 <= k < |order| && order[k] == e
             && !Waits(w.Fleet(), checked, order, replicas, a.removals, k)
             && !Errs(w.Fleet(), checked, order, replicas, a.removals, k)
  }

  /** Some removal of the round reported an error. */
  ghost predicate RoundErrs(w: World, c: Checker, a: RoundAnswers, order: seq<string>)
    requires Removes(w, c, a) ==> Visits(order, Checked(c, w.machines, w.cluster.value, a).toRemove.Keys)
  {
    && Removes(w, c, a)
    && !NoneErrs(w.Fleet(), Checked(c, w.machines, w.cluster.value, a), order, w.cluster.value.spec.replicas, a.removals)
  }

  /** What a round leaves in the queue of what its checks put there, in any order and with any
      errors: exactly the entries that were not removed without error. */
  lemma EntriesLeft(w: World, c: Checker, a: RoundAnswers, order: seq<string>, e: string)
    requires !Passed(w, a) && Distinct(w.members)
    requires Removes(w, c, a) ==> Visits(order, Checked(c, w.machines, w.cluster.value, a).toRemove.Keys)
    requires e in Checked(c, w.machines, w.cluster.value, a).toRemove
    ensures e in Round(w, c, a, order).1.toRemove <==> !RemovedWell(w, c, a, order, e)
  {
    if Removes(w, c, a) {
      LoopLeaves(w.Fleet(), Checked(c, w.machines, w.cluster.value, a), order, w.cluster.value.spec.replicas, a.removals, e);
    }
  }

  lemma LoopLeaves(
    f: Fleet, c: Checker, order: seq<string>, replicas: nat, removals: map<string, RemovalOutcome>, e: string)
    requires Visits(order, c.toRemove.Keys) && Distinct(f.members) && e in c.toRemove
    ensures e !in RemoveQueued(f, c, order, replicas, removals).1.toRemove
       <==> exists k :: 0 <= k < |order| && order[k] == e && !Waits(f, c, order, replicas, removals, k)
                        && !Errs(f, c, order, replicas, removals, k)
  {
    var k :| 0 <= k < |order| && order[k] == e;
    EntryIsExact(f, c, order, replicas, removals, k);
    OnlyPlace(order, e, k);
  }

  lemma OnlyPlace(order: seq<string>, e: string, k: nat)
    requires (forall i, j :: 0 <= i < j < |order| ==> order[i] != order[j]) && k < |order| && order[k] == e
    ensures forall j :: 0 <= j < |order| && order[j] == e ==> j == k
  {
  }

  /** What a round reports: Ready turns false exactly when it finds something queued, meets no error
      in its removals, and can update the status. Nothing else in the EtcdadmCluster changes. */
  lemma RoundReports(w: World, c: Checker, a: RoundAnswers, order: seq<string>)
    requires w.cluster.Some? && Distinct(w.members)
    requires Removes(w, c, a) ==> Visits(order, Checked(c, w.machines, w.cluster.value, a).toRemove.Keys)
    ensures
      var ec, w' := w.cluster.value, Round(w, c, a, order).0;
      var unsets := && !Passed(w, a) && Checked(c, w.machines, ec, a).toRemove != map[]
                    && !RoundErrs(w, c, a, order) && a.statusUpdate;
      w'.cluster == if unsets then Some(ec.(status := ec.status.(ready := false))) else w.cluster
  {
    if Removes(w, c, a) {
      var checked := Checked(c, w.machines, w.cluster.value, a);
      LoopErrs(w.Fleet(), checked, order, w.cluster.value.spec.replicas, a.removals);
    }
  }

  /** A round in which a machine gets its deletion timestamp, no removal reports an error and the
      status can be updated leaves Ready false. */
  lemma RemovalUnsetsReady(w: World, c: Checker, a: RoundAnswers, order: seq<string>, n: Name)
    requires w.cluster.Some? && Distinct(w.members) && a.statusUpdate
    requires Removes(w, c, a) ==> Visits(order, Checked(c, w.machines, w.cluster.value, a).toRemove.Keys)
    requires Dies(w.machines, Round(w, c, a, order).0.machines, n) && !RoundErrs(w, c, a, order)
    ensures Round(w, c, a, order).0.cluster.Some? && !Round(w, c, a, order).0.cluster.value.status.ready
  {
    RoundReports(w, c, a, order);
  }

  /** The failures in a row that are too many: 5, or what the annotation says or parses to. */
  function TooMany(retries: Retries): int {
    match retries
    case NotSet => 5
    case Number(n) => n
    case Invalid(parsed) => parsed
  }

  /** In the round the owned machine `n` at `e` failed, for as many rounds in a row as are too many. */
  ghost predicate FailsTooOften(h: seq<Look>, w: World, a: RoundAnswers, e: string, n: Name)
    requires w.cluster.Some?
  {
    && n in w.machines && w.machines[n].owned && MachineEtcdEndpoint(w.machines[n]) == e != ""
    && HealthFor(a.health, n) != Passes && Streak(h, e) + 1 >= TooMany(w.cluster.value.retries)
  }

  lemma CheckedEntry(c: Checker, h: seq<Look>, w: World, a: RoundAnswers, e: string)
    requires w.cluster.Some? && OwnAddresses(w.machines) && CountersTell(c, h)
    ensures
      e in Checked(c, w.machines, w.cluster.value, a).toRemove
      <==> (exists n :: FailsTooOften(h, w, a, e, n)) || (e in c.toRemove && !PassedIn(LookOf(w, a), e))
  {
    var checked := Checked(c, w.machines, w.cluster.value, a);
    assert e in checked.toRemove <==> At(checked, e).queued.Some?;
    assert e in c.toRemove <==> At(c, e).queued.Some?;
    if Held(w.machines, e) {
      var n :| n in w.machines && MachineEtcdEndpoint(w.machines[n]) == e;
      EntryHere(c, h, w, a, n);
      OnlyTooOften(h, w, a, e, n);
    } else {
      CheckedElsewhere(c, w.machines, w.cluster.value, a, e);
    }
  }

  lemma EntryHere(c: Checker, h: seq<Look>, w: World, a: RoundAnswers, n: Name)
    requires w.cluster.Some? && OwnAddresses(w.machines) && CountersTell(c, h)
    requires n in w.machines && MachineEtcdEndpoint(w.machines[n]) != ""
    ensures
      var e := MachineEtcdEndpoint(w.machines[n]);
      At(Checked(c, w.machines, w.cluster.value, a), e).queued.Some?
      <==> FailsTooOften(h, w, a, e, n) || (At(c, e).queued.Some? && !PassedIn(LookOf(w, a), e))
  {
    var e := MachineEtcdEndpoint(w.machines[n]);
    CheckedHere(c, w.machines, w.cluster.value, a, n);
    OnlyOne(LookOf(w, a), n);
    assert At(c, e).failures == Counted(Streak(h, e));
  }

  lemma OnlyTooOften(h: seq<Look>, w: World, a: RoundAnswers, e: string, n: Name)
    requires w.cluster.Some? && OwnAddresses(w.machines) && n in w.machines && MachineEtcdEndpoint(w.machines[n]) == e != ""
    ensures (exists k :: FailsTooOften(h, w, a, e, k)) <==> FailsTooOften(h, w, a, e, n)
  {
    if k :| FailsTooOften(h, w, a, e, k) {
      SameEndpoint(w.machines, k, n);
    }
  }

  /** The queue after a round that comes to its checks, whatever the orders and errors: an endpoint is
      in it if and only if an owned machine there failed too often in a row, or the endpoint was in it
      before and did not pass; and it was not removed without error. An endpoint that no machine has
      any more stays. */
  lemma QueueAfter(c: Checker, h: seq<Look>, t: Tick, e: string)
    requires PossibleTick(c, t) && CountersTell(c, h) && !Passed(t.w, t.a) && Distinct(t.w.members)
    ensures
      e in Round(t.w, c, t.a, t.order).1.toRemove
      <==> && !RemovedWell(t.w, c, t.a, t.order, e)
           && ((exists n :: FailsTooOften(h, t.w, t.a, e, n)) || (e in c.toRemove && !PassedIn(LookOf(t.w, t.a), e)))
  {
    CheckedEntry(c, h, t.w, t.a, e);
    if e in Checked(c, t.w.machines, t.w.cluster.value, t.a).toRemove {
      EntriesLeft(t.w, c, t.a, t.order, e);
    }
  }

  // ----- Runs of rounds -----

  /** An owned machine at `e` failed its check in the round. */
  ghost predicate FailsAt(t: Tick, e: string) {
    && !Passed(t.w, t.a)
    && exists n :: && n in t.w.machines && t.w.machines[n].owned
                   && MachineEtcdEndpoint(t.w.machines[n]) == e != "" && HealthFor(t.a.health, n) != Passes
  }

  /** An endpoint that is not in the queue comes into it only by a check that fails. */
  lemma QueuedByFailing(c: Checker, t: Tick, e: string)
    requires PossibleTick(c, t) && e !in c.toRemove && e in Round(t.w, c, t.a, t.order).1.toRemove
    ensures FailsAt(t, e)
  {
    QueuedByCheck(c, t.w, t.a, e);
  }

  lemma QueuedByCheck(c: Checker, w: World, a: RoundAnswers, e: string)
    requires w.cluster.Some? && OwnAddresses(w.machines)
    requires e !in c.toRemove && e in Checked(c, w.machines, w.cluster.value, a).toRemove
    ensures exists n :: n in w.machines && w.machines[n].owned
                        && MachineEtcdEndpoint(w.machines[n]) == e != "" && HealthFor(a.health, n) != Passes
  {
    assert At(Checked(c, w.machines, w.cluster.value, a), e).queued.Some? && At(c, e).queued == None;
    if !Held(w.machines, e) {
      CheckedElsewhere(c, w.machines, w.cluster.value, a, e);
    }
    var n :| n in w.machines && MachineEtcdEndpoint(w.machines[n]) == e != "";
    CheckedHere(c, w.machines, w.cluster.value, a, n);
  }

  /** In every run of rounds, over any states in between: a machine that was removed without error
      is in the queue again only if its endpoint failed a check in a later round. */
  lemma {:induction false} BackOnlyByFailing(c0: Checker, ts: seq<Tick>, i: nat, e: string)
    requires PossibleTicks(c0, ts) && i < |ts| && Distinct(ts[i].w.members)
    requires PossibleTicks(c0, ts[..i]) && PossibleTick(AfterTicks(c0, ts[..i]), ts[i])
    requires RemovedWell(ts[i].w, AfterTicks(c0, ts[..i]), ts[i].a, ts[i].order, e)
    ensures e in AfterTicks(c0, ts).toRemove ==> exists j :: i < j < |ts| && FailsAt(ts[j], e)
  {
    var most, t := ts[..|ts| - 1], ts[|ts| - 1];
    if i == |ts| - 1 {
      EntriesLeft(t.w, AfterTicks(c0, most), t.a, t.order, e);
    } else {
      assert most[..i] == ts[..i];
      BackOnlyByFailing(c0, most, i, e);
      if e in AfterTicks(c0, most).toRemove {
        var j :| i < j < |most| && FailsAt(most[j], e);
        assert ts[j] == most[j];
      } else if e in AfterTicks(c0, ts).toRemove {
        QueuedByFailing(AfterTicks(c0, most), t, e);
      }
    }
  }
}
