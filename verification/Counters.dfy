/** The counters and the queue of the health checker tell the history of its checks. */
module Counters {
  import opened Wrappers
  import opened Text
  import opened Machines
  import opened Membership
  import opened Cluster
  import opened HealthCheck
  import opened Effects
  import opened Removals

  // ----- Checks, endpoint by endpoint -----

  /** Machines that have an address have one of their own. */
  ghost predicate OwnAddresses(ms: Machines) {
    forall m, n :: m in ms && n in ms && m != n && EtcdMachineAddress(ms[m]) != "" ==>
      EtcdMachineAddress(ms[m]) != EtcdMachineAddress(ms[n])
  }

  /** What a checker holds for one endpoint. */
  datatype View = View(failures: Option<nat>, queued: Option<Name>)

  function At(c: Checker, e: string): View {
    View(if e in c.frequency then Some(c.frequency[e]) else None, if e in c.toRemove then Some(c.toRemove[e]) else None)
  }

  function Recheck(v: View, n: Name, owned: bool, h: Health, threshold: int): View {
    if h == Passes then View(None, None)
    else
      var failures := 1 + if v.failures.Some? then v.failures.value else 0;
      View(Some(failures), if owned && failures >= threshold then Some(n) else v.queued)
  }

  lemma CheckOneAt(c: Checker, n: Name, m: Machine, h: Health, threshold: int, e: string)
    ensures
      At(CheckOne(c, n, m, h, threshold), e)
      == if e != "" && e == MachineEtcdEndpoint(m) then Recheck(At(c, e), n, m.owned, h, threshold) else At(c, e)
  {
  }

  lemma SameEndpoint(ms: Machines, m: Name, n: Name)
    requires OwnAddresses(ms) && m in ms && n in ms
    requires MachineEtcdEndpoint(ms[m]) == MachineEtcdEndpoint(ms[n]) != ""
    ensures m == n
  {
    URLsInjective(EtcdMachineAddress(ms[m]), EtcdMachineAddress(ms[n]));
  }

  lemma {:induction false} ChecksElsewhere(
    c: Checker, ms: Machines, order: seq<Name>, health: map<Name, Health>, threshold: int, e: string)
    requires forall n :: n in order ==> n in ms && (e == "" || MachineEtcdEndpoint(ms[n]) != e)
    ensures At(CheckEach(c, ms, order, health, threshold), e) == At(c, e)
  {
    if order != [] {
      var most, last := order[..|order| - 1], order[|order| - 1];
      ChecksElsewhere(c, ms, most, health, threshold, e);
      CheckOneAt(CheckEach(c, ms, most, health, threshold), last, ms[last], HealthFor(health, last), threshold, e);
    }
  }

  /** A round's checks, in any order, do to an endpoint what the check of its machine does. */
  lemma {:induction false} ChecksHere(
    c: Checker, ms: Machines, order: seq<Name>, health: map<Name, Health>, threshold: int, n: Name)
    requires OwnAddresses(ms) && (forall k :: k in order ==> k in ms) && n in order
    requires forall i, j :: 0 <= i < j < |order| ==> order[i] != order[j]
    requires MachineEtcdEndpoint(ms[n]) != ""
    ensures
      var e := MachineEtcdEndpoint(ms[n]);
      At(CheckEach(c, ms, order, health, threshold), e)
      == Recheck(At(c, e), n, ms[n].owned, HealthFor(health, n), threshold)
  {
    var e := MachineEtcdEndpoint(ms[n]);
    var most, last := order[..|order| - 1], order[|order| - 1];
    CheckOneAt(CheckEach(c, ms, most, health, threshold), last, ms[last], HealthFor(health, last), threshold, e);
    if last == n {
      forall k | k in most ensures MachineEtcdEndpoint(ms[k]) != e {
        if MachineEtcdEndpoint(ms[k]) == e {
          SameEndpoint(ms, k, n);
        }
      }
      ChecksElsewhere(c, ms, most, health, threshold, e);
    } else {
      ChecksHere(c, ms, most, health, threshold, n);
      if MachineEtcdEndpoint(ms[last]) == e {
        SameEndpoint(ms, last, n);
      }
    }
  }

  // ----- Histories -----

  /** What a round saw: the machines listed, how their checks went, and the failures that counted
      as too many. */
  datatype Look = Look(machines: Machines, health: map<Name, Health>, threshold: int)

  ghost predicate FailedIn(l: Look, e: string) {
    e != "" && exists n :: n in l.machines && MachineEtcdEndpoint(l.machines[n]) == e && HealthFor(l.health, n) != Passes
  }

  ghost predicate PassedIn(l: Look, e: string) {
    e != "" && exists n :: n in l.machines && MachineEtcdEndpoint(l.machines[n]) == e && HealthFor(l.health, n) == Passes
  }

  /** The failed checks of an endpoint since it last passed, was not listed, or the start. */
  ghost function Streak(h: seq<Look>, e: string): nat {
    if h == [] || !FailedIn(h[|h| - 1], e) then 0 else 1 + Streak(h[..|h| - 1], e)
  }

  /** Round `i` queued the machine `n` for its endpoint `e`: it was owned then and had failed as
      often in a row as is too much. */
  ghost predicate QueuedIn(h: seq<Look>, i: nat, e: string, n: Name)
    requires i < |h|
  {
    && n in h[i].machines && h[i].machines[n].owned && MachineEtcdEndpoint(h[i].machines[n]) == e
    && Streak(h[..i + 1], e) > 0 && Streak(h[..i + 1], e) >= h[i].threshold
  }

  ghost predicate JustifiedAt(h: seq<Look>, i: nat, e: string, n: Name)
    requires i < |h|
  {
    QueuedIn(h, i, e, n) && forall j :: i < j < |h| ==> !PassedIn(h[j], e)
  }

  ghost predicate Justified(h: seq<Look>, e: string, n: Name) {
    exists i: nat :: i < |h| && JustifiedAt(h, i, e, n)
  }

  function Counted(streak: nat): Option<nat> {
    if streak > 0 then Some(streak) else None
  }

  /** Each counter is the streak of its endpoint; endpoints without one have none. */
  ghost predicate CountersTell(c: Checker, h: seq<Look>) {
    forall e :: At(c, e).failures == Counted(Streak(h, e))
  }

  /** Every machine in the queue has its round that queued it, with no success since. */
  ghost predicate QueueTells(c: Checker, h: seq<Look>) {
    forall e :: e in c.toRemove ==> Justified(h, e, c.toRemove[e])
  }

  // ----- One round -----

  /** The look of a round that comes to its checks. */
  function LookOf(w: World, a: RoundAnswers): Look
    requires w.cluster.Some?
  {
    Look(w.machines, a.health, Threshold(w.cluster.value.retries))
  }

  lemma StreakMore(h: seq<Look>, l: Look, e: string)
    ensures Streak(h + [l], e) == if FailedIn(l, e) then 1 + Streak(h, e) else 0
  {
    assert (h + [l])[..|h|] == h;
  }

  lemma {:induction false} StreakMeans(h: seq<Look>, e: string, k: nat)
    requires k <= Streak(h, e)
    ensures k <= |h| && forall j :: |h| - k <= j < |h| ==> FailedIn(h[j], e)
    decreases |h|
  {
    if k > 0 {
      var most := h[..|h| - 1];
      assert Streak(h, e) == 1 + Streak(most, e);
      StreakMeans(most, e, k - 1);
      forall j | |h| - k <= j < |h| ensures FailedIn(h[j], e) {
        if j < |h| - 1 {
          assert h[j] == most[j];
        }
      }
    }
  }

  lemma PruneAt(c: Checker, ms: Machines, e: string)
    ensures At(Prune(c, ms), e) == View(if Listed(ms, e) then At(c, e).failures else None, At(c, e).queued)
  {
  }

  /** No machine has the endpoint of the empty address. */
  lemma NoEmptyAddress(h: seq<Look>)
    ensures Streak(h, MemberClientURL("")) == 0
  {
    if h != [] && FailedIn(h[|h| - 1], MemberClientURL("")) {
      var l := h[|h| - 1];
      var n :| n in l.machines && MachineEtcdEndpoint(l.machines[n]) == MemberClientURL("");
      URLsInjective(EtcdMachineAddress(l.machines[n]), "");
    }
  }

  /** What a round's checks leave at the endpoint of a machine. */
  lemma CheckedHere(c: Checker, ms: Machines, ec: EtcdadmCluster, a: RoundAnswers, n: Name)
    requires OwnAddresses(ms) && n in ms && MachineEtcdEndpoint(ms[n]) != ""
    ensures
      var e := MachineEtcdEndpoint(ms[n]);
      At(Checked(c, ms, ec, a), e) == Recheck(At(c, e), n, ms[n].owned, HealthFor(a.health, n), Threshold(ec.retries))
  {
    var order := Arrange(ms.Keys, a.order);
    assert n in order;
    PruneAt(c, ms, MachineEtcdEndpoint(ms[n]));
    ChecksHere(Prune(c, ms), ms, order, a.health, Threshold(ec.retries), n);
  }

  /** And what they leave at any other: its queue entry, and its counter only if that is the
      endpoint of the empty address and some machine has no address yet. */
  lemma CheckedElsewhere(c: Checker, ms: Machines, ec: EtcdadmCluster, a: RoundAnswers, e: string)
    requires e == "" || forall n :: n in ms ==> MachineEtcdEndpoint(ms[n]) != e
    ensures At(Checked(c, ms, ec, a), e).queued == At(c, e).queued
    ensures e != MemberClientURL("") ==> At(Checked(c, ms, ec, a), e).failures == None
    ensures At(c, e).failures == None ==> At(Checked(c, ms, ec, a), e).failures == None
  {
    var order := Arrange(ms.Keys, a.order);
    PruneAt(c, ms, e);
    ChecksElsewhere(Prune(c, ms), ms, order, a.health, Threshold(ec.retries), e);
    forall n | n in ms ensures MemberClientURL(EtcdMachineAddress(ms[n])) == e ==> e == MemberClientURL("") {
      assert |MemberClientURL(EtcdMachineAddress(ms[n]))| > 0;
    }
  }

  lemma OnlyOne(l: Look, n: Name)
    requires OwnAddresses(l.machines) && n in l.machines && MachineEtcdEndpoint(l.machines[n]) != ""
    ensures
      var e := MachineEtcdEndpoint(l.machines[n]);
      && (FailedIn(l, e) <==> HealthFor(l.health, n) != Passes)
      && (PassedIn(l, e) <==> HealthFor(l.health, n) == Passes)
  {
    var e := MachineEtcdEndpoint(l.machines[n]);
    forall k | k in l.machines && MachineEtcdEndpoint(l.machines[k]) == e ensures k == n {
      SameEndpoint(l.machines, k, n);
    }
  }

  /** Some machine has the endpoint. */
  ghost predicate Held(ms: Machines, e: string) {
    e != "" && exists n :: n in ms && MachineEtcdEndpoint(ms[n]) == e
  }

  lemma CounterHere(c: Checker, streak: nat, l: Look, ec: EtcdadmCluster, a: RoundAnswers, n: Name)
    requires OwnAddresses(l.machines) && l.health == a.health && n in l.machines && MachineEtcdEndpoint(l.machines[n]) != ""
    requires At(c, MachineEtcdEndpoint(l.machines[n])).failures == Counted(streak)
    ensures
      var e := MachineEtcdEndpoint(l.machines[n]);
      At(Checked(c, l.machines, ec, a), e).failures == Counted(if FailedIn(l, e) then 1 + streak else 0)
  {
    CheckedHere(c, l.machines, ec, a, n);
    OnlyOne(l, n);
  }

  lemma CounterAnywhere(c: Checker, streak: nat, l: Look, ec: EtcdadmCluster, a: RoundAnswers, e: string)
    requires OwnAddresses(l.machines) && l.health == a.health
    requires At(c, e).failures == Counted(streak) && (e == MemberClientURL("") ==> streak == 0)
    ensures At(Checked(c, l.machines, ec, a), e).failures == Counted(if FailedIn(l, e) then 1 + streak else 0)
  {
    if Held(l.machines, e) {
      var n :| n in l.machines && MachineEtcdEndpoint(l.machines[n]) == e;
      CounterHere(c, streak, l, ec, a, n);
    } else {
      CheckedElsewhere(c, l.machines, ec, a, e);
    }
  }

  lemma CounterStep(c: Checker, h: seq<Look>, w: World, a: RoundAnswers, e: string)
    requires w.cluster.Some? && OwnAddresses(w.machines)
    requires At(c, e).failures == Counted(Streak(h, e))
    ensures At(Checked(c, w.machines, w.cluster.value, a), e).failures == Counted(Streak(h + [LookOf(w, a)], e))
  {
    NoEmptyAddress(h);
    StreakMore(h, LookOf(w, a), e);
    CounterAnywhere(c, Streak(h, e), LookOf(w, a), w.cluster.value, a, e);
  }

  lemma CountersStep(c: Checker, h: seq<Look>, w: World, a: RoundAnswers)
    requires w.cluster.Some? && OwnAddresses(w.machines) && CountersTell(c, h)
    ensures CountersTell(Checked(c, w.machines, w.cluster.value, a), h + [LookOf(w, a)])
  {
    forall e
      ensures At(Checked(c, w.machines, w.cluster.value, a), e).failures == Counted(Streak(h + [LookOf(w, a)], e))
    {
      CounterStep(c, h, w, a, e);
    }
  }

  lemma StaysJustified(h: seq<Look>, l: Look, e: string, n: Name)
    requires Justified(h, e, n) && !PassedIn(l, e)
    ensures Justified(h + [l], e, n)
  {
    var i: nat :| i < |h| && JustifiedAt(h, i, e, n);
    assert (h + [l])[..i + 1] == h[..i + 1];
    assert JustifiedAt(h + [l], i, e, n);
  }

  lemma NewlyJustified(h: seq<Look>, l: Look, e: string, n: Name)
    requires n in l.machines && l.machines[n].owned && MachineEtcdEndpoint(l.machines[n]) == e
    requires Streak(h + [l], e) > 0 && Streak(h + [l], e) >= l.threshold
    ensures Justified(h + [l], e, n)
  {
    assert (h + [l])[..|h| + 1] == h + [l];
    assert JustifiedAt(h + [l], |h|, e, n);
  }

  lemma QueueHere(c: Checker, h: seq<Look>, w: World, a: RoundAnswers, n: Name)
    requires w.cluster.Some? && OwnAddresses(w.machines) && CountersTell(c, h) && QueueTells(c, h)
    requires n in w.machines && MachineEtcdEndpoint(w.machines[n]) != ""
    ensures
      var e := MachineEtcdEndpoint(w.machines[n]);
      var c' := Checked(c, w.machines, w.cluster.value, a);
      e in c'.toRemove ==> Justified(h + [LookOf(w, a)], e, c'.toRemove[e])
  {
    var l, e := LookOf(w, a), MachineEtcdEndpoint(w.machines[n]);
    var c' := Checked(c, w.machines, w.cluster.value, a);
    if e in c'.toRemove {
      CheckedHere(c, w.machines, w.cluster.value, a, n);
      OnlyOne(l, n);
      StreakMore(h, l, e);
      assert At(c, e).failures == Counted(Streak(h, e)) && At(c', e).queued == Some(c'.toRemove[e]);
      if w.machines[n].owned && Streak(h + [l], e) >= l.threshold {
        NewlyJustified(h, l, e, n);
      } else {
        StaysJustified(h, l, e, c.toRemove[e]);
      }
    }
  }

  lemma QueueStep(c: Checker, h: seq<Look>, w: World, a: RoundAnswers)
    requires w.cluster.Some? && OwnAddresses(w.machines) && CountersTell(c, h) && QueueTells(c, h)
    ensures QueueTells(Checked(c, w.machines, w.cluster.value, a), h + [LookOf(w, a)])
  {
    var l := LookOf(w, a);
    var c' := Checked(c, w.machines, w.cluster.value, a);
    forall e | e in c'.toRemove ensures Justified(h + [l], e, c'.toRemove[e]) {
      if Held(w.machines, e) {
        var n :| n in w.machines && MachineEtcdEndpoint(w.machines[n]) == e;
        QueueHere(c, h, w, a, n);
      } else {
        assert At(c', e).queued == Some(c'.toRemove[e]);
        CheckedElsewhere(c, w.machines, w.cluster.value, a, e);
        StaysJustified(h, l, e, c.toRemove[e]);
      }
    }
  }

  /** The exact rule of the queue: a failing owned machine whose endpoint was not queued is queued
      when its failures in a row come up to the threshold. That is 5 or the number annotated; an
      annotation that does not parse as a positive number has every failure queue the machine at once. */
  lemma QueueIsExact(c: Checker, h: seq<Look>, w: World, a: RoundAnswers, n: Name)
    requires w.cluster.Some? && OwnAddresses(w.machines) && CountersTell(c, h)
    requires n in w.machines && w.machines[n].owned && MachineEtcdEndpoint(w.machines[n]) != ""
    requires MachineEtcdEndpoint(w.machines[n]) !in c.toRemove
    ensures
      var e := MachineEtcdEndpoint(w.machines[n]);
      var retries := w.cluster.value.retries;
      var tooMany := if retries.NotSet? then 5 else if retries.Invalid? then retries.parsed else retries.n;
      var c' := Checked(c, w.machines, w.cluster.value, a);
      && (e in c'.toRemove <==> HealthFor(a.health, n) != Passes && Streak(h, e) + 1 >= tooMany)
      && (tooMany <= 0 ==> (e in c'.toRemove <==> HealthFor(a.health, n) != Passes))
  {
    var e := MachineEtcdEndpoint(w.machines[n]);
    CheckedHere(c, w.machines, w.cluster.value, a, n);
    assert At(c, e).failures == Counted(Streak(h, e));
  }

  // ----- Runs of rounds -----

  /** One tick of the health check: the state it finds, its answers, and the order in which it
      takes its queue. */
  datatype Tick = Tick(w: World, a: RoundAnswers, order: seq<string>)

  ghost predicate PossibleTick(c: Checker, t: Tick) {
    && OwnAddresses(t.w.machines)
    && (Removes(t.w, c, t.a) ==> Visits(t.order, Checked(c, t.w.machines, t.w.cluster.value, t.a).toRemove.Keys))
  }

  ghost predicate PossibleTicks(c0: Checker, ts: seq<Tick>)
    decreases |ts|, 0
  {
    ts == [] || (PossibleTicks(c0, ts[..|ts| - 1]) && PossibleTick(AfterTicks(c0, ts[..|ts| - 1]), ts[|ts| - 1]))
  }

  ghost function AfterTicks(c0: Checker, ts: seq<Tick>): Checker
    requires PossibleTicks(c0, ts)
    decreases |ts|, 1
  {
    if ts == [] then c0
    else
      var t := ts[|ts| - 1];
      Round(t.w, AfterTicks(c0, ts[..|ts| - 1]), t.a, t.order).1
  }

  /** The looks of the rounds that came to their checks: a round that is skipped or finds no
      machine listed leaves the counters alone. */
  function History(ts: seq<Tick>): seq<Look> {
    if ts == [] then []
    else
      var t, before := ts[|ts| - 1], History(ts[..|ts| - 1]);
      if Passed(t.w, t.a) then before else before + [LookOf(t.w, t.a)]
  }

  const NO_FAILURES := Checker(map[], map[])

  lemma RoundTells(c: Checker, h: seq<Look>, t: Tick)
    requires PossibleTick(c, t) && CountersTell(c, h) && QueueTells(c, h) && !Passed(t.w, t.a)
    ensures CountersTell(Round(t.w, c, t.a, t.order).1, h + [LookOf(t.w, t.a)])
    ensures QueueTells(Round(t.w, c, t.a, t.order).1, h + [LookOf(t.w, t.a)])
  {
    CountersStep(c, h, t.w, t.a);
    QueueStep(c, h, t.w, t.a);
    var checked := Checked(c, t.w.machines, t.w.cluster.value, t.a);
    var after := Round(t.w, c, t.a, t.order).1;
    assert after.frequency == checked.frequency;
    SameCounters(checked, after, h + [LookOf(t.w, t.a)]);
  }

  lemma SameCounters(c: Checker, c': Checker, h: seq<Look>)
    requires CountersTell(c, h) && QueueTells(c, h)
    requires c'.frequency == c.frequency
    requires forall e :: e in c'.toRemove ==> e in c.toRemove && c'.toRemove[e] == c.toRemove[e]
    ensures CountersTell(c', h) && QueueTells(c', h)
  {
    forall e ensures At(c', e).failures == Counted(Streak(h, e)) {
      assert At(c', e).failures == At(c, e).failures;
    }
  }

  /** In every run of rounds, over any states in between: each counter is the number of failed
      checks since the endpoint last passed, was not listed, or the start; and every machine in
      the queue was owned when it was queued, had failed often enough in a row by then, and has
      not passed a check since. */
  lemma {:induction false} CountersRefineHistory(ts: seq<Tick>)
    requires PossibleTicks(NO_FAILURES, ts)
    ensures
      && CountersTell(AfterTicks(NO_FAILURES, ts), History(ts))
      && QueueTells(AfterTicks(NO_FAILURES, ts), History(ts))
  {
    if ts != [] {
      var most, t := ts[..|ts| - 1], ts[|ts| - 1];
      CountersRefineHistory(most);
      if !Passed(t.w, t.a) {
        RoundTells(AfterTicks(NO_FAILURES, most), History(most), t);
      }
    }
  }

  ghost predicate InQueue(c: Checker, n: Name) {
    exists e :: e in c.toRemove && c.toRemove[e] == n
  }

  lemma {:induction false} OnlyQueuedDie(
    f: Fleet, c: Checker, order: seq<string>, replicas: nat, removals: map<string, RemovalOutcome>)
    requires forall e :: e in order ==> e in c.toRemove
    requires forall i, j :: 0 <= i < j < |order| ==> order[i] != order[j]
    ensures forall n: Name ::
              Dies(f.machines, RemoveQueued(f, c, order, replicas, removals).0.machines, n) ==> InQueue(c, n)
    decreases order
  {
    if order != [] {
      var most, last := order[..|order| - 1], order[|order| - 1];
      OnlyQueuedDie(f, c, most, replicas, removals);
      TurnsKeep(f, c, most, replicas, removals);
      var (g, d, _) := RemoveQueued(f, c, most, replicas, removals);
      assert last !in most;
      RemovalKeeps(g, Some(d.toRemove[last]), MachineAddressFromClientURL(last), OutcomeFor(removals, last));
      var f' := RemoveQueued(f, c, order, replicas, removals).0;
      forall n: Name | Dies(f.machines, f'.machines, n) ensures InQueue(c, n) {
        if !Dies(f.machines, g.machines, n) {
          assert c.toRemove[last] == n;
        }
      }
    }
  }

  /** Round `i` of the history made the decision: `threshold` rounds in a row up to it found the
      endpoint of the owned machine `n` failing, and none since has found it well. */
  ghost predicate FailedTooOften(h: seq<Look>, i: nat, e: string, n: Name, threshold: nat) {
    && threshold <= i + 1 <= |h|
    && n in h[i].machines && h[i].machines[n].owned && MachineEtcdEndpoint(h[i].machines[n]) == e
    && (forall j :: i + 1 - threshold <= j <= i ==> FailedIn(h[j], e))
    && (forall j :: i < j < |h| ==> !PassedIn(h[j], e))
  }

  lemma JustifiedMeans(h: seq<Look>, e: string, n: Name, threshold: nat) returns (i: nat)
    requires Justified(h, e, n) && forall l :: l in h ==> l.threshold == threshold
    ensures FailedTooOften(h, i, e, n, threshold)
  {
    i :| i < |h| && JustifiedAt(h, i, e, n);
    assert h[i] in h;
    StreakMeans(h[..i + 1], e, threshold);
    forall j | i + 1 - threshold <= j <= i ensures FailedIn(h[j], e) {
      assert h[..i + 1][j] == h[j];
    }
  }

  /** With a fixed positive threshold T, every machine that a round removes was owned in an
      earlier round or in this one that found it failing for the T-th time in a row, and no check
      of it has passed since. */
  lemma RemovedFailedTooOften(ts: seq<Tick>, t: Tick, n: Name, threshold: nat) returns (e: string, i: nat)
    requires PossibleTicks(NO_FAILURES, ts) && PossibleTick(AfterTicks(NO_FAILURES, ts), t)
    requires threshold > 0 && forall l :: l in History(ts + [t]) ==> l.threshold == threshold
    requires Dies(t.w.machines, Round(t.w, AfterTicks(NO_FAILURES, ts), t.a, t.order).0.machines, n)
    ensures FailedTooOften(History(ts + [t]), i, e, n, threshold)
  {
    CountersRefineHistory(ts);
    assert (ts + [t])[..|ts|] == ts;
    e, i := DeadFailedTooOften(AfterTicks(NO_FAILURES, ts), History(ts), t, n, threshold);
  }

  lemma DeadFailedTooOften(c: Checker, h: seq<Look>, t: Tick, n: Name, threshold: nat) returns (e: string, i: nat)
    requires CountersTell(c, h) && QueueTells(c, h) && PossibleTick(c, t) && Removes(t.w, c, t.a)
    requires forall l :: l in h + [LookOf(t.w, t.a)] ==> l.threshold == threshold
    requires Dies(t.w.machines, Round(t.w, c, t.a, t.order).0.machines, n)
    ensures FailedTooOften(h + [LookOf(t.w, t.a)], i, e, n, threshold)
  {
    var checked := Checked(c, t.w.machines, t.w.cluster.value, t.a);
    OnlyQueuedDie(t.w.Fleet(), checked, t.order, t.w.cluster.value.spec.replicas, t.a.removals);
    assert InQueue(checked, n);
    e :| e in checked.toRemove && checked.toRemove[e] == n;
    QueueStep(c, h, t.w, t.a);
    i := JustifiedMeans(h + [LookOf(t.w, t.a)], e, n, threshold);
  }
}
