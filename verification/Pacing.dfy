/** The pace of a rollout: each new machine is 60 seconds old and has passed a health check
    before the next one is created. */
module Pacing {
  import opened Machines
  import opened EtcdPlane
  import opened Membership
  import opened Cluster
  import opened ReconcileSpec
  import opened Runs
  import opened Rollout

  // ----- The pace, as the log shows it -----

  /** Entry `k` shows that the machine created in entry `i` was ready. */
  predicate Clears(log: seq<Action>, i: nat, k: nat)
    requires i < |log| && log[i].Created?
  {
    && i < k < |log| && log[k].PassedCheck? && log[k].name == log[i].name
    && log[i].at + 60 <= log[k].at
  }

  ghost predicate Cleared(log: seq<Action>, i: nat)
    requires i < |log| && log[i].Created?
  {
    exists k: nat :: Clears(log, i, k)
  }

  ghost predicate Spaced(log: seq<Action>, i: nat, j: nat)
    requires i < j < |log| && log[i].Created? && log[j].Created?
  {
    exists k: nat :: Clears(log, i, k) && k < j && log[k].at <= log[j].at
  }

  /** Between any two creations stands a health check that the first machine passed at the age
      of 60 seconds or more, and no later than the second creation. */
  ghost predicate PacedLog(log: seq<Action>) {
    forall i: nat, j: nat :: i < j < |log| && log[i].Created? && log[j].Created? ==> Spaced(log, i, j)
  }

  // ----- The pace while a rollout goes on -----

  ghost predicate CreatedIn(log: seq<Action>, n: Name) {
    exists i: nat :: i < |log| && log[i].Created? && log[i].name == n
  }

  predicate Latest(ms: Machines, made: set<Name>, n: Name)
    requires made <= ms.Keys && n in ms
  {
    forall k :: k in made && k != n ==> ms[k].created < ms[n].created
  }

  /** The log is that of the machines `made` so far; it is paced, and only the latest of them may
      still have to show that it is ready, and only while `mayWait`. */
  ghost predicate Pace(log: seq<Action>, made: set<Name>, ms: Machines, now: int, mayWait: bool) {
    && made <= ms.Keys
    && (forall i: nat :: i < |log| && log[i].PassedCheck? ==> log[i].at <= now)
    && (forall i: nat :: i < |log| && log[i].Created? ==>
          log[i].name in made && log[i].at == ms[log[i].name].created <= now)
    && (forall n :: n in made ==> CreatedIn(log, n))
    && PacedLog(log)
    && (forall i: nat :: i < |log| && log[i].Created? && !Cleared(log, i) ==> mayWait && Latest(ms, made, log[i].name))
  }

  // ----- The steps -----

  lemma StillCleared(log: seq<Action>, more: seq<Action>, i: nat)
    requires i < |log| && log[i].Created? && Cleared(log, i)
    ensures Cleared(log + more, i)
  {
    var k: nat :| Clears(log, i, k);
    assert Clears(log + more, i, k);
  }

  lemma StillSpaced(log: seq<Action>, more: seq<Action>, i: nat, j: nat)
    requires i < j < |log| && log[i].Created? && log[j].Created? && Spaced(log, i, j)
    ensures Spaced(log + more, i, j)
  {
    var k: nat :| Clears(log, i, k) && k < j && log[k].at <= log[j].at;
    assert Clears(log + more, i, k);
  }

  lemma StillPaced(log: seq<Action>, more: seq<Action>)
    requires PacedLog(log) && forall x :: x in more ==> !x.Created?
    ensures PacedLog(log + more)
  {
    var all := log + more;
    forall i: nat, j: nat | i < j < |all| && all[i].Created? && all[j].Created?
      ensures Spaced(all, i, j)
    {
      assert forall k :: |log| <= k < |all| ==> all[k] in more;
      StillSpaced(log, more, i, j);
    }
  }

  lemma PacedCreation(log: seq<Action>, x: Action)
    requires PacedLog(log) && x.Created?
    requires forall i: nat :: i < |log| && log[i].Created? ==> Cleared(log, i)
    requires forall i: nat :: i < |log| && log[i].PassedCheck? ==> log[i].at <= x.at
    ensures PacedLog(log + [x])
  {
    var all := log + [x];
    forall i: nat, j: nat | i < j < |all| && all[i].Created? && all[j].Created?
      ensures Spaced(all, i, j)
    {
      if j < |log| {
        StillSpaced(log, [x], i, j);
      } else {
        assert Cleared(log, i);
        var k: nat :| Clears(log, i, k);
        assert Clears(all, i, k);
      }
    }
  }

  /** More entries that create nothing. */
  lemma PaceGoesOn(
    log: seq<Action>, more: seq<Action>, made: set<Name>, ms: Machines, ms': Machines, now: int, now': int, mayWait: bool)
    requires Pace(log, made, ms, now, mayWait) && now <= now'
    requires made <= ms'.Keys && forall n :: n in made ==> ms'[n].created == ms[n].created
    requires forall x :: x in more ==> !x.Created? && (x.PassedCheck? ==> x.at <= now')
    ensures Pace(log + more, made, ms', now', mayWait)
  {
    var all := log + more;
    StillPaced(log, more);
    assert forall k :: |log| <= k < |all| ==> all[k] in more;
    forall n | n in made ensures CreatedIn(all, n) {
      var i: nat :| i < |log| && log[i].Created? && log[i].name == n;
      assert all[i] == log[i];
    }
    forall i: nat | i < |all| && all[i].Created? && !Cleared(all, i) ensures mayWait && Latest(ms', made, all[i].name) {
      assert i < |log| && all[i] == log[i];
      if Cleared(log, i) {
        StillCleared(log, more, i);
      }
    }
  }

  /** The check of the latest machine clears it. */
  lemma PaceClears(log: seq<Action>, made: set<Name>, ms: Machines, now: int, mayWait: bool, n: Name)
    requires Pace(log, made, ms, now, mayWait) && n in made
    requires forall k :: k in made ==> Before(ms, k, n)
    requires ms[n].created + 60 <= now
    ensures Pace(log + [PassedCheck(n, now)], made, ms, now, false)
  {
    var more := [PassedCheck(n, now)];
    var all := log + more;
    PaceGoesOn(log, more, made, ms, ms, now, now, mayWait);
    forall i: nat | i < |all| && all[i].Created? ensures Cleared(all, i) {
      assert i < |log| && all[i] == log[i];
      if Cleared(log, i) {
        StillCleared(log, more, i);
      } else {
        assert log[i].name == n;
        assert Clears(all, i, |log|);
      }
    }
  }

  /** A creation when nobody has to wait. */
  lemma PaceCreates(log: seq<Action>, made: set<Name>, ms: Machines, now: int, n: Name, m: Machine)
    requires Pace(log, made, ms, now, false)
    requires n !in ms && m.created == now
    ensures Pace(log + [Created(n, now)], made + {n}, ms[n := m], now, true)
  {
    var x := Created(n, now);
    var all, made', ms' := log + [x], made + {n}, ms[n := m];
    PacedCreation(log, x);
    forall k | k in made' ensures CreatedIn(all, k) {
      if k == n {
        assert all[|log|] == x;
      } else {
        var i: nat :| i < |log| && log[i].Created? && log[i].name == k;
        assert all[i] == log[i];
      }
    }
    forall k | k in made ensures ms[k].created < now {
      var i: nat :| i < |log| && log[i].Created? && log[i].name == k;
      assert Cleared(log, i);
      var c: nat :| Clears(log, i, c);
    }
    forall i: nat | i < |all| && all[i].Created? && !Cleared(all, i) ensures Latest(ms', made', all[i].name) {
      if i < |log| {
        StillCleared(log, [x], i);
      }
      assert all[i] == x;
    }
  }

  lemma NothingToClear(log: seq<Action>, ms: Machines, now: int, mayWait: bool)
    requires Pace(log, {}, ms, now, mayWait)
    ensures Pace(log, {}, ms, now, false)
  {
  }

  // ----- Runs -----

  /** The next step is not a creation that somebody has to be ready for. */
  predicate MayWait(w0: World, w: World)
    requires w.cluster.Some?
  {
    w.cluster.value.spec.replicas == 1 || |Old(w0, w)| + |New(w0, w)| == w.cluster.value.spec.replicas
  }

  ghost predicate Paced(w0: World, w: World) {
    && UnderWay(w0, w) && Told(w0, w)
    && Pace(Since(w0, w), New(w0, w), w.machines, w.now, MayWait(w0, w))
    && (New(w0, w) != {} && Old(w0, w) != {} ==> w.cluster.value.conditions.specUpToDate.False?)
  }

  /** A Reconcile's patch gets through, unless an earlier one has already said that the rollout
      is under way. */
  ghost predicate SaysSo(w: World, e: Event) {
    e.Reconciled? ==> Persisted(e.a) || (w.cluster.Some? && w.cluster.value.conditions.specUpToDate.False?)
  }

  /** The pace after the check that a rollout step waited for. */
  lemma PaceAfterChecks(w0: World, w: World, a: Answers, d: Decision) returns (mayWait: bool)
    requires Paced(w0, w) && DecisionFacts(w.machines, w.cluster.value, w.now, a, d)
    ensures Pace(Since(w0, w) + ChecksOf(w, d), New(w0, w), w.machines, w.now, mayWait)
    ensures mayWait ==> MayWait(w0, w) && New(w0, w) != {}
    ensures mayWait && d.RollDisown? ==> w.cluster.value.spec.replicas == 1
  {
    Parts(w0, w);
    Decisions(w0, w, a, d);
    var log, checks := Since(w0, w), ChecksOf(w, d);
    mayWait := MayWait(w0, w);
    if New(w0, w) == {} {
      mayWait := false;
      NothingToClear(log, w.machines, w.now, MayWait(w0, w));
      PaceGoesOn(log, checks, {}, w.machines, w.machines, w.now, w.now, false);
    } else if checks == [] {
      assert log + checks == log;
    } else {
      mayWait := false;
      PaceClears(log, New(w0, w), w.machines, w.now, MayWait(w0, w), d.checked.value);
    }
  }

  lemma PaceWeakens(log: seq<Action>, made: set<Name>, ms: Machines, now: int, mayWait: bool)
    requires Pace(log, made, ms, now, false)
    ensures Pace(log, made, ms, now, mayWait)
  {
  }

  lemma PacedMaking(w0: World, w: World, w': World, ds: Domains, d: Decision, move: Move)
    requires w.cluster.Some? && w0.machines.Keys <= w.machines.Keys && w0.log <= w.log
    requires move.Makes? && Moves(w, ds, w', move, ChecksOf(w, d))
    requires Pace(Since(w0, w) + ChecksOf(w, d), New(w0, w), w.machines, w.now, false)
    ensures w0.log <= w'.log && Pace(Since(w0, w'), New(w0, w'), w'.machines, w'.now, true)
  {
    var log, checks, n := Since(w0, w), ChecksOf(w, d), move.name;
    var x := Created(n, w.now);
    SinceGrows(w0, w, w', checks + [x]);
    AfterCreation(w0.machines.Keys, w.machines, n, w'.machines[n]);
    assert log + (checks + [x]) == log + checks + [x];
    PaceCreates(log + checks, New(w0, w), w.machines, w.now, n, w'.machines[n]);
  }

  lemma PacedLetting(w0: World, w: World, w': World, ds: Domains, d: Decision, move: Move, mayWait: bool)
    requires w.cluster.Some? && w0.machines.Keys <= w.machines.Keys && w0.log <= w.log
    requires move.Lets? && Moves(w, ds, w', move, ChecksOf(w, d))
    requires Pace(Since(w0, w) + ChecksOf(w, d), New(w0, w), w.machines, w.now, mayWait)
    ensures w0.log <= w'.log && Pace(Since(w0, w'), New(w0, w'), w'.machines, w'.now, mayWait)
  {
    var log, checks := Since(w0, w), ChecksOf(w, d);
    var x := Disowned(move.name);
    SinceGrows(w0, w, w', checks + [x]);
    assert log + (checks + [x]) == log + checks + [x];
    assert w'.machines.Keys == w.machines.Keys;
    PaceGoesOn(log + checks, [x], New(w0, w), w.machines, w'.machines, w.now, w.now, mayWait);
  }

  lemma PacedMove(w0: World, w: World, w': World, ds: Domains, d: Decision, move: Move, mayWait: bool)
    requires Paced(w0, w) && UnderWay(w0, w') && Told(w0, w')
    requires Moves(w, ds, w', move, ChecksOf(w, d))
    requires Pace(Since(w0, w) + ChecksOf(w, d), New(w0, w), w.machines, w.now, mayWait)
    requires mayWait ==> MayWait(w0, w)
    requires move.Makes? ==> !mayWait
    requires move.Lets? ==> move.name in Old(w0, w) && (mayWait ==> w.cluster.value.spec.replicas == 1)
    requires move.Makes? ==>
      w.cluster.value.spec.replicas == 1 || |Old(w0, w)| + |New(w0, w)| + 1 == w.cluster.value.spec.replicas
    ensures Pace(Since(w0, w'), New(w0, w'), w'.machines, w'.now, MayWait(w0, w'))
  {
    match move
    case Stays =>
      SinceGrows(w0, w, w', ChecksOf(w, d));
      if !mayWait {
        PaceWeakens(Since(w0, w'), New(w0, w'), w'.machines, w'.now, MayWait(w0, w'));
      }
    case Makes(n) =>
      PacedMaking(w0, w, w', ds, d, move);
      AfterCreation(w0.machines.Keys, w.machines, n, w'.machines[n]);
      AddOne(New(w0, w), n);
      assert MayWait(w0, w');
    case Lets(n) =>
      PacedLetting(w0, w, w', ds, d, move, mayWait);
      if !mayWait {
        PaceWeakens(Since(w0, w'), New(w0, w'), w'.machines, w'.now, MayWait(w0, w'));
      }
  }

  lemma PacedReconcile(w0: World, w: World, ds: Domains, a: Answers)
    requires Paced(w0, w) && PicksEligible(ds) && a.entry == Proceeds && SaysSo(w, Reconciled(a))
    ensures Paced(w0, ReconcileStep(w, ds, a).0)
  {
    var w' := ReconcileStep(w, ds, a).0;
    var d, move := ReconcileMoves(w0, w, ds, a);
    Decisions(w0, w, a, d);
    var mayWait := PaceAfterChecks(w0, w, a, d);
    PacedMove(w0, w, w', ds, d, move, mayWait);
    SaysSoAfter(w0, w, w', ds, a, d, move);
  }

  lemma SaysSoAfter(w0: World, w: World, w': World, ds: Domains, a: Answers, d: Decision, move: Move)
    requires Paced(w0, w) && UnderWay(w0, w') && DecisionFacts(w.machines, w.cluster.value, w.now, a, d)
    requires SaysSo(w, Reconciled(a))
    requires Moves(w, ds, w', move, ChecksOf(w, d))
    requires w'.cluster.value.conditions.specUpToDate
          == (if Persisted(a) then SpecUpToDateAfter(w.cluster.value.conditions.specUpToDate, d)
              else w.cluster.value.conditions.specUpToDate)
    requires move.Makes? <==> (d.RollCreate? || d.ScaleUp?) && a.creation && a.newName !in w.machines
    requires move.Lets? ==> move.name in Old(w0, w)
    ensures New(w0, w') != {} && Old(w0, w') != {} ==> w'.cluster.value.conditions.specUpToDate.False?
  {
    Decisions(w0, w, a, d);
    if move.Makes? {
      AfterCreation(w0.machines.Keys, w.machines, move.name, w'.machines[move.name]);
    } else if move.Lets? {
      AfterDisowning(w0.machines.Keys, w.machines, move.name);
    }
    assert Old(w0, w') <= Old(w0, w);
    assert Old(w0, w) == {} <==> |Old(w0, w)| == 0;
  }

  lemma PacedEnvironment(w0: World, w: World, ds: Domains, e: Event)
    requires Paced(w0, w) && Possible(w, e) && DuringRollout(e) && !e.Reconciled?
    ensures Paced(w0, Apply(w, ds, e))
  {
    EnvironmentFrame(w, ds, e);
    ReaddressingPaced(w0, w, Apply(w, ds, e));
  }

  lemma ReaddressingPaced(w0: World, w: World, w': World)
    requires Paced(w0, w) && Live(w') && Readdressed(w.machines, w'.machines)
    requires w.members <= w'.members && w'.log == w.log && w.now <= w'.now && DecidesSame(w, w')
    requires w'.cluster.value.conditions == w.cluster.value.conditions
    ensures Paced(w0, w')
  {
    ReaddressingKeeps(w0, w, w');
    assert Since(w0, w') == Since(w0, w) + [];
    PaceGoesOn(Since(w0, w), [], New(w0, w), w.machines, w'.machines, w.now, w'.now, MayWait(w0, w));
  }

  lemma {:induction false} StaysPaced(w0: World, ds: Domains, es: seq<Event>)
    requires RolloutStart(w0) && PicksEligible(ds)
    requires PossibleRun(w0, ds, es) && forall e :: e in es ==> DuringRollout(e)
    requires Along(w0, ds, es, SaysSo)
    ensures Paced(w0, Run(w0, ds, es))
  {
    if es == [] {
      StartsUnderWay(w0);
    } else {
      var e := es[|es| - 1];
      StaysPaced(w0, ds, es[..|es| - 1]);
      var w := Run(w0, ds, es[..|es| - 1]);
      if !e.Reconciled? {
        PacedEnvironment(w0, w, ds, e);
      } else if e.a.entry != Proceeds {
        ReconcileBlocked(w, ds, e.a);
      } else {
        PacedReconcile(w0, w, ds, e.a);
      }
    }
  }

  /** In every run of a rollout whose first patches get through, the creations are at least 60
      seconds apart, and each new machine passed a health check at that age before the next was
      created, the last one included. */
  lemma RolloutIsPaced(w0: World, ds: Domains, es: seq<Event>)
    requires RolloutStart(w0) && PicksEligible(ds)
    requires PossibleRun(w0, ds, es) && forall e :: e in es ==> DuringRollout(e)
    requires Along(w0, ds, es, SaysSo)
    ensures
      var w := Run(w0, ds, es);
      && w0.log <= w.log && PacedLog(Since(w0, w))
      && (forall i: nat, j: nat :: i < j < |Since(w0, w)| && Since(w0, w)[i].Created? && Since(w0, w)[j].Created? ==>
            Since(w0, w)[i].at + 60 <= Since(w0, w)[j].at)
      && (forall n :: n in New(w0, w) ==> CreatedIn(Since(w0, w), n))
  {
    StaysPaced(w0, ds, es);
    PacedApart(Since(w0, Run(w0, ds, es)));
  }

  lemma PacedApart(log: seq<Action>)
    requires PacedLog(log)
    ensures forall i: nat, j: nat :: i < j < |log| && log[i].Created? && log[j].Created? ==>
              log[i].at + 60 <= log[j].at
  {
    forall i: nat, j: nat | i < j < |log| && log[i].Created? && log[j].Created?
      ensures log[i].at + 60 <= log[j].at
    {
      assert Spaced(log, i, j);
    }
  }

  // ----- Where the pace is lost -----

  /** Every call but the gate's health check goes well. */
  predicate Willing(w: World, a: Answers)
    requires w.cluster.Some?
  {
    && a.entry == Proceeds
    && a.externalReference && a.listing && a.ownedPlane && a.wholePlane && a.certificates
    && a.creation && a.newName !in w.machines && a.disowning
  }

  /** While the newest machine is not ready, a rollout holds still exactly when the EtcdadmCluster
      in the API server says that it is under way. */
  lemma GateIsExact(w0: World, w: World, ds: Domains, a: Answers)
    requires UnderWay(w0, w) && Told(w0, w) && PicksEligible(ds)
    requires Old(w0, w) != {} && New(w0, w) != {}
    requires Willing(w, a) && !ReadyToGoOn(w.machines, w.cluster.value.spec, w.now, a)
    ensures ReconcileStep(w, ds, a).0.machines == w.machines <==> w.cluster.value.conditions.specUpToDate.False?
  {
    Parts(w0, w);
    var d, move := ReconcileMoves(w0, w, ds, a);
    Decisions(w0, w, a, d);
  }

  /** A Reconcile whose calls all go well but for the patch. */
  function LosesPatch(name: Name): Answers {
    Answers(Proceeds, true, true, true, true, true, true, true, name, true, Passes, [], map[],
            true, map[], true, true, true, false)
  }

  /** A rollout none of whose patches got through, with what it has done so far. */
  ghost predicate Lost(w0: World, w: World, kept: nat, made: nat, done: seq<Action>) {
    && UnderWay(w0, w) && Told(w0, w)
    && w.cluster == w0.cluster && !w0.cluster.value.conditions.specUpToDate.False?
    && w.now == w0.now && w.log == w0.log + done
    && kept == |Old(w0, w)| && made == |New(w0, w)|
  }

  lemma LostDecides(w0: World, w: World, ds: Domains, n: Name, kept: nat, made: nat, done: seq<Action>)
    returns (d: Decision, move: Move)
    requires Lost(w0, w, kept, made, done) && PicksEligible(ds) && w0.cluster.value.spec.replicas > 1
    requires kept > 0 && n !in w.machines
    ensures
      var w' := ReconcileStep(w, ds, LosesPatch(n)).0;
      && UnderWay(w0, w') && Told(w0, w') && w'.cluster == w.cluster
      && Moves(w, ds, w', move, [])
      && if kept + made < w0.cluster.value.spec.replicas then move == Makes(n) else move.Lets? && move.name in Old(w0, w)
  {
    var a := LosesPatch(n);
    d, move := ReconcileMoves(w0, w, ds, a);
    LostKind(w0, w, a, kept, made, done, d);
  }

  lemma LostKind(w0: World, w: World, a: Answers, kept: nat, made: nat, done: seq<Action>, d: Decision)
    requires Lost(w0, w, kept, made, done) && kept > 0 && w0.cluster.value.spec.replicas > 1
    requires Willing(w, a) && DecisionFacts(w.machines, w.cluster.value, w.now, a, d)
    ensures ChecksOf(w, d) == []
    ensures if kept + made < w0.cluster.value.spec.replicas then d.RollCreate? else d.RollDisown?
  {
    Parts(w0, w);
    Decisions(w0, w, a, d);
  }

  /** The machines that were there still are, with their addresses; a new one has none. */
  ghost predicate KeepsAddresses(ms: Machines, ms': Machines) {
    && (forall k :: k in ms ==> k in ms' && ms'[k].addresses == ms[k].addresses)
    && (forall k :: k in ms' && k !in ms ==> ms'[k].addresses == [])
  }

  lemma MoveKeepsAddresses(w: World, ds: Domains, w': World, move: Move, checks: seq<Action>)
    requires Moves(w, ds, w', move, checks)
    ensures KeepsAddresses(w.machines, w'.machines)
  {
  }

  lemma LostMove(w0: World, w: World, ds: Domains, n: Name, kept: nat, made: nat, done: seq<Action>)
    returns (x: Action, kept': nat, made': nat)
    requires Lost(w0, w, kept, made, done) && PicksEligible(ds) && w0.cluster.value.spec.replicas > 1
    requires kept > 0 && n !in w.machines
    ensures Lost(w0, ReconcileStep(w, ds, LosesPatch(n)).0, kept', made', done + [x])
    ensures forall k :: k != n && k !in w.machines ==> k !in ReconcileStep(w, ds, LosesPatch(n)).0.machines
    ensures KeepsAddresses(w.machines, ReconcileStep(w, ds, LosesPatch(n)).0.machines)
    ensures if kept + made < w0.cluster.value.spec.replicas
            then x == Created(n, w0.now) && kept' == kept && made' == made + 1
            else x.Disowned? && kept' == kept - 1 && made' == made && n !in ReconcileStep(w, ds, LosesPatch(n)).0.machines
  {
    var w' := ReconcileStep(w, ds, LosesPatch(n)).0;
    var d, move := LostDecides(w0, w, ds, n, kept, made, done);
    MoveKeepsAddresses(w, ds, w', move, []);
    if move.Makes? {
      x, kept', made' := Created(n, w0.now), kept, made + 1;
      AfterCreation(w0.machines.Keys, w.machines, n, w'.machines[n]);
      AddOne(New(w0, w), n);
    } else {
      x, kept', made' := Disowned(move.name), kept - 1, made;
      AfterDisowning(w0.machines.Keys, w.machines, move.name);
    }
    OneMore(w0.log, done, x);
  }

  lemma LostStep(w0: World, ds: Domains, es: seq<Event>, n: Name, kept: nat, made: nat, done: seq<Action>)
    returns (es': seq<Event>, x: Action, kept': nat, made': nat)
    requires PossibleRun(w0, ds, es) && (forall e :: e in es ==> DuringRollout(e))
    requires Lost(w0, Run(w0, ds, es), kept, made, done) && PicksEligible(ds) && w0.cluster.value.spec.replicas > 1
    requires kept > 0 && n !in Run(w0, ds, es).machines
    ensures PossibleRun(w0, ds, es') && (forall e :: e in es' ==> DuringRollout(e))
    ensures Lost(w0, Run(w0, ds, es'), kept', made', done + [x])
    ensures forall k :: k != n && k !in Run(w0, ds, es).machines ==> k !in Run(w0, ds, es').machines
    ensures KeepsAddresses(Run(w0, ds, es).machines, Run(w0, ds, es').machines)
    ensures if kept + made < w0.cluster.value.spec.replicas
            then x == Created(n, w0.now) && kept' == kept && made' == made + 1
            else x.Disowned? && kept' == kept - 1 && made' == made && n !in Run(w0, ds, es').machines
  {
    var e := Reconciled(LosesPatch(n));
    RunMore(w0, ds, es, e);
    es' := es + [e];
    x, kept', made' := LostMove(w0, Run(w0, ds, es), ds, n, kept, made, done);
  }

  lemma SinceStart(w0: World, w: World, done: seq<Action>)
    requires w.log == w0.log + done
    ensures w0.log <= w.log && Since(w0, w) == done
  {
  }

  lemma OneMore(log: seq<Action>, done: seq<Action>, x: Action)
    ensures log + done + ([] + [x]) == log + (done + [x])
  {
    assert [] + [x] == [x];
  }

  lemma Unspaced(m: Action, n: Action, x: Action, y: Action)
    requires m.Created? && n.Created? && !x.PassedCheck? && !y.PassedCheck?
    ensures !PacedLog([] + [x] + [m] + [y] + [n])
  {
    var log := [] + [x] + [m] + [y] + [n];
    assert log == [x, m, y, n];
    assert !Spaced(log, 1, 3);
  }

  /** Every rollout of three or more replicas whose patches are lost puts up two new machines
      without a pause: two Reconciles may follow each creation at once. */
  lemma LostPatchesLoseThePace(w0: World, ds: Domains, m: Name, n: Name) returns (es: seq<Event>)
    requires RolloutStart(w0) && PicksEligible(ds)
    requires w0.cluster.value.spec.replicas >= 3 && !w0.cluster.value.conditions.specUpToDate.False?
    requires m !in w0.machines && n !in w0.machines && m != n
    ensures PossibleRun(w0, ds, es) && forall e :: e in es ==> DuringRollout(e)
    ensures w0.log <= Run(w0, ds, es).log && !PacedLog(Since(w0, Run(w0, ds, es)))
  {
    LostStart(w0);
    var x1, x2, x3, x4;
    var kept, made := w0.cluster.value.spec.replicas, 0;
    es, x1, kept, made := LostStep(w0, ds, [], m, kept, made, []);
    es, x2, kept, made := LostStep(w0, ds, es, m, kept, made, [] + [x1]);
    es, x3, kept, made := LostStep(w0, ds, es, n, kept, made, [] + [x1] + [x2]);
    es, x4, kept, made := LostStep(w0, ds, es, n, kept, made, [] + [x1] + [x2] + [x3]);
    SinceStart(w0, Run(w0, ds, es), [] + [x1] + [x2] + [x3] + [x4]);
    Unspaced(x2, x4, x1, x3);
  }

  lemma LostStart(w0: World)
    requires RolloutStart(w0) && !w0.cluster.value.conditions.specUpToDate.False?
    ensures Lost(w0, w0, w0.cluster.value.spec.replicas, 0, [])
  {
    StartsUnderWay(w0);
  }
}
