/** When replicas that receive the same events in different orders end with the same log. */
module Convergence {
  import opened Events
  import opened Evaluation
  import opened Delivery
  import opened Orders

  // ---------- Within one run ----------

  /**
   * Segments and stops newer than the log, and entries of the log once more. Region uuids may repeat, in the
   * log and among segments; a stop does not share a new uuid with an earlier segment.
   */
  ghost predicate RunEvents(log: seq<Event>, ds: seq<Event>) {
    && Newer(log, ds)
    && (forall d :: d in ds ==> d in log || d.kind.Segment? || d.kind.Stop?)
    && StopsApart(Uuids(log), ds)
  }

  ghost predicate StopsApart(used: set<Uuid>, ds: seq<Event>) {
    forall x, y :: x in ds && y in ds && x.kind.Stop? && y.kind.Segment? && Before(y, x) && x.uuid !in used ==> x.uuid != y.uuid
  }

  /** x has a new uuid, and no new stop and no event with its uuid comes before it. */
  ghost predicate Wins(used: set<Uuid>, ds: seq<Event>, x: Event) {
    && x in ds && x.uuid !in used
    && forall y :: y in ds && Before(y, x) && y.uuid !in used ==> !y.kind.Stop? && y.uuid != x.uuid
  }

  ghost predicate HasStop(used: set<Uuid>, es: seq<Event>) {
    exists x :: x in es && x.kind.Stop? && x.uuid !in used
  }

  ghost predicate RunKinds(es: seq<Event>) {
    forall x :: x in es ==> x.kind.Segment? || x.kind.Stop?
  }

  /** After some run events: the clock has stopped at the first new stop; until then every uuid is remembered. */
  lemma {:induction false} RunFacts(r: Fsm, es: seq<Event>)
    requires r.status.Running? && StrictlySorted(es) && RunKinds(es) && StopsApart(r.seen, es)
    ensures Run(r, es).status == if HasStop(r.seen, es) then Stopped else Running
    ensures !HasStop(r.seen, es) ==> Run(r, es).seen == r.seen + Uuids(es)
    decreases |es|
  {
    if es != [] {
      var init, e := es[..|es| - 1], es[|es| - 1];
      assert es == init + [e];
      assert forall x :: x in es <==> x in init || x == e;
      assert forall x :: x in init ==> Before(x, e);
      RunSnoc(r, init, e);
      RunFacts(r, init);
      RunFactsStep(r, Run(r, init), init, e);
    }
  }

  lemma RunFactsStep(r: Fsm, s: Fsm, init: seq<Event>, e: Event)
    requires (e.kind.Segment? || e.kind.Stop?) && RunKinds(init)
    requires e.kind.Stop? && e.uuid !in r.seen ==> forall x :: x in init && x.kind.Segment? ==> x.uuid != e.uuid
    requires s.status == if HasStop(r.seen, init) then Stopped else Running
    requires !HasStop(r.seen, init) ==> s.seen == r.seen + Uuids(init)
    ensures Step(s, e).status == if HasStop(r.seen, init + [e]) then Stopped else Running
    ensures !HasStop(r.seen, init + [e]) ==> Step(s, e).seen == r.seen + Uuids(init + [e])
  {
    StepStatus(s, e);
    UuidsSnoc(init, e);
    UuidOf(init, e.uuid);
    assert forall x :: x in init + [e] <==> x in init || x == e;
  }

  lemma UuidsSnoc(es: seq<Event>, e: Event)
    ensures Uuids(es + [e]) == Uuids(es) + {e.uuid}
  {
    var all := es + [e];
    forall u
      ensures u in Uuids(all) <==> u in Uuids(es) || u == e.uuid
    {
      assert all[|es|] == e;
      if u in Uuids(es) {
        var i :| 0 <= i < |es| && es[i].uuid == u;
        assert all[i].uuid == u;
      }
    }
  }

  /** The survivors of a run are its first new stop and, before that, the first segment of each new uuid. */
  lemma SurvivorsWin(r: Fsm, es: seq<Event>, x: Event)
    requires r.status.Running? && StrictlySorted(es) && RunKinds(es) && StopsApart(r.seen, es)
    ensures x in Kept(r, es) <==> Wins(r.seen, es, x)
  {
    KeptMembers(r, es);
    if x in es {
      var i :| 0 <= i < |es| && es[i] == x;
      var a := es[..i];
      KeptWhere(r, es, i);
      PrefixSorted(es, i);
      BeforeIsPrefix(es, i);
      RelevantInRun(r, a, x);
      UuidOf(a, x.uuid);
    }
  }

  /** A run event is accepted behind others until the first new stop, if its uuid is new. */
  lemma RelevantInRun(r: Fsm, a: seq<Event>, x: Event)
    requires r.status.Running? && StrictlySorted(a) && RunKinds(a) && StopsApart(r.seen, a)
    requires x.kind.Segment? || x.kind.Stop?
    ensures Relevant(Run(r, a), x) <==> !HasStop(r.seen, a) && x.uuid !in r.seen && x.uuid !in Uuids(a)
  {
    RunFacts(r, a);
  }

  lemma BeforeIsPrefix(es: seq<Event>, i: nat)
    requires StrictlySorted(es) && i < |es|
    ensures forall y :: y in es[..i] <==> y in es && Before(y, es[i])
  {
    forall y | y in es && Before(y, es[i])
      ensures y in es[..i]
    {
      var j :| 0 <= j < |es| && es[j] == y;
      assert j < i;
      assert es[..i][j] == y;
    }
  }

  lemma RunIsOrderFree(log: seq<Event>, es: seq<Event>)
    requires Settled(log) && Run(INIT, log).status.Running?
    requires StrictlySorted(es) && RunKinds(es) && StopsApart(Uuids(log), es)
    ensures OrderFree(log, es)
  {
    SettledIsStrict(log);
    forall b | b in Kept(Run(INIT, log), es)
      ensures Sure(Running, Uuids(log), es, b)
    {
      SurvivorsWin(Run(INIT, log), es, b);
    }
  }

  /** Delivering run events in any order and with any repeats ends where evaluating all of them at once ends. */
  lemma RunDeliveryIsBatch(log: seq<Event>, ds: seq<Event>)
    requires Settled(log) && Run(INIT, log).status.Running? && RunEvents(log, ds)
    ensures var es := NewEvents(log, ds);
      && StrictlySorted(es) && RunKinds(es) && StopsApart(Uuids(log), es)
      && DeliverAll(log, ds) == log + Kept(Run(INIT, log), es)
  {
    SettledIsStrict(log);
    NewEventsSorted(log, ds);
    RestSorted(log, NewEvents(log, ds));
    RunIsOrderFree(log, NewEvents(log, ds));
    NewerConverges(log, ds);
  }

  /** The log any delivery order of the run events leaves. */
  lemma RunOutcome(log: seq<Event>, ds: seq<Event>)
    requires Settled(log) && Run(INIT, log).status.Running? && RunEvents(log, ds)
    ensures var after := DeliverAll(log, ds);
      && log <= after && StrictlySorted(after)
      && forall x :: x in after[|log|..] <==> Wins(Uuids(log), ds, x)
  {
    var r, es := Run(INIT, log), NewEvents(log, ds);
    SettledIsStrict(log);
    RunDeliveryIsBatch(log, ds);
    NewEventsSorted(log, ds);
    DeliverAllSettles(log, ds);
    SettledIsStrict(DeliverAll(log, ds));
    assert DeliverAll(log, ds)[|log|..] == Kept(r, es);
    forall x
      ensures x in Kept(r, es) <==> Wins(Uuids(log), ds, x)
    {
      SurvivorsWin(r, es, x);
    }
  }

  /** Replicas that received the same run events agree on log and state, whatever the orders and repeats. */
  lemma RunReplicasConverge(log: seq<Event>, ds1: seq<Event>, ds2: seq<Event>)
    requires Settled(log) && Run(INIT, log).status.Running?
    requires RunEvents(log, ds1) && forall x :: x in ds1 <==> x in ds2
    ensures DeliverAll(log, ds1) == DeliverAll(log, ds2)
    ensures Run(INIT, DeliverAll(log, ds1)) == Run(INIT, DeliverAll(log, ds2))
  {
    assert RunEvents(log, ds2);
    RunOutcome(log, ds1);
    RunOutcome(log, ds2);
    assert forall x :: Wins(Uuids(log), ds1, x) <==> Wins(Uuids(log), ds2, x);
    SameTails(log, DeliverAll(log, ds1), DeliverAll(log, ds2));
  }

  lemma SameTails(log: seq<Event>, a: seq<Event>, b: seq<Event>)
    requires log <= a && log <= b && StrictlySorted(a) && StrictlySorted(b)
    requires forall x :: x in a[|log|..] <==> x in b[|log|..]
    ensures a == b
  {
    assert a == log + a[|log|..] && b == log + b[|log|..];
    StrictSuffix(log, a[|log|..]);
    StrictSuffix(log, b[|log|..]);
    StrictlySortedUnique(a[|log|..], b[|log|..]);
  }

  // ---------- The start race ----------

  predicate IsNewStart(log: seq<Event>, d: Event) {
    d.kind.Start? && d.uuid !in Uuids(log)
  }

  /** Starts newer than the log, some perhaps under old uuids, and entries of the log once more. */
  ghost predicate RaceStarts(log: seq<Event>, ds: seq<Event>) {
    Newer(log, ds) && forall d :: d in ds ==> d in log || d.kind.Start?
  }

  /** m is the first start of the race with a new uuid. */
  ghost predicate IsEarliest(log: seq<Event>, ds: seq<Event>, m: Event) {
    && m in ds && IsNewStart(log, m)
    && forall d :: d in ds && IsNewStart(log, d) ==> m.time < d.time || (m.time == d.time && m.uuid <= d.uuid)
  }

  lemma {:induction false} EarliestExists(log: seq<Event>, ds: seq<Event>, d: Event) returns (m: Event)
    requires d in ds && IsNewStart(log, d)
    ensures IsEarliest(log, ds, m)
    decreases |ds|
  {
    var init, e := ds[..|ds| - 1], ds[|ds| - 1];
    assert ds == init + [e];
    assert forall x :: x in ds <==> x in init || x == e;
    if x :| x in init && IsNewStart(log, x) {
      m := EarliestExists(log, init, x);
      if IsNewStart(log, e) && Before(e, m) {
        m := e;
      }
    } else {
      m := e;
    }
  }

  lemma {:induction false} UsedLeaveNoTrace(r: Fsm, es: seq<Event>)
    requires forall x :: x in es ==> x.uuid in r.seen
    ensures Run(r, es) == r && Kept(r, es) == []
    decreases es
  {
    if es != [] {
      StepStatus(r, es[0]);
      UsedLeaveNoTrace(r, es[1..]);
    }
  }

  lemma {:induction false} StartsAreRefused(r: Fsm, es: seq<Event>)
    requires r.status.Running? && forall x :: x in es ==> x.kind.Start?
    ensures Kept(r, es) == []
    decreases es
  {
    if es != [] {
      StepStatus(r, es[0]);
      StartsAreRefused(r, es[1..]);
    }
  }

  /** Of starts behind a prepared timer the first new one survives alone. */
  lemma FirstStartSurvives(r: Fsm, es: seq<Event>, m: Event)
    requires r.status.Prepared? && StrictlySorted(es) && (forall x :: x in es ==> x.kind.Start?)
    requires m in es && m.uuid !in r.seen
    requires forall x :: x in es && x.uuid !in r.seen ==> !Before(x, m)
    ensures Kept(r, es) == [m]
  {
    var i :| 0 <= i < |es| && es[i] == m;
    PrefixSorted(es, i);
    assert es == es[..i] + [m] + es[i + 1..];
    UsedLeaveNoTrace(r, es[..i]);
    StepStatus(r, m);
    StartsAreRefused(Step(r, m), es[i + 1..]);
    KeptAround(r, es[..i], m, es[i + 1..]);
  }

  /** A start delivered behind a prepared log with one start: the earlier of the two stays. */
  lemma SecondStart(log: seq<Event>, m: Event, e: Event)
    requires Settled(log) && Run(INIT, log).status.Prepared? && (SameKey(m, e) ==> m == e)
    requires IsNewStart(log, m) && AllBefore(log, m) && IsNewStart(log, e) && AllBefore(log, e)
    ensures Deliver(log + [m], e) == log + [if Before(e, m) then e else m]
  {
    var r := Run(INIT, log);
    SettledIsStrict(log);
    StepStatus(r, m);
    StepStatus(r, e);
    if Before(e, m) {
      InsertBetween(log, [m], e);
      KeptAround(INIT, log, e, [m]);
      RunOne(Step(r, e), m);
      StepStatus(Step(r, e), m);
    } else {
      InsertBetween(log + [m], [], e);
      assert log + [m] + [e] + [] == log + [m] + [e];
      assert (log + [m]) + [] == log + [m];
      KeptAround(INIT, log, m, [e]);
      RunOne(Step(r, m), e);
      StepStatus(Step(r, m), e);
    }
  }

  /**
   * Whatever starts race behind a prepared log, in whatever order and with whatever repeats they arrive,
   * exactly the earliest survives; the timer runs from its time and counts as having been prepared.
   */
  lemma EarliestStartWins(log: seq<Event>, ds: seq<Event>, m: Event)
    requires Settled(log) && Run(INIT, log).status.Prepared? && RaceStarts(log, ds) && IsEarliest(log, ds, m)
    ensures DeliverAll(log, ds) == log + [m]
    ensures var r := Run(INIT, DeliverAll(log, ds));
      r.status.Running? && r.start == m.time && r.wasPrepared
  {
    var r, es := Run(INIT, log), NewEvents(log, ds);
    SettledIsStrict(log);
    NewEventsSorted(log, ds);
    RestSorted(log, es);
    assert m !in log;
    FirstStartSurvives(r, es, m);
    assert Sure(r.status, Uuids(log), es, m);
    NewerConverges(log, ds);
    OneStart(log, m);
  }

  lemma OneStart(log: seq<Event>, e: Event)
    requires Settled(log) && Run(INIT, log).status.Prepared?
    requires IsNewStart(log, e) && AllBefore(log, e)
    ensures Deliver(log, e) == log + [e]
    ensures var r := Run(INIT, log + [e]); r.status.Running? && r.start == e.time && r.wasPrepared
  {
    SettledIsStrict(log);
    InsertLast(log, e);
    RunSnoc(INIT, log, e);
  }

  // ---------- Barriers ----------

  predicate IsBarrier(e: Event) {
    e.kind.MapChange? || e.kind.Reset?
  }

  ghost predicate SameTimer(q: Fsm, r: Fsm) {
    q.status == r.status && q.start == r.start && q.stop == r.stop
  }

  /** Everything up to a barrier may be replaced: what follows survives and sets the same clock. */
  lemma BarrierShields(s: Fsm, t: Fsm, barrier: Event, rest: seq<Event>)
    requires IsBarrier(barrier) && Kept(s, [barrier] + rest) == [barrier] + rest
    requires forall x :: x in [barrier] + rest ==> x.uuid !in t.seen
    ensures Kept(t, [barrier] + rest) == [barrier] + rest
    ensures SameTimer(Run(s, [barrier] + rest), Run(t, [barrier] + rest))
  {
    FirstIsRelevant(s, barrier, rest);
    RunCons(s, barrier, rest);
    RunCons(t, barrier, rest);
    assert ([barrier] + rest)[0] == barrier;
    StepStatus(s, barrier);
    StepStatus(t, barrier);
    SeenIsSurvivors(Step(s, barrier), rest);
    assert forall x :: x in rest ==> x in [barrier] + rest;
    SameClockRuns(Step(s, barrier), Step(t, barrier), rest);
  }

  /**
   * A late event that sorts before a barrier, under a uuid not used from there on, changes neither the
   * log from the barrier on nor the timer, however it reshapes what stands before.
   */
  lemma LateEventStopsAtBarrier(front: seq<Event>, barrier: Event, rest: seq<Event>, e: Event)
    requires Settled(front + ([barrier] + rest)) && IsBarrier(barrier)
    requires Before(e, barrier) && e.uuid !in Uuids([barrier] + rest)
    ensures Deliver(front + ([barrier] + rest), e) == Kept(INIT, Insert(front, e)) + ([barrier] + rest)
    ensures SameTimer(Run(INIT, front + ([barrier] + rest)), Run(INIT, Deliver(front + ([barrier] + rest), e)))
  {
    var tail := [barrier] + rest;
    var log, mid := front + tail, Insert(front, e);
    SettledIsStrict(log);
    InsertBeforeBarrier(front, barrier, rest, e);
    PrunedPrefix(INIT, log, |front|);
    assert log[..|front|] == front && log[|front|..] == tail;
    RunAppend(INIT, front, tail);
    KeptAppend(INIT, mid, tail);
    RunAppend(INIT, mid, tail);
    SeenIsSurvivors(INIT, mid);
    FreshTail(front, tail, e);
    BarrierShields(Run(INIT, front), Run(INIT, mid), barrier, rest);
    DeliverSettles(log, e);
  }

  lemma {:induction false} InsertBeforeBarrier(front: seq<Event>, barrier: Event, rest: seq<Event>, e: Event)
    requires StrictlySorted(front + ([barrier] + rest)) && Before(e, barrier)
    ensures Insert(front + ([barrier] + rest), e) == Insert(front, e) + ([barrier] + rest)
  {
    var tail := [barrier] + rest;
    StrictPrefix(front, tail);
    StrictSuffix(front, tail);
    AllAfterFirst(barrier, rest, e);
    var a, b := InsertSplits(front, e);
    assert forall x :: x in b + tail ==> Before(e, x);
    InsertBetween(a, b + tail, e);
    calc {
      Insert(front + tail, e);
      { assert front + tail == a + (b + tail); }
      a + [e] + (b + tail);
      (a + [e] + b) + tail;
    }
  }

  lemma AllAfterFirst(barrier: Event, rest: seq<Event>, e: Event)
    requires StrictlySorted([barrier] + rest) && Before(e, barrier)
    ensures forall x :: x in [barrier] + rest ==> Before(e, x)
  {
    var tail := [barrier] + rest;
    forall x | x in tail
      ensures Before(e, x)
    {
      var i :| 0 <= i < |tail| && tail[i] == x;
      assert tail[0] == barrier;
    }
  }

  lemma FreshTail(front: seq<Event>, tail: seq<Event>, e: Event)
    requires DistinctUuids(front + tail) && e.uuid !in Uuids(tail)
    ensures forall x :: x in tail ==> x.uuid !in Uuids(Kept(INIT, Insert(front, e)))
  {
    var k := Kept(INIT, Insert(front, e));
    KeptMembers(INIT, Insert(front, e));
    InsertMembers(front, e);
    forall x | x in tail
      ensures x.uuid !in Uuids(k)
    {
      var j :| 0 <= j < |tail| && tail[j] == x;
      assert (front + tail)[|front| + j] == x;
      forall i | 0 <= i < |k|
        ensures k[i].uuid != x.uuid
      {
        assert k[i] in Insert(front, e);
        if k[i] != e {
          var m :| 0 <= m < |front| && front[m] == k[i];
          assert (front + tail)[m] == k[i];
        }
      }
    }
  }

  /** The same for any number of late events, delivered in any order. */
  lemma {:induction false} LateEventsStopAtBarrier(front: seq<Event>, barrier: Event, rest: seq<Event>, ds: seq<Event>)
    returns (front': seq<Event>)
    requires Settled(front + ([barrier] + rest)) && IsBarrier(barrier)
    requires forall d :: d in ds ==> Before(d, barrier) && d.uuid !in Uuids([barrier] + rest)
    ensures DeliverAll(front + ([barrier] + rest), ds) == front' + ([barrier] + rest)
    ensures SameTimer(Run(INIT, front + ([barrier] + rest)), Run(INIT, DeliverAll(front + ([barrier] + rest), ds)))
    decreases |ds|
  {
    if ds == [] {
      front' := front;
    } else {
      var init, e := ds[..|ds| - 1], ds[|ds| - 1];
      var mid := LateEventsStopAtBarrier(front, barrier, rest, init);
      DeliverAllSettles(front + ([barrier] + rest), init);
      LateEventStopsAtBarrier(mid, barrier, rest, e);
      front' := Kept(INIT, Insert(mid, e));
    }
  }
}
