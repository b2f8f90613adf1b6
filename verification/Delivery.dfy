/**
 * Delivering events one at a time to a log that is pruned after each: when that gives
 * the log one evaluation of everything would have given, and when it does not.
 */
module Delivery {
  import opened Events
  import opened Evaluation
  import opened LogGrammar

  /** A log as it stands between two deliveries. */
  ghost predicate Settled(log: seq<Event>) {
    Sorted(log) && Pruned(log)
  }

  function Deliver(log: seq<Event>, e: Event): seq<Event> {
    Kept(INIT, Insert(log, e))
  }

  function DeliverAll(log: seq<Event>, ds: seq<Event>): seq<Event>
    decreases |ds|
  {
    if ds == [] then log else Deliver(DeliverAll(log, ds[..|ds| - 1]), ds[|ds| - 1])
  }

  lemma SettledIsStrict(log: seq<Event>)
    requires Settled(log)
    ensures StrictlySorted(log) && DistinctUuids(log)
    ensures Run(INIT, log).seen == Uuids(log)
  {
    KeptSorted(INIT, log);
    SeenIsSurvivors(INIT, log);
  }

  /** Every delivery leaves a settled log with the state of the evaluation that pruned it. */
  lemma DeliverSettles(log: seq<Event>, e: Event)
    requires Sorted(log)
    ensures Settled(Deliver(log, e))
    ensures Run(INIT, Deliver(log, e)) == Run(INIT, Insert(log, e))
  {
    InsertSorted(log, e);
    KeptSorted(INIT, Insert(log, e));
    PruningKeepsMeaning(INIT, Insert(log, e));
  }

  lemma {:induction false} DeliverAllSettles(log: seq<Event>, ds: seq<Event>)
    requires Settled(log)
    ensures Settled(DeliverAll(log, ds))
    decreases |ds|
  {
    if ds != [] {
      DeliverAllSettles(log, ds[..|ds| - 1]);
      DeliverSettles(DeliverAll(log, ds[..|ds| - 1]), ds[|ds| - 1]);
    }
  }

  /**
   * Evaluation depends only on which entries are in the log: whatever order they arrived in
   * and however the sort treats equal keys, the sorted log, the state and the survivors are the same.
   */
  lemma ArrivalOrderIsIrrelevant(log1: seq<Event>, log2: seq<Event>, p1: seq<Event>, p2: seq<Event>)
    requires multiset(log1) == multiset(log2) && KeysIdentify(log1)
    requires IsSortOf(p1, log1) && IsSortOf(p2, log2)
    ensures Run(INIT, p1) == Run(INIT, p2) && Kept(INIT, p1) == Kept(INIT, p2)
  {
    SameMembers(p1, log1);
    SortIsUnique(p1, p2);
  }

  /** Any sort of the log with one event appended is the insertion of that event. */
  lemma AnySortInserts(log: seq<Event>, e: Event, p: seq<Event>)
    requires Sorted(log) && KeysIdentify(log + [e]) && IsSortOf(p, log + [e])
    ensures p == Insert(log, e)
  {
    InsertIsSort(log, e);
    SameMembers(p, log + [e]);
    SortIsUnique(p, Insert(log, e));
  }

  // ---------- In order delivery ----------

  /** Pruning after every in-order delivery ends where one evaluation of everything ends. */
  lemma {:induction false} IncrementalIsBatch(log: seq<Event>, es: seq<Event>)
    requires Settled(log) && StrictlySorted(log + es)
    ensures DeliverAll(log, es) == Kept(INIT, log + es)
    ensures Run(INIT, DeliverAll(log, es)) == Run(INIT, log + es)
    decreases |es|
  {
    if es == [] {
      assert log + es == log;
    } else {
      var init, e := es[..|es| - 1], es[|es| - 1];
      assert log + es == (log + init) + [e];
      assert forall i, j :: 0 <= i < j < |log + init| ==> (log + es)[i] == (log + init)[i] && (log + es)[j] == (log + init)[j];
      IncrementalIsBatch(log, init);
      var k := Kept(INIT, log + init);
      KeptMembers(INIT, log + init);
      forall x | x in k
        ensures Before(x, e)
      {
        var i :| 0 <= i < |log + init| && (log + init)[i] == x;
        assert (log + es)[i] == x && (log + es)[|log + init|] == e;
      }
      InsertLast(k, e);
      PruningKeepsMeaning(INIT, log + init);
      RunSnoc(INIT, k, e);
      RunSnoc(INIT, log + init, e);
      PruningKeepsMeaning(INIT, log + es);
    }
  }

  // ---------- Late delivery ----------

  /** Two machines agree on what survives of b exactly when the first keeps nothing the second dropped. */
  lemma {:induction false} UnlocksNothing(t: Fsm, s: Fsm, b: seq<Event>)
    requires StrictlySorted(b)
    ensures Kept(t, Kept(s, b)) == Kept(t, b) <==> forall x :: x in Kept(t, b) ==> x in Kept(s, b)
    decreases b
  {
    if b != [] {
      var t', s' := Step(t, b[0]), Step(s, b[0]);
      var rest := Kept(s', b[1..]);
      UnlocksNothing(t', s', b[1..]);
      KeptMembers(t, Kept(s, b));
      KeptMembers(t', b[1..]);
      KeptMembers(s', b[1..]);
      assert b[0] !in b[1..] by {
        forall x | x in b[1..]
          ensures Before(b[0], x)
        {
        }
      }
      if Relevant(s, b[0]) {
        RunCons(t, b[0], rest);
      } else {
        assert Kept(s, b) == rest;
      }
      if forall x :: x in Kept(t, b) ==> x in Kept(s, b) {
        if Relevant(t, b[0]) {
          assert Kept(t, b)[0] == b[0];
        }
        forall x | x in Kept(t', b[1..])
          ensures x in rest
        {
          assert x in Kept(t, b);
        }
      }
    }
  }

  /**
   * A late event e is delivered to what pruning left of es. The result is the one an unpruned log
   * would give if and only if placing e makes no entry survive that had been erased without it.
   */
  lemma LateDeliveryIsHarmlessIff(es: seq<Event>, e: Event)
    requires StrictlySorted(es)
    requires forall x :: x in es ==> !SameKey(x, e)
    ensures Deliver(Kept(INIT, es), e) == Kept(INIT, Insert(es, e))
       <==> forall x :: x in Kept(INIT, Insert(es, e)) ==> x == e || x in Kept(INIT, es)
  {
    var a, b := InsertSplits(es, e);
    var s := Run(INIT, a);
    var t := Step(s, e);
    var ka, kb, front := Kept(INIT, a), Kept(s, b), Kept(INIT, a) + If(Relevant(s, e), e);
    KeptAppend(INIT, a, b);
    KeptAround(INIT, a, e, b);
    DeliverToPruned(a, e, b);
    SamePrefix(front, Kept(t, kb), Kept(t, b));
    StrictSuffix(a, b);
    UnlocksNothing(t, s, b);
    KeptMembers(INIT, a);
    KeptMembers(t, b);
    assert forall x :: x in Kept(t, b) ==> x !in ka && x != e;
    MembersBeyond(front, Kept(t, b), ka, kb, e);
  }

  /** Pruning es before e arrived changed nothing. */
  ghost predicate Harmless(es: seq<Event>, e: Event) {
    Deliver(Kept(INIT, es), e) == Kept(INIT, Insert(es, e))
  }

  /** Kinds whose late arrival no pruned log ever suffers from, under a new uuid. */
  ghost predicate AlwaysHarmless(kind: EventType) {
    forall es, e: Event :: StrictlySorted(es) && e.kind == kind && e.uuid !in Uuids(es) ==> Harmless(es, e)
  }

  /** Exactly the entries that move the timer can come too late. */
  lemma AlwaysHarmlessIff(kind: EventType)
    ensures AlwaysHarmless(kind) <==> !IsTransition(kind)
  {
    if IsTransition(kind) {
      var e, es := LateExample(kind);
      assert e.uuid !in Uuids(es) && !Harmless(es, e);
    } else {
      forall es, e: Event | StrictlySorted(es) && e.kind == kind && e.uuid !in Uuids(es)
        ensures Harmless(es, e)
      {
        StillTimerIsHarmless(es, e);
      }
    }
  }

  lemma StillTimerIsHarmless(es: seq<Event>, e: Event)
    requires StrictlySorted(es) && !IsTransition(e.kind) && e.uuid !in Uuids(es)
    ensures Harmless(es, e)
  {
    var a, b := InsertSplits(es, e);
    var s := Run(INIT, a);
    StepStatus(s, e);
    SameStatusKeeps(s, Step(s, e), b);
    KeptAround(INIT, a, e, b);
    KeptAppend(INIT, a, b);
    LateDeliveryIsHarmlessIff(es, e);
  }

  lemma {:induction false} SameStatusKeeps(s: Fsm, t: Fsm, b: seq<Event>)
    requires s.status == t.status && forall x :: x in b ==> (x.uuid in s.seen <==> x.uuid in t.seen)
    ensures Kept(t, b) == Kept(s, b)
    decreases b
  {
    if b != [] {
      StepStatus(s, b[0]);
      StepStatus(t, b[0]);
      SameStatusKeeps(Step(s, b[0]), Step(t, b[0]), b[1..]);
    }
  }

  /** For an event that arrives one entry late, harmless means that both orders agree. */
  lemma OneLate(log: seq<Event>, a: Event, b: Event)
    requires Settled(log) && AllBefore(log, a) && Before(a, b)
    ensures Harmless(log + [b], a) <==> DeliverAll(log, [a, b]) == DeliverAll(log, [b, a])
  {
    assert DeliverAll(log, [b, a]) == Deliver(Kept(INIT, log + [b]), a) by {
      DeliverTwo(log, b, a);
      InsertLast(log, b);
    }
    assert DeliverAll(log, [a, b]) == Kept(INIT, Insert(log + [b], a)) by {
      InsertBetween(log, [b], a);
      assert log + [a] + [b] == log + [a, b];
      StrictWithTwo(log, a, b);
      IncrementalIsBatch(log, [a, b]);
    }
  }

  lemma StrictWithTwo(log: seq<Event>, a: Event, b: Event)
    requires Settled(log) && AllBefore(log, a) && Before(a, b)
    ensures StrictlySorted(log + [a, b])
  {
    SettledIsStrict(log);
    assert forall i :: 0 <= i < |log| ==> log[i] in log;
  }

  /** For each kind that moves the timer, a log that pruning makes come out differently. */
  lemma {:induction false} LateExample(kind: EventType) returns (e: Event, es: seq<Event>)
    requires IsTransition(kind)
    ensures StrictlySorted(es) && e.kind == kind && e.uuid !in Uuids(es) && !Harmless(es, e)
  {
    e := Event(5, kind, Manual, 1, None);
    var later := Event(10, if kind.Start? || kind.Prepare? then Stop else Start, Manual, 2, None);
    var log := if kind.Start? || kind.Prepare? then [] else [Event(0, Start, Manual, 3, None)];
    es := log + [later];
    assert forall x :: x in log ==> x == Event(0, Start, Manual, 3, None);
    RunOne(INIT, Event(0, Start, Manual, 3, None));
    OneLate(log, e, later);
    TwoOrdersAgreeIff(log, e, later);
  }

  lemma MembersBeyond(front: seq<Event>, p: seq<Event>, ka: seq<Event>, kb: seq<Event>, e: Event)
    requires forall x :: x in front ==> x == e || x in ka
    requires forall x :: x in p ==> x !in ka && x != e
    ensures (forall x :: x in front + p ==> x == e || x in ka + kb) <==> (forall x :: x in p ==> x in kb)
  {
    if forall x :: x in front + p ==> x == e || x in ka + kb {
      forall x | x in p
        ensures x in kb
      {
        assert x in front + p;
      }
    }
  }

  lemma StrictSuffix(a: seq<Event>, b: seq<Event>)
    requires StrictlySorted(a + b)
    ensures StrictlySorted(b)
  {
    assert forall i :: 0 <= i < |b| ==> b[i] == (a + b)[|a| + i];
  }

  /** Delivering e to a pruned log evaluates the survivors on either side of it. */
  lemma DeliverToPruned(a: seq<Event>, e: Event, b: seq<Event>)
    requires forall x :: x in a ==> !Before(e, x)
    requires forall x :: x in b ==> Before(e, x)
    ensures var s := Run(INIT, a);
      Deliver(Kept(INIT, a + b), e) == Kept(INIT, a) + If(Relevant(s, e), e) + Kept(Step(s, e), Kept(s, b))
  {
    var s := Run(INIT, a);
    KeptAppend(INIT, a, b);
    KeptMembers(INIT, a);
    KeptMembers(s, b);
    InsertBetween(Kept(INIT, a), Kept(s, b), e);
    PruningKeepsMeaning(INIT, a);
    KeptAround(INIT, Kept(INIT, a), e, Kept(s, b));
  }

  /** By kind alone: b is refused in this status, but accepted once a has been. */
  predicate Unlocks(status: TimerStatus, a: EventType, b: EventType) {
    match status
    case Stopped => (a.Start? && (b.Stop? || b.Segment?)) || (a.Prepare? && b.Stop?)
    case Running => (a.Stop? || a.Reset? || a.MapChange?) && (b.Start? || b.Prepare?)
    case Prepared => (a.Start? && b.Segment?) || ((a.Stop? || a.Reset? || a.MapChange?) && b.Prepare?)
  }

  /**
   * Two events newer than the log give the same log in both delivery orders, except exactly when
   * both uuids are new, they differ, and the earlier event unlocks the later one in the log's status.
   */
  lemma TwoOrdersAgreeIff(log: seq<Event>, a: Event, b: Event)
    requires Settled(log) && AllBefore(log, a) && Before(a, b)
    ensures DeliverAll(log, [a, b]) == DeliverAll(log, [b, a])
       <==> !(&& a.uuid !in Uuids(log) && b.uuid !in Uuids(log) && a.uuid != b.uuid
              && Unlocks(Run(INIT, log).status, a.kind, b.kind))
  {
    var r := Run(INIT, log);
    var ka, kb, kb' := If(Relevant(r, a), a), If(Relevant(Step(r, a), b), b), Kept(Step(r, a), If(Relevant(r, b), b));
    SettledIsStrict(log);
    DeliverTwo(log, a, b);
    DeliverTwo(log, b, a);
    InOrder(log, a, b);
    OutOfOrder(log, a, b);
    UnlocksExactly(r, a, b);
    SamePrefix(log, ka + kb, ka + kb');
    SamePrefix(ka, kb, kb');
  }

  lemma SamePrefix(a: seq<Event>, x: seq<Event>, y: seq<Event>)
    ensures a + x == a + y <==> x == y
  {
    assert x == (a + x)[|a|..] && y == (a + y)[|a|..];
  }

  lemma UnlocksExactly(r: Fsm, a: Event, b: Event)
    ensures If(Relevant(Step(r, a), b), b) == Kept(Step(r, a), If(Relevant(r, b), b))
       <==> !(a.uuid !in r.seen && b.uuid !in r.seen && a.uuid != b.uuid && Unlocks(r.status, a.kind, b.kind))
  {
    StepStatus(r, a);
    RunOne(Step(r, a), b);
  }

  function If(keep: bool, e: Event): seq<Event> {
    if keep then [e] else []
  }

  lemma DeliverTwo(log: seq<Event>, a: Event, b: Event)
    ensures DeliverAll(log, [a, b]) == Deliver(Deliver(log, a), b)
  {
    assert [a, b][..1] == [a] && [a][..0] == [];
    assert DeliverAll(log, [a]) == Deliver(log, a);
  }

  lemma InOrder(log: seq<Event>, a: Event, b: Event)
    requires Settled(log) && AllBefore(log, a) && Before(a, b)
    ensures var r := Run(INIT, log);
      Deliver(Deliver(log, a), b) == log + (If(Relevant(r, a), a) + If(Relevant(Step(r, a), b), b))
  {
    var first := log + If(Relevant(Run(INIT, log), a), a);
    InsertLast(log, a);
    RunSnoc(INIT, log, a);
    InsertLast(first, b);
    PruningKeepsMeaning(INIT, log + [a]);
    RunSnoc(INIT, first, b);
  }

  lemma OutOfOrder(log: seq<Event>, a: Event, b: Event)
    requires Settled(log) && AllBefore(log, a) && Before(a, b)
    ensures var r := Run(INIT, log);
      Deliver(Deliver(log, b), a) == log + (If(Relevant(r, a), a) + Kept(Step(r, a), If(Relevant(r, b), b)))
  {
    InsertLast(log, b);
    RunSnoc(INIT, log, b);
    DeliverInFront(log, a, If(Relevant(Run(INIT, log), b), b));
  }

  lemma DeliverInFront(log: seq<Event>, a: Event, kb: seq<Event>)
    requires Settled(log) && AllBefore(log, a) && forall x :: x in kb ==> Before(a, x)
    ensures var r := Run(INIT, log);
      Deliver(log + kb, a) == log + (If(Relevant(r, a), a) + Kept(Step(r, a), kb))
  {
    InsertBetween(log, kb, a);
    KeptAround(INIT, log, a, kb);
  }

  /** A stop that reaches a stopped log before the start it belongs to is lost for good. */
  lemma StopOvertakesStart(log: seq<Event>, start: Event, stop: Event)
    requires Settled(log) && Run(INIT, log).status == Stopped
    requires start.kind.Start? && stop.kind.Stop? && AllBefore(log, start) && Before(start, stop)
    requires start.uuid !in Uuids(log) && stop.uuid !in Uuids(log) && start.uuid != stop.uuid
    ensures DeliverAll(log, [start, stop]) == log + [start, stop]
    ensures DeliverAll(log, [stop, start]) == log + [start]
  {
    var r := Run(INIT, log);
    SettledIsStrict(log);
    DeliverTwo(log, start, stop);
    DeliverTwo(log, stop, start);
    StepStatus(r, start);
    calc {
      Deliver(Deliver(log, start), stop);
      { InOrder(log, start, stop); }
      log + (If(Relevant(r, start), start) + If(Relevant(Step(r, start), stop), stop));
      { assert Relevant(r, start) && Relevant(Step(r, start), stop); }
      log + ([start] + [stop]);
    }
    calc {
      Deliver(Deliver(log, stop), start);
      { OutOfOrder(log, start, stop); }
      log + (If(Relevant(r, start), start) + Kept(Step(r, start), If(Relevant(r, stop), stop)));
      { assert Relevant(r, start) && !Relevant(r, stop); }
      log + ([start] + []);
    }
    assert [start] + [stop] == [start, stop] && [start] + [] == [start];
  }

  /** The smallest divergence. */
  lemma LateStartDiverges()
    ensures var start := Event(5, Start, Manual, 1, None);
      var stop := Event(10, Stop, Manual, 2, None);
      && DeliverAll([], [start, stop]) == [start, stop]
      && DeliverAll([], [stop, start]) == [start]
  {
    var start := Event(5, Start, Manual, 1, None);
    var stop := Event(10, Stop, Manual, 2, None);
    StopOvertakesStart([], start, stop);
    assert [] + [start, stop] == [start, stop] && [] + [start] == [start];
  }

  // ---------- Delivery once more ----------

  /** A surviving event that arrives once more, unchanged, changes nothing. */
  lemma EchoChangesNothing(log: seq<Event>, e: Event, p: seq<Event>)
    requires Settled(log) && e in log && IsSortOf(p, log + [e])
    ensures Kept(INIT, p) == log && Run(INIT, p) == Run(INIT, log)
  {
    SettledIsStrict(log);
    StrictSortsIdentify(log);
    AnySortInserts(log, e, p);
    var i :| 0 <= i < |log| && log[i] == e;
    var a, b := log[..i], log[i + 1..];
    SplitAt(log, i);
    forall x | x in b
      ensures Before(e, x)
    {
    }
    forall x | x in a + [e]
      ensures !Before(e, x)
    {
    }
    InsertBetween(a + [e], b, e);
    PrunedPrefix(INIT, log, i);
    DuplicateDropped(INIT, a, e, e, b);
  }

  lemma SplitAt(log: seq<Event>, i: nat)
    requires i < |log|
    ensures log == log[..i] + [log[i]] + log[i + 1..]
    ensures forall e: Event :: log[i := e] == log[..i] + [e] + log[i + 1..]
    ensures forall e: Event :: log[..i] + [e] + log[i..] == log[..i] + [e] + [log[i]] + log[i + 1..]
    ensures forall e: Event :: log[..i + 1] + [e] + log[i + 1..] == log[..i] + [log[i]] + [e] + log[i + 1..]
  {
    assert log[i..] == [log[i]] + log[i + 1..];
    assert log[..i + 1] == log[..i] + [log[i]];
  }

  ghost predicate SameClock(s: Fsm, t: Fsm) {
    s.start == t.start && s.stop == t.stop && s.wasPrepared == t.wasPrepared
  }

  /** Entries of one kind and time move equal clocks to equal clocks. */
  lemma StepSameClock(s: Fsm, t: Fsm, e: Event, f: Event)
    requires s.status == t.status && f.kind == e.kind && f.time == e.time
    requires Relevant(s, e) && Relevant(t, f)
    ensures s.start == t.start && s.stop == t.stop ==> Step(s, e).start == Step(t, f).start && Step(s, e).stop == Step(t, f).stop
    ensures SameClock(s, t) ==> SameClock(Step(s, e), Step(t, f))
  {
  }

  /**
   * What survives of a suffix, and the status it ends in, depend on the machine before it only through
   * its status and the uuids it remembers.
   */
  lemma {:induction false} SameClockRuns(s: Fsm, t: Fsm, es: seq<Event>)
    requires s.status == t.status && Kept(s, es) == es
    requires forall x :: x in es ==> x.uuid !in t.seen
    ensures Kept(t, es) == es && Run(s, es).status == Run(t, es).status
    ensures SameClock(s, t) ==> SameClock(Run(s, es), Run(t, es))
    ensures s.start == t.start && s.stop == t.stop ==> Run(s, es).start == Run(t, es).start && Run(s, es).stop == Run(t, es).stop
    decreases es
  {
    if es != [] {
      var e, rest := es[0], es[1..];
      assert es == [e] + rest && es[..1] == [e];
      PrunedPrefix(s, es, 1);
      RunCons(s, e, rest);
      RunCons(t, e, rest);
      FirstIsRelevant(s, e, rest);
      StepStatus(s, e);
      StepStatus(t, e);
      StepSameClock(s, t, e, e);
      SeenIsSurvivors(Step(s, e), rest);
      SameClockRuns(Step(s, e), Step(t, e), rest);
    }
  }

  lemma FirstIsRelevant(s: Fsm, e: Event, rest: seq<Event>)
    requires Kept(s, [e] + rest) == [e] + rest
    ensures Relevant(s, e) && Kept(Step(s, e), rest) == rest
  {
    RunCons(s, e, rest);
    KeptMembers(Step(s, e), rest);
    assert rest == ([e] + rest)[1..];
  }
}
