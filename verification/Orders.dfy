/** When all delivery orders of a set of events, whatever its size, give the same log. */
module Orders {
  import opened Events
  import opened Evaluation
  import opened Delivery

  /** By kind alone: b is accepted in this status, but refused once a has been accepted. */
  predicate Blocks(status: TimerStatus, a: EventType, b: EventType) {
    match status
    case Stopped => (a.Start? && (b.Start? || b.Prepare?)) || (a.Prepare? && b.Prepare?)
    case Running => (a.Stop? || a.Reset? || a.MapChange?) && (b.Stop? || b.Segment?)
    case Prepared => (a.Start? && b.Start?) || ((a.Stop? || a.Reset? || a.MapChange?) && b.Stop?)
  }

  /** y is accepted behind the log, or behind the log and one of the events of ds that sort before y. */
  ghost predicate CanSurvive(status: TimerStatus, used: set<Uuid>, ds: seq<Event>, y: Event) {
    || Accepts(status, y.kind)
    || exists u :: u in ds && Before(u, y) && u.uuid !in used && u.uuid != y.uuid && Unlocks(status, u.kind, y.kind)
  }

  /**
   * b is accepted behind the log, no event of ds that sorts before b blocks it, and none with b's uuid can
   * survive in its place.
   */
  ghost predicate Sure(status: TimerStatus, used: set<Uuid>, ds: seq<Event>, b: Event) {
    && Accepts(status, b.kind)
    && (forall y :: y in ds && Before(y, b) && y.uuid !in used ==> !Blocks(status, y.kind, b.kind))
    && (forall y :: y in ds && Before(y, b) && y.uuid == b.uuid ==> !CanSurvive(status, used, ds, y))
  }

  /** Every event that survives delivery in order is sure to. */
  ghost predicate OrderFree(log: seq<Event>, ds: seq<Event>) {
    forall b :: b in Kept(Run(INIT, log), ds) ==> Sure(Run(INIT, log).status, Uuids(log), ds, b)
  }

  // ---------- Sure events survive in every company ----------

  lemma StaysOpen(st: TimerStatus, s: TimerStatus, y: EventType, k: EventType)
    requires Accepts(st, k) && Accepts(s, k) && Accepts(s, y) && !Blocks(st, y, k)
    ensures Accepts(NextStatus(s, y), k)
  {
  }

  lemma {:induction false} StaysAccepted(r: Fsm, a: seq<Event>, k: EventType)
    requires Accepts(r.status, k)
    requires forall y :: y in a && y.uuid !in r.seen ==> !Blocks(r.status, y.kind, k)
    ensures Accepts(Run(r, a).status, k)
    decreases |a|
  {
    if a != [] {
      var init, y := a[..|a| - 1], a[|a| - 1];
      assert a == init + [y];
      StaysAccepted(r, init, k);
      RunSnoc(r, init, y);
      StepStatus(Run(r, init), y);
      SeenIsSurvivors(r, init);
      if Relevant(Run(r, init), y) {
        StaysOpen(r.status, Run(r, init).status, y.kind, k);
      }
    }
  }

  lemma OpensOnce(st: TimerStatus, s: TimerStatus, u: EventType, k: EventType)
    requires !Accepts(st, k) && !Accepts(s, k) && Accepts(s, u) && Accepts(NextStatus(s, u), k)
    ensures Unlocks(st, u, k)
  {
  }

  /** A kind refused at first and accepted later was unlocked by a survivor. */
  lemma {:induction false} Unlocker(r: Fsm, a: seq<Event>, k: EventType)
    requires !Accepts(r.status, k) && Accepts(Run(r, a).status, k)
    ensures exists u :: u in Kept(r, a) && Unlocks(r.status, u.kind, k)
    decreases |a|
  {
    if a != [] {
      var init, u := a[..|a| - 1], a[|a| - 1];
      assert a == init + [u];
      RunSnoc(r, init, u);
      StepStatus(Run(r, init), u);
      if Accepts(Run(r, init).status, k) {
        Unlocker(r, init, k);
        var v :| v in Kept(r, init) && Unlocks(r.status, v.kind, k);
        assert v in Kept(r, a);
      } else {
        OpensOnce(r.status, Run(r, init).status, u.kind, k);
        assert u in Kept(r, a);
      }
    }
  }

  /** An entry of a strictly sorted log survives exactly when it is accepted where it stands. */
  lemma KeptWhere(r: Fsm, es: seq<Event>, i: nat)
    requires StrictlySorted(es) && i < |es|
    ensures es[i] in Kept(r, es) <==> Relevant(Run(r, es[..i]), es[i])
  {
    var a, b := es[..i], es[i + 1..];
    assert es == a + [es[i]] + b;
    KeptAround(r, a, es[i], b);
    KeptMembers(r, a);
    KeptMembers(Step(Run(r, a), es[i]), b);
  }

  lemma PrefixSorted(es: seq<Event>, i: nat)
    requires StrictlySorted(es) && i < |es|
    ensures StrictlySorted(es[..i]) && forall y :: y in es[..i] ==> y in es && Before(y, es[i])
  {
  }

  lemma SurvivorCan(r: Fsm, ds: seq<Event>, es: seq<Event>, y: Event)
    requires StrictlySorted(es) && (forall x :: x in es ==> x in ds) && y in Kept(r, es)
    ensures y in es && CanSurvive(r.status, r.seen, ds, y)
  {
    KeptMembers(r, es);
    var j :| 0 <= j < |es| && es[j] == y;
    KeptWhere(r, es, j);
    PrefixSorted(es, j);
    if !Accepts(r.status, y.kind) {
      Unlocker(r, es[..j], y.kind);
      var u :| u in Kept(r, es[..j]) && Unlocks(r.status, u.kind, y.kind);
      KeptMembers(r, es[..j]);
      SeenIsSurvivors(r, es[..j]);
      assert u in ds && Before(u, y) && u.uuid !in r.seen && u.uuid != y.uuid;
    }
  }

  /** A sure event survives among any of the events it is to be delivered with. */
  lemma SureSurvives(r: Fsm, ds: seq<Event>, es: seq<Event>, x: Event)
    requires StrictlySorted(es) && (forall y :: y in es ==> y in ds)
    requires x in es && x.uuid !in r.seen && Sure(r.status, r.seen, ds, x)
    ensures x in Kept(r, es)
  {
    var i :| 0 <= i < |es| && es[i] == x;
    var a := es[..i];
    KeptWhere(r, es, i);
    PrefixSorted(es, i);
    StaysAccepted(r, a, x.kind);
    SeenIsSurvivors(r, a);
    forall y | y in Kept(r, a)
      ensures y.uuid != x.uuid
    {
      SurvivorCan(r, ds, a, y);
    }
    UuidOf(Kept(r, a), x.uuid);
  }

  lemma UuidOf(es: seq<Event>, u: Uuid)
    ensures u in Uuids(es) <==> exists x :: x in es && x.uuid == u
  {
    if u in Uuids(es) {
      var i :| 0 <= i < |es| && es[i].uuid == u;
      assert es[i] in es;
    }
  }

  /** A pruned part of ds that holds all survivors of ds holds nothing else. */
  lemma {:induction false} ExtrasAreRefused(s: Fsm, ds: seq<Event>, k: seq<Event>)
    requires StrictlySorted(ds) && StrictlySorted(k) && Kept(s, k) == k
    requires forall x :: x in k ==> x in ds
    requires forall x :: x in Kept(s, ds) ==> x in k
    ensures k == Kept(s, ds)
    decreases ds
  {
    assert forall i :: 0 <= i < |k| ==> k[i] in ds;
    if ds != [] {
      var d, rest := ds[0], ds[1..];
      assert ds == [d] + rest;
      KeptMembers(Step(s, d), rest);
      if k != [] && k[0] == d {
        assert k == [d] + k[1..];
        FirstIsRelevant(s, d, k[1..]);
        BehindFirst(d, rest);
        BehindFirst(d, k[1..]);
        assert forall x :: x in k[1..] ==> x in k && Before(d, x);
        assert forall x :: x in Kept(Step(s, d), rest) ==> x in Kept(s, ds);
        ExtrasAreRefused(Step(s, d), rest, k[1..]);
      } else {
        FirstComesFirst(d, rest, k);
        BehindFirst(d, rest);
        assert !Relevant(s, d) by {
          assert Relevant(s, d) ==> d in Kept(s, ds);
        }
        ExtrasAreRefused(s, rest, k);
      }
    }
  }

  lemma BehindFirst(d: Event, rest: seq<Event>)
    requires StrictlySorted([d] + rest)
    ensures StrictlySorted(rest) && forall x :: x in rest ==> Before(d, x)
  {
    var all := [d] + rest;
    assert forall i :: 0 <= i < |rest| ==> all[i + 1] == rest[i];
    assert all[0] == d;
  }

  lemma FirstComesFirst(d: Event, rest: seq<Event>, k: seq<Event>)
    requires StrictlySorted([d] + rest) && StrictlySorted(k)
    requires forall x :: x in k ==> x in [d] + rest
    requires k == [] || k[0] != d
    ensures d !in k && forall x :: x in k ==> x in rest
  {
    BehindFirst(d, rest);
    forall i | 0 <= i < |k|
      ensures k[i] != d && k[i] in rest
    {
      assert k[0] in [d] + rest && k[i] in [d] + rest;
      assert i > 0 ==> Before(k[0], k[i]);
    }
  }

  // ---------- Order-free sets ----------

  /** Every event of ds is delivered, in any order and with any repeats, and entries of the log may come again. */
  ghost predicate Delivers(log: seq<Event>, ds: seq<Event>, p: seq<Event>) {
    (forall x :: x in ds ==> x in p) && (forall x :: x in p ==> x in ds || x in log)
  }

  /** What holds between deliveries: sure events that arrived are in the log. */
  ghost predicate Stage(log: seq<Event>, ds: seq<Event>, p: seq<Event>, after: seq<Event>) {
    && Settled(after) && log <= after
    && (forall x :: x in after[|log|..] ==> x in ds)
    && (forall x :: x in p && x in ds && x.uuid !in Uuids(log) && Sure(Run(INIT, log).status, Uuids(log), ds, x)
          ==> x in after[|log|..])
  }

  lemma RestSorted(log: seq<Event>, ds: seq<Event>)
    requires StrictlySorted(log + ds)
    ensures StrictlySorted(log) && StrictlySorted(ds) && KeysIdentify(ds)
    ensures forall d :: d in ds ==> AllBefore(log, d)
  {
    StrictSuffix(log, ds);
    assert forall i :: 0 <= i < |log| ==> log[i] == (log + ds)[i];
    forall d, x | d in ds && x in log
      ensures Before(x, d)
    {
      var i :| 0 <= i < |log| && log[i] == x;
      var j :| 0 <= j < |ds| && ds[j] == d;
      assert (log + ds)[i] == x && (log + ds)[|log| + j] == d;
    }
  }

  /** Delivering an entry the log holds changes nothing. */
  lemma Redelivery(log: seq<Event>, e: Event)
    requires Settled(log) && e in log
    ensures Deliver(log, e) == log
  {
    InsertIsSort(log, e);
    EchoChangesNothing(log, e, Insert(log, e));
  }

  lemma StageStep(log: seq<Event>, ds: seq<Event>, p: seq<Event>, e: Event, after: seq<Event>)
    requires Settled(log) && StrictlySorted(log + ds) && Stage(log, ds, p, after) && (e in ds || e in log)
    ensures Stage(log, ds, p + [e], Deliver(after, e))
  {
    var k := after[|log|..];
    assert after == log + k;
    assert forall x :: x in p + [e] <==> x in p || x == e;
    SettledIsStrict(log);
    if e in after {
      Redelivery(after, e);
      RestSorted(log, ds);
    } else {
      RestSorted(log, ds);
      SettledIsStrict(after);
      StrictSuffix(log, k);
      InsertMembers(k, e);
      InsertStrict(ds, k, e);
      DeliverBehind(log, k, e);
      DeliverSettles(after, e);
      var r := Run(INIT, log);
      assert Deliver(after, e)[|log|..] == Kept(r, Insert(k, e));
      KeptMembers(r, Insert(k, e));
      forall x | x in p + [e] && x in ds && x.uuid !in Uuids(log) && Sure(r.status, Uuids(log), ds, x)
        ensures x in Kept(r, Insert(k, e))
      {
        SureSurvives(r, ds, Insert(k, e), x);
      }
    }
  }

  lemma InsertStrict(ds: seq<Event>, k: seq<Event>, e: Event)
    requires KeysIdentify(ds) && e in ds && (forall x :: x in k ==> x in ds) && StrictlySorted(k) && e !in k
    ensures StrictlySorted(Insert(k, e))
  {
    var a, b := InsertSplits(k, e);
    StrictPrefix(a, b);
    StrictSuffix(a, b);
    forall x | x in a
      ensures Before(x, e)
    {
      assert x in k;
    }
    forall x | x in b
      ensures AllBefore(a + [e], x)
    {
      SplitOrder(a, b, x);
    }
    StrictJoin(a, [e]);
    StrictJoin(a + [e], b);
  }

  lemma SplitOrder(a: seq<Event>, b: seq<Event>, x: Event)
    requires StrictlySorted(a + b) && x in b
    ensures AllBefore(a, x)
  {
    var j :| 0 <= j < |b| && b[j] == x;
    assert (a + b)[|a| + j] == x;
    assert forall i :: 0 <= i < |a| ==> (a + b)[i] == a[i];
  }

  lemma {:induction false} DeliverBehind(log: seq<Event>, k: seq<Event>, e: Event)
    requires Settled(log) && Sorted(k) && AllBefore(log, e)
    ensures Deliver(log + k, e) == log + Kept(Run(INIT, log), Insert(k, e))
  {
    var a, b := InsertSplits(k, e);
    InsertBetween(log + a, b, e);
    assert log + k == (log + a) + b;
    assert (log + a) + [e] + b == log + (a + [e] + b);
    KeptAppend(INIT, log, Insert(k, e));
  }

  lemma {:induction false} EveryStage(log: seq<Event>, ds: seq<Event>, p: seq<Event>)
    requires Settled(log) && StrictlySorted(log + ds) && forall x :: x in p ==> x in ds || x in log
    ensures Stage(log, ds, p, DeliverAll(log, p))
    decreases |p|
  {
    if p != [] {
      var init, e := p[..|p| - 1], p[|p| - 1];
      assert p == init + [e];
      EveryStage(log, ds, init);
      StageStep(log, ds, init, e, DeliverAll(log, init));
    }
  }

  /** The events of an order-free set end in one log however they are delivered. */
  lemma OrderFreeConverges(log: seq<Event>, ds: seq<Event>, p: seq<Event>)
    requires Settled(log) && StrictlySorted(log + ds) && OrderFree(log, ds) && Delivers(log, ds, p)
    ensures DeliverAll(log, p) == log + Kept(Run(INIT, log), ds)
  {
    var r, after := Run(INIT, log), DeliverAll(log, p);
    EveryStage(log, ds, p);
    var k := after[|log|..];
    assert after == log + k;
    RestSorted(log, ds);
    SettledIsStrict(log);
    SettledIsStrict(after);
    StrictSuffix(log, k);
    PrunedPrefix(INIT, after, |log|);
    assert after[..|log|] == log;
    KeptMembers(r, ds);
    SeenIsSurvivors(r, ds);
    ExtrasAreRefused(r, ds, k);
  }

  /** The events of ds the log does not hold, in key order and each once. */
  function NewEvents(log: seq<Event>, ds: seq<Event>): seq<Event>
    decreases |ds|
  {
    if ds == [] then []
    else
      var k, e := NewEvents(log, ds[..|ds| - 1]), ds[|ds| - 1];
      if e in log || e in k then k else Insert(k, e)
  }

  /** Events newer than the log, under keys that identify them, and entries of the log once more. */
  ghost predicate Newer(log: seq<Event>, ds: seq<Event>) {
    KeysIdentify(ds) && forall d :: d in ds ==> d in log || AllBefore(log, d)
  }

  lemma {:induction false} NewEventsSorted(log: seq<Event>, ds: seq<Event>)
    requires StrictlySorted(log) && Newer(log, ds)
    ensures StrictlySorted(log + NewEvents(log, ds))
    ensures forall x :: x in NewEvents(log, ds) <==> x in ds && x !in log
    decreases |ds|
  {
    if ds == [] {
      assert log + [] == log;
    } else {
      var init, e := ds[..|ds| - 1], ds[|ds| - 1];
      assert ds == init + [e];
      assert forall x :: x in ds <==> x in init || x == e;
      NewEventsSorted(log, init);
      var k := NewEvents(log, init);
      if e !in log && e !in k {
        RestSorted(log, k);
        InsertStrict(ds, k, e);
        InsertMembers(k, e);
        StrictJoin(log, Insert(k, e));
      }
    }
  }

  lemma StrictPrefix(a: seq<Event>, b: seq<Event>)
    requires StrictlySorted(a + b)
    ensures StrictlySorted(a)
  {
    assert forall i :: 0 <= i < |a| ==> a[i] == (a + b)[i];
  }

  lemma StrictJoin(a: seq<Event>, b: seq<Event>)
    requires StrictlySorted(a) && StrictlySorted(b) && forall x :: x in b ==> AllBefore(a, x)
    ensures StrictlySorted(a + b)
  {
    assert forall i :: 0 <= i < |a| ==> a[i] in a;
    assert forall i :: 0 <= i < |b| ==> b[i] in b;
  }

  /** The same for any list of new events, with any repeats, that is order-free once put in order. */
  lemma NewerConverges(log: seq<Event>, ds: seq<Event>)
    requires Settled(log) && Newer(log, ds) && OrderFree(log, NewEvents(log, ds))
    ensures DeliverAll(log, ds) == log + Kept(Run(INIT, log), NewEvents(log, ds))
  {
    SettledIsStrict(log);
    NewEventsSorted(log, ds);
    OrderFreeConverges(log, NewEvents(log, ds), ds);
  }

  // ---------- Sets that are not ----------

  lemma {:induction false} DeliverAllAppend(log: seq<Event>, a: seq<Event>, b: seq<Event>)
    ensures DeliverAll(log, a + b) == DeliverAll(DeliverAll(log, a), b)
    decreases |b|
  {
    if b == [] {
      assert a + b == a;
    } else {
      var init := b[..|b| - 1];
      assert (a + b)[..|a + b| - 1] == a + init;
      DeliverAllAppend(log, a, init);
    }
  }

  lemma {:induction false} DeliverAllMembers(log: seq<Event>, ds: seq<Event>)
    ensures forall x :: x in DeliverAll(log, ds) ==> x in log || x in ds
    decreases |ds|
  {
    if ds != [] {
      var init, e := ds[..|ds| - 1], ds[|ds| - 1];
      DeliverAllMembers(log, init);
      KeptMembers(INIT, Insert(DeliverAll(log, init), e));
      InsertMembers(DeliverAll(log, init), e);
    }
  }

  /** One event can be taken out of a strictly sorted list. */
  lemma TakeOne(ds: seq<Event>, x: Event) returns (others: seq<Event>)
    requires StrictlySorted(ds) && x in ds
    ensures StrictlySorted(others) && multiset(ds) == multiset(others) + multiset{x}
    ensures x !in others && forall y :: y in ds && y != x ==> y in others
  {
    var i :| 0 <= i < |ds| && ds[i] == x;
    others := ds[..i] + ds[i + 1..];
    assert ds == ds[..i] + [x] + ds[i + 1..];
    WithoutOne(ds[..i], x, ds[i + 1..]);
    StrictWithout(ds, i);
  }

  /** Some events of ds can be taken to the front. */
  lemma {:induction false} TakeOut(ds: seq<Event>, first: seq<Event>) returns (rest: seq<Event>)
    requires StrictlySorted(ds) && StrictlySorted(first) && forall x :: x in first ==> x in ds
    ensures multiset(first) + multiset(rest) == multiset(ds) && forall x :: x in first ==> x !in rest
    decreases |first|
  {
    if first == [] {
      rest := ds;
    } else {
      var x, later := first[0], first[1..];
      assert x in first && forall y :: y in later ==> y in first && Before(x, y);
      var others := TakeOne(ds, x);
      rest := TakeOut(others, later);
      TailMultiset(first);
      assert multiset(first) == multiset(later) + multiset{x};
      assert forall y :: y in rest ==> y in multiset(others) && y in others;
    }
  }

  lemma StrictWithout(ds: seq<Event>, i: nat)
    requires StrictlySorted(ds) && i < |ds|
    ensures var others := ds[..i] + ds[i + 1..];
      StrictlySorted(others) && ds[i] !in others && forall y :: y in ds && y != ds[i] ==> y in others
  {
    var others := ds[..i] + ds[i + 1..];
    assert forall j :: 0 <= j < |others| ==> others[j] == ds[if j < i then j else j + 1];
    forall y | y in ds && y != ds[i]
      ensures y in others
    {
      var j :| 0 <= j < |ds| && ds[j] == y;
      assert others[if j < i then j else j - 1] == y;
    }
  }

  /** Delivered right behind first, b is refused, and it does not come again. */
  lemma LoseBehind(log: seq<Event>, ds: seq<Event>, first: seq<Event>, b: Event) returns (p: seq<Event>)
    requires Settled(log) && StrictlySorted(log + ds) && b in ds
    requires StrictlySorted(first) && (forall x :: x in first ==> x in ds && Before(x, b))
    requires !Relevant(Run(Run(INIT, log), first), b)
    ensures multiset(p) == multiset(ds) && b !in DeliverAll(log, p)
  {
    RestSorted(log, ds);
    var front := first + [b];
    assert forall x :: x in front ==> x in first || x == b;
    var rest := TakeOut(ds, front);
    p := front + rest;
    assert multiset(p) == multiset(front) + multiset(rest);
    FrontInOrder(log, first, b);
    IncrementalIsBatch(log, front);
    KeptAppend(INIT, log, front);
    RunSnoc(Run(INIT, log), first, b);
    KeptMembers(Run(INIT, log), first);
    assert b !in DeliverAll(log, front);
    DeliverAllAppend(log, front, rest);
    DeliverAllMembers(DeliverAll(log, front), rest);
    assert b in front;
  }

  lemma FrontInOrder(log: seq<Event>, first: seq<Event>, b: Event)
    requires Settled(log) && StrictlySorted(first) && AllBefore(log, b)
    requires forall x :: x in first ==> AllBefore(log, x) && Before(x, b)
    ensures StrictlySorted(log + (first + [b])) && StrictlySorted(first + [b])
  {
    SettledIsStrict(log);
    assert forall i :: 0 <= i < |first| ==> first[i] in first;
    assert forall i :: 0 <= i < |log| ==> log[i] in log;
  }

  /** For a survivor that is not sure, one or two events before it whose acceptance makes it refused. */
  lemma Refuser(r: Fsm, ds: seq<Event>, b: Event) returns (first: seq<Event>)
    requires b.uuid !in r.seen && !Sure(r.status, r.seen, ds, b)
    ensures StrictlySorted(first) && (forall x :: x in first ==> x in ds && Before(x, b))
    ensures !Relevant(Run(r, first), b)
  {
    if !Accepts(r.status, b.kind) {
      first := [];
    } else if y :| y in ds && Before(y, b) && y.uuid !in r.seen && Blocks(r.status, y.kind, b.kind) {
      first := [y];
      RefusedBehindOne(r, y, b);
    } else {
      var y :| y in ds && Before(y, b) && y.uuid == b.uuid && CanSurvive(r.status, r.seen, ds, y);
      if Accepts(r.status, y.kind) {
        first := [y];
        RefusedBehindOne(r, y, b);
      } else {
        var u :| u in ds && Before(u, y) && u.uuid !in r.seen && u.uuid != y.uuid && Unlocks(r.status, u.kind, y.kind);
        first := [u, y];
        RefusedBehindTwo(r, u, y, b);
      }
    }
  }

  /** A survivor that is not sure is lost in some order. */
  lemma LoseUnsure(log: seq<Event>, ds: seq<Event>, b: Event) returns (p: seq<Event>)
    requires Settled(log) && StrictlySorted(log + ds) && b in Kept(Run(INIT, log), ds)
    requires !Sure(Run(INIT, log).status, Uuids(log), ds, b)
    ensures multiset(p) == multiset(ds) && b !in DeliverAll(log, p)
  {
    var r := Run(INIT, log);
    SettledIsStrict(log);
    KeptMembers(r, ds);
    SeenIsSurvivors(r, ds);
    var first := Refuser(r, ds, b);
    p := LoseBehind(log, ds, first, b);
  }

  lemma RefusedBehindOne(r: Fsm, y: Event, b: Event)
    requires y.uuid !in r.seen && (Blocks(r.status, y.kind, b.kind) || (Accepts(r.status, y.kind) && y.uuid == b.uuid))
    ensures !Relevant(Run(r, [y]), b)
  {
    RunOne(r, y);
    StepStatus(r, y);
  }

  lemma RefusedBehindTwo(r: Fsm, u: Event, y: Event, b: Event)
    requires u.uuid !in r.seen && y.uuid !in r.seen && u.uuid != y.uuid && y.uuid == b.uuid
    requires Unlocks(r.status, u.kind, y.kind)
    ensures !Relevant(Run(r, [u, y]), b)
  {
    assert [u, y] == [u] + [y];
    RunOne(r, u);
    RunSnoc(r, [u], y);
    StepStatus(r, u);
    StepStatus(Step(r, u), y);
  }

  // ---------- The theorem ----------

  ghost predicate OrdersAgree(log: seq<Event>, ds: seq<Event>) {
    forall p :: multiset(p) == multiset(ds) ==> DeliverAll(log, p) == DeliverAll(log, ds)
  }

  /**
   * All delivery orders of any events newer than the log give the same log if and only if every event that
   * survives delivery in order is sure to survive: accepted in the log's status, blocked by no event before
   * it, and not to be replaced by one with its uuid.
   */
  lemma AllOrdersAgreeIff(log: seq<Event>, ds: seq<Event>)
    requires Settled(log) && StrictlySorted(log + ds)
    ensures OrdersAgree(log, ds) <==> OrderFree(log, ds)
  {
    IncrementalIsBatch(log, ds);
    KeptAppend(INIT, log, ds);
    if OrderFree(log, ds) {
      forall p | multiset(p) == multiset(ds)
        ensures DeliverAll(log, p) == DeliverAll(log, ds)
      {
        SameMembers(p, ds);
        OrderFreeConverges(log, ds, p);
      }
    } else {
      var b :| b in Kept(Run(INIT, log), ds) && !Sure(Run(INIT, log).status, Uuids(log), ds, b);
      var p := LoseUnsure(log, ds, b);
      assert b in DeliverAll(log, ds);
    }
  }

  /** Agreement of all pairs is not enough: a start between them can bring two stops into conflict. */
  lemma PairsDoNotDecide(log: seq<Event>, a: Event, b: Event, c: Event)
    requires Settled(log) && Run(INIT, log).status.Prepared? && StrictlySorted(log + [a, b, c])
    requires a.kind.Stop? && b.kind.Start? && c.kind.Stop? && DistinctUuids([a, b, c])
    requires forall x :: x in [a, b, c] ==> x.uuid !in Uuids(log)
    ensures DeliverAll(log, [a, b]) == DeliverAll(log, [b, a])
    ensures DeliverAll(log, [a, c]) == DeliverAll(log, [c, a])
    ensures DeliverAll(log, [b, c]) == DeliverAll(log, [c, b])
    ensures !OrdersAgree(log, [a, b, c])
  {
    RestSorted(log, [a, b, c]);
    ThreeSorted(a, b, c);
    SettledIsStrict(log);
    TwoOrdersAgreeIff(log, a, b);
    TwoOrdersAgreeIff(log, a, c);
    TwoOrdersAgreeIff(log, b, c);
    AllOrdersAgreeIff(log, [a, b, c]);
    StopStartStop(Run(INIT, log), a, b, c);
    assert Blocks(Run(INIT, log).status, a.kind, c.kind);
  }

  lemma ThreeSorted(a: Event, b: Event, c: Event)
    requires StrictlySorted([a, b, c])
    ensures a in [a, b, c] && b in [a, b, c] && c in [a, b, c] && Before(a, b) && Before(b, c) && Before(a, c)
  {
    var all := [a, b, c];
    assert all[0] == a && all[1] == b && all[2] == c;
  }

  lemma StopStartStop(r: Fsm, a: Event, b: Event, c: Event)
    requires r.status.Prepared? && a.kind.Stop? && b.kind.Start? && c.kind.Stop? && DistinctUuids([a, b, c])
    requires a.uuid !in r.seen && b.uuid !in r.seen && c.uuid !in r.seen
    ensures c in Kept(r, [a, b, c])
  {
    var all := [a, b, c];
    assert all[0].uuid != all[1].uuid && all[0].uuid != all[2].uuid && all[1].uuid != all[2].uuid;
    assert all == [a] + [b] + [c];
    RunOne(r, a);
    RunSnoc(r, [a], b);
    RunSnoc(r, [a] + [b], c);
    StepStatus(r, a);
    StepStatus(Step(r, a), b);
  }
}
