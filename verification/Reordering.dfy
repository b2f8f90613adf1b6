/**
 * What the order of events decides. Players' clocks may put the same events in different orders; here is when
 * that changes which of them survive, and the status they lead to.
 */
module Reordering {
  import opened Events
  import opened Evaluation
  import opened Delivery
  import opened Orders

  predicate IsReset(kind: EventType) {
    kind.Reset? || kind.MapChange?
  }

  predicate ClashesWith(status: TimerStatus, a: EventType, b: EventType) {
    match status
    case Stopped =>
      || (a.Start? && (b.Start? || b.Stop? || b.Prepare? || b.Segment? || IsReset(b)))
      || (a.Prepare? && (b.Prepare? || b.Stop? || IsReset(b)))
    case Running =>
      (a.Stop? || IsReset(a)) && (b.Start? || b.Stop? || b.Prepare? || b.Segment?)
    case Prepared =>
      || (a.Start? && (b.Start? || b.Stop? || b.Segment? || IsReset(b)))
      || (a.Stop? && (b.Stop? || b.Prepare? || IsReset(b)))
      || (IsReset(a) && b.Prepare?)
  }

  /** By kind alone: two events that leave different survivors or another status when they trade places. */
  predicate Clash(status: TimerStatus, a: EventType, b: EventType) {
    ClashesWith(status, a, b) || ClashesWith(status, b, a)
  }

  /** The two machines go on alike: same status, same uuids remembered. */
  ghost predicate SameStanding(s: Fsm, t: Fsm) {
    s.status == t.status && s.seen == t.seen
  }

  lemma ClashExactly(r: Fsm, a: Event, b: Event, q: Fsm, a': Event, b': Event)
    requires SameStanding(r, q) && IsCopy(a', a) && IsCopy(b', b) && a.uuid != b.uuid
    requires a.uuid !in r.seen && b.uuid !in r.seen
    ensures SameStanding(Step(Step(r, a), b), Step(Step(q, b'), a')) <==> !Clash(r.status, a.kind, b.kind)
  {
    StepStatus(r, a);
    StepStatus(Step(r, a), b);
    StepStatus(q, b');
    StepStatus(Step(q, b'), a');
  }

  /** Only uuids and kinds decide how machines go on. */
  lemma {:induction false} CopiesGoOnAlike(s: Fsm, t: Fsm, es: seq<Event>, fs: seq<Event>)
    requires SameStanding(s, t) && |es| == |fs| && forall i :: 0 <= i < |es| ==> IsCopy(fs[i], es[i])
    ensures SameStanding(Run(s, es), Run(t, fs))
    decreases es
  {
    if es != [] {
      StepStatus(s, es[0]);
      StepStatus(t, fs[0]);
      CopiesGoOnAlike(Step(s, es[0]), Step(t, fs[0]), es[1..], fs[1..]);
    }
  }

  // ---------- Neighbours ----------

  /**
   * In a log of any length: two neighbours that do not clash where they stand may trade places, and the same
   * events survive behind them, with the same status at the end.
   */
  lemma NeighboursTradePlaces(front: seq<Event>, a: Event, b: Event, rest: seq<Event>)
    requires a.uuid != b.uuid
    requires var r := Run(INIT, front); a.uuid in r.seen || b.uuid in r.seen || !Clash(r.status, a.kind, b.kind)
    ensures var p, q := front + [a] + [b] + rest, front + [b] + [a] + rest;
      SameStanding(Run(INIT, p), Run(INIT, q)) && forall x :: x in Kept(INIT, p) <==> x in Kept(INIT, q)
  {
    var r := Run(INIT, front);
    var s, t := Step(Step(r, a), b), Step(Step(r, b), a);
    TradeStanding(r, a, b);
    SameStatusKeeps(s, t, rest);
    CopiesGoOnAlike(s, t, rest, rest);
    TradeKept(front, a, b, rest);
    TradeKept(front, b, a, rest);
  }

  lemma TradeKept(front: seq<Event>, a: Event, b: Event, rest: seq<Event>)
    ensures var r := Run(INIT, front); var p := front + [a] + [b] + rest;
      && Run(INIT, p) == Run(Step(Step(r, a), b), rest)
      && Kept(INIT, p) == Kept(INIT, front) + If(Relevant(r, a), a) + If(Relevant(Step(r, a), b), b) + Kept(Step(Step(r, a), b), rest)
  {
    KeptAround(INIT, front + [a], b, rest);
    RunSnoc(INIT, front, a);
  }

  lemma TradeStanding(r: Fsm, a: Event, b: Event)
    requires a.uuid != b.uuid && (a.uuid in r.seen || b.uuid in r.seen || !Clash(r.status, a.kind, b.kind))
    ensures SameStanding(Step(Step(r, a), b), Step(Step(r, b), a))
    ensures Relevant(r, a) <==> Relevant(Step(r, b), a)
    ensures Relevant(r, b) <==> Relevant(Step(r, a), b)
  {
    if a.uuid !in r.seen && b.uuid !in r.seen {
      ClashExactly(r, a, b, r, a, b);
    }
    StepStatus(r, a);
    StepStatus(r, b);
    StepStatus(Step(r, a), b);
    StepStatus(Step(r, b), a);
  }

  // ---------- Any number of events ----------

  /** Events with one uuid are of one kind: copies of one event, or one region's segments. */
  ghost predicate Consistent(es: seq<Event>) {
    forall x, y :: x in es && y in es && x.uuid == y.uuid ==> x.kind == y.kind
  }

  ghost predicate NoClash(status: TimerStatus, used: set<Uuid>, ds: seq<Event>) {
    forall x, y :: x in ds && y in ds && x.uuid != y.uuid && x.uuid !in used && y.uuid !in used
      ==> !Clash(status, x.kind, y.kind)
  }

  /** What all copies of the events have in common. */
  ghost function Identities(es: seq<Event>): set<(Uuid, EventType)> {
    set x | x in es :: (x.uuid, x.kind)
  }

  /** The same events, each perhaps in several copies and at other times. */
  ghost predicate SameCopies(p: seq<Event>, q: seq<Event>) {
    Identities(p) == Identities(q)
  }

  lemma CopyIn(p: seq<Event>, q: seq<Event>, x: Event) returns (y: Event)
    requires SameCopies(p, q) && x in p
    ensures y in q && IsCopy(y, x)
  {
    assert (x.uuid, x.kind) in Identities(p);
    y :| y in q && (y.uuid, y.kind) == (x.uuid, x.kind);
  }

  lemma CopiesMakeSame(p: seq<Event>, q: seq<Event>)
    requires forall x :: x in p ==> exists y :: y in q && IsCopy(y, x)
    requires forall y :: y in q ==> exists x :: x in p && IsCopy(x, y)
    ensures SameCopies(p, q)
  {
    forall x | x in p
      ensures (x.uuid, x.kind) in Identities(q)
    {
      var y :| y in q && IsCopy(y, x);
    }
    forall y | y in q
      ensures (y.uuid, y.kind) in Identities(p)
    {
      var x :| x in p && IsCopy(x, y);
    }
  }

  predicate Counts(r: Fsm, x: Event) {
    x.uuid !in r.seen && Accepts(r.status, x.kind)
  }

  predicate Moves(status: TimerStatus, kind: EventType) {
    Accepts(status, kind) && NextStatus(status, kind) != status
  }

  /** Where events leave the timer if none clash: where any of those that move it leads. */
  ghost predicate LedTo(r: Fsm, p: seq<Event>, s: TimerStatus) {
    if exists m :: m in p && m.uuid !in r.seen && Moves(r.status, m.kind) then
      forall m :: m in p && m.uuid !in r.seen && Moves(r.status, m.kind) ==> s == NextStatus(r.status, m.kind)
    else
      s == r.status
  }

  /** Beyond the uuids remembered at first, those of the events accepted at first, and no others. */
  ghost predicate SeenCounting(r: Fsm, p: seq<Event>, seen: set<Uuid>) {
    forall u :: u in seen <==> u in r.seen || exists x :: x in p && x.uuid == u && Counts(r, x)
  }

  lemma BehindMover(st: TimerStatus, m: EventType, y: EventType)
    requires Moves(st, m) && !Clash(st, m, y)
    ensures Accepts(NextStatus(st, m), y) <==> Accepts(st, y)
    ensures Accepts(st, y) ==> NextStatus(NextStatus(st, m), y) == NextStatus(st, m)
    ensures Moves(st, y) ==> NextStatus(st, y) == NextStatus(st, m)
  {
  }

  /** Among events that do not clash, an event counts as if it came first, unless a copy of it came before. */
  lemma CountStep(r: Fsm, p: seq<Event>, e: Event, s: Fsm)
    requires Consistent(p + [e]) && NoClash(r.status, r.seen, p + [e])
    requires LedTo(r, p, s.status) && SeenCounting(r, p, s.seen)
    ensures Relevant(s, e) <==> Counts(r, e) && e.uuid !in s.seen
    ensures Relevant(s, e) ==>
      NextStatus(s.status, e.kind) == if Moves(r.status, e.kind) then NextStatus(r.status, e.kind) else s.status
  {
    assert forall x :: x in p + [e] <==> x in p || x == e;
    if m :| m in p && m.uuid !in r.seen && Moves(r.status, m.kind) {
      if m.uuid == e.uuid {
        assert Counts(r, m);
      } else if e.uuid !in r.seen {
        BehindMover(r.status, m.kind, e.kind);
      } else {
        assert e.uuid in s.seen;
      }
    }
  }

  lemma SeenStep(r: Fsm, p: seq<Event>, e: Event, s: Fsm)
    requires SeenCounting(r, p, s.seen) && (Relevant(s, e) <==> Counts(r, e) && e.uuid !in s.seen)
    ensures SeenCounting(r, p + [e], Step(s, e).seen)
  {
    assert forall x :: x in p + [e] <==> x in p || x == e;
    StepStatus(s, e);
  }

  lemma LedStep(r: Fsm, p: seq<Event>, e: Event, s: Fsm)
    requires Consistent(p + [e]) && NoClash(r.status, r.seen, p + [e])
    requires LedTo(r, p, s.status) && SeenCounting(r, p, s.seen)
    ensures LedTo(r, p + [e], Step(s, e).status)
  {
    assert forall x :: x in p + [e] <==> x in p || x == e;
    CountStep(r, p, e, s);
    StepStatus(s, e);
    if e.uuid !in r.seen && Moves(r.status, e.kind) {
      forall m | m in p + [e] && m.uuid !in r.seen && Moves(r.status, m.kind)
        ensures Step(s, e).status == NextStatus(r.status, m.kind)
      {
        if m.uuid != e.uuid {
          BehindMover(r.status, m.kind, e.kind);
        }
        if e.uuid in s.seen {
          var x :| x in p && x.uuid == e.uuid && Counts(r, x);
          assert Moves(r.status, x.kind);
        }
      }
      assert e in p + [e];
    }
  }

  /** Exactly the events accepted in the first status survive, and the status is where any mover leads. */
  lemma {:induction false} NoClashCounts(r: Fsm, p: seq<Event>)
    requires Consistent(p) && NoClash(r.status, r.seen, p)
    ensures LedTo(r, p, Run(r, p).status) && SeenCounting(r, p, Run(r, p).seen)
    decreases |p|
  {
    if p != [] {
      var init, e := p[..|p| - 1], p[|p| - 1];
      assert p == init + [e];
      assert forall x :: x in init ==> x in p;
      NoClashCounts(r, init);
      RunSnoc(r, init, e);
      CountStep(r, init, e, Run(r, init));
      SeenStep(r, init, e, Run(r, init));
      LedStep(r, init, e, Run(r, init));
    }
  }

  lemma CopiesDoNotClash(r: Fsm, ds: seq<Event>, p: seq<Event>)
    requires SameCopies(p, ds) && Consistent(ds) && NoClash(r.status, r.seen, ds)
    ensures Consistent(p) && NoClash(r.status, r.seen, p)
  {
    forall x, y | x in p && y in p
      ensures x.uuid == y.uuid ==> x.kind == y.kind
      ensures x.uuid != y.uuid && x.uuid !in r.seen && y.uuid !in r.seen ==> !Clash(r.status, x.kind, y.kind)
    {
      var x' := CopyIn(p, ds, x);
      var y' := CopyIn(p, ds, y);
    }
  }

  lemma LedAlike(r: Fsm, ds: seq<Event>, p: seq<Event>, s: TimerStatus)
    requires SameCopies(p, ds) && LedTo(r, p, s)
    ensures LedTo(r, ds, s)
  {
    forall m | m in ds && m.uuid !in r.seen && Moves(r.status, m.kind)
      ensures s == NextStatus(r.status, m.kind)
    {
      var x := CopyIn(ds, p, m);
    }
    if m :| m in p && m.uuid !in r.seen && Moves(r.status, m.kind) {
      var y := CopyIn(p, ds, m);
      assert Moves(r.status, y.kind);
    }
  }

  lemma SeenAlike(r: Fsm, ds: seq<Event>, p: seq<Event>, seen: set<Uuid>)
    requires SameCopies(p, ds) && SeenCounting(r, p, seen)
    ensures SeenCounting(r, ds, seen)
  {
    forall u
      ensures u in seen <==> u in r.seen || exists x :: x in ds && x.uuid == u && Counts(r, x)
    {
      if x :| x in p && x.uuid == u && Counts(r, x) {
        var y := CopyIn(p, ds, x);
        assert Counts(r, y);
      }
      if y :| y in ds && y.uuid == u && Counts(r, y) {
        var x := CopyIn(ds, p, y);
        assert Counts(r, x);
      }
    }
  }

  lemma OneStanding(r: Fsm, ds: seq<Event>, s: Fsm, t: Fsm)
    requires LedTo(r, ds, s.status) && LedTo(r, ds, t.status) && SeenCounting(r, ds, s.seen) && SeenCounting(r, ds, t.seen)
    ensures SameStanding(s, t)
  {
  }

  /** Events that do not clash lead to one standing in every order and in whatever copies. */
  lemma NoClashAgrees(r: Fsm, q: Fsm, ds: seq<Event>, p: seq<Event>)
    requires SameStanding(r, q) && Consistent(ds) && NoClash(r.status, r.seen, ds) && SameCopies(p, ds)
    ensures SameStanding(Run(r, ds), Run(q, p))
  {
    NoClashCounts(r, ds);
    CopiesDoNotClash(r, ds, p);
    NoClashCounts(r, p);
    LedAlike(r, ds, p, Run(r, p).status);
    SeenAlike(r, ds, p, Run(r, p).seen);
    OneStanding(r, ds, Run(r, ds), Run(r, p));
    CopiesGoOnAlike(r, q, p, p);
  }

  // ---------- Events that clash ----------

  function OfUuid(es: seq<Event>, u: Uuid): (r: seq<Event>)
    ensures forall x :: x in r <==> x in es && x.uuid == u
  {
    if es == [] then []
    else
      assert es == [es[0]] + es[1..];
      (if es[0].uuid == u then [es[0]] else []) + OfUuid(es[1..], u)
  }

  function Others(es: seq<Event>, u: Uuid): (r: seq<Event>)
    ensures forall x :: x in r <==> x in es && x.uuid != u
  {
    if es == [] then []
    else
      assert es == [es[0]] + es[1..];
      (if es[0].uuid != u then [es[0]] else []) + Others(es[1..], u)
  }

  lemma {:induction false} UuidParts(es: seq<Event>, u: Uuid)
    ensures multiset(es) == multiset(OfUuid(es, u)) + multiset(Others(es, u))
  {
    if es != [] {
      assert es == [es[0]] + es[1..];
      UuidParts(es[1..], u);
    }
  }

  /** Copies of one event in a row do what the first alone does. */
  lemma {:induction false} CopiesActAsOne(r: Fsm, copies: seq<Event>, a: Event)
    requires copies != [] && forall x :: x in copies ==> IsCopy(x, a)
    ensures SameStanding(Run(r, copies), Step(r, a))
    decreases |copies|
  {
    var init, e := copies[..|copies| - 1], copies[|copies| - 1];
    assert copies == init + [e] && e in copies;
    RunSnoc(r, init, e);
    StepStatus(r, a);
    StepStatus(Run(r, init), e);
    if init != [] {
      CopiesActAsOne(r, init, a);
    }
  }

  lemma {:induction false} OthersLeaveUuid(s: Fsm, es: seq<Event>, u: Uuid)
    requires forall x :: x in es ==> x.uuid != u
    ensures u in Run(s, es).seen <==> u in s.seen
    decreases es
  {
    if es != [] {
      StepStatus(s, es[0]);
      OthersLeaveUuid(Step(s, es[0]), es[1..], u);
    }
  }

  /** The copies of a, then those of b: what a and b alone do, up to standing. */
  lemma TwoGroups(r: Fsm, q: Fsm, a: Event, b: Event, copies: seq<Event>, others: seq<Event>)
    requires SameStanding(r, q)
    requires copies != [] && others != [] && (forall x :: x in copies ==> IsCopy(x, a)) && (forall x :: x in others ==> IsCopy(x, b))
    ensures SameStanding(Run(r, copies + others), Step(Step(q, a), b))
  {
    RunAppend(r, copies, others);
    CopiesActAsOne(r, copies, a);
    CopiesActAsOne(Run(r, copies), others, b);
    StepStatus(r, a);
    StepStatus(q, a);
    StepStatus(Run(r, copies), b);
    StepStatus(Step(q, a), b);
  }

  /** A clash shows in who survives right there, or in the status whatever came before. */
  lemma ClashShows(r: Fsm, a: Event, b: Event, s: Fsm)
    requires a.uuid != b.uuid && a.uuid !in r.seen && b.uuid !in r.seen && Clash(r.status, a.kind, b.kind)
    requires a.uuid !in s.seen && b.uuid !in s.seen
    ensures Step(Step(r, a), b).seen == Step(Step(r, b), a).seen ==> Step(Step(s, a), b).status != Step(Step(s, b), a).status
  {
    ClashExactly(r, a, b, r, a, b);
    StepStatus(r, a);
    StepStatus(r, b);
    StepStatus(Step(r, a), b);
    StepStatus(Step(r, b), a);
    StepStatus(s, a);
    StepStatus(s, b);
    StepStatus(Step(s, a), b);
    StepStatus(Step(s, b), a);
  }

  /** Two orders of ds that lead to different standings, when two of its new events clash. */
  lemma ClashTears(r: Fsm, ds: seq<Event>, a: Event, b: Event) returns (p: seq<Event>, q: seq<Event>)
    requires Consistent(ds) && a in ds && b in ds && a.uuid != b.uuid && a.uuid !in r.seen && b.uuid !in r.seen
    requires Clash(r.status, a.kind, b.kind)
    ensures multiset(p) == multiset(ds) == multiset(q) && !SameStanding(Run(r, p), Run(r, q))
  {
    var copies, others := OfUuid(ds, a.uuid), OfUuid(Others(ds, a.uuid), b.uuid);
    var rest := Others(Others(ds, a.uuid), b.uuid);
    UuidParts(ds, a.uuid);
    UuidParts(Others(ds, a.uuid), b.uuid);
    Grouped(ds, copies, others, rest);
    assert a in copies && b in others;
    if Step(Step(r, a), b).seen == Step(Step(r, b), a).seen {
      p, q := rest + (copies + others), rest + (others + copies);
      TearLast(r, a, b, copies, others, rest);
    } else {
      p, q := (copies + others) + rest, (others + copies) + rest;
      TearFirst(r, a, b, copies, others, rest);
    }
  }

  lemma Grouped(ds: seq<Event>, first: seq<Event>, second: seq<Event>, rest: seq<Event>)
    requires multiset(ds) == multiset(first) + (multiset(second) + multiset(rest))
    ensures multiset(rest + (first + second)) == multiset(ds) == multiset(rest + (second + first))
    ensures multiset((first + second) + rest) == multiset(ds) == multiset((second + first) + rest)
  {
  }

  lemma TearLast(r: Fsm, a: Event, b: Event, copies: seq<Event>, others: seq<Event>, rest: seq<Event>)
    requires copies != [] && others != [] && (forall x :: x in copies ==> IsCopy(x, a)) && (forall x :: x in others ==> IsCopy(x, b))
    requires forall x :: x in rest ==> x.uuid != a.uuid && x.uuid != b.uuid
    requires a.uuid != b.uuid && a.uuid !in r.seen && b.uuid !in r.seen && Clash(r.status, a.kind, b.kind)
    requires Step(Step(r, a), b).seen == Step(Step(r, b), a).seen
    ensures Run(r, rest + (copies + others)).status != Run(r, rest + (others + copies)).status
  {
    var s := Run(r, rest);
    RunAppend(r, rest, copies + others);
    RunAppend(r, rest, others + copies);
    OthersLeaveUuid(r, rest, a.uuid);
    OthersLeaveUuid(r, rest, b.uuid);
    TwoGroups(s, s, a, b, copies, others);
    TwoGroups(s, s, b, a, others, copies);
    ClashShows(r, a, b, s);
  }

  lemma TearFirst(r: Fsm, a: Event, b: Event, copies: seq<Event>, others: seq<Event>, rest: seq<Event>)
    requires copies != [] && others != [] && (forall x :: x in copies ==> IsCopy(x, a)) && (forall x :: x in others ==> IsCopy(x, b))
    requires forall x :: x in rest ==> x.uuid != a.uuid && x.uuid != b.uuid
    requires Step(Step(r, a), b).seen != Step(Step(r, b), a).seen
    ensures Run(r, (copies + others) + rest).seen != Run(r, (others + copies) + rest).seen
  {
    RunAppend(r, copies + others, rest);
    RunAppend(r, others + copies, rest);
    TwoGroups(r, r, a, b, copies, others);
    TwoGroups(r, r, b, a, others, copies);
    OnlyTwoUuids(r, a, b);
    OthersLeaveUuid(Run(r, copies + others), rest, a.uuid);
    OthersLeaveUuid(Run(r, copies + others), rest, b.uuid);
    OthersLeaveUuid(Run(r, others + copies), rest, a.uuid);
    OthersLeaveUuid(Run(r, others + copies), rest, b.uuid);
  }

  lemma OnlyTwoUuids(r: Fsm, a: Event, b: Event)
    ensures var s, t := Step(Step(r, a), b).seen, Step(Step(r, b), a).seen;
      s != t ==> !((a.uuid in s <==> a.uuid in t) && (b.uuid in s <==> b.uuid in t))
  {
    StepStatus(r, a);
    StepStatus(r, b);
    StepStatus(Step(r, a), b);
    StepStatus(Step(r, b), a);
  }

  ghost predicate ArrangementsAgree(r: Fsm, ds: seq<Event>) {
    forall p, q :: multiset(p) == multiset(ds) == multiset(q) ==> SameStanding(Run(r, p), Run(r, q))
  }

  /**
   * Any events, in every order their clocks may put them, leave the same survivors and lead to the same
   * status if and only if no two new ones clash in the status they came upon.
   */
  lemma ArrangementsAgreeIff(r: Fsm, ds: seq<Event>)
    requires Consistent(ds)
    ensures ArrangementsAgree(r, ds) <==> NoClash(r.status, r.seen, ds)
  {
    if NoClash(r.status, r.seen, ds) {
      forall p, q | multiset(p) == multiset(ds) == multiset(q)
        ensures SameStanding(Run(r, p), Run(r, q))
      {
        SameMembers(p, ds);
        SameMembers(q, ds);
        NoClashAgrees(r, r, ds, p);
        NoClashAgrees(r, r, ds, q);
      }
    } else {
      var a, b :| a in ds && b in ds && a.uuid != b.uuid && a.uuid !in r.seen && b.uuid !in r.seen && Clash(r.status, a.kind, b.kind);
      var p, q := ClashTears(r, ds, a, b);
    }
  }

  // ---------- Delivery ----------

  lemma BlockerClashes(status: TimerStatus, y: EventType, b: EventType)
    requires Blocks(status, y, b)
    ensures Accepts(status, y) && Accepts(status, b) && Clash(status, y, b)
  {
  }

  /** Events that do not clash survive in every delivery order too. */
  lemma NoClashIsOrderFree(log: seq<Event>, ds: seq<Event>)
    requires Settled(log) && StrictlySorted(ds) && Consistent(ds) && NoClash(Run(INIT, log).status, Uuids(log), ds)
    ensures OrderFree(log, ds)
  {
    var r := Run(INIT, log);
    SettledIsStrict(log);
    KeptMembers(r, ds);
    SeenIsSurvivors(r, ds);
    forall b | b in Kept(r, ds)
      ensures Sure(r.status, Uuids(log), ds, b)
    {
      FirstCopyCounts(r, ds, b);
      forall y | y in ds && Before(y, b) && y.uuid !in r.seen
        ensures !Blocks(r.status, y.kind, b.kind)
      {
        if Blocks(r.status, y.kind, b.kind) {
          BlockerClashes(r.status, y.kind, b.kind);
          assert false;
        }
      }
    }
  }

  /** A survivor is the first of its copies, and counts. */
  lemma FirstCopyCounts(r: Fsm, ds: seq<Event>, b: Event)
    requires StrictlySorted(ds) && Consistent(ds) && NoClash(r.status, r.seen, ds) && b in Kept(r, ds)
    ensures b in ds && Counts(r, b)
    ensures forall y :: y in ds && Before(y, b) ==> y.uuid != b.uuid
  {
    KeptMembers(r, ds);
    var i :| 0 <= i < |ds| && ds[i] == b;
    var a := ds[..i];
    KeptWhere(r, ds, i);
    PrefixSorted(ds, i);
    NoClashCounts(r, a);
    assert forall x :: x in a + [b] ==> x in ds;
    CountStep(r, a, b, Run(r, a));
    forall y | y in ds && Before(y, b)
      ensures y.uuid != b.uuid
    {
      var j :| 0 <= j < |ds| && ds[j] == y;
      assert j < i;
      assert a[j] == y;
      assert y.uuid == b.uuid ==> Counts(r, y);
    }
  }
}
