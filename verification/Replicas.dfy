/**
 * Replicas whose copies of one event differ: the sender keeps its local time and the name, the echo and the
 * other players' copies have the time sent and no name. Every log is read through a view that maps each
 * entry to the common copy of its event. While a view reorders nothing, evaluation and view commute.
 */
module Replicas {
  import opened Events
  import opened Evaluation
  import opened Delivery
  import opened Orders
  import opened Convergence
  import opened Echoes

  // ---------- Views ----------

  type View = Event -> Event

  /** A view changes times and names only. */
  ghost predicate IsView(v: View) {
    forall e :: IsCopy(v(e), e)
  }

  function Image(es: seq<Event>, v: View): (r: seq<Event>)
    ensures |r| == |es| && forall i :: 0 <= i < |r| ==> r[i] == v(es[i])
  {
    seq(|es|, i requires 0 <= i < |es| => v(es[i]))
  }

  /** The view reorders nothing among es: what it shows in some order was in that order. */
  ghost predicate KeepsOrder(v: View, es: seq<Event>) {
    && (forall x, y :: x in es && y in es && Before(v(x), v(y)) ==> Before(x, y))
    && (forall x, y :: x in es && y in es && SameKey(v(x), v(y)) ==> v(x) == v(y))
  }

  /** Machines that differ in times and names only. */
  ghost predicate SameShape(s: Fsm, t: Fsm) {
    && s.status == t.status && s.index == t.index && s.wasPrepared == t.wasPrepared && s.seen == t.seen
    && |s.history| == |t.history| && |s.segments| == |t.segments|
    && forall k :: 0 <= k < |s.segments| ==> s.segments[k].isSet == t.segments[k].isSet
  }

  predicate Near(a: Time, b: Time, within: int) {
    -within <= a - b <= within
  }

  ghost predicate NearRuns(h: seq<HistoryEntry>, i: seq<HistoryEntry>, within: int) {
    |h| == |i| && forall k :: 0 <= k < |h| ==> Near(h[k].start, i[k].start, within) && Near(h[k].end, i[k].end, within)
  }

  ghost predicate NearSlots(a: seq<TimeSegment>, b: seq<TimeSegment>, within: int) {
    |a| == |b| && forall k :: 0 <= k < |a| ==> Near(a[k].start, b[k].start, within) && Near(a[k].end, b[k].end, within)
  }

  /** Timers and tables whose times differ by no more than within. */
  ghost predicate NearTimes(s: Fsm, t: Fsm, within: int) {
    && Near(s.start, t.start, within) && Near(s.stop, t.stop, within) && Near(s.segment, t.segment, within)
    && NearRuns(s.history, t.history, within) && NearSlots(s.segments, t.segments, within)
  }

  /** Best times that differ by no more than within. */
  ghost predicate NearBest(a: seq<TimeSegment>, b: seq<TimeSegment>, within: int) {
    && |a| == |b|
    && forall k :: 0 <= k < |a| ==>
         && Near(a[k].shortestTime, b[k].shortestTime, within)
         && Near(a[k].shortestDuration, b[k].shortestDuration, within)
  }

  /** Two spans whose ends differ by no more than within, each cut to milliseconds. */
  function BestWithin(within: int): int {
    2 * within + TICKS_PER_MS
  }

  ghost predicate Shifts(v: View, es: seq<Event>, within: int) {
    within >= 0 && forall e :: e in es ==> Near(e.time, v(e).time, within)
  }

  lemma ShapeStep(s: Fsm, t: Fsm, e: Event, f: Event)
    requires SameShape(s, t) && IsCopy(f, e)
    ensures Relevant(s, e) <==> Relevant(t, f)
    ensures SameShape(Step(s, e), Step(t, f))
  {
  }

  lemma SlotsStep(a: seq<TimeSegment>, b: seq<TimeSegment>, n: nat, slot1: TimeSegment, slot2: TimeSegment, within: int)
    requires within >= 0 && NearSlots(a, b, within) && n <= |a|
    requires Near(slot1.start, slot2.start, within) && Near(slot1.end, slot2.end, within)
    ensures NearSlots(Unset(a), Unset(b), within)
    ensures NearSlots(WithRoom(a, n)[n := slot1], WithRoom(b, n)[n := slot2], within)
  {
    forall k | 0 <= k < |WithRoom(a, n)| && k != n
      ensures WithRoom(a, n)[k] == a[k] && WithRoom(b, n)[k] == b[k]
    {
    }
  }

  lemma TimesApply(s: Fsm, t: Fsm, e: Event, f: Event, within: int)
    requires within >= 0 && SameShape(s, t) && NearTimes(s, t, within) && IsCopy(f, e) && Near(e.time, f.time, within)
    requires Accepts(s.status, e.kind)
    ensures NearTimes(Apply(s, e), Apply(t, f), within)
  {
    match e.kind
    case Start => SlotsStep(s.segments, t.segments, s.index, BLANK_SEGMENT, BLANK_SEGMENT, within);
    case Reset => SlotsStep(s.segments, t.segments, s.index, BLANK_SEGMENT, BLANK_SEGMENT, within);
    case Segment => SlotStep(s, t, e, f, within);
    case Stop => SlotStep(s, t, e, f, within);
    case _ =>
  }

  lemma SlotStep(s: Fsm, t: Fsm, e: Event, f: Event, within: int)
    requires within >= 0 && SameShape(s, t) && NearTimes(s, t, within) && IsCopy(f, e) && Near(e.time, f.time, within)
    requires (e.kind.Segment? && s.status.Running?) || e.kind.Stop?
    ensures NearTimes(Apply(s, e), Apply(t, f), within)
  {
    if s.status.Running? {
      var n := s.index;
      SlotsStep(s.segments, t.segments, n, Apply(s, e).segments[n], Apply(t, f).segments[n], within);
    }
  }

  lemma TruncNear(a: int, b: int, within: int)
    requires within >= 0 && Near(a, b, within)
    ensures Near(TruncMs(a), TruncMs(b), within + TICKS_PER_MS)
  {
  }

  /** The best time of a slot filled from two clocks. */
  lemma MinNear(a: int, b: int, start: Time, start': Time, stop: Time, stop': Time, within: int)
    requires within >= 0 && Near(a, b, BestWithin(within)) && Near(start, start', within) && Near(stop, stop', within)
    ensures Near(Min(a, TruncMs(stop - start)), Min(b, TruncMs(stop' - start')), BestWithin(within))
  {
    TruncNear(stop - start, stop' - start', 2 * within);
  }

  lemma BestSlots(a: seq<TimeSegment>, b: seq<TimeSegment>, n: nat, slot1: TimeSegment, slot2: TimeSegment, within: int)
    requires within >= 0 && NearBest(a, b, within) && n <= |a|
    requires Near(slot1.shortestTime, slot2.shortestTime, within) && Near(slot1.shortestDuration, slot2.shortestDuration, within)
    ensures NearBest(Unset(a), Unset(b), within)
    ensures NearBest(WithRoom(a, n)[n := slot1], WithRoom(b, n)[n := slot2], within)
  {
    forall k | 0 <= k < |WithRoom(a, n)| && k != n
      ensures WithRoom(a, n)[k] == a[k] && WithRoom(b, n)[k] == b[k]
    {
    }
  }

  lemma BestRoom(a: seq<TimeSegment>, b: seq<TimeSegment>, n: nat, within: int)
    requires within >= 0 && NearBest(a, b, within) && n <= |a|
    ensures var x, y := WithRoom(a, n)[n], WithRoom(b, n)[n];
      Near(x.shortestTime, y.shortestTime, within) && Near(x.shortestDuration, y.shortestDuration, within)
  {
  }

  /** The stop a slot's best times are computed with: its own for a stop, an earlier one for a segment. */
  function SlotStop(s: Fsm, e: Event): Time {
    if e.kind.Stop? then e.time else s.stop
  }

  /** after is table with the slot at n filled. */
  ghost predicate Filled(table: seq<TimeSegment>, n: nat, after: seq<TimeSegment>, segment: Time, start: Time, stop: Time)
    requires n <= |table|
  {
    var room := WithRoom(table, n);
    && |after| == |room| && after == room[n := after[n]]
    && after[n].shortestTime == Min(room[n].shortestTime, TruncMs(stop - start))
    && after[n].shortestDuration == Min(room[n].shortestDuration, TruncMs(stop - segment))
  }

  lemma ApplyFills(s: Fsm, e: Event)
    requires s.status.Running? && (e.kind.Segment? || e.kind.Stop?)
    ensures Filled(s.segments, s.index, Apply(s, e).segments, s.segment, s.start, SlotStop(s, e))
  {
  }

  lemma BestFilled(
      a: seq<TimeSegment>, b: seq<TimeSegment>, n: nat, a': seq<TimeSegment>, b': seq<TimeSegment>,
      segment: Time, segment': Time, start: Time, start': Time, stop: Time, stop': Time, within: int)
    requires within >= 0 && n <= |a| && NearBest(a, b, BestWithin(within))
    requires Filled(a, n, a', segment, start, stop) && Filled(b, n, b', segment', start', stop')
    requires Near(segment, segment', within) && Near(start, start', within) && Near(stop, stop', within)
    ensures NearBest(a', b', BestWithin(within))
  {
    var x, y := WithRoom(a, n)[n], WithRoom(b, n)[n];
    BestRoom(a, b, n, BestWithin(within));
    MinNear(x.shortestTime, y.shortestTime, start, start', stop, stop', within);
    MinNear(x.shortestDuration, y.shortestDuration, segment, segment', stop, stop', within);
    BestSlots(a, b, n, a'[n], b'[n], BestWithin(within));
  }

  lemma BestApply(s: Fsm, t: Fsm, e: Event, f: Event, within: int)
    requires within >= 0 && SameShape(s, t) && NearTimes(s, t, within) && IsCopy(f, e) && Near(e.time, f.time, within)
    requires NearBest(s.segments, t.segments, BestWithin(within)) && Accepts(s.status, e.kind)
    ensures NearBest(Apply(s, e).segments, Apply(t, f).segments, BestWithin(within))
  {
    if s.status.Running? && (e.kind.Segment? || e.kind.Stop?) {
      ApplyFills(s, e);
      ApplyFills(t, f);
      BestFilled(
        s.segments, t.segments, s.index, Apply(s, e).segments, Apply(t, f).segments,
        s.segment, t.segment, s.start, t.start, SlotStop(s, e), SlotStop(t, f), within);
    } else {
      BestSlots(s.segments, t.segments, s.index, BLANK_SEGMENT, BLANK_SEGMENT, BestWithin(within));
    }
  }

  lemma ImageCons(e: Event, es: seq<Event>, v: View)
    ensures Image([e] + es, v) == [v(e)] + Image(es, v)
  {
  }

  /** A view commutes with evaluation. */
  lemma {:induction false} KeptImage(s: Fsm, t: Fsm, es: seq<Event>, v: View)
    requires SameShape(s, t) && IsView(v)
    ensures Kept(t, Image(es, v)) == Image(Kept(s, es), v)
    ensures SameShape(Run(s, es), Run(t, Image(es, v)))
    decreases es
  {
    if es != [] {
      var e, rest := es[0], es[1..];
      assert es == [e] + rest;
      ImageCons(e, rest, v);
      ShapeStep(s, t, e, v(e));
      RunCons(s, e, rest);
      RunCons(t, v(e), Image(rest, v));
      KeptImage(Step(s, e), Step(t, v(e)), rest, v);
      ImageCons(e, Kept(Step(s, e), rest), v);
    }
  }

  /** What times evaluation shows differ by no more than the entries' times do, and best times accordingly. */
  lemma {:induction false} TimesImage(s: Fsm, t: Fsm, es: seq<Event>, v: View, within: int)
    requires SameShape(s, t) && NearTimes(s, t, within) && NearBest(s.segments, t.segments, BestWithin(within))
    requires IsView(v) && Shifts(v, es, within)
    ensures NearTimes(Run(s, es), Run(t, Image(es, v)), within)
    ensures NearBest(Run(s, es).segments, Run(t, Image(es, v)).segments, BestWithin(within))
    decreases es
  {
    if es != [] {
      var e, rest := es[0], es[1..];
      assert es == [e] + rest;
      ImageCons(e, rest, v);
      ShapeStep(s, t, e, v(e));
      RunCons(s, e, rest);
      RunCons(t, v(e), Image(rest, v));
      if Relevant(s, e) {
        TimesApply(s, t, e, v(e), within);
        BestApply(s, t, e, v(e), within);
      }
      TimesImage(Step(s, e), Step(t, v(e)), rest, v, within);
    }
  }

  // ---------- Sorting through a view ----------

  /** Taking out one entry takes out its copy. */
  lemma ImageWithout(a: seq<Event>, e: Event, b: seq<Event>, v: View)
    ensures multiset(Image(a + [e] + b, v)) == multiset(Image(a + b, v)) + multiset{v(e)}
  {
    calc {
      multiset(Image(a + [e] + b, v));
      { assert Image(a + [e] + b, v) == Image(a, v) + [v(e)] + Image(b, v); }
      multiset(Image(a, v) + [v(e)] + Image(b, v));
      { WithoutOne(Image(a, v), v(e), Image(b, v)); }
      multiset(Image(a, v) + Image(b, v)) + multiset{v(e)};
      { assert Image(a + b, v) == Image(a, v) + Image(b, v); }
      multiset(Image(a + b, v)) + multiset{v(e)};
    }
  }

  lemma SplitAround(q: seq<Event>, e: Event) returns (a: seq<Event>, b: seq<Event>)
    requires e in q
    ensures q == a + [e] + b
  {
    var k :| 0 <= k < |q| && q[k] == e;
    a, b := q[..k], q[k + 1..];
  }

  lemma {:induction false} ImageMultiset(p: seq<Event>, q: seq<Event>, v: View)
    requires multiset(p) == multiset(q)
    ensures multiset(Image(p, v)) == multiset(Image(q, v))
    decreases |p|
  {
    SameMembers(p, q);
    if p != [] {
      var e, rest := p[0], p[1..];
      assert p == [] + [e] + rest && [] + rest == rest;
      assert e in p;
      var a, b := SplitAround(q, e);
      ImageWithout([], e, rest, v);
      ImageWithout(a, e, b, v);
      WithoutOne([], e, rest);
      WithoutOne(a, e, b);
      Cancel(multiset(rest), multiset(a + b), e);
      ImageMultiset(rest, a + b, v);
    }
  }

  lemma ImageMembers(es: seq<Event>, v: View)
    ensures forall x :: x in es ==> v(x) in Image(es, v)
    ensures forall y :: y in Image(es, v) ==> exists x :: x in es && v(x) == y
  {
    forall x | x in es
      ensures v(x) in Image(es, v)
    {
      var i :| 0 <= i < |es| && es[i] == x;
      assert Image(es, v)[i] == v(x);
    }
  }

  lemma ImageKeys(es: seq<Event>, v: View)
    requires KeepsOrder(v, es)
    ensures KeysIdentify(Image(es, v))
  {
    ImageMembers(es, v);
  }

  lemma ImageSorted(p: seq<Event>, v: View)
    requires Sorted(p) && KeepsOrder(v, p)
    ensures Sorted(Image(p, v))
  {
    forall i, j | 0 <= i < j < |p|
      ensures !Before(Image(p, v)[j], Image(p, v)[i])
    {
      assert !Before(p[j], p[i]) && p[i] in p && p[j] in p;
    }
  }

  /** A sort of a log is, through the view, a sort of the image of the log. */
  lemma ImageSort(p: seq<Event>, log: seq<Event>, v: View)
    requires IsSortOf(p, log) && KeepsOrder(v, log)
    ensures IsSortOf(Image(p, v), Image(log, v))
  {
    SameMembers(p, log);
    ImageMultiset(p, log, v);
    ImageSorted(p, v);
  }

  lemma ImageSettled(log: seq<Event>, v: View)
    requires Settled(log) && IsView(v) && KeepsOrder(v, log)
    ensures Settled(Image(log, v))
  {
    KeptImage(INIT, INIT, log, v);
    ImageSorted(log, v);
  }

  // ---------- What the program may do, seen through a view ----------

  /** The program may turn before into after by adding e. */
  ghost predicate MayTurn(before: seq<Event>, e: Event, after: seq<Event>) {
    exists p :: IsSortOf(p, before + [e]) && after == Kept(INIT, p)
  }

  lemma EchoTurns(log: seq<Event>, i: nat, w: Event, after: seq<Event>)
    requires Settled(log) && i < |log| && IsCopy(w, log[i]) && MayTurn(log, w, after)
    ensures EchoOutcomes(log, i, w, after)
  {
    var p :| IsSortOf(p, log + [w]) && after == Kept(INIT, p);
    EchoOutcomesAreAll(log, i, w, p);
  }

  /** The program may hold after once it has added the events of ds to log one by one. */
  ghost predicate Evolves(log: seq<Event>, ds: seq<Event>, after: seq<Event>)
    decreases |ds|
  {
    if ds == [] then after == log
    else
      var init, e := ds[..|ds| - 1], ds[|ds| - 1];
      exists before :: Evolves(log, init, before) && MayTurn(before, e, after)
  }

  /** Whichever of two copies of an event an unstable sort or a different time puts first, the image is the delivery of the common copy. */
  lemma DeliveryIsImage(log: seq<Event>, e: Event, after: seq<Event>, v: View)
    requires Settled(log) && MayTurn(log, e, after) && IsView(v) && KeepsOrder(v, log + [e])
    ensures Image(after, v) == Deliver(Image(log, v), v(e))
    ensures Settled(after) && forall x :: x in after ==> x in log || x == e
  {
    var p :| IsSortOf(p, log + [e]) && after == Kept(INIT, p);
    assert Image(log + [e], v) == Image(log, v) + [v(e)];
    assert KeepsOrder(v, log);
    ImageSort(p, log + [e], v);
    ImageKeys(log + [e], v);
    ImageSettled(log, v);
    AnySortInserts(Image(log, v), v(e), Image(p, v));
    KeptImage(INIT, INIT, p, v);
    KeptSorted(INIT, p);
    PruningKeepsMeaning(INIT, p);
    KeptMembers(INIT, p);
    SameMembers(p, log + [e]);
  }

  /** Everything the program may do with the events of ds is, seen through the view, their delivery. */
  lemma {:induction false} EvolutionIsImage(log: seq<Event>, ds: seq<Event>, after: seq<Event>, v: View)
    requires Settled(log) && Evolves(log, ds, after) && IsView(v) && KeepsOrder(v, log + ds)
    ensures Image(after, v) == DeliverAll(Image(log, v), Image(ds, v))
    ensures Settled(after) && forall x :: x in after ==> x in log || x in ds
    decreases |ds|
  {
    if ds != [] {
      var init, e := ds[..|ds| - 1], ds[|ds| - 1];
      assert ds == init + [e];
      assert forall x :: x in log + init || x == e ==> x in log + ds;
      var before :| Evolves(log, init, before) && MayTurn(before, e, after);
      EvolutionIsImage(log, init, before, v);
      assert forall x :: x in before + [e] ==> x in log + ds;
      DeliveryIsImage(before, e, after, v);
      assert Image(ds, v)[..|ds| - 1] == Image(init, v);
    }
  }

  // ---------- Convergence of replicas ----------

  lemma SameNewEvents(log: seq<Event>, ds1: seq<Event>, ds2: seq<Event>)
    requires StrictlySorted(log) && Newer(log, ds1) && forall x :: x in ds1 <==> x in ds2
    ensures Newer(log, ds2) && NewEvents(log, ds1) == NewEvents(log, ds2)
  {
    NewEventsSorted(log, ds1);
    NewEventsSorted(log, ds2);
    StrictSuffix(log, NewEvents(log, ds1));
    StrictSuffix(log, NewEvents(log, ds2));
    StrictlySortedUnique(NewEvents(log, ds1), NewEvents(log, ds2));
  }

  /** Logs with the same image show the same in all but times and names, and the times are as close as the views. */
  lemma ImageDecides(p: seq<Event>, v: View, q: seq<Event>, w: View, within1: int, within2: int)
    requires IsView(v) && IsView(w) && Image(p, v) == Image(q, w) && Shifts(v, p, within1) && Shifts(w, q, within2)
    ensures SameShape(Run(INIT, p), Run(INIT, q))
    ensures NearTimes(Run(INIT, p), Run(INIT, q), within1 + within2)
    ensures NearBest(Run(INIT, p).segments, Run(INIT, q).segments, BestWithin(within1) + BestWithin(within2))
  {
    KeptImage(INIT, INIT, p, v);
    KeptImage(INIT, INIT, q, w);
    TimesImage(INIT, INIT, p, v, within1);
    TimesImage(INIT, INIT, q, w, within2);
    MeetInTheMiddle(Run(INIT, p), Run(INIT, Image(p, v)), Run(INIT, q), within1, within2);
    BestMeets(
      Run(INIT, p).segments, Run(INIT, Image(p, v)).segments, Run(INIT, q).segments, BestWithin(within1), BestWithin(within2));
  }

  lemma BestMeets(a: seq<TimeSegment>, m: seq<TimeSegment>, b: seq<TimeSegment>, within1: int, within2: int)
    requires NearBest(a, m, within1) && NearBest(b, m, within2)
    ensures NearBest(a, b, within1 + within2)
  {
  }

  lemma MeetInTheMiddle(s: Fsm, m: Fsm, t: Fsm, within1: int, within2: int)
    requires SameShape(s, m) && SameShape(t, m) && NearTimes(s, m, within1) && NearTimes(t, m, within2)
    ensures SameShape(s, t) && NearTimes(s, t, within1 + within2)
  {
  }

  /** A player's log before and after the events of ds came in, seen through a view that reorders nothing. */
  ghost predicate Replica(v: View, log: seq<Event>, ds: seq<Event>, after: seq<Event>) {
    IsView(v) && KeepsOrder(v, log + ds) && Settled(log) && Evolves(log, ds, after)
  }

  ghost predicate SameEvents(p: seq<Event>, q: seq<Event>) {
    forall x :: x in p <==> x in q
  }

  /** Two players hold the same log and receive the same events, each in its own copies. */
  ghost predicate SameStory(v: View, log1: seq<Event>, ds1: seq<Event>, w: View, log2: seq<Event>, ds2: seq<Event>) {
    Image(log1, v) == Image(log2, w) && SameEvents(Image(ds1, v), Image(ds2, w))
  }

  /**
   * Two players hold and receive the same events, each in its own copies and in its own order, with any
   * repeats, echoes and sorts. If their views reorder nothing and the common copies are order-free, both
   * logs come to the same events in the same order.
   */
  lemma ReplicasAgree(
      v: View, log1: seq<Event>, ds1: seq<Event>, after1: seq<Event>, w: View, log2: seq<Event>, ds2: seq<Event>, after2: seq<Event>)
    requires Replica(v, log1, ds1, after1) && Replica(w, log2, ds2, after2) && SameStory(v, log1, ds1, w, log2, ds2)
    requires Newer(Image(log1, v), Image(ds1, v)) && OrderFree(Image(log1, v), NewEvents(Image(log1, v), Image(ds1, v)))
    ensures Image(after1, v) == Image(after2, w)
  {
    var log := Image(log1, v);
    assert KeepsOrder(v, log1);
    ImageSettled(log1, v);
    SettledIsStrict(log);
    EvolutionIsImage(log1, ds1, after1, v);
    EvolutionIsImage(log2, ds2, after2, w);
    SameNewEvents(log, Image(ds1, v), Image(ds2, w));
    NewerConverges(log, Image(ds1, v));
    NewerConverges(log, Image(ds2, w));
  }

  /** In particular within a run: every player ends with the same winners, whatever happened on the way. */
  lemma {:induction false} RunReplica(v: View, log: seq<Event>, ds: seq<Event>, after: seq<Event>)
    requires Replica(v, log, ds, after)
    requires Run(INIT, log).status.Running? && RunEvents(Image(log, v), Image(ds, v))
    ensures Image(log, v) <= Image(after, v)
    ensures forall x :: x in Image(after, v)[|log|..] <==> Wins(Uuids(log), Image(ds, v), x)
  {
    assert KeepsOrder(v, log);
    ImageSettled(log, v);
    KeptImage(INIT, INIT, log, v);
    EvolutionIsImage(log, ds, after, v);
    RunOutcome(Image(log, v), Image(ds, v));
    ImageUuids(log, v);
  }

  lemma ImageUuids(es: seq<Event>, v: View)
    requires IsView(v)
    ensures Uuids(Image(es, v)) == Uuids(es)
  {
    forall u
      ensures u in Uuids(Image(es, v)) <==> u in Uuids(es)
    {
      if u in Uuids(es) {
        var i :| 0 <= i < |es| && es[i].uuid == u;
        assert Image(es, v)[i].uuid == u;
      }
    }
  }

  /** And in a race of starts: every player ends with the same start, and its timer runs from its copy of it. */
  lemma RaceReplica(v: View, log: seq<Event>, ds: seq<Event>, after: seq<Event>, m: Event)
    requires Replica(v, log, ds, after)
    requires Run(INIT, log).status.Prepared? && RaceStarts(Image(log, v), Image(ds, v))
    requires IsEarliest(Image(log, v), Image(ds, v), m)
    ensures Image(after, v) == Image(log, v) + [m]
    ensures var r := Run(INIT, after); r.status.Running? && r.wasPrepared && r.start == after[|log|].time
  {
    RaceImage(v, log, ds, after, m);
    KeptImage(INIT, INIT, after, v);
    assert Image(after, v)[|log|] == m == v(after[|log|]);
    LastStartRuns(after);
  }

  lemma RaceImage(v: View, log: seq<Event>, ds: seq<Event>, after: seq<Event>, m: Event)
    requires Replica(v, log, ds, after)
    requires Run(INIT, log).status.Prepared? && RaceStarts(Image(log, v), Image(ds, v))
    requires IsEarliest(Image(log, v), Image(ds, v), m)
    ensures Settled(after) && Image(after, v) == Image(log, v) + [m]
    ensures var r := Run(INIT, Image(after, v)); r.status.Running? && r.wasPrepared
  {
    assert KeepsOrder(v, log);
    ImageSettled(log, v);
    KeptImage(INIT, INIT, log, v);
    EvolutionIsImage(log, ds, after, v);
    EarliestStartWins(Image(log, v), Image(ds, v), m);
  }

  lemma {:induction false} LastStartRuns(log: seq<Event>)
    requires Pruned(log) && log != [] && log[|log| - 1].kind.Start?
    ensures Run(INIT, log).start == log[|log| - 1].time
  {
    var init, last := log[..|log| - 1], log[|log| - 1];
    assert log == init + [last];
    PrunedPrefix(INIT, log, |init|);
    RunSnoc(INIT, init, last);
  }

  /** A barrier holds for the program's own log: from it on nothing changes, nor do status and times. */
  lemma BarrierReplica(front: seq<Event>, barrier: Event, rest: seq<Event>, ds: seq<Event>, after: seq<Event>, v: View)
    returns (front': seq<Event>)
    requires Settled(front + ([barrier] + rest)) && IsBarrier(barrier) && Evolves(front + ([barrier] + rest), ds, after)
    requires IsView(v) && KeepsOrder(v, front + ([barrier] + rest) + ds)
    requires forall d :: d in ds ==> Before(v(d), v(barrier)) && d.uuid !in Uuids([barrier] + rest)
    ensures after == front' + ([barrier] + rest)
    ensures SameTimer(Run(INIT, front + ([barrier] + rest)), Run(INIT, after))
  {
    var tail := [barrier] + rest;
    var f := BarrierImage(front, barrier, rest, ds, after, v);
    TailIsOwn(front + tail, front, tail, ds, after, v, f);
    front' := after[..|f|];
    assert after == front' + tail;
    SameTimerBehind(front, front', barrier, rest);
  }

  lemma BarrierImage(front: seq<Event>, barrier: Event, rest: seq<Event>, ds: seq<Event>, after: seq<Event>, v: View)
    returns (f: seq<Event>)
    requires Settled(front + ([barrier] + rest)) && IsBarrier(barrier) && Evolves(front + ([barrier] + rest), ds, after)
    requires IsView(v) && KeepsOrder(v, front + ([barrier] + rest) + ds)
    requires forall d :: d in ds ==> Before(v(d), v(barrier)) && d.uuid !in Uuids([barrier] + rest)
    ensures Settled(after) && Image(after, v) == f + Image([barrier] + rest, v)
    ensures forall x :: x in after ==> x in front + ([barrier] + rest) || x in ds
  {
    var log := front + ([barrier] + rest);
    assert KeepsOrder(v, log);
    ImageSettled(log, v);
    EvolutionIsImage(log, ds, after, v);
    ImageTail(front, barrier, rest, v);
    ImageUuids([barrier] + rest, v);
    ImageMembers(ds, v);
    f := LateEventsStopAtBarrier(Image(front, v), v(barrier), Image(rest, v), Image(ds, v));
  }

  lemma ImageTail(front: seq<Event>, barrier: Event, rest: seq<Event>, v: View)
    ensures Image([barrier] + rest, v) == [v(barrier)] + Image(rest, v)
    ensures Image(front + ([barrier] + rest), v) == Image(front, v) + ([v(barrier)] + Image(rest, v))
  {
  }

  /** Entries whose uuids were not delivered are the log's own. */
  lemma TailIsOwn(log: seq<Event>, front: seq<Event>, tail: seq<Event>, ds: seq<Event>, after: seq<Event>, v: View, f: seq<Event>)
    requires Settled(log) && log == front + tail && IsView(v) && Image(after, v) == f + Image(tail, v)
    requires forall x :: x in after ==> x in log || x in ds
    requires forall d :: d in ds ==> d.uuid !in Uuids(tail)
    ensures |f| <= |after| && after[|f|..] == tail
  {
    SettledIsStrict(log);
    forall i | 0 <= i < |tail|
      ensures after[|f| + i] == tail[i]
    {
      var x := after[|f| + i];
      assert v(x) == (f + Image(tail, v))[|f| + i] == v(tail[i]);
      assert x.uuid == tail[i].uuid;
      assert log[|front| + i] == tail[i];
      OneUuidOneEntry(log, |front| + i, x);
    }
  }

  lemma OneUuidOneEntry(log: seq<Event>, i: nat, x: Event)
    requires DistinctUuids(log) && i < |log| && x in log && x.uuid == log[i].uuid
    ensures x == log[i]
  {
  }

  lemma SameTimerBehind(front: seq<Event>, front': seq<Event>, barrier: Event, rest: seq<Event>)
    requires Settled(front + ([barrier] + rest)) && Settled(front' + ([barrier] + rest)) && IsBarrier(barrier)
    ensures SameTimer(Run(INIT, front + ([barrier] + rest)), Run(INIT, front' + ([barrier] + rest)))
  {
    var tail := [barrier] + rest;
    var log, log' := front + tail, front' + tail;
    PrunedPrefix(INIT, log, |front|);
    PrunedPrefix(INIT, log', |front'|);
    assert log[..|front|] == front && log[|front|..] == tail && log'[..|front'|] == front' && log'[|front'|..] == tail;
    SeenIsSurvivors(Run(INIT, front'), tail);
    RunAppend(INIT, front, tail);
    RunAppend(INIT, front', tail);
    BarrierShields(Run(INIT, front), Run(INIT, front'), barrier, rest);
  }

  lemma RunImageIsOrderFree(log: seq<Event>, ds: seq<Event>, v: View)
    requires Settled(log) && Run(INIT, log).status.Running? && IsView(v) && KeepsOrder(v, log + ds)
    requires RunEvents(Image(log, v), Image(ds, v))
    ensures OrderFree(Image(log, v), NewEvents(Image(log, v), Image(ds, v)))
  {
    assert KeepsOrder(v, log);
    ImageSettled(log, v);
    KeptImage(INIT, INIT, log, v);
    RunDeliveryIsBatch(Image(log, v), Image(ds, v));
    RunIsOrderFree(Image(log, v), NewEvents(Image(log, v), Image(ds, v)));
  }

  /**
   * What two players show: the same events in the same order, the same timer and tables but for times, and
   * times no further apart than the two views together put them.
   */
  ghost predicate Agree(v: View, after1: seq<Event>, within1: int, w: View, after2: seq<Event>, within2: int) {
    var s, t := Run(INIT, after1), Run(INIT, after2);
    && Image(after1, v) == Image(after2, w)
    && SameShape(s, t) && NearTimes(s, t, within1 + within2)
    && NearBest(s.segments, t.segments, BestWithin(within1) + BestWithin(within2))
  }

  /** Players in one run who agreed before it agree after it, in events and order, and in times up to their views. */
  lemma {:induction false} RunReplicasAgree(
      v: View, log1: seq<Event>, ds1: seq<Event>, after1: seq<Event>, within1: int,
      w: View, log2: seq<Event>, ds2: seq<Event>, after2: seq<Event>, within2: int)
    requires Replica(v, log1, ds1, after1) && Replica(w, log2, ds2, after2) && SameStory(v, log1, ds1, w, log2, ds2)
    requires Run(INIT, log1).status.Running? && RunEvents(Image(log1, v), Image(ds1, v))
    requires Shifts(v, after1, within1) && Shifts(w, after2, within2)
    ensures Agree(v, after1, within1, w, after2, within2)
  {
    RunImageIsOrderFree(log1, ds1, v);
    ReplicasAgree(v, log1, ds1, after1, w, log2, ds2, after2);
    ImageDecides(after1, v, after2, w, within1, within2);
  }

  // ---------- Times as sent ----------

  /** A player's view: its own entries, with the offset each was sent at, as sent; all others as they came. */
  ghost function AsSent(own: map<Event, int>): View {
    (e: Event) => if e in own then Wire(e, own[e]) else Nameless(e)
  }

  /** Own offsets of at most limit milliseconds. */
  ghost predicate OffsetsWithin(own: map<Event, int>, limit: int) {
    limit >= 0 && forall e :: e in own ==> -limit <= own[e] <= limit
  }

  /** v is the view of a player who sent its own entries at offsets within the limit. */
  ghost predicate IsPlayersView(v: View, own: map<Event, int>, limit: int) {
    OffsetsWithin(own, limit) && v == AsSent(own)
  }

  lemma AsSentIsView(v: View, own: map<Event, int>, limit: int, es: seq<Event>)
    requires IsPlayersView(v, own, limit)
    ensures IsView(v) && Shifts(v, es, (limit + 1) * TICKS_PER_MS)
  {
  }

  /** Events further apart than any two shifts, as sent, keep their order. */
  lemma SpacedKeepsOrder(v: View, es: seq<Event>, within: int)
    requires Shifts(v, es, within)
    requires forall x, y :: x in es && y in es && v(x) != v(y) ==> !Near(v(x).time, v(y).time, 2 * within)
    ensures KeepsOrder(v, es)
  {
  }

  /**
   * Two players in one run. Each sees its own events at its own clock and with names, all echoes and the
   * other's events as sent. If neither clock reorders anything, whatever orders, repeats and sorts happened,
   * the logs hold the same events in the same order, the timers agree but for the clocks, and no time shown
   * differs by more than the two offsets and two milliseconds.
   */
  lemma {:induction false} PlayersAgree(
      v: View, own1: map<Event, int>, limit1: int, log1: seq<Event>, ds1: seq<Event>, after1: seq<Event>,
      w: View, own2: map<Event, int>, limit2: int, log2: seq<Event>, ds2: seq<Event>, after2: seq<Event>)
    requires IsPlayersView(v, own1, limit1) && Replica(v, log1, ds1, after1)
    requires IsPlayersView(w, own2, limit2) && Replica(w, log2, ds2, after2)
    requires SameStory(v, log1, ds1, w, log2, ds2)
    requires Run(INIT, log1).status.Running? && RunEvents(Image(log1, v), Image(ds1, v))
    ensures Agree(v, after1, (limit1 + 1) * TICKS_PER_MS, w, after2, (limit2 + 1) * TICKS_PER_MS)
  {
    AsSentIsView(v, own1, limit1, after1);
    AsSentIsView(w, own2, limit2, after2);
    RunReplicasAgree(
      v, log1, ds1, after1, (limit1 + 1) * TICKS_PER_MS, w, log2, ds2, after2, (limit2 + 1) * TICKS_PER_MS);
  }
}
