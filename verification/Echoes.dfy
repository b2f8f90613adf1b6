/**
 * What a player sends of an event, and what happens when the server's echo of it comes back. The time sent is
 * the local time moved by the clock offset and cut to milliseconds, and the name is not sent.
 */
module Echoes {
  import opened Events
  import opened Evaluation
  import opened Delivery
  import opened Reordering

  /** The last whole millisecond not after t. */
  function FloorToMs(t: Time): Time {
    t - t % TICKS_PER_MS
  }

  /** A clock offset in seconds as the program uses it: whole milliseconds, cut toward zero. */
  function OffsetMs(seconds: real): int {
    if seconds >= 0.0 then (seconds * 1000.0).Floor else -(-seconds * 1000.0).Floor
  }

  /** The copy of e everybody else gets, and the sender as echo. */
  function Wire(e: Event, offsetMs: int): Event {
    e.(time := FloorToMs(e.time + offsetMs * TICKS_PER_MS), name := None)
  }

  /** An entry rebuilt from a server message has no name. */
  function Nameless(e: Event): Event {
    e.(name := None)
  }

  /**
   * The time sent is the last whole millisecond, of 10000 ticks, of the moved time; the offset is the clock's,
   * with what is less than a millisecond cut off toward zero.
   */
  lemma WireTime(e: Event, seconds: real)
    ensures var o, sent := OffsetMs(seconds), Wire(e, OffsetMs(seconds)).time;
      && sent % 10_000 == 0 && sent <= e.time + o * 10_000 < sent + 10_000
      && (seconds >= 0.0 ==> 0.0 <= o as real <= seconds * 1000.0 < o as real + 1.0)
      && (seconds <= 0.0 ==> o as real - 1.0 < seconds * 1000.0 <= o as real <= 0.0)
  {
  }

  /** A copy sent, and an entry rebuilt from one, are the event in all but time and name; the name is gone. */
  lemma WireKeepsTheRest(e: Event, offsetMs: int)
    ensures var w := Wire(e, offsetMs);
      w.kind == e.kind && w.source == e.source && w.uuid == e.uuid && w.name == None && Nameless(w) == w
    ensures var b := Nameless(e);
      b.kind == e.kind && b.source == e.source && b.uuid == e.uuid && b.time == e.time && b.name == None
  {
  }

  /** A copy sorts before its original exactly with a negative offset, or with none and a time between milliseconds. */
  lemma WireIsEarlierIff(e: Event, offsetMs: int)
    ensures IsCopy(Wire(e, offsetMs), e)
    ensures Before(Wire(e, offsetMs), e) <==> offsetMs < 0 || (offsetMs == 0 && e.time % 10_000 != 0)
    ensures SameKey(Wire(e, offsetMs), e) <==> offsetMs == 0 && e.time % 10_000 == 0
  {
    var t := e.time + offsetMs * TICKS_PER_MS;
    assert t % TICKS_PER_MS == e.time % TICKS_PER_MS;
  }

  // ---------- The echo in the sender's log ----------

  lemma {:induction false} EchoPlace(log: seq<Event>, i: nat, w: Event)
    requires Settled(log) && i < |log| && IsCopy(w, log[i])
    ensures var k := Place(log, w);
      && (Before(w, log[i]) <==> k <= i)
      && (w.uuid in Run(INIT, log[..k]).seen <==> i < k)
  {
    var k := Place(log, w);
    SettledIsStrict(log);
    assert k <= i ==> Before(w, log[i]) by {
      assert k < i ==> Before(log[k], log[i]);
    }
    PrunedPrefix(INIT, log, k);
    SeenIsSurvivors(INIT, log[..k]);
    if i < k {
      assert log[..k][i] == log[i];
    }
  }

  /** Around the place a new entry takes, what was in front stays, and what follows is judged anew. */
  lemma {:induction false} DeliveredAt(log: seq<Event>, w: Event)
    requires Pruned(log)
    ensures var k := Place(log, w); var s := Run(INIT, log[..k]);
      && (Relevant(s, w) ==> Deliver(log, w) == log[..k] + [w] + Kept(Step(s, w), log[k..]))
      && (!Relevant(s, w) ==> Deliver(log, w) == log)
  {
    var k := Place(log, w);
    PrunedPrefix(INIT, log, k);
    KeptAround(INIT, log[..k], w, log[k..]);
    if !Relevant(Run(INIT, log[..k]), w) {
      StepStatus(Run(INIT, log[..k]), w);
      assert log[..k] + [] + log[k..] == log;
    }
  }

  lemma EchoDelivered(log: seq<Event>, i: nat, w: Event)
    requires Settled(log) && i < |log| && IsCopy(w, log[i])
    ensures var k := Place(log, w); var s := Run(INIT, log[..k]);
      && (Relevant(s, w) <==> Before(w, log[i]) && Accepts(s.status, w.kind))
      && (Relevant(s, w) ==> Deliver(log, w) == log[..k] + [w] + Kept(Step(s, w), log[k..]))
      && (!Relevant(s, w) ==> Deliver(log, w) == log)
  {
    EchoPlace(log, i, w);
    DeliveredAt(log, w);
  }

  lemma EarlierCopyIsNew(log: seq<Event>, i: nat, w: Event)
    requires Settled(log) && i < |log| && IsCopy(w, log[i]) && !SameKey(w, log[i])
    ensures w !in log
  {
    SettledIsStrict(log);
    forall j | 0 <= j < |log|
      ensures log[j] != w
    {
      assert j != i ==> log[j].uuid != log[i].uuid;
    }
  }

  /**
   * The echo of entry i leaves the log alone if and only if it does not sort before the original, or it does
   * and the timer, as it stands where the echo sorts in, refuses its kind.
   */
  lemma EchoIsHarmlessIff(log: seq<Event>, i: nat, w: Event)
    requires Settled(log) && i < |log| && IsCopy(w, log[i])
    ensures Deliver(log, w) == log <==>
      !Before(w, log[i]) || !Accepts(Run(INIT, log[..Place(log, w)]).status, w.kind)
  {
    EchoDelivered(log, i, w);
    if Before(w, log[i]) && Accepts(Run(INIT, log[..Place(log, w)]).status, w.kind) {
      EarlierCopyIsNew(log, i, w);
      assert Deliver(log, w)[Place(log, w)] == w;
    }
  }

  /** An echo accepted in front of its original takes its place for good: the original is erased. */
  lemma EchoReplaces(log: seq<Event>, i: nat, w: Event)
    requires Settled(log) && i < |log| && IsCopy(w, log[i]) && Before(w, log[i])
    requires Accepts(Run(INIT, log[..Place(log, w)]).status, w.kind)
    ensures w in Deliver(log, w) && log[i] !in Deliver(log, w)
    ensures Place(log, w) == i ==> Deliver(log, w) == log[i := w]
  {
    var k := Place(log, w);
    EchoDelivered(log, i, w);
    OriginalGoes(log, i, w);
    if k == i {
      EchoTakesPlace(log, i, w);
    }
  }

  lemma OriginalGoes(log: seq<Event>, i: nat, w: Event)
    requires Settled(log) && i < |log| && IsCopy(w, log[i]) && Relevant(Run(INIT, log[..Place(log, w)]), w)
    ensures var k := Place(log, w); log[i] !in log[..k] && log[i] != w && log[i] !in Kept(Step(Run(INIT, log[..k]), w), log[k..])
  {
    var k := Place(log, w);
    var s := Run(INIT, log[..k]);
    SettledIsStrict(log);
    EchoPlace(log, i, w);
    StepStatus(s, w);
    SeenIsSurvivors(Step(s, w), log[k..]);
    assert forall j :: 0 <= j < k ==> log[j].uuid != log[i].uuid;
  }

  lemma EchoTakesPlace(log: seq<Event>, i: nat, w: Event)
    requires Settled(log) && i < |log| && IsCopy(w, log[i]) && Relevant(Run(INIT, log[..i]), w)
    ensures log[..i] + [w] + Kept(Step(Run(INIT, log[..i]), w), log[i..]) == log[i := w]
  {
    var s, b := Run(INIT, log[..i]), log[i + 1..];
    SplitAt(log, i);
    assert log[i..] == [log[i]] + b;
    PrunedPrefix(INIT, log, i);
    FirstIsRelevant(s, log[i], b);
    StepStatus(s, w);
    StepStatus(s, log[i]);
    RunCons(Step(s, w), log[i], b);
    StepStatus(Step(s, w), log[i]);
    SeenIsSurvivors(Step(s, log[i]), b);
    SameClockRuns(Step(s, log[i]), Step(s, w), b);
  }

  /** Nothing that survived between the echo's place and the original clashes with it where it stands. */
  ghost predicate Overtakes(s: Fsm, between: seq<Event>, kind: EventType) {
    forall j :: 0 <= j < |between| ==> !Clash(Run(s, between[..j]).status, between[j].kind, kind)
  }

  /** A copy moved in front of entries that do not clash with it leaves them, what follows, and the standing at the end. */
  lemma {:induction false} MovedForward(s: Fsm, between: seq<Event>, original: Event, w: Event, rest: seq<Event>)
    requires Kept(s, between + ([original] + rest)) == between + ([original] + rest)
    requires IsCopy(w, original) && Overtakes(s, between, w.kind)
    ensures Relevant(s, w) && Kept(Step(s, w), between + rest) == between + rest
    ensures SameStanding(Run(Step(s, w), between + rest), Run(s, between + ([original] + rest)))
    decreases |between|
  {
    if between == [] {
      assert between + ([original] + rest) == [original] + rest && between + rest == rest;
      FirstIsRelevant(s, original, rest);
      StepStatus(s, w);
      StepStatus(s, original);
      SameStatusKeeps(Step(s, original), Step(s, w), rest);
      CopiesGoOnAlike(Step(s, original), Step(s, w), rest, rest);
      RunCons(s, original, rest);
    } else {
      var m, others := between[0], between[1..];
      assert between + ([original] + rest) == [m] + (others + ([original] + rest));
      assert between + rest == [m] + (others + rest);
      FirstIsRelevant(s, m, others + ([original] + rest));
      OvertakesRest(s, between, w.kind);
      MovedForward(Step(s, m), others, original, w, rest);
      SeenIsSurvivors(Step(s, m), others + ([original] + rest));
      assert original in others + ([original] + rest);
      StepStatus(s, m);
      TradeStanding(s, m, w);
      StepStatus(s, w);
      SameStatusKeeps(Step(Step(s, m), w), Step(Step(s, w), m), others + rest);
      CopiesGoOnAlike(Step(Step(s, m), w), Step(Step(s, w), m), others + rest, others + rest);
      RunCons(s, m, others + ([original] + rest));
      RunCons(Step(s, w), m, others + rest);
    }
  }

  lemma OvertakesRest(s: Fsm, between: seq<Event>, kind: EventType)
    requires between != [] && Overtakes(s, between, kind)
    ensures Overtakes(Step(s, between[0]), between[1..], kind) && !Clash(s.status, between[0].kind, kind)
  {
    var m, others := between[0], between[1..];
    assert between[..0] == [];
    forall j | 0 <= j < |others|
      ensures !Clash(Run(Step(s, m), others[..j]).status, others[j].kind, kind)
    {
      assert between[..j + 1] == [m] + others[..j];
      RunCons(s, m, others[..j]);
      assert !Clash(Run(s, between[..j + 1]).status, between[j + 1].kind, kind);
    }
  }

  /**
   * When no entry between the echo's place and the original clashes with it, nothing else is lost: the echo
   * survives, the original goes, all other entries stay, and so does the status.
   */
  lemma {:induction false} EchoOvertakes(log: seq<Event>, i: nat, w: Event)
    requires Settled(log) && i < |log| && IsCopy(w, log[i]) && Before(w, log[i])
    requires var k := Place(log, w); Overtakes(Run(INIT, log[..k]), log[k..i], w.kind)
    ensures var k := Place(log, w); Deliver(log, w) == log[..k] + [w] + (log[k..i] + log[i + 1..])
    ensures Run(INIT, Deliver(log, w)).status == Run(INIT, log).status
  {
    var k := Place(log, w);
    CutTwice(log, k, i);
    OvertakenLog(log[..k], log[k..i], log[i], w, log[i + 1..]);
    DeliverSettles(log, w);
  }

  lemma CutTwice(log: seq<Event>, k: nat, i: nat)
    requires k <= i < |log|
    ensures log[k..] == log[k..i] + ([log[i]] + log[i + 1..])
    ensures log == log[..k] + (log[k..i] + ([log[i]] + log[i + 1..]))
  {
  }

  lemma OvertakenLog(head: seq<Event>, between: seq<Event>, original: Event, w: Event, rest: seq<Event>)
    requires Pruned(head + (between + ([original] + rest))) && IsCopy(w, original)
    requires Overtakes(Run(INIT, head), between, w.kind)
    ensures var tail := between + ([original] + rest);
      && Kept(INIT, head + [w] + tail) == head + [w] + (between + rest)
      && Run(INIT, head + [w] + tail).status == Run(INIT, head + tail).status
  {
    var tail := between + ([original] + rest);
    var s := Run(INIT, head);
    PrunedPrefix(INIT, head + tail, |head|);
    assert (head + tail)[..|head|] == head && (head + tail)[|head|..] == tail;
    MovedForward(s, between, original, w, rest);
    EchoLosesOriginal(s, between, original, w, rest);
    KeptAround(INIT, head, w, tail);
    RunAppend(INIT, head, tail);
  }

  /** Behind its copy the original is a duplicate. */
  lemma {:induction false} EchoLosesOriginal(s: Fsm, between: seq<Event>, original: Event, w: Event, rest: seq<Event>)
    requires IsCopy(w, original) && Relevant(s, w) && Kept(Step(s, w), between + rest) == between + rest
    ensures Kept(Step(s, w), between + ([original] + rest)) == between + rest
    ensures Run(Step(s, w), between + ([original] + rest)) == Run(Step(s, w), between + rest)
  {
    var t := Step(s, w);
    StepStatus(s, w);
    SeenIsSurvivors(t, between);
    assert between + ([original] + rest) == between + [original] + rest;
    KeptAround(t, between, original, rest);
    StepStatus(Run(t, between), original);
    KeptAppend(t, between, rest);
    RunAppend(t, between, rest);
  }

  // ---------- Echoes at the original's time ----------

  /**
   * An echo whose time is the original's has its key. Whichever of the two an unstable sort puts first
   * survives: the log is as before, or has the echo in place of the original, with the same status and times.
   */
  lemma EchoAtSameTime(log: seq<Event>, i: nat, w: Event, p: seq<Event>)
    requires Settled(log) && i < |log| && IsCopy(w, log[i]) && SameKey(w, log[i]) && IsSortOf(p, log + [w])
    ensures Kept(INIT, p) == log || Kept(INIT, p) == log[i := w]
    ensures var r, q := Run(INIT, log), Run(INIT, p);
      && r.status == q.status && r.start == q.start && r.stop == q.stop && r.wasPrepared == q.wasPrepared
  {
    SettledIsStrict(log);
    var k := RemoveFromSort(log, w, p);
    EchoPosition(log, i, k, w, p);
    EchoOutcome(log, i, w);
  }

  /** At any other time the sort has no choice, and the echo is simply delivered. */
  lemma EchoAtOtherTime(log: seq<Event>, i: nat, w: Event, p: seq<Event>)
    requires Settled(log) && i < |log| && IsCopy(w, log[i]) && !SameKey(w, log[i]) && IsSortOf(p, log + [w])
    ensures Kept(INIT, p) == Deliver(log, w)
  {
    SettledIsStrict(log);
    StrictSortsIdentify(log);
    assert forall x :: x in log && x != log[i] ==> x.uuid != w.uuid;
    AnySortInserts(log, w, p);
  }

  /** What a log can be after a copy w of its entry i came in. */
  ghost predicate EchoOutcomes(log: seq<Event>, i: nat, w: Event, after: seq<Event>)
    requires i < |log|
  {
    if Before(log[i], w) then after == log
    else if SameKey(log[i], w) then after == log || after == log[i := w]
    else if Accepts(Run(INIT, log[..Place(log, w)]).status, w.kind) then w in after && log[i] !in after
    else after == log
  }

  lemma EchoOutcomesAreAll(log: seq<Event>, i: nat, w: Event, p: seq<Event>)
    requires Settled(log) && i < |log| && IsCopy(w, log[i]) && IsSortOf(p, log + [w])
    ensures EchoOutcomes(log, i, w, Kept(INIT, p))
  {
    if SameKey(w, log[i]) {
      EchoAtSameTime(log, i, w, p);
    } else {
      EchoAtOtherTime(log, i, w, p);
      EchoIsHarmlessIff(log, i, w);
      if Before(w, log[i]) && Accepts(Run(INIT, log[..Place(log, w)]).status, w.kind) {
        EchoReplaces(log, i, w);
      }
    }
  }

  lemma EchoPosition(log: seq<Event>, i: nat, k: nat, e: Event, p: seq<Event>)
    requires StrictlySorted(log) && i < |log| && SameKey(e, log[i])
    requires k <= |log| && p == log[..k] + [e] + log[k..] && Sorted(p)
    ensures k == i || k == i + 1
  {
    assert p[k] == e;
    assert k < |log| ==> p[k + 1] == log[k];
    assert k > 0 ==> p[k - 1] == log[k - 1];
  }

  /** What evaluation makes of the two orders a sort can give an entry and an echo with its key. */
  lemma EchoOutcome(log: seq<Event>, i: nat, e: Event)
    requires Pruned(log) && i < |log| && IsCopy(e, log[i]) && SameKey(e, log[i])
    ensures var first, second := log[..i] + [e] + log[i..], log[..i + 1] + [e] + log[i + 1..];
      && Kept(INIT, first) == log[i := e] && Run(INIT, first) == Run(INIT, log[i := e])
      && Kept(INIT, second) == log && Run(INIT, second) == Run(INIT, log)
      && Run(INIT, log).status == Run(INIT, log[i := e]).status && SameClock(Run(INIT, log), Run(INIT, log[i := e]))
  {
    var a, b := log[..i], log[i + 1..];
    SplitAt(log, i);
    PrunedPrefix(INIT, log, i);
    DuplicateDropped(INIT, a, e, log[i], b);
    DuplicateDropped(INIT, a, log[i], e, b);
    OnlyKeyIsRead(log, i, e);
  }

  /** A log survives just as well with one entry replaced by a copy with its key. */
  lemma OnlyKeyIsRead(log: seq<Event>, i: nat, e: Event)
    requires Pruned(log) && i < |log| && IsCopy(e, log[i]) && SameKey(e, log[i])
    ensures Pruned(log[i := e])
    ensures var r, q := Run(INIT, log), Run(INIT, log[i := e]);
      r.status == q.status && SameClock(r, q)
  {
    var a, b := log[..i], log[i + 1..];
    var s := Run(INIT, a);
    SplitAt(log, i);
    PrunedPrefix(INIT, log, i);
    FirstIsRelevant(s, log[i], b) by {
      assert log[i..] == [log[i]] + b;
    }
    KeptAround(INIT, a, log[i], b);
    KeptAround(INIT, a, e, b);
    StepSameClock(s, s, log[i], e);
    StepStatus(s, e);
    StepStatus(s, log[i]);
    SeenIsSurvivors(Step(s, log[i]), b);
    SameClockRuns(Step(s, log[i]), Step(s, e), b);
  }

  lemma SortedWithout(p: seq<Event>, k: nat)
    requires Sorted(p) && k < |p|
    ensures Sorted(p[..k] + p[k + 1..])
  {
    var q := p[..k] + p[k + 1..];
    forall i, j | 0 <= i < j < |q|
      ensures !Before(q[j], q[i])
    {
      assert q[i] == p[if i < k then i else i + 1];
      assert q[j] == p[if j < k then j else j + 1];
    }
  }

  /** A sort of a strictly sorted log with one more event is that log with the event put in somewhere. */
  lemma RemoveFromSort(log: seq<Event>, e: Event, p: seq<Event>) returns (k: nat)
    requires StrictlySorted(log) && IsSortOf(p, log + [e])
    ensures k <= |log| && p == log[..k] + [e] + log[k..]
  {
    SameMembers(p, log + [e]);
    assert e in log + [e] by {
      assert (log + [e])[|log|] == e;
    }
    k :| 0 <= k < |p| && p[k] == e;
    var q := p[..k] + p[k + 1..];
    assert p == p[..k] + [e] + p[k + 1..];
    WithoutOne(p[..k], e, p[k + 1..]);
    Cancel(multiset(q), multiset(log), e);
    StrictSortsIdentify(log);
    SortedWithout(p, k);
    SortIsUnique(log, q);
    assert q[..k] == p[..k] && q[k..] == p[k + 1..];
  }

  /** Both outcomes of an echo at the original's time are possible: each order of the two is a legal sort. */
  lemma EchoOrders(log: seq<Event>, i: nat, e: Event)
    requires Settled(log) && i < |log| && IsCopy(e, log[i]) && SameKey(e, log[i])
    ensures
      && IsSortOf(log[..i] + [e] + log[i..], log + [e])
      && IsSortOf(log[..i + 1] + [e] + log[i + 1..], log + [e])
      && Kept(INIT, log[..i] + [e] + log[i..]) == log[i := e]
      && Kept(INIT, log[..i + 1] + [e] + log[i + 1..]) == log
  {
    SettledIsStrict(log);
    EchoOutcome(log, i, e);
    TwinSorts(log, i, e, i);
    TwinSorts(log, i, e, i + 1);
  }

  lemma TwinSorts(log: seq<Event>, i: nat, e: Event, k: nat)
    requires StrictlySorted(log) && i < |log| && SameKey(e, log[i]) && i <= k <= i + 1
    ensures IsSortOf(log[..k] + [e] + log[k..], log + [e])
  {
    var p := log[..k] + [e] + log[k..];
    assert multiset(p) == multiset(log + [e]) by {
      WithoutOne(log[..k], e, log[k..]);
      assert log == log[..k] + log[k..];
    }
    forall m, n | 0 <= m < n < |p|
      ensures !Before(p[n], p[m])
    {
      TwinAt(log, i, e, k, m);
      TwinAt(log, i, e, k, n);
    }
  }

  lemma TwinAt(log: seq<Event>, i: nat, e: Event, k: nat, m: nat)
    requires i < |log| && SameKey(e, log[i]) && i <= k <= i + 1 && m <= |log|
    ensures SameKey((log[..k] + [e] + log[k..])[m], log[if m <= i then m else m - 1])
  {
  }
}
