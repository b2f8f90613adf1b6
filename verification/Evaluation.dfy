/** The event log evaluation machine: one step, whole runs, and what pruning keeps. */
module Evaluation {
  import opened Events

  datatype TimerStatus = Stopped | Prepared | Running

  datatype TimeSegment = TimeSegment(
    isSet: bool, name: string, start: Time, end: Time, shortestDuration: int, shortestTime: int)

  datatype HistoryEntry = HistoryEntry(start: Time, end: Time, name: string)

  /** What one evaluation carries from entry to entry. */
  datatype Machine = Machine(
    status: TimerStatus,
    start: Time,
    stop: Time,
    segment: Time,
    index: nat,
    wasPrepared: bool,
    seen: set<Uuid>,
    history: seq<HistoryEntry>,
    segments: seq<TimeSegment>,
    mapName: string)

  /** The slot to fill next is in the table or is the one just past its end. */
  type Fsm = m: Machine | m.index <= |m.segments|
    witness Machine(Stopped, 0, 0, 0, 0, false, {}, [], [], "")

  const TIME_MAX: Time := 0x7FFF_FFFF_FFFF_FFFF
  const TICKS_PER_MS := 10_000
  const UNKNOWN_MAP := "Unknown"
  // Every field but name is overwritten as soon as a slot is added.
  const BLANK_SEGMENT := TimeSegment(false, "", 0, 0, 0, 0)

  const INIT: Fsm := Machine(Stopped, TIME_MAX, TIME_MAX, TIME_MAX, 0, false, {}, [], [], UNKNOWN_MAP)

  /** A tick count cut to whole milliseconds, toward zero. */
  function TruncMs(d: int): int {
    if d >= 0 then d - d % TICKS_PER_MS else -(-d - (-d) % TICKS_PER_MS)
  }

  function Min(a: int, b: int): int {
    if b < a then b else a
  }

  function Unset(segments: seq<TimeSegment>): (r: seq<TimeSegment>)
    ensures |r| == |segments|
    ensures forall i :: 0 <= i < |r| ==> r[i] == segments[i].(isSet := false)
  {
    seq(|segments|, i requires 0 <= i < |segments| => segments[i].(isSet := false))
  }

  /** The table with room for the slot at index. */
  function WithRoom(segments: seq<TimeSegment>, index: nat): (r: seq<TimeSegment>)
    requires index <= |segments|
    ensures index < |r| && segments <= r
    ensures |r| == if index == |segments| then index + 1 else |segments|
  {
    if index == |segments| then segments + [BLANK_SEGMENT] else segments
  }

  function Fill(slot: TimeSegment, from: Time, to: Time, start: Time, stop: Time): TimeSegment {
    slot.(
      isSet := true,
      start := from,
      end := to,
      shortestTime := Min(slot.shortestTime, TruncMs(stop - start)),
      shortestDuration := Min(slot.shortestDuration, TruncMs(stop - from)))
  }

  /** The kinds of entry each status acts on. */
  predicate Accepts(status: TimerStatus, kind: EventType) {
    match kind
    case MapChange => true
    case Reset => true
    case HistoryClear => true
    case SegmentClear => true
    case NoEvent => false
    case Start => !status.Running?
    case Stop => !status.Stopped?
    case Segment => status.Running?
    case Prepare => status.Stopped?
  }

  predicate Relevant(s: Fsm, e: Event) {
    e.uuid !in s.seen && Accepts(s.status, e.kind)
  }

  /** The effect of an entry the machine accepts. */
  function Apply(s: Fsm, e: Event): Fsm {
    match e.kind
    case MapChange =>
      s.(mapName := e.name.GetOr(UNKNOWN_MAP), index := 0, start := e.time, stop := e.time, status := Stopped)
    case Reset =>
      s.(start := e.time, stop := e.time, status := Stopped, segments := Unset(s.segments))
    case HistoryClear =>
      s.(history := [])
    case SegmentClear =>
      s.(segments := [], index := 0)
    case Start =>
      s.(start := e.time, segment := e.time, index := 0, status := Running,
         wasPrepared := s.status.Prepared?, segments := Unset(s.segments))
    case Prepare =>
      s.(start := e.time, stop := e.time, status := Prepared)
    case Stop =>
      if s.status.Running? then
        var table := WithRoom(s.segments, s.index);
        s.(stop := e.time, status := Stopped,
           history := s.history + [HistoryEntry(s.start, e.time, s.mapName)],
           segments := table[s.index := Fill(table[s.index], s.segment, e.time, s.start, e.time)],
           index := s.index + 1,
           segment := e.time)
      else
        s.(stop := e.time, status := Stopped)
    case Segment =>
      // shortest_* are computed from the stop of an earlier entry, as the program does
      var table := WithRoom(s.segments, s.index);
      var slot := Fill(table[s.index], s.segment, e.time, s.start, s.stop);
      s.(segments := table[s.index := slot.(name := e.name.GetOr(""))],
         index := s.index + 1,
         segment := e.time)
    case NoEvent =>
      s
  }

  function Step(s: Fsm, e: Event): Fsm {
    if Relevant(s, e) then Apply(s, e).(seen := s.seen + {e.uuid}) else s
  }

  function Run(s: Fsm, es: seq<Event>): Fsm
    decreases es
  {
    if es == [] then s else Run(Step(s, es[0]), es[1..])
  }

  /** The entries that survive an evaluation of es from s. */
  function Kept(s: Fsm, es: seq<Event>): seq<Event>
    decreases es
  {
    if es == [] then []
    else (if Relevant(s, es[0]) then [es[0]] else []) + Kept(Step(s, es[0]), es[1..])
  }

  /** A log as evaluation leaves it: nothing left to erase. */
  ghost predicate Pruned(es: seq<Event>) {
    Kept(INIT, es) == es
  }

  /** Status and remembered uuids evolve without looking at anything else. */
  function NextStatus(status: TimerStatus, kind: EventType): TimerStatus {
    match kind
    case MapChange => Stopped
    case Reset => Stopped
    case Stop => Stopped
    case Start => Running
    case Prepare => Prepared
    case Segment => status
    case HistoryClear => status
    case SegmentClear => status
    case NoEvent => status
  }

  lemma StepStatus(s: Fsm, e: Event)
    ensures Step(s, e).status == if Relevant(s, e) then NextStatus(s.status, e.kind) else s.status
    ensures Step(s, e).seen == if Relevant(s, e) then s.seen + {e.uuid} else s.seen
    ensures !Relevant(s, e) ==> Step(s, e) == s
  {
  }

  lemma {:induction false} RunAppend(s: Fsm, a: seq<Event>, b: seq<Event>)
    ensures Run(s, a + b) == Run(Run(s, a), b)
    decreases a
  {
    if a == [] {
      assert a + b == b;
    } else {
      assert (a + b)[1..] == a[1..] + b;
      RunAppend(Step(s, a[0]), a[1..], b);
    }
  }

  lemma {:induction false} KeptAppend(s: Fsm, a: seq<Event>, b: seq<Event>)
    ensures Kept(s, a + b) == Kept(s, a) + Kept(Run(s, a), b)
    decreases a
  {
    if a == [] {
      assert a + b == b;
    } else {
      assert (a + b)[1..] == a[1..] + b;
      KeptAppend(Step(s, a[0]), a[1..], b);
    }
  }

  lemma RunOne(s: Fsm, e: Event)
    ensures Run(s, [e]) == Step(s, e)
    ensures Kept(s, [e]) == if Relevant(s, e) then [e] else []
  {
    assert [e][1..] == [];
  }

  lemma RunSnoc(s: Fsm, a: seq<Event>, e: Event)
    ensures Run(s, a + [e]) == Step(Run(s, a), e)
    ensures Kept(s, a + [e]) == Kept(s, a) + (if Relevant(Run(s, a), e) then [e] else [])
  {
    RunAppend(s, a, [e]);
    KeptAppend(s, a, [e]);
    RunOne(Run(s, a), e);
  }

  lemma RunCons(s: Fsm, e: Event, b: seq<Event>)
    ensures Run(s, [e] + b) == Run(Step(s, e), b)
    ensures Kept(s, [e] + b) == (if Relevant(s, e) then [e] else []) + Kept(Step(s, e), b)
  {
    assert ([e] + b)[1..] == b;
  }

  lemma KeptAround(s: Fsm, a: seq<Event>, e: Event, b: seq<Event>)
    ensures Kept(s, a + [e] + b)
         == Kept(s, a) + (if Relevant(Run(s, a), e) then [e] else []) + Kept(Step(Run(s, a), e), b)
    ensures Run(s, a + [e] + b) == Run(Step(Run(s, a), e), b)
  {
    KeptAppend(s, a + [e], b);
    RunAppend(s, a + [e], b);
    RunSnoc(s, a, e);
  }

  /** An entry right behind a survivor with its uuid is a duplicate: it leaves no trace. */
  lemma DuplicateDropped(s: Fsm, a: seq<Event>, x: Event, y: Event, b: seq<Event>)
    requires Relevant(Run(s, a), x) && y.uuid == x.uuid
    ensures Kept(s, a + [x] + [y] + b) == Kept(s, a + [x] + b)
    ensures Run(s, a + [x] + [y] + b) == Run(s, a + [x] + b)
  {
    KeptAround(s, a + [x], y, b);
    RunSnoc(s, a, x);
    StepStatus(Run(s, a), x);
    StepStatus(Step(Run(s, a), x), y);
    KeptAround(s, a, x, b);
  }

  /** Pruning keeps the meaning: the erased log reaches the same state and loses nothing more. */
  lemma {:induction false} PruningKeepsMeaning(s: Fsm, es: seq<Event>)
    ensures Run(s, Kept(s, es)) == Run(s, es)
    ensures Kept(s, Kept(s, es)) == Kept(s, es)
    decreases es
  {
    if es != [] {
      var rest := Kept(Step(s, es[0]), es[1..]);
      PruningKeepsMeaning(Step(s, es[0]), es[1..]);
      if Relevant(s, es[0]) {
        RunCons(s, es[0], rest);
      } else {
        assert [] + rest == rest;
      }
    }
  }

  lemma {:induction false} KeptMembers(s: Fsm, es: seq<Event>)
    ensures forall x :: x in Kept(s, es) ==> x in es
    ensures |Kept(s, es)| <= |es|
    decreases es
  {
    if es != [] {
      KeptMembers(Step(s, es[0]), es[1..]);
    }
  }

  /** Exactly the survivors' uuids are remembered. */
  lemma {:induction false} SeenIsSurvivors(s: Fsm, es: seq<Event>)
    ensures Run(s, es).seen == s.seen + Uuids(Kept(s, es))
    ensures forall x :: x in Kept(s, es) ==> x.uuid !in s.seen
    ensures DistinctUuids(Kept(s, es))
    decreases es
  {
    if es != [] {
      var e, rest := es[0], Kept(Step(s, es[0]), es[1..]);
      SeenIsSurvivors(Step(s, e), es[1..]);
      StepStatus(s, e);
      UuidsCons(e, rest);
      if !Relevant(s, e) {
        assert Kept(s, es) == rest;
      }
    }
  }

  lemma UuidsCons(e: Event, rest: seq<Event>)
    ensures Uuids([e] + rest) == {e.uuid} + Uuids(rest)
    ensures DistinctUuids(rest) && e.uuid !in Uuids(rest) ==> DistinctUuids([e] + rest)
  {
    var all := [e] + rest;
    assert forall i :: 0 < i < |all| ==> all[i] == rest[i - 1];
    forall u
      ensures u in Uuids(all) <==> u == e.uuid || u in Uuids(rest)
    {
      assert all[0].uuid == e.uuid;
      if u in Uuids(rest) {
        var i :| 0 <= i < |rest| && rest[i].uuid == u;
        assert all[i + 1].uuid == u;
      }
    }
  }

  lemma {:induction false} KeptSorted(s: Fsm, es: seq<Event>)
    requires Sorted(es)
    ensures Sorted(Kept(s, es))
    ensures StrictlySorted(Kept(s, es))
    decreases es
  {
    if es != [] {
      var rest := Kept(Step(s, es[0]), es[1..]);
      KeptSorted(Step(s, es[0]), es[1..]);
      KeptMembers(Step(s, es[0]), es[1..]);
      SeenIsSurvivors(Step(s, es[0]), es[1..]);
      forall i | 0 <= i < |rest| && Relevant(s, es[0])
        ensures Before(es[0], rest[i])
      {
        assert rest[i] in es[1..];
        assert rest[i].uuid !in Step(s, es[0]).seen;
      }
    }
  }

  /** Every prefix of a pruned log is pruned, and every entry is accepted where it stands. */
  lemma {:induction false} PrunedPrefix(s: Fsm, es: seq<Event>, n: nat)
    requires Kept(s, es) == es && n <= |es|
    ensures Kept(s, es[..n]) == es[..n]
    ensures Kept(Run(s, es[..n]), es[n..]) == es[n..]
    ensures n < |es| ==> Relevant(Run(s, es[..n]), es[n])
  {
    var a, b := es[..n], es[n..];
    assert es == a + b;
    KeptAppend(s, a, b);
    KeptMembers(s, a);
    KeptMembers(Run(s, a), b);
    assert |Kept(s, a)| == n;
    assert Kept(s, a) == (Kept(s, a) + Kept(Run(s, a), b))[..n];
    if n < |es| {
      var r := Run(s, a);
      KeptMembers(Step(r, b[0]), b[1..]);
    }
  }
}
