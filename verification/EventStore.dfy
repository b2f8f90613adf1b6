/** The event store: the log, the tables rebuilt from it, and the operations that change them. */
module EventStores {
  import opened Events
  import opened Evaluation
  import opened Delivery
  import opened DerivedTables
  import opened Convergence
  import opened Echoes
  import opened LogGrammar
  import opened Replicas
  import opened SavedLogs
  import opened SegmentTables

  /** A log entry; evaluation marks the ones to erase. */
  datatype Entry = Entry(event: Event, isRelevant: bool)

  datatype TimerState = TimerState(status: TimerStatus, startTime: Time, currentTime: Time, wasPrepared: bool)

  const THREE_SECONDS := 3_000 * TICKS_PER_MS

  function EventsOf(entries: seq<Entry>): (r: seq<Event>)
    ensures |r| == |entries| && forall i :: 0 <= i < |r| ==> r[i] == entries[i].event
  {
    seq(|entries|, i requires 0 <= i < |entries| => entries[i].event)
  }

  function AllRelevant(es: seq<Event>): (r: seq<Entry>)
    ensures |r| == |es| && forall i :: 0 <= i < |r| ==> r[i] == Entry(es[i], true)
  {
    seq(|es|, i requires 0 <= i < |es| => Entry(es[i], true))
  }

  /** The combat gate: a prepared timer, or a prepared run less than three seconds old. */
  predicate Admits(status: TimerStatus, start: Time, wasPrepared: bool, e: Event, now: Time) {
    e.kind.Start? && e.source.Combat? ==>
      || (status.Running? && now - start < THREE_SECONDS && wasPrepared)
      || status.Prepared?
  }

  function Remaining(entries: seq<Entry>): seq<Entry>
    decreases |entries|
  {
    if entries == [] then []
    else
      var last := entries[|entries| - 1];
      Remaining(entries[..|entries| - 1]) + (if last.isRelevant then [last] else [])
  }

  /** The first n entries of the sorted log have their verdicts, the others are as they were. */
  ghost predicate Marked(entries: seq<Entry>, p: seq<Event>, n: nat) {
    && |entries| == |p| && n <= |p|
    && Remaining(entries[..n]) == AllRelevant(Kept(INIT, p[..n]))
    && entries[n..] == AllRelevant(p[n..])
  }

  lemma MarkedNext(entries: seq<Entry>, p: seq<Event>, i: nat)
    requires i < |p| && Marked(entries, p, i)
    ensures entries[i] == Entry(p[i], true)
    ensures Marked(entries[i := Entry(p[i], Relevant(Run(INIT, p[..i]), p[i]))], p, i + 1)
  {
    var verdict := Entry(p[i], Relevant(Run(INIT, p[..i]), p[i]));
    var after := entries[i := verdict];
    assert entries[i] == entries[i..][0];
    assert p[..i + 1] == p[..i] + [p[i]];
    RunSnoc(INIT, p[..i], p[i]);
    assert after[..i + 1] == entries[..i] + [verdict];
    RemainingSnoc(entries[..i], verdict);
    assert after[i + 1..] == entries[i..][1..] && AllRelevant(p[i..])[1..] == AllRelevant(p[i + 1..]);
  }

  lemma RemainingSnoc(entries: seq<Entry>, last: Entry)
    ensures Remaining(entries + [last]) == Remaining(entries) + (if last.isRelevant then [last] else [])
  {
    assert (entries + [last])[..|entries|] == entries;
  }

  lemma RunNext(p: seq<Event>, i: nat)
    requires i < |p|
    ensures Run(INIT, p[..i + 1]) == Step(Run(INIT, p[..i]), p[i])
  {
    assert p[..i + 1] == p[..i] + [p[i]];
    RunSnoc(INIT, p[..i], p[i]);
  }

  class EventStore {
    var entries: seq<Entry>
    var history: seq<HistoryEntry>
    var segments: seq<TimeSegment>
    var state: TimerState
    // seconds, set by every clock synchronisation
    var clockOffset: real
    // what was handed to the server connection, oldest first
    var posted: seq<Event>

    ghost function Log(): seq<Event>
      reads this
    {
      EventsOf(entries)
    }

    /** The tables and the timer are those of m. */
    ghost predicate Shows(m: Fsm)
      reads this
    {
      && history == m.history && segments == m.segments
      && state == TimerState(m.status, m.start, m.stop, m.wasPrepared)
    }

    /** What the store shows is what its own entries say, right after an evaluation. */
    ghost predicate ReadsOff()
      reads this
    {
      && TimerShows(Log(), state.status, state.startTime, state.currentTime, state.wasPrepared)
      && HistoryReads(Log(), history) && TableReads(Log(), segments)
    }

    ghost predicate Valid()
      reads this
    {
      var m := Run(INIT, Log());
      && entries == AllRelevant(Log()) && Settled(Log())
      && history == m.history && segments == m.segments
      && state.status == m.status && state.wasPrepared == m.wasPrepared
      && (m.status.Running? ==> state.startTime == m.start)
    }

    /** The log is before with e delivered to it, and everything shown is what the log says. */
    ghost predicate Added(before: seq<Event>, e: Event)
      reads this
    {
      && Evaluated(before + [e]) && MayTurn(before, e, Log()) && ReadsOff()
      && (KeysIdentify(before + [e]) ==> Log() == Deliver(before, e) && Shows(Run(INIT, Log())))
    }

    /** The log is what evaluating some sort of before leaves, and the tables and timer show that evaluation. */
    ghost predicate Evaluated(before: seq<Event>)
      reads this
    {
      exists p :: IsSortOf(p, before) && entries == AllRelevant(Kept(INIT, p)) && Shows(Run(INIT, p))
    }

    constructor ()
      ensures Valid() && Log() == [] && posted == [] && clockOffset == 0.0
    {
      entries, history, segments, posted, clockOffset := [], [], [], [], 0.0;
      state := TimerState(Stopped, 0, 0, false);
    }

    method ReevaluateState()
      requires entries == AllRelevant(Log())
      modifies this
      ensures Evaluated(old(Log())) && posted == old(posted) && clockOffset == old(clockOffset)
    {
      var p := SortEvents(EventsOf(entries));
      entries := AllRelevant(p);
      var status, start, stop, wasPrepared := EvaluateEntries(p);
      assert entries[..|p|] == entries && p[..|p|] == p;
      EraseIrrelevant();
      state := TimerState(status, start, stop, wasPrepared);
      assert Shows(Run(INIT, p));
    }

    /** The event log evaluation machine: one pass over the sorted entries. */
    method EvaluateEntries(ghost p: seq<Event>) returns (status: TimerStatus, start: Time, stop: Time, wasPrepared: bool)
      requires entries == AllRelevant(p)
      modifies this`entries, this`history, this`segments
      ensures Marked(entries, p, |p|)
      ensures var m := Run(INIT, p);
        && history == m.history && segments == m.segments
        && status == m.status && start == m.start && stop == m.stop && wasPrepared == m.wasPrepared
    {
      assert entries[0..] == entries && p[0..] == p && entries[..0] == [] && p[..0] == [];
      status, start, stop, wasPrepared := Stopped, TIME_MAX, TIME_MAX, false;
      var segment := TIME_MAX;
      var index: nat := 0;
      var processed: set<Uuid> := {};
      history, segments := [], [];
      var currentMap := UNKNOWN_MAP;

      for i := 0 to |entries|
        invariant Marked(entries, p, i)
        invariant index <= |segments|
        invariant Machine(status, start, stop, segment, index, wasPrepared, processed, history, segments, currentMap)
               == Run(INIT, p[..i])
      {
        var Entry(entry, isRelevant) := entries[i];
        ghost var m := Run(INIT, p[..i]);
        RunNext(p, i);
        MarkedNext(entries, p, i);
        if entry.uuid in processed {
          entries := entries[i := Entry(entry, false)];
          continue;
        }

        if entry.kind == MapChange {
          currentMap := entry.name.GetOr(UNKNOWN_MAP);
          index := 0;
          start := entry.time;
          stop := entry.time;
          status := Stopped;
        } else if entry.kind == Reset {
          start := entry.time;
          stop := entry.time;
          status := Stopped;
          segments := ClearFlags(segments);
        } else if entry.kind == HistoryClear {
          history := [];
        } else if entry.kind == SegmentClear {
          segments := [];
          index := 0;
        } else if entry.kind == NoEvent {
          isRelevant := false;
        } else {
          status, start, stop, segment, index, wasPrepared, isRelevant :=
            SwitchOnStatus(entry, status, start, stop, segment, index, wasPrepared, currentMap, processed);
        }

        if isRelevant {
          processed := processed + {entry.uuid};
        }
        assert isRelevant == Relevant(m, entry);
        assert Machine(status, start, stop, segment, index, wasPrepared, processed, history, segments, currentMap) == Step(m, entry);
        entries := entries[i := Entry(entry, isRelevant)];
      }

      assert p[..|p|] == p;
    }

    /** The entries that depend on what the timer is doing. */
    method SwitchOnStatus(
        entry: Event, status0: TimerStatus, start0: Time, stop0: Time, segment0: Time, index0: nat, wasPrepared0: bool,
        currentMap: string, ghost processed: set<Uuid>)
      returns (status: TimerStatus, start: Time, stop: Time, segment: Time, index: nat, wasPrepared: bool, isRelevant: bool)
      requires entry.kind.Start? || entry.kind.Stop? || entry.kind.Prepare? || entry.kind.Segment?
      requires index0 <= |segments|
      modifies this`history, this`segments
      ensures isRelevant == Accepts(status0, entry.kind) && index <= |segments|
      ensures var m := Machine(
          status0, start0, stop0, segment0, index0, wasPrepared0, processed, old(history), old(segments), currentMap);
        Machine(status, start, stop, segment, index, wasPrepared, processed, history, segments, currentMap)
          == if isRelevant then Apply(m, entry) else m
    {
      status, start, stop, segment, index, wasPrepared := status0, start0, stop0, segment0, index0, wasPrepared0;
      isRelevant := true;
      match status
      case Running =>
        if entry.kind == Stop {
          stop := entry.time;
          status := Stopped;
          history := history + [HistoryEntry(start, stop, currentMap)];
          FillSlot(index, segment, stop, start, stop, None);
          index := index + 1;
          segment := entry.time;
        } else if entry.kind == Segment {
          FillSlot(index, segment, entry.time, start, stop, Some(entry.name.GetOr("")));
          index := index + 1;
          segment := entry.time;
        } else {
          isRelevant := false;
        }
      case Stopped =>
        if entry.kind == Start {
          start := entry.time;
          segment := entry.time;
          index := 0;
          status := Running;
          wasPrepared := false;
          segments := ClearFlags(segments);
        } else if entry.kind == Prepare {
          start := entry.time;
          stop := entry.time;
          status := Prepared;
        } else {
          isRelevant := false;
        }
      case Prepared =>
        if entry.kind == Start {
          start := entry.time;
          segment := entry.time;
          index := 0;
          status := Running;
          wasPrepared := true;
          segments := ClearFlags(segments);
        } else if entry.kind == Stop {
          stop := entry.time;
          status := Stopped;
        } else {
          isRelevant := false;
        }
    }

    /** Takes the slot at index: a new one when the table has none left. */
    method FillSlot(index: nat, from: Time, to: Time, start: Time, stop: Time, name: Option<string>)
      requires index <= |segments|
      modifies this`segments
      ensures var table := WithRoom(old(segments), index);
        var slot := Fill(table[index], from, to, start, stop);
        segments == table[index := if name.Some? then slot.(name := name.value) else slot]
    {
      if |segments| == index {
        segments := segments + [BLANK_SEGMENT];
      }
      var slot := segments[index];
      slot := slot.(isSet := true, start := from, end := to);
      var time := TruncMs(stop - start);
      var duration := TruncMs(stop - from);
      slot := slot.(shortestTime := Min(slot.shortestTime, time), shortestDuration := Min(slot.shortestDuration, duration));
      if name.Some? {
        slot := slot.(name := name.value);
      }
      segments := segments[index := slot];
    }

    method EraseIrrelevant()
      modifies this`entries
      ensures entries == Remaining(old(entries))
    {
      var kept: seq<Entry> := [];
      for i := 0 to |entries|
        invariant entries == old(entries) && kept == Remaining(entries[..i])
      {
        assert entries[..i + 1][..i] == entries[..i];
        if entries[i].isRelevant {
          kept := kept + [entries[i]];
        }
      }
      assert entries[..|entries|] == entries;
      entries := kept;
    }

    /** Into the log, and everything evaluated anew. */
    method Record(e: Event)
      requires Valid()
      modifies this
      ensures Valid() && Added(old(Log()), e) && posted == old(posted) && clockOffset == old(clockOffset)
    {
      entries := entries + [Entry(e, true)];
      assert Log() == old(Log()) + [e];
      ReevaluateState();
      EvaluatedDelivers(old(Log()), e);
    }

    /** A local event: into the log, then a copy with the time to send, and without the name, to the server. */
    method AddEvent(e: Event)
      requires Valid()
      modifies this
      ensures Valid() && Added(old(Log()), e)
      ensures posted == old(posted) + [Wire(e, OffsetMs(clockOffset))] && clockOffset == old(clockOffset)
    {
      Record(e);
      posted := posted + [Wire(e, OffsetMs(clockOffset))];
    }

    /**
     * A server message: the entry is rebuilt from time, type, source and uuid, without a name. For a copy of
     * an entry of the log only a time before the original's, or the same, can make a difference.
     */
    method Sync(data: Event)
      requires Valid()
      modifies this
      ensures Valid() && Added(old(Log()), Nameless(data))
      ensures posted == old(posted) && clockOffset == old(clockOffset)
      ensures forall i :: 0 <= i < |old(Log())| && IsCopy(data, old(Log())[i]) ==>
        EchoOutcomes(old(Log()), i, Nameless(data), Log())
    {
      var e := Nameless(data);
      Record(e);
      ghost var before := old(Log());
      forall i | 0 <= i < |before| && IsCopy(data, before[i])
        ensures EchoOutcomes(before, i, e, Log())
      {
        EchoTurns(before, i, e, Log());
      }
    }

    lemma ShowsReadsOff(p: seq<Event>)
      requires Shows(Run(INIT, p)) && entries == AllRelevant(Kept(INIT, p))
      ensures ReadsOff()
    {
      assert Log() == Kept(INIT, p);
      PruningKeepsMeaning(INIT, p);
      MachineReads(Log());
    }

    lemma EvaluatedDelivers(before: seq<Event>, e: Event)
      requires Settled(before) && Evaluated(before + [e])
      ensures Valid() && Added(before, e)
    {
      var p :| IsSortOf(p, before + [e]) && entries == AllRelevant(Kept(INIT, p)) && Shows(Run(INIT, p));
      assert Log() == Kept(INIT, p);
      KeptSorted(INIT, p);
      PruningKeepsMeaning(INIT, p);
      ShowsReadsOff(p);
      if KeysIdentify(before + [e]) {
        AnySortInserts(before, e, p);
      }
    }

    /** The running clock shows the present. */
    method GetTimerState(now: Time) returns (r: TimerState)
      requires Valid()
      modifies this`state
      ensures Valid() && r == state
      ensures state == old(state).(currentTime := if old(state).status.Running? then now else old(state).currentTime)
    {
      if state.status.Running? {
        state := state.(currentTime := now);
      }
      r := state;
    }

    /**
     * Every event of the addon comes through here. Combat starts pass the gate or are dropped; a map
     * change first saves the log of the map being left.
     */
    method DispatchEvent(e: Event, now: Time, saveLogs: bool) returns (saved: Option<SavedLog>)
      requires Valid()
      modifies this
      ensures Valid()
      ensures Passes(old(Log()), e, now) ==>
        Added(old(Log()), e) && posted == old(posted) + [Wire(e, OffsetMs(clockOffset))]
      ensures !Passes(old(Log()), e, now) ==>
        && entries == old(entries) && posted == old(posted)
        && state == old(state).(currentTime := if old(state).status.Running? then now else old(state).currentTime)
      ensures saved == if e.kind.MapChange? && saveLogs then MapLog(old(Log())) else None
    {
      saved := None;
      if e.kind == Start && e.source == Combat {
        DispatchCombatStart(e, now);
      } else if e.kind == MapChange {
        saved := SaveMapLog(saveLogs);
        AddEvent(e);
      } else {
        AddEvent(e);
      }
    }

    method DispatchCombatStart(e: Event, now: Time)
      requires Valid() && e.kind.Start? && e.source.Combat?
      modifies this
      ensures Valid()
      ensures Passes(old(Log()), e, now) ==>
        Added(old(Log()), e) && posted == old(posted) + [Wire(e, OffsetMs(clockOffset))]
      ensures !Passes(old(Log()), e, now) ==>
        && entries == old(entries) && posted == old(posted)
        && state == old(state).(currentTime := if old(state).status.Running? then now else old(state).currentTime)
    {
      ghost var m := Run(INIT, Log());
      var s := GetTimerState(now);
      assert Log() == old(Log());
      assert Admits(m.status, s.startTime, m.wasPrepared, e, now) <==> Passes(old(Log()), e, now) by {
        GateReads(Log(), s.startTime, e, now);
      }
      var duration := now - s.startTime;
      if s.status == Running && duration < THREE_SECONDS && s.wasPrepared {
        AddEvent(e);
      } else if s.status == Prepared {
        AddEvent(e);
      }
    }

    method SaveMapLog(saveLogs: bool) returns (saved: Option<SavedLog>)
      requires Valid()
      ensures saved == if saveLogs then MapLog(Log()) else None
    {
      saved := SaveLog(EventsOf(entries), saveLogs);
      SettledIsStrict(Log());
    }
  }

  /**
   * The combat gate read off the log: a combat start passes if the last transition is a prepare, or a start
   * that came upon a prepared timer and is less than three seconds of 100 ns ticks old; all else passes always.
   */
  ghost predicate Passes(log: seq<Event>, e: Event, now: Time) {
    || !e.kind.Start? || !e.source.Combat?
    || (exists j: nat :: LastTransition(log, |log|, j) && log[j].kind.Prepare?)
    || (exists j: nat :: LastTransition(log, |log|, j) && log[j].kind.Start? && PreparedAt(log, j) && now - log[j].time < 30_000_000)
  }

  /** The gate looks at the timer; what it sees is this of the log. */
  lemma GateReads(log: seq<Event>, start: Time, e: Event, now: Time)
    requires Pruned(log) && (Run(INIT, log).status.Running? ==> start == Run(INIT, log).start)
    ensures var m := Run(INIT, log); Admits(m.status, start, m.wasPrepared, e, now) <==> Passes(log, e, now)
  {
    StatusReads(log);
    TimerReads(log);
    if j: nat :| LastTransition(log, |log|, j) {
      LastTransitionIs(log, |log|, j);
      forall i: nat | LastTransition(log, |log|, i)
        ensures i == j
      {
        LastTransitionUnique(log, |log|, i, j);
      }
      if log[j].kind.Start? {
        StartReads(log, j);
        OnlyStart(log, j);
      }
    }
  }

  /** In an open run the start that opened it is the last one. */
  lemma OnlyStart(log: seq<Event>, j: nat)
    requires LastTransition(log, |log|, j) && log[j].kind.Start?
    ensures LastStartPrepared(log) <==> PreparedAt(log, j)
  {
    assert LastOf(log, IsStart, j);
  }

  /** The set flags of the whole table go down. */
  method ClearFlags(segments: seq<TimeSegment>) returns (r: seq<TimeSegment>)
    ensures r == Unset(segments)
  {
    r := segments;
    for i := 0 to |r|
      invariant |r| == |segments|
      invariant forall k :: 0 <= k < i ==> r[k] == segments[k].(isSet := false)
      invariant forall k :: i <= k < |r| ==> r[k] == segments[k]
    {
      r := r[i := r[i].(isSet := false)];
    }
  }

  /**
   * The gate at work. Behind a prepared log with one start, a late combat start is let through exactly
   * in the first three seconds of the run; then the earlier of the two starts stays and sets the clock.
   */
  lemma LateCombatStart(log: seq<Event>, current: Event, e: Event, now: Time)
    requires Settled(log) && Run(INIT, log).status.Prepared? && e.source.Combat? && (SameKey(current, e) ==> current == e)
    requires IsNewStart(log, current) && AllBefore(log, current) && IsNewStart(log, e) && AllBefore(log, e)
    ensures var m := Run(INIT, log + [current]);
      Admits(m.status, m.start, m.wasPrepared, e, now) <==> now - current.time < 30_000_000
    ensures Run(INIT, Deliver(log + [current], e)).start == Min(current.time, e.time)
    ensures Deliver(log + [current], e) == log + [if Before(e, current) then e else current]
  {
    OneStart(log, current);
    OneStart(log, e);
    SecondStart(log, current, e);
  }
}
