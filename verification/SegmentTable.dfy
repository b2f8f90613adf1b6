/** The segment table, slot by slot, read off the log and not off the machine. */
module SegmentTables {
  import opened Events
  import opened Evaluation
  import opened LogGrammar
  import opened DerivedTables

  // ---------- Which slots are set ----------

  /** Slots taken since the last start, reset or segment_clear: one per segment and one per stop that ends a run. */
  ghost function SlotsTaken(log: seq<Event>): nat
    decreases |log|
  {
    if log == [] then 0
    else
      var init := log[..|log| - 1];
      match log[|log| - 1].kind
      case Start => 0
      case Reset => 0
      case SegmentClear => 0
      case Segment => SlotsTaken(init) + 1
      case Stop => SlotsTaken(init) + (if OpenAt(init, |init|) then 1 else 0)
      case _ => SlotsTaken(init)
  }

  lemma SlotsTakenSnoc(init: seq<Event>, e: Event)
    ensures SlotsTaken(init + [e]) ==
      match e.kind
      case Start => 0
      case Reset => 0
      case SegmentClear => 0
      case Segment => SlotsTaken(init) + 1
      case Stop => SlotsTaken(init) + (if OpenAt(init, |init|) then 1 else 0)
      case _ => SlotsTaken(init)
  {
    var log := init + [e];
    assert log[..|log| - 1] == init && log[|log| - 1] == e;
  }

  lemma FlagsStep(s: Fsm, e: Event, taken: nat)
    requires Relevant(s, e) && SetBelow(s.segments, taken) && (s.status.Running? ==> s.index == taken)
    requires BestNotPositive(s.segments)
    ensures var t := Step(s, e);
      var now := match e.kind
        case Start => 0
        case Reset => 0
        case SegmentClear => 0
        case Segment => taken + 1
        case Stop => taken + (if s.status.Running? then 1 else 0)
        case _ => taken;
      SetBelow(t.segments, now) && (t.status.Running? ==> t.index == now)
  {
    UnsetTable(s.segments);
    if s.status.Running? && e.kind.Stop? {
      FilledTable(s.segments, s.index, s.segment, e.time, s.start, e.time, "");
    } else if s.status.Running? && e.kind.Segment? {
      FilledTable(s.segments, s.index, s.segment, e.time, s.start, s.stop, e.name.GetOr(""));
    }
  }

  /** Whatever the timer is doing, exactly the slots taken since the last start, reset or segment_clear are set. */
  lemma {:induction false} FlagsRead(log: seq<Event>)
    requires Pruned(log)
    ensures var m := Run(INIT, log);
      && (forall i :: 0 <= i < |m.segments| ==> (m.segments[i].isSet <==> i < SlotsTaken(log)))
      && (m.status.Running? ==> m.index == SlotsTaken(log))
    decreases |log|
  {
    if log != [] {
      var init, e := log[..|log| - 1], log[|log| - 1];
      assert log == init + [e];
      PrunedPrefix(INIT, log, |init|);
      RunSnoc(INIT, init, e);
      FlagsRead(init);
      StatusReads(init);
      SlotsTakenSnoc(init, e);
      TableInvariant(init);
      FlagsStep(Run(INIT, init), e, SlotsTaken(init));
    }
  }

  // ---------- What the slots hold ----------

  /** A span is cut to whole milliseconds, 10000 ticks, toward zero. */
  lemma SpansAreCut(d: int)
    ensures TruncMs(d) % 10_000 == 0
    ensures d >= 0 ==> TruncMs(d) <= d < TruncMs(d) + 10_000 && TruncMs(d) >= 0
    ensures d <= 0 ==> TruncMs(d) - 10_000 < d <= TruncMs(d) && TruncMs(d) <= 0
  {
  }

  /** The time of the last entry of a kind in sets, the end of time without any. */
  ghost function LastTime(log: seq<Event>, sets: EventType -> bool): Time
    decreases |log|
  {
    if log == [] then 0x7FFF_FFFF_FFFF_FFFF
    else if sets(log[|log| - 1].kind) then log[|log| - 1].time
    else LastTime(log[..|log| - 1], sets)
  }

  lemma LastTimeSnoc(init: seq<Event>, e: Event, sets: EventType -> bool)
    ensures LastTime(init + [e], sets) == if sets(e.kind) then e.time else LastTime(init, sets)
  {
    assert (init + [e])[..|init|] == init;
  }

  predicate StartsSegment(kind: EventType) {
    kind.Start? || kind.Segment?
  }

  /** Entry k fills slot i of the table as it is now: a segment or a stop that ends a run, behind i others of its run. */
  ghost predicate FillsSlot(log: seq<Event>, k: nat, i: nat) {
    && k < |log| && (log[k].kind.Segment? || (log[k].kind.Stop? && OpenAt(log, k)))
    && SlotsUsed(log[..k]) == i
    && forall m :: k < m < |log| ==> !log[m].kind.SegmentClear?
  }

  /** What entry k measures to: its own time for a stop, the stop before it for a segment. */
  ghost function MeasuredTo(log: seq<Event>, k: nat): Time
    requires k < |log|
  {
    if log[k].kind.Stop? then log[k].time else LastTime(log[..k], SetsStop)
  }

  ghost function TotalAt(log: seq<Event>, k: nat): int
    requires k < |log|
  {
    TruncMs(MeasuredTo(log, k) - LastTime(log[..k], IsStart))
  }

  ghost function PartAt(log: seq<Event>, k: nat): int
    requires k < |log|
  {
    TruncMs(MeasuredTo(log, k) - LastTime(log[..k], StartsSegment))
  }

  /** A slot runs from the boundary before the entry that filled it last to that entry. */
  ghost predicate SlotTimes(log: seq<Event>, i: nat, slot: TimeSegment) {
    exists k: nat ::
      && FillsSlot(log, k, i) && (forall m :: k < m < |log| ==> !FillsSlot(log, m, i))
      && slot.start == LastTime(log[..k], StartsSegment) && slot.end == log[k].time
  }

  ghost predicate NamesSlot(log: seq<Event>, k: nat, i: nat) {
    FillsSlot(log, k, i) && log[k].kind.Segment?
  }

  ghost predicate NamedBy(log: seq<Event>, k: nat, i: nat, name: string) {
    && NamesSlot(log, k, i) && (forall m :: k < m < |log| ==> !NamesSlot(log, m, i))
    && name == log[k].name.GetOr("")
  }

  /** A slot is named by the last segment that filled it; a stop that fills it leaves the name. */
  ghost predicate SlotName(log: seq<Event>, i: nat, slot: TimeSegment) {
    || (exists k: nat :: NamedBy(log, k, i, slot.name))
    || (slot.name == "" && forall k: nat :: !NamesSlot(log, k, i))
  }

  /** The least of zero and what the entries that filled the slot measured. */
  ghost predicate SlotBest(log: seq<Event>, i: nat, slot: TimeSegment) {
    && slot.shortestTime <= 0 && slot.shortestDuration <= 0
    && (forall k: nat :: FillsSlot(log, k, i) ==> slot.shortestTime <= TotalAt(log, k) && slot.shortestDuration <= PartAt(log, k))
    && (slot.shortestTime == 0 || exists k: nat :: FillsSlot(log, k, i) && slot.shortestTime == TotalAt(log, k))
    && (slot.shortestDuration == 0 || exists k: nat :: FillsSlot(log, k, i) && slot.shortestDuration == PartAt(log, k))
  }

  ghost predicate SlotReads(log: seq<Event>, i: nat, slot: TimeSegment) {
    SlotTimes(log, i, slot) && SlotName(log, i, slot) && SlotBest(log, i, slot)
  }

  /** The slots of the table are those that entries of the log fill, with what these left there. */
  ghost predicate SlotsRead(log: seq<Event>, segments: seq<TimeSegment>) {
    && (forall i: nat :: i < |segments| ==> SlotReads(log, i, segments[i]))
    && (forall k: nat, i: nat :: FillsSlot(log, k, i) ==> i < |segments|)
  }

  /** One more entry leaves who fills what, unless it clears the table; it fills the next slot if it fills any. */
  lemma FillsSnoc(init: seq<Event>, e: Event)
    ensures forall k: nat, i: nat :: k < |init| ==>
      (FillsSlot(init + [e], k, i) <==> FillsSlot(init, k, i) && !e.kind.SegmentClear?)
    ensures forall i: nat :: FillsSlot(init + [e], |init|, i) <==>
      SlotsUsed(init) == i && (e.kind.Segment? || (e.kind.Stop? && OpenAt(init, |init|)))
  {
    var log := init + [e];
    FitsExtends(init, e);
    assert log[|init|] == e && forall k :: 0 <= k < |init| ==> log[k] == init[k];
    assert forall k :: 0 <= k <= |init| ==> log[..k] == init[..k];
    assert init[..|init|] == init;
  }

  lemma MeasuresStay(init: seq<Event>, e: Event, k: nat)
    requires k < |init|
    ensures (init + [e])[k] == init[k] && (init + [e])[..k] == init[..k]
    ensures TotalAt(init + [e], k) == TotalAt(init, k) && PartAt(init + [e], k) == PartAt(init, k)
  {
  }

  lemma TimesStay(init: seq<Event>, e: Event, i: nat, slot: TimeSegment)
    requires SlotTimes(init, i, slot) && !e.kind.SegmentClear? && !FillsSlot(init + [e], |init|, i)
    ensures SlotTimes(init + [e], i, slot)
  {
    FillsSnoc(init, e);
    var k: nat :| FillsSlot(init, k, i) && (forall m :: k < m < |init| ==> !FillsSlot(init, m, i))
      && slot.start == LastTime(init[..k], StartsSegment) && slot.end == init[k].time;
    MeasuresStay(init, e, k);
    assert FillsSlot(init + [e], k, i);
  }

  lemma NamesSnoc(init: seq<Event>, e: Event)
    ensures forall k: nat, i: nat :: k < |init| ==>
      (NamesSlot(init + [e], k, i) <==> NamesSlot(init, k, i) && !e.kind.SegmentClear?)
    ensures forall i: nat :: NamesSlot(init + [e], |init|, i) <==> SlotsUsed(init) == i && e.kind.Segment?
  {
    FillsSnoc(init, e);
    assert (init + [e])[|init|] == e && forall k :: 0 <= k < |init| ==> (init + [e])[k] == init[k];
  }

  lemma NameStays(init: seq<Event>, e: Event, i: nat, slot: TimeSegment)
    requires SlotName(init, i, slot) && !e.kind.SegmentClear? && !NamesSlot(init + [e], |init|, i)
    ensures SlotName(init + [e], i, slot)
  {
    NamesSnoc(init, e);
    if k: nat :| NamedBy(init, k, i, slot.name) {
      MeasuresStay(init, e, k);
      assert NamedBy(init + [e], k, i, slot.name);
    }
  }

  lemma BestStays(init: seq<Event>, e: Event, i: nat, slot: TimeSegment)
    requires SlotBest(init, i, slot) && !e.kind.SegmentClear? && !FillsSlot(init + [e], |init|, i)
    ensures SlotBest(init + [e], i, slot)
  {
    BestGrows(init, e, i, slot, slot);
  }

  /** Best times after one more entry: as they were, or the less of that and what the entry measured. */
  lemma BestGrows(init: seq<Event>, e: Event, i: nat, slot: TimeSegment, after: TimeSegment)
    requires SlotBest(init, i, slot) && !e.kind.SegmentClear?
    requires var log := init + [e];
      if FillsSlot(log, |init|, i) then
        && after.shortestTime == Min(slot.shortestTime, TotalAt(log, |init|))
        && after.shortestDuration == Min(slot.shortestDuration, PartAt(log, |init|))
      else
        after == slot
    ensures SlotBest(init + [e], i, after)
  {
    var log := init + [e];
    FillsSnoc(init, e);
    forall k: nat | FillsSlot(log, k, i)
      ensures after.shortestTime <= TotalAt(log, k) && after.shortestDuration <= PartAt(log, k)
    {
      if k < |init| {
        MeasuresStay(init, e, k);
      }
    }
    if k: nat :| FillsSlot(init, k, i) && slot.shortestTime == TotalAt(init, k) {
      MeasuresStay(init, e, k);
      assert FillsSlot(log, k, i);
    }
    if k: nat :| FillsSlot(init, k, i) && slot.shortestDuration == PartAt(init, k) {
      MeasuresStay(init, e, k);
      assert FillsSlot(log, k, i);
    }
  }

  lemma SlotStays(init: seq<Event>, e: Event, i: nat, slot: TimeSegment, after: TimeSegment)
    requires SlotReads(init, i, slot) && !e.kind.SegmentClear? && !FillsSlot(init + [e], |init|, i)
    requires after == slot.(isSet := after.isSet)
    ensures SlotReads(init + [e], i, after)
  {
    TimesStay(init, e, i, slot);
    NameStays(init, e, i, slot);
    BestStays(init, e, i, slot);
    assert SlotTimes(init + [e], i, after);
    assert SlotName(init + [e], i, after);
    assert SlotBest(init + [e], i, after);
  }

  /** The slot an entry fills, from what stood in it or from a blank one. */
  lemma SlotFilled(init: seq<Event>, e: Event, i: nat, slot: TimeSegment, after: TimeSegment)
    requires FillsSlot(init + [e], |init|, i) && SlotName(init, i, slot) && SlotBest(init, i, slot)
    requires after.start == LastTime(init, StartsSegment) && after.end == e.time
    requires after.name == if e.kind.Segment? then e.name.GetOr("") else slot.name
    requires after.shortestTime == Min(slot.shortestTime, TotalAt(init + [e], |init|))
    requires after.shortestDuration == Min(slot.shortestDuration, PartAt(init + [e], |init|))
    ensures SlotReads(init + [e], i, after)
  {
    var log := init + [e];
    assert log[..|init|] == init && log[|init|] == e;
    FillsSnoc(init, e);
    NamesSnoc(init, e);
    BestGrows(init, e, i, slot, after);
    assert SlotTimes(log, i, after);
    if e.kind.Segment? {
      assert NamedBy(log, |init|, i, after.name);
    } else {
      NameStays(init, e, i, slot);
      assert SlotName(log, i, slot);
    }
  }

  lemma BlankReads(log: seq<Event>, i: nat)
    requires forall k: nat :: !FillsSlot(log, k, i)
    ensures SlotName(log, i, BLANK_SEGMENT) && SlotBest(log, i, BLANK_SEGMENT)
  {
  }

  /** What the machine measures with, read off the log. */
  ghost predicate ClockReads(log: seq<Event>, s: Fsm) {
    && s.stop == LastTime(log, SetsStop)
    && (s.status.Running? ==>
          s.start == LastTime(log, IsStart) && s.segment == LastTime(log, StartsSegment) && s.index == SlotsUsed(log))
  }

  lemma ClockStep(init: seq<Event>, e: Event, s: Fsm)
    requires Relevant(s, e) && ClockReads(init, s)
    ensures var t, log := Step(s, e), init + [e];
      && t.stop == LastTime(log, SetsStop)
      && (t.status.Running? ==> t.start == LastTime(log, IsStart) && t.segment == LastTime(log, StartsSegment))
  {
    LastTimeSnoc(init, e, SetsStop);
    LastTimeSnoc(init, e, IsStart);
    LastTimeSnoc(init, e, StartsSegment);
  }

  lemma {:induction false} ClockIsRead(log: seq<Event>)
    requires Pruned(log)
    ensures ClockReads(log, Run(INIT, log))
    decreases |log|
  {
    TableLength(log);
    if log != [] {
      var init, e := log[..|log| - 1], log[|log| - 1];
      assert log == init + [e];
      PrunedPrefix(INIT, log, |init|);
      RunSnoc(INIT, init, e);
      ClockIsRead(init);
      ClockStep(init, e, Run(INIT, init));
    }
  }

  lemma SlotsKept(init: seq<Event>, e: Event, before: seq<TimeSegment>, after: seq<TimeSegment>)
    requires SlotsRead(init, before) && !e.kind.SegmentClear?
    requires !e.kind.Segment? && !(e.kind.Stop? && OpenAt(init, |init|))
    requires after == before || after == Unset(before)
    ensures SlotsRead(init + [e], after)
  {
    FillsSnoc(init, e);
    forall i: nat | i < |after|
      ensures SlotReads(init + [e], i, after[i])
    {
      SlotStays(init, e, i, before[i], after[i]);
    }
    forall k: nat, i: nat | FillsSlot(init + [e], k, i)
      ensures i < |after|
    {
      assert FillsSlot(init, k, i);
    }
  }

  /** after is before with the slot the next entry takes filled by it. */
  ghost predicate TakesSlot(init: seq<Event>, e: Event, before: seq<TimeSegment>, after: seq<TimeSegment>) {
    var n := SlotsUsed(init);
    && n <= |before|
    && var room := WithRoom(before, n);
       && |after| == |room| && (forall i :: 0 <= i < |room| && i != n ==> after[i] == room[i])
       && after[n].start == LastTime(init, StartsSegment) && after[n].end == e.time
       && after[n].name == (if e.kind.Segment? then e.name.GetOr("") else room[n].name)
       && after[n].shortestTime == Min(room[n].shortestTime, TotalAt(init + [e], |init|))
       && after[n].shortestDuration == Min(room[n].shortestDuration, PartAt(init + [e], |init|))
  }

  lemma SlotsTake(init: seq<Event>, e: Event, before: seq<TimeSegment>, after: seq<TimeSegment>)
    requires SlotsRead(init, before) && TakesSlot(init, e, before, after)
    requires e.kind.Segment? || (e.kind.Stop? && OpenAt(init, |init|))
    ensures SlotsRead(init + [e], after)
  {
    var n := SlotsUsed(init);
    var room := WithRoom(before, n);
    FillsSnoc(init, e);
    forall i: nat | i < |after|
      ensures SlotReads(init + [e], i, after[i])
    {
      if i != n {
        SlotStays(init, e, i, before[i], after[i]);
      } else {
        if n == |before| {
          BlankReads(init, n);
        }
        SlotFilled(init, e, n, room[n], after[n]);
      }
    }
    forall k: nat, i: nat | FillsSlot(init + [e], k, i)
      ensures i < |after|
    {
      assert k < |init| ==> FillsSlot(init, k, i);
    }
  }

  lemma StepTakes(init: seq<Event>, e: Event, s: Fsm)
    requires Relevant(s, e) && ClockReads(init, s)
    requires s.status.Running? && (e.kind.Segment? || e.kind.Stop?)
    ensures TakesSlot(init, e, s.segments, Step(s, e).segments)
  {
    var log := init + [e];
    assert log[|init|] == e && log[..|init|] == init;
  }

  /** The table read slot by slot: times, name and best times are those the log's entries left in it. */
  lemma {:induction false} SlotsAreRead(log: seq<Event>)
    requires Pruned(log)
    ensures SlotsRead(log, Run(INIT, log).segments)
    decreases |log|
  {
    if log != [] {
      var init, e := log[..|log| - 1], log[|log| - 1];
      var s := Run(INIT, init);
      assert log == init + [e];
      PrunedPrefix(INIT, log, |init|);
      RunSnoc(INIT, init, e);
      SlotsAreRead(init);
      ClockIsRead(init);
      StatusReads(init);
      if e.kind.SegmentClear? {
        FillsSnoc(init, e);
      } else if s.status.Running? && (e.kind.Segment? || e.kind.Stop?) {
        StepTakes(init, e, s);
        SlotsTake(init, e, s.segments, Step(s, e).segments);
      } else {
        SlotsKept(init, e, s.segments, Step(s, e).segments);
      }
    }
  }

  // ---------- All that is shown ----------

  /** The timer as the log has it right after an evaluation. */
  ghost predicate TimerShows(log: seq<Event>, status: TimerStatus, start: Time, stop: Time, wasPrepared: bool) {
    && status == StatusAt(log)
    && TimeOfLast(log, SetsStart, start) && TimeOfLast(log, SetsStop, stop)
    && (wasPrepared <==> LastStartPrepared(log))
  }

  ghost predicate HistoryReads(log: seq<Event>, history: seq<HistoryEntry>) {
    exists runs :: ListsRuns(log, runs) && HistoryShows(log, runs, history)
  }

  ghost predicate TableReads(log: seq<Event>, segments: seq<TimeSegment>) {
    && IsLargestUse(log, |segments|) && SlotsRead(log, segments)
    && forall i :: 0 <= i < |segments| ==> (segments[i].isSet <==> i < SlotsTaken(log))
  }

  /** Timer, history and segment table of a pruned log, all read off its entries. */
  lemma MachineReads(log: seq<Event>)
    requires Pruned(log)
    ensures var m := Run(INIT, log);
      && TimerShows(log, m.status, m.start, m.stop, m.wasPrepared)
      && HistoryReads(log, m.history) && TableReads(log, m.segments)
  {
    StatusReads(log);
    TimerReads(log);
    var runs := HistoryIsFinishedRuns(log);
    TableLength(log);
    SlotsAreRead(log);
    FlagsRead(log);
  }
}
