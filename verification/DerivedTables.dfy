/** What the history list and the segment table say about the log they were rebuilt from. */
module DerivedTables {
  import opened Events
  import opened Evaluation
  import opened LogGrammar

  // ---------- Timer ----------

  predicate SetsStart(kind: EventType) {
    kind.Start? || kind.Prepare? || kind.Reset? || kind.MapChange?
  }

  predicate SetsStop(kind: EventType) {
    kind.Stop? || kind.Prepare? || kind.Reset? || kind.MapChange?
  }

  predicate IsStart(kind: EventType) {
    kind.Start?
  }

  /** k is the last entry of a kind in sets. */
  ghost predicate LastOf(log: seq<Event>, sets: EventType -> bool, k: nat) {
    k < |log| && sets(log[k].kind) && forall m :: k < m < |log| ==> !sets(log[m].kind)
  }

  /** t is the time of the last entry of a kind in sets, or the end of time when there is none. */
  ghost predicate TimeOfLast(log: seq<Event>, sets: EventType -> bool, t: Time) {
    || (exists k: nat :: LastOf(log, sets, k) && log[k].time == t)
    || (t == 0x7FFF_FFFF_FFFF_FFFF && forall x :: x in log ==> !sets(x.kind))
  }

  /** The last start of the log came upon a prepared timer. */
  ghost predicate LastStartPrepared(log: seq<Event>) {
    exists k: nat :: LastOf(log, IsStart, k) && PreparedAt(log, k)
  }

  lemma LastOfSnoc(init: seq<Event>, e: Event, sets: EventType -> bool)
    ensures forall k: nat :: LastOf(init + [e], sets, k) <==> if sets(e.kind) then k == |init| else LastOf(init, sets, k)
  {
    var log := init + [e];
    assert log[|init|] == e && forall m :: 0 <= m < |init| ==> log[m] == init[m];
    forall k: nat
      ensures LastOf(log, sets, k) <==> if sets(e.kind) then k == |init| else LastOf(init, sets, k)
    {
      if LastOf(log, sets, k) && k < |init| {
        assert !sets(log[|init|].kind);
      }
    }
  }

  lemma TimeOfLastSnoc(init: seq<Event>, e: Event, sets: EventType -> bool, t: Time)
    requires TimeOfLast(init, sets, t)
    ensures TimeOfLast(init + [e], sets, if sets(e.kind) then e.time else t)
  {
    LastOfSnoc(init, e, sets);
    assert (init + [e])[|init|] == e;
    if sets(e.kind) {
      assert LastOf(init + [e], sets, |init|);
    } else if k: nat :| LastOf(init, sets, k) && init[k].time == t {
      assert LastOf(init + [e], sets, k) && (init + [e])[k].time == t;
    }
  }

  lemma LastStartSnoc(init: seq<Event>, e: Event)
    ensures LastStartPrepared(init + [e]) <==> if e.kind.Start? then PreparedAt(init, |init|) else LastStartPrepared(init)
  {
    LastOfSnoc(init, e, IsStart);
    FitsExtends(init, e);
    if e.kind.Start? {
      assert LastOf(init + [e], IsStart, |init|);
    } else if k: nat :| LastOf(init, IsStart, k) && PreparedAt(init, k) {
      assert LastOf(init + [e], IsStart, k) && PreparedAt(init + [e], k);
    }
  }

  lemma StepTimer(s: Fsm, e: Event)
    requires Relevant(s, e)
    ensures Step(s, e).start == if SetsStart(e.kind) then e.time else s.start
    ensures Step(s, e).stop == if SetsStop(e.kind) then e.time else s.stop
    ensures Step(s, e).wasPrepared == if e.kind.Start? then s.status.Prepared? else s.wasPrepared
  {
  }

  /**
   * The timer read off the log: the start time is that of the last start, prepare, reset or map change, the
   * stop time that of the last stop, prepare, reset or map change, and the timer counts as prepared when the
   * last start came upon a prepared timer.
   */
  lemma {:induction false} TimerReads(log: seq<Event>)
    requires Pruned(log)
    ensures var m := Run(INIT, log);
      && TimeOfLast(log, SetsStart, m.start) && TimeOfLast(log, SetsStop, m.stop)
      && (m.wasPrepared <==> LastStartPrepared(log))
    decreases |log|
  {
    if log != [] {
      var init, e := log[..|log| - 1], log[|log| - 1];
      var s := Run(INIT, init);
      assert log == init + [e];
      PrunedPrefix(INIT, log, |init|);
      RunSnoc(INIT, init, e);
      TimerReads(init);
      StepTimer(s, e);
      assert TimeOfLast(log, SetsStart, Step(s, e).start) by { TimeOfLastSnoc(init, e, SetsStart, s.start); }
      assert TimeOfLast(log, SetsStop, Step(s, e).stop) by { TimeOfLastSnoc(init, e, SetsStop, s.stop); }
      assert Step(s, e).wasPrepared <==> LastStartPrepared(log) by {
        LastStartSnoc(init, e);
        StatusReads(init);
      }
    }
  }

  // ---------- History ----------

  /** The stop at i ends the run the start at j opened. */
  ghost predicate RunSpan(log: seq<Event>, j: nat, i: nat) {
    i < |log| && log[i].kind.Stop? && LastTransition(log, i, j) && log[j].kind.Start?
  }

  ghost predicate ClearedAfter(log: seq<Event>, i: nat) {
    exists k :: i < k < |log| && log[k].kind.HistoryClear?
  }

  /** The map the player is on at position i, by the last map change before it. */
  function MapNameAt(log: seq<Event>, i: nat): string
    requires i <= |log|
  {
    if i == 0 then "Unknown"
    else if log[i - 1].kind.MapChange? then log[i - 1].name.GetOr("Unknown")
    else MapNameAt(log, i - 1)
  }

  /** runs lists, in order, the start and stop positions of the finished runs not cleared from history. */
  ghost predicate ListsRuns(log: seq<Event>, runs: seq<(nat, nat)>) {
    && (forall j: nat, i: nat :: (j, i) in runs <==> RunSpan(log, j, i) && !ClearedAfter(log, i))
    && (forall a, b :: 0 <= a < b < |runs| ==> runs[a].1 < runs[b].0)
  }

  ghost predicate HistoryShows(log: seq<Event>, runs: seq<(nat, nat)>, history: seq<HistoryEntry>) {
    && |history| == |runs|
    && forall k :: 0 <= k < |runs| ==>
         var (j, i) := runs[k];
         j < |log| && i < |log| && history[k] == HistoryEntry(log[j].time, log[i].time, MapNameAt(log, i))
  }

  lemma {:induction false} MapNameExtends(log: seq<Event>, e: Event, i: nat)
    requires i <= |log|
    ensures MapNameAt(log + [e], i) == MapNameAt(log, i)
  {
    if i > 0 {
      assert (log + [e])[i - 1] == log[i - 1];
      MapNameExtends(log, e, i - 1);
    }
  }

  lemma {:induction false} MapNameReads(log: seq<Event>)
    requires Pruned(log)
    ensures Run(INIT, log).mapName == MapNameAt(log, |log|)
    decreases |log|
  {
    if log != [] {
      var init, e := log[..|log| - 1], log[|log| - 1];
      assert log == init + [e];
      PrunedPrefix(INIT, log, |init|);
      RunSnoc(INIT, init, e);
      MapNameReads(init);
      MapNameExtends(init, e, |init|);
    }
  }

  /** While a run is open the machine's start is the time of the entry that opened it. */
  lemma {:induction false} StartReads(log: seq<Event>, j: nat)
    requires Pruned(log) && LastTransition(log, |log|, j) && log[j].kind.Start?
    ensures Run(INIT, log).status.Running? && Run(INIT, log).start == log[j].time
    decreases |log|
  {
    var init, e := log[..|log| - 1], log[|log| - 1];
    assert log == init + [e];
    PrunedPrefix(INIT, log, |init|);
    RunSnoc(INIT, init, e);
    LastTransitionExtends(init, e);
    StatusReads(log);
    if !IsTransition(e.kind) {
      StartReads(init, j);
    }
  }

  lemma SpansExtend(init: seq<Event>, e: Event)
    ensures var log := init + [e]; forall j: nat, i: nat :: RunSpan(log, j, i) <==>
      RunSpan(init, j, i) || (i == |init| && e.kind.Stop? && LastTransition(init, |init|, j) && init[j].kind.Start?)
    ensures var log := init + [e]; forall i: nat :: i < |init| ==> (ClearedAfter(log, i) <==> ClearedAfter(init, i) || e.kind.HistoryClear?)
    ensures !ClearedAfter(init + [e], |init|)
  {
    var log := init + [e];
    LastTransitionExtends(init, e);
    assert forall k :: 0 <= k < |init| ==> log[k] == init[k];
    assert log[|init|] == e;
    forall i: nat | i < |init|
      ensures ClearedAfter(log, i) <==> ClearedAfter(init, i) || e.kind.HistoryClear?
    {
      if ClearedAfter(init, i) {
        var k :| i < k < |init| && init[k].kind.HistoryClear?;
        assert log[k].kind.HistoryClear?;
      }
    }
  }

  /**
   * History is exactly the finished runs of the log, in order, that no history_clear follows, each from
   * its start to its stop and under the name of the last map change before the stop.
   */
  lemma {:induction false} HistoryIsFinishedRuns(log: seq<Event>) returns (runs: seq<(nat, nat)>)
    requires Pruned(log)
    ensures ListsRuns(log, runs) && HistoryShows(log, runs, Run(INIT, log).history)
    decreases |log|
  {
    if log == [] {
      runs := [];
    } else {
      var init, e := log[..|log| - 1], log[|log| - 1];
      assert log == init + [e];
      PrunedPrefix(INIT, log, |init|);
      RunSnoc(INIT, init, e);
      var before := HistoryIsFinishedRuns(init);
      runs := ExtendRuns(init, e, before, Run(INIT, init));
    }
  }

  lemma ExtendRuns(init: seq<Event>, e: Event, before: seq<(nat, nat)>, s: Fsm) returns (runs: seq<(nat, nat)>)
    requires Pruned(init) && s == Run(INIT, init) && Relevant(s, e)
    requires ListsRuns(init, before) && HistoryShows(init, before, s.history)
    ensures ListsRuns(init + [e], runs) && HistoryShows(init + [e], runs, Step(s, e).history)
  {
    SpansExtend(init, e);
    StatusReads(init);
    if e.kind.HistoryClear? {
      runs := [];
    } else if e.kind.Stop? && s.status.Running? {
      var j: nat :| LastTransition(init, |init|, j) && init[j].kind.Start?;
      runs := before + [(j, |init|)];
      OpenRunIsLast(init, j, before);
      AppendedRun(init, e, j, before, runs);
      StartReads(init, j);
      MapNameReads(init);
      KeptHistory(init, e, before, s.history);
      MapNameExtends(init, e, |init|);
    } else {
      runs := before;
      UnchangedRuns(init, e, before);
      KeptHistory(init, e, before, s.history);
    }
  }

  /** An entry that ends no run and clears nothing leaves the list of runs. */
  lemma UnchangedRuns(init: seq<Event>, e: Event, runs: seq<(nat, nat)>)
    requires ListsRuns(init, runs) && !e.kind.HistoryClear? && (e.kind.Stop? ==> !OpenAt(init, |init|))
    ensures ListsRuns(init + [e], runs)
  {
    SpansExtend(init, e);
    forall j: nat, i: nat
      ensures (j, i) in runs <==> RunSpan(init + [e], j, i) && !ClearedAfter(init + [e], i)
    {
      assert RunSpan(init + [e], j, i) <==> RunSpan(init, j, i);
    }
  }

  lemma OpenRunIsLast(init: seq<Event>, j: nat, before: seq<(nat, nat)>)
    requires LastTransition(init, |init|, j) && init[j].kind.Start? && ListsRuns(init, before)
    ensures forall a :: 0 <= a < |before| ==> before[a].1 < j
  {
    forall a | 0 <= a < |before|
      ensures before[a].1 < j
    {
      assert (before[a].0, before[a].1) in before;
      assert RunSpan(init, before[a].0, before[a].1);
    }
  }

  lemma AppendedRun(init: seq<Event>, e: Event, j: nat, before: seq<(nat, nat)>, runs: seq<(nat, nat)>)
    requires LastTransition(init, |init|, j) && init[j].kind.Start? && e.kind.Stop? && ListsRuns(init, before)
    requires runs == before + [(j, |init|)] && forall a :: 0 <= a < |before| ==> before[a].1 < j
    ensures ListsRuns(init + [e], runs)
  {
    SpansExtend(init, e);
    forall k: nat, i: nat
      ensures (k, i) in runs <==> RunSpan(init + [e], k, i) && !ClearedAfter(init + [e], i)
    {
      if LastTransition(init, |init|, k) {
        LastTransitionUnique(init, |init|, j, k);
      }
      assert (k, i) in runs <==> (k, i) in before || (k == j && i == |init|);
    }
  }

  lemma KeptHistory(init: seq<Event>, e: Event, runs: seq<(nat, nat)>, history: seq<HistoryEntry>)
    requires HistoryShows(init, runs, history)
    ensures HistoryShows(init + [e], runs, history)
  {
    forall k | 0 <= k < |runs|
      ensures var (j, i) := runs[k];
        j < |init + [e]| && i < |init + [e]|
        && history[k] == HistoryEntry((init + [e])[j].time, (init + [e])[i].time, MapNameAt(init + [e], i))
    {
      MapNameExtends(init, e, runs[k].1);
    }
  }

  /** Every history entry runs forward in time, and each ends before the next begins. */
  lemma HistoryIsChronological(log: seq<Event>)
    requires Sorted(log) && Pruned(log)
    ensures var h := Run(INIT, log).history;
      && (forall k :: 0 <= k < |h| ==> h[k].start <= h[k].end)
      && (forall k :: 0 <= k < |h| - 1 ==> h[k].end <= h[k + 1].start)
  {
    var h := Run(INIT, log).history;
    var runs := HistoryIsFinishedRuns(log);
    forall k | 0 <= k < |h|
      ensures h[k].start <= h[k].end
    {
      assert (runs[k].0, runs[k].1) in runs;
      assert RunSpan(log, runs[k].0, runs[k].1);
      assert !Before(log[runs[k].1], log[runs[k].0]);
    }
    forall k | 0 <= k < |h| - 1
      ensures h[k].end <= h[k + 1].start
    {
      assert runs[k].1 < runs[k + 1].0;
      assert !Before(log[runs[k + 1].0], log[runs[k].1]);
    }
  }

  // ---------- Segment table ----------

  ghost predicate PrefixSet(table: seq<TimeSegment>) {
    forall i, j :: 0 <= i < j < |table| && table[j].isSet ==> table[i].isSet
  }

  ghost predicate SetBelow(table: seq<TimeSegment>, n: nat) {
    forall i :: 0 <= i < |table| ==> (table[i].isSet <==> i < n)
  }

  ghost predicate BestNotPositive(table: seq<TimeSegment>) {
    forall i :: 0 <= i < |table| ==> table[i].shortestTime <= 0 && table[i].shortestDuration <= 0
  }

  /** Set slots come first; in a run exactly the slots before index are set; best times never get positive. */
  ghost predicate TableOk(s: Fsm) {
    PrefixSet(s.segments) && BestNotPositive(s.segments) && (s.status.Running? ==> SetBelow(s.segments, s.index))
  }

  lemma UnsetTable(table: seq<TimeSegment>)
    requires BestNotPositive(table)
    ensures var r := Unset(table); BestNotPositive(r) && PrefixSet(r) && SetBelow(r, 0)
  {
  }

  lemma FilledTable(table: seq<TimeSegment>, n: nat, from: Time, to: Time, start: Time, stop: Time, name: string)
    requires n <= |table| && BestNotPositive(table) && SetBelow(table, n)
    ensures var room := WithRoom(table, n);
      var r, named := room[n := Fill(room[n], from, to, start, stop)], room[n := Fill(room[n], from, to, start, stop).(name := name)];
      && BestNotPositive(r) && PrefixSet(r) && SetBelow(r, n + 1)
      && BestNotPositive(named) && PrefixSet(named) && SetBelow(named, n + 1)
  {
    var room := WithRoom(table, n);
    assert forall i :: 0 <= i < |table| ==> room[i] == table[i];
  }

  lemma TableStep(s: Fsm, e: Event)
    requires TableOk(s)
    ensures TableOk(Step(s, e))
  {
    UnsetTable(s.segments);
    if s.status.Running? && e.kind.Stop? {
      FilledTable(s.segments, s.index, s.segment, e.time, s.start, e.time, "");
    } else if s.status.Running? && e.kind.Segment? {
      FilledTable(s.segments, s.index, s.segment, e.time, s.start, s.stop, e.name.GetOr(""));
    }
  }

  /** The table invariant holds after any entries at all, in any order. */
  lemma {:induction false} TableInvariant(es: seq<Event>)
    ensures TableOk(Run(INIT, es))
    decreases |es|
  {
    if es != [] {
      var init, e := es[..|es| - 1], es[|es| - 1];
      assert es == init + [e];
      TableInvariant(init);
      RunSnoc(INIT, init, e);
      TableStep(Run(INIT, init), e);
    }
  }

  /** Slots taken since the last start or segment_clear: one per segment and one for the stop that ends the run. */
  ghost function SlotsUsed(log: seq<Event>): nat
    decreases |log|
  {
    if log == [] then 0
    else
      var init := log[..|log| - 1];
      match log[|log| - 1].kind
      case Start => 0
      case SegmentClear => 0
      case Segment => SlotsUsed(init) + 1
      case Stop => SlotsUsed(init) + (if OpenAt(init, |init|) then 1 else 0)
      case _ => SlotsUsed(init)
  }

  ghost predicate NoClearFrom(log: seq<Event>, m: nat) {
    m <= |log| && forall k :: m <= k < |log| ==> !log[k].kind.SegmentClear?
  }

  ghost predicate IsLargestUse(log: seq<Event>, n: nat) {
    && (forall m: nat :: NoClearFrom(log, m) ==> SlotsUsed(log[..m]) <= n)
    && (exists m: nat :: NoClearFrom(log, m) && SlotsUsed(log[..m]) == n)
  }

  /** The table is as long as the most slots any run has used since the last segment_clear. */
  lemma {:induction false} TableLength(log: seq<Event>)
    requires Pruned(log)
    ensures IsLargestUse(log, |Run(INIT, log).segments|)
    ensures Run(INIT, log).status.Running? ==> Run(INIT, log).index == SlotsUsed(log)
    decreases |log|
  {
    if log == [] {
      assert NoClearFrom(log, 0) && log[..0] == [];
    } else {
      var init, e := log[..|log| - 1], log[|log| - 1];
      assert log == init + [e];
      var s := Run(INIT, init);
      PrunedPrefix(INIT, log, |init|);
      RunSnoc(INIT, init, e);
      TableLength(init);
      StatusReads(init);
      LargestIncludesLast(init, |s.segments|);
      TableLengthStep(init, e, s);
      LargestExtends(init, e, |s.segments|, |Step(s, e).segments|);
    }
  }

  lemma TableLengthStep(init: seq<Event>, e: Event, s: Fsm)
    requires Relevant(s, e) && (s.status.Running? <==> OpenAt(init, |init|))
    requires s.status.Running? ==> s.index == SlotsUsed(init)
    requires SlotsUsed(init) <= |s.segments|
    ensures var n, used := |Step(s, e).segments|, SlotsUsed(init + [e]);
      && (e.kind.SegmentClear? ==> n == 0 && used == 0)
      && (!e.kind.SegmentClear? ==> used <= n && |s.segments| <= n && (n == |s.segments| || n == used))
      && (Step(s, e).status.Running? ==> Step(s, e).index == used)
  {
    SlotsUsedSnoc(init, e);
  }

  lemma SlotsUsedSnoc(init: seq<Event>, e: Event)
    ensures SlotsUsed(init + [e]) ==
      match e.kind
      case Start => 0
      case SegmentClear => 0
      case Segment => SlotsUsed(init) + 1
      case Stop => SlotsUsed(init) + (if OpenAt(init, |init|) then 1 else 0)
      case _ => SlotsUsed(init)
  {
    var log := init + [e];
    assert log[..|log| - 1] == init && log[|log| - 1] == e;
  }

  lemma LargestIncludesLast(log: seq<Event>, n: nat)
    requires IsLargestUse(log, n)
    ensures SlotsUsed(log) <= n
  {
    assert NoClearFrom(log, |log|) && log[..|log|] == log;
  }

  lemma LargestExtends(init: seq<Event>, e: Event, before: nat, n: nat)
    requires IsLargestUse(init, before)
    requires if e.kind.SegmentClear? then n == 0
             else SlotsUsed(init + [e]) <= n && before <= n && (n == before || n == SlotsUsed(init + [e]))
    ensures IsLargestUse(init + [e], n)
  {
    var log := init + [e];
    assert log[..|log|] == log && NoClearFrom(log, |log|);
    assert forall m :: 0 <= m <= |init| ==> log[..m] == init[..m];
    assert log[|init|] == e && forall k :: 0 <= k < |init| ==> log[k] == init[k];
    forall m: nat | NoClearFrom(log, m)
      ensures SlotsUsed(log[..m]) <= n
    {
      if m <= |init| {
        assert NoClearFrom(init, m);
      } else {
        assert log[..m] == log;
      }
    }
    if !e.kind.SegmentClear? && n == before {
      var m: nat :| NoClearFrom(init, m) && SlotsUsed(init[..m]) == before;
      assert NoClearFrom(log, m);
    }
  }

  // ---------- Telescoping ----------

  /** A boundary of the run opened at j: its start or one of its segments. */
  predicate IsBoundary(log: seq<Event>, j: nat, k: nat) {
    j <= k < |log| && (k == j || log[k].kind.Segment?)
  }

  /** c is the last segment_clear of the run opened at j, or j itself when there is none. */
  ghost predicate IsCut(log: seq<Event>, j: nat, c: nat) {
    && j <= c < |log| && (c == j || log[c].kind.SegmentClear?)
    && forall k :: c < k < |log| ==> !log[k].kind.SegmentClear?
  }

  /** first is the last boundary up to the cut. */
  ghost predicate IsLastBoundary(log: seq<Event>, j: nat, c: nat, first: nat) {
    first <= c && IsBoundary(log, j, first) && forall k :: first < k <= c ==> !IsBoundary(log, j, k)
  }

  /** marks: the last boundary up to the cut, then every segment after it. */
  ghost predicate AreMarks(log: seq<Event>, j: nat, c: nat, marks: seq<nat>) {
    && |marks| > 0 && IsLastBoundary(log, j, c, marks[0])
    && (forall i :: 1 <= i < |marks| ==> c < marks[i] < |log| && log[marks[i]].kind.Segment?)
    && (forall k :: c < k < |log| && log[k].kind.Segment? ==> k in marks[1..])
    && (forall a, b :: 0 <= a < b < |marks| ==> marks[a] < marks[b])
  }

  /** The slots filled so far run from mark to mark, each under the name of the segment that ends it. */
  ghost predicate SlotsFollow(log: seq<Event>, marks: seq<nat>, s: Fsm) {
    && |marks| == s.index + 1
    && (forall k :: 0 <= k < |marks| ==> marks[k] < |log|)
    && s.segment == log[marks[s.index]].time
    && forall i :: 0 <= i < s.index ==>
         && s.segments[i].start == log[marks[i]].time && s.segments[i].end == log[marks[i + 1]].time
         && s.segments[i].name == log[marks[i + 1]].name.GetOr("")
  }

  lemma {:induction false} RunMarks(log: seq<Event>) returns (j: nat, c: nat, marks: seq<nat>)
    requires Pruned(log) && Run(INIT, log).status.Running?
    ensures LastTransition(log, |log|, j) && log[j].kind.Start?
    ensures IsCut(log, j, c) && AreMarks(log, j, c, marks) && SlotsFollow(log, marks, Run(INIT, log))
    decreases |log|
  {
    var init, e := log[..|log| - 1], log[|log| - 1];
    assert log == init + [e];
    PrunedPrefix(INIT, log, |init|);
    RunSnoc(INIT, init, e);
    LastTransitionExtends(init, e);
    StepStatus(Run(INIT, init), e);
    if e.kind.Start? {
      j, c, marks := |init|, |init|, [|init|];
    } else {
      j, c, marks := RunMarks(init);
      var c', marks' := ExtendMarks(init, e, j, c, marks, Run(INIT, init));
      c, marks := c', marks';
    }
  }

  lemma ExtendMarks(init: seq<Event>, e: Event, j: nat, c: nat, marks: seq<nat>, s: Fsm) returns (c': nat, marks': seq<nat>)
    requires e.kind.Segment? || e.kind.SegmentClear? || e.kind.HistoryClear?
    requires Relevant(s, e) && s.status.Running?
    requires IsCut(init, j, c) && AreMarks(init, j, c, marks) && SlotsFollow(init, marks, s)
    ensures IsCut(init + [e], j, c') && AreMarks(init + [e], j, c', marks') && SlotsFollow(init + [e], marks', Step(s, e))
  {
    c', marks' := c, marks;
    if e.kind.Segment? {
      marks' := marks + [|init|];
      MarkSegment(init, e, j, c, marks);
      SlotSegment(init, e, marks, s);
    } else if e.kind.SegmentClear? {
      c', marks' := |init|, [marks[|marks| - 1]];
      MarkClear(init, e, j, c, marks);
    } else {
      MarkNothing(init, e, j, c, marks);
    }
  }

  lemma MarkNothing(init: seq<Event>, e: Event, j: nat, c: nat, marks: seq<nat>)
    requires e.kind.HistoryClear? && IsCut(init, j, c) && AreMarks(init, j, c, marks)
    ensures IsCut(init + [e], j, c) && AreMarks(init + [e], j, c, marks)
  {
    BoundariesCarryOver(init, e, j);
  }

  lemma BoundariesCarryOver(init: seq<Event>, e: Event, j: nat)
    ensures forall k: nat :: k < |init| ==> (IsBoundary(init + [e], j, k) <==> IsBoundary(init, j, k))
  {
  }

  lemma MarkSegment(init: seq<Event>, e: Event, j: nat, c: nat, marks: seq<nat>)
    requires e.kind.Segment? && IsCut(init, j, c) && AreMarks(init, j, c, marks)
    ensures IsCut(init + [e], j, c) && AreMarks(init + [e], j, c, marks + [|init|])
  {
    BoundariesCarryOver(init, e, j);
    assert (marks + [|init|])[1..] == marks[1..] + [|init|];
    assert forall i :: 1 <= i < |marks| ==> marks[i] < |init|;
  }

  lemma SlotSegment(init: seq<Event>, e: Event, marks: seq<nat>, s: Fsm)
    requires e.kind.Segment? && Relevant(s, e) && SlotsFollow(init, marks, s)
    ensures SlotsFollow(init + [e], marks + [|init|], Step(s, e))
  {
    assert forall k :: 0 <= k < |marks| ==> (init + [e])[marks[k]] == init[marks[k]];
  }

  lemma MarkClear(init: seq<Event>, e: Event, j: nat, c: nat, marks: seq<nat>)
    requires e.kind.SegmentClear? && IsCut(init, j, c) && AreMarks(init, j, c, marks)
    ensures IsCut(init + [e], j, |init|) && AreMarks(init + [e], j, |init|, [marks[|marks| - 1]])
  {
    var log, last := init + [e], marks[|marks| - 1];
    forall k | last < k <= |init|
      ensures !IsBoundary(log, j, k)
    {
      if k < |init| {
        BoundariesAreMarked(init, j, c, marks, k);
      }
    }
  }

  lemma BoundariesAreMarked(log: seq<Event>, j: nat, c: nat, marks: seq<nat>, k: nat)
    requires IsCut(log, j, c) && AreMarks(log, j, c, marks) && marks[|marks| - 1] < k < |log|
    ensures !IsBoundary(log, j, k)
  {
    assert marks[0] < k;
    assert forall a :: 0 <= a < |marks[1..]| ==> marks[1..][a] == marks[a + 1] <= marks[|marks| - 1];
  }

  function SumDurations(segments: seq<TimeSegment>, n: nat): int
    requires n <= |segments|
  {
    if n == 0 then 0 else SumDurations(segments, n - 1) + segments[n - 1].end - segments[n - 1].start
  }

  lemma {:induction false} DurationsTelescope(segments: seq<TimeSegment>, n: nat)
    requires 0 < n <= |segments|
    requires forall i :: 0 <= i < n - 1 ==> segments[i].end == segments[i + 1].start
    ensures SumDurations(segments, n) == segments[n - 1].end - segments[0].start
  {
    if n > 1 {
      DurationsTelescope(segments, n - 1);
    }
  }

  ghost predicate Chain(segments: seq<TimeSegment>, n: nat, from: Time, to: Time) {
    && 0 < n <= |segments|
    && (forall i :: 0 <= i < |segments| ==> (segments[i].isSet <==> i < n))
    && segments[0].start == from && segments[n - 1].end == to
    && (forall i :: 0 <= i < n - 1 ==> segments[i].end == segments[i + 1].start)
  }

  /** The stop takes the slot behind the ones the marks account for. */
  lemma StopClosesChain(log: seq<Event>, marks: seq<nat>, s: Fsm, stop: Event)
    requires s.status.Running? && TableOk(s) && marks != [] && SlotsFollow(log, marks, s)
    requires stop.kind.Stop? && stop.uuid !in s.seen
    ensures var t := Step(s, stop); Chain(t.segments, t.index, log[marks[0]].time, stop.time)
  {
    FilledTable(s.segments, s.index, s.segment, stop.time, s.start, stop.time, "");
  }

  /** An open run has one start, one cut and one last boundary up to it. */
  lemma RunIsUnique(log: seq<Event>, j: nat, c: nat, first: nat, j': nat, c': nat, first': nat)
    requires LastTransition(log, |log|, j) && LastTransition(log, |log|, j')
    requires IsCut(log, j, c) && IsCut(log, j', c')
    requires IsLastBoundary(log, j, c, first) && IsLastBoundary(log, j', c', first')
    ensures j == j' && c == c' && first == first'
  {
    LastTransitionUnique(log, |log|, j, j');
  }

  /**
   * A stop that ends the run opened at j leaves a gapless chain of set slots ending at the stop. The chain
   * begins at the run's last boundary up to its last segment_clear, and without one at the run's start, so
   * that the slots then add up to the history entry.
   */
  lemma {:induction false} SegmentsTelescope(log: seq<Event>, stop: Event, j: nat, c: nat, first: nat)
    requires Pruned(log) && LastTransition(log, |log|, j) && log[j].kind.Start?
    requires IsCut(log, j, c) && IsLastBoundary(log, j, c, first)
    requires stop.kind.Stop? && stop.uuid !in Uuids(log)
    ensures var t := Run(INIT, log + [stop]);
      && Chain(t.segments, t.index, log[first].time, stop.time)
      && SumDurations(t.segments, t.index) == stop.time - log[first].time
      && t.history == Run(INIT, log).history + [HistoryEntry(log[j].time, stop.time, MapNameAt(log, |log|))]
      && (c == j ==> SumDurations(t.segments, t.index) == stop.time - log[j].time)
  {
    StartReads(log, j);
    var j', c', marks := RunMarks(log);
    RunIsUnique(log, j, c, first, j', c', marks[0]);
    SeenIsSurvivors(INIT, log);
    RunSnoc(INIT, log, stop);
    MapNameReads(log);
    TableInvariant(log);
    StopClosesChain(log, marks, Run(INIT, log), stop);
    var t := Run(INIT, log + [stop]);
    DurationsTelescope(t.segments, t.index);
  }
}
