/** Which logs evaluation leaves alone, read off the entries and not off the machine. */
module LogGrammar {
  import opened Events
  import opened Evaluation

  predicate IsTransition(kind: EventType) {
    kind.Start? || kind.Stop? || kind.Reset? || kind.MapChange? || kind.Prepare?
  }

  /** j is the last entry before position i that moves the timer. */
  ghost predicate LastTransition(log: seq<Event>, i: nat, j: nat) {
    j < i <= |log| && IsTransition(log[j].kind) && forall k :: j < k < i ==> !IsTransition(log[k].kind)
  }

  /** A run is open at position i. */
  ghost predicate OpenAt(log: seq<Event>, i: nat) {
    exists j: nat :: LastTransition(log, i, j) && log[j].kind.Start?
  }

  ghost predicate PreparedAt(log: seq<Event>, i: nat) {
    exists j: nat :: LastTransition(log, i, j) && log[j].kind.Prepare?
  }

  /** Entry i has its place: segments in open runs, starts outside them, stops after a start or prepare. */
  ghost predicate FitsAt(log: seq<Event>, i: nat)
    requires i < |log|
  {
    match log[i].kind
    case NoEvent => false
    case Segment => OpenAt(log, i)
    case Start => !OpenAt(log, i)
    case Stop => OpenAt(log, i) || PreparedAt(log, i)
    case Prepare => !OpenAt(log, i) && !PreparedAt(log, i)
    case _ => true
  }

  ghost predicate WellFormed(log: seq<Event>) {
    DistinctUuids(log) && forall i: nat :: i < |log| ==> FitsAt(log, i)
  }

  lemma LastTransitionStays(log: seq<Event>, e: Event, i: nat, j: nat)
    requires i <= |log|
    ensures LastTransition(log + [e], i, j) <==> LastTransition(log, i, j)
  {
    assert forall k :: 0 <= k < |log| ==> (log + [e])[k] == log[k];
  }

  lemma LastTransitionSnoc(log: seq<Event>, e: Event, j: nat)
    ensures LastTransition(log + [e], |log| + 1, j)
       <==> if IsTransition(e.kind) then j == |log| else LastTransition(log, |log|, j)
  {
    var all := log + [e];
    assert all[|log|] == e && forall k :: 0 <= k < |log| ==> all[k] == log[k];
    if LastTransition(all, |log| + 1, j) && j < |log| {
      assert !IsTransition(all[|log|].kind);
    }
  }

  lemma {:induction false} LastTransitionExtends(log: seq<Event>, e: Event)
    ensures forall i: nat, j: nat :: i <= |log| ==> (LastTransition(log + [e], i, j) <==> LastTransition(log, i, j))
    ensures forall j: nat :: LastTransition(log + [e], |log| + 1, j)
                   <==> if IsTransition(e.kind) then j == |log| else LastTransition(log, |log|, j)
  {
    forall i: nat, j: nat | i <= |log|
      ensures LastTransition(log + [e], i, j) <==> LastTransition(log, i, j)
    {
      LastTransitionStays(log, e, i, j);
    }
    forall j: nat
      ensures LastTransition(log + [e], |log| + 1, j)
         <==> if IsTransition(e.kind) then j == |log| else LastTransition(log, |log|, j)
    {
      LastTransitionSnoc(log, e, j);
    }
  }

  lemma FitsExtends(log: seq<Event>, e: Event)
    ensures forall i: nat :: i < |log| ==> (FitsAt(log + [e], i) <==> FitsAt(log, i))
    ensures forall i: nat :: i <= |log| ==> (OpenAt(log + [e], i) <==> OpenAt(log, i))
    ensures forall i: nat :: i <= |log| ==> (PreparedAt(log + [e], i) <==> PreparedAt(log, i))
  {
    LastTransitionExtends(log, e);
    assert forall k :: 0 <= k < |log| ==> (log + [e])[k] == log[k];
    forall i: nat | i <= |log|
      ensures OpenAt(log + [e], i) <==> OpenAt(log, i)
      ensures PreparedAt(log + [e], i) <==> PreparedAt(log, i)
    {
      if j: nat :| LastTransition(log, i, j) {
        LastTransitionIs(log, i, j);
        LastTransitionIs(log + [e], i, j);
      }
    }
  }

  lemma LastTransitionUnique(log: seq<Event>, i: nat, j: nat, k: nat)
    requires LastTransition(log, i, j) && LastTransition(log, i, k)
    ensures j == k
  {
  }

  /** At most one entry is the last transition, and it settles what is open. */
  lemma LastTransitionIs(log: seq<Event>, i: nat, j: nat)
    requires LastTransition(log, i, j)
    ensures OpenAt(log, i) <==> log[j].kind.Start?
    ensures PreparedAt(log, i) <==> log[j].kind.Prepare?
  {
    forall k: nat | LastTransition(log, i, k)
      ensures k == j
    {
      LastTransitionUnique(log, i, j, k);
    }
  }

  /** What the last transition of the log says the timer is doing. */
  ghost function StatusAt(log: seq<Event>): TimerStatus {
    if OpenAt(log, |log|) then Running else if PreparedAt(log, |log|) then Prepared else Stopped
  }

  /** The machine's status is what the last transition of a pruned log says. */
  lemma {:induction false} StatusReads(log: seq<Event>)
    requires Pruned(log)
    ensures Run(INIT, log).status == StatusAt(log)
    decreases |log|
  {
    if log != [] {
      var init, e := log[..|log| - 1], log[|log| - 1];
      assert log == init + [e];
      PrunedPrefix(INIT, log, |init|);
      RunSnoc(INIT, init, e);
      StepStatus(Run(INIT, init), e);
      StatusReads(init);
      ReadsStep(init, e, Run(INIT, init).status);
    }
  }

  lemma ReadsStep(init: seq<Event>, e: Event, status: TimerStatus)
    requires status == StatusAt(init)
    ensures StatusAt(init + [e]) == NextStatus(status, e.kind)
    ensures FitsAt(init + [e], |init|) <==> Accepts(status, e.kind)
  {
    LastTransitionExtends(init, e);
    FitsExtends(init, e);
    assert (init + [e])[|init|] == e;
    if OpenAt(init, |init|) {
      var j: nat :| LastTransition(init, |init|, j) && init[j].kind.Start?;
      LastTransitionIs(init, |init|, j);
    }
    if IsTransition(e.kind) {
      LastTransitionIs(init + [e], |init| + 1, |init|);
    } else {
      OpenCarriesOver(init, e);
    }
  }

  lemma OpenCarriesOver(init: seq<Event>, e: Event)
    requires !IsTransition(e.kind)
    ensures OpenAt(init + [e], |init| + 1) <==> OpenAt(init, |init|)
    ensures PreparedAt(init + [e], |init| + 1) <==> PreparedAt(init, |init|)
  {
    LastTransitionExtends(init, e);
    var log := init + [e];
    if OpenAt(init, |init|) {
      var j: nat :| LastTransition(init, |init|, j) && init[j].kind.Start?;
      assert LastTransition(log, |log|, j) && log[j].kind.Start?;
    }
    if PreparedAt(init, |init|) {
      var j: nat :| LastTransition(init, |init|, j) && init[j].kind.Prepare?;
      assert LastTransition(log, |log|, j) && log[j].kind.Prepare?;
    }
  }

  lemma PrunedSnoc(init: seq<Event>, e: Event)
    ensures Pruned(init + [e]) <==> Pruned(init) && Relevant(Run(INIT, init), e)
  {
    RunSnoc(INIT, init, e);
    KeptMembers(INIT, init);
    if Pruned(init + [e]) {
      PrunedPrefix(INIT, init + [e], |init|);
      assert (init + [e])[..|init|] == init;
    }
  }

  lemma WellFormedSnoc(init: seq<Event>, e: Event)
    ensures WellFormed(init + [e]) <==> WellFormed(init) && FitsAt(init + [e], |init|) && e.uuid !in Uuids(init)
  {
    FitsExtends(init, e);
    DistinctSnoc(init, e);
  }

  /** Evaluation keeps a whole log if and only if the log is well formed. */
  lemma {:induction false} PrunedIffWellFormed(log: seq<Event>)
    ensures Pruned(log) <==> WellFormed(log)
    decreases |log|
  {
    if log != [] {
      var init, e := log[..|log| - 1], log[|log| - 1];
      assert log == init + [e];
      PrunedIffWellFormed(init);
      PrunedSnoc(init, e);
      WellFormedSnoc(init, e);
      if Pruned(init) {
        StatusReads(init);
        ReadsStep(init, e, StatusAt(init));
        SeenIsSurvivors(INIT, init);
      }
    }
  }

  lemma DistinctSnoc(init: seq<Event>, e: Event)
    ensures DistinctUuids(init + [e]) <==> DistinctUuids(init) && e.uuid !in Uuids(init)
  {
    var all := init + [e];
    assert forall i :: 0 <= i < |init| ==> all[i] == init[i];
    if DistinctUuids(all) {
      forall i | 0 <= i < |init|
        ensures init[i].uuid != e.uuid
      {
        assert all[i].uuid != all[|init|].uuid;
      }
      forall i, j | 0 <= i < j < |init|
        ensures init[i].uuid != init[j].uuid
      {
        assert all[i].uuid != all[j].uuid;
      }
    }
  }

  /** What evaluation leaves of any log: strictly sorted, one entry per uuid, every entry in its place. */
  lemma SurvivorsAreWellFormed(log: seq<Event>)
    requires Sorted(log)
    ensures StrictlySorted(Kept(INIT, log)) && WellFormed(Kept(INIT, log))
  {
    KeptSorted(INIT, log);
    PruningKeepsMeaning(INIT, log);
    PrunedIffWellFormed(Kept(INIT, log));
  }

  /** Between two surviving starts the timer was stopped, reset or moved to another map. */
  lemma StartsAreSeparated(log: seq<Event>, i: nat, j: nat)
    requires Pruned(log) && i < j < |log| && log[i].kind.Start? && log[j].kind.Start?
    ensures exists k :: i < k < j && (log[k].kind.Stop? || log[k].kind.Reset? || log[k].kind.MapChange?)
  {
    PrunedIffWellFormed(log);
    var k := FirstAfter(log, i, j);
    LastTransitionIs(log, k, i);
    assert FitsAt(log, k);
  }

  /** The first transition after i, at or before j. */
  lemma FirstAfter(log: seq<Event>, i: nat, j: nat) returns (k: nat)
    requires i < j < |log| && IsTransition(log[i].kind) && IsTransition(log[j].kind)
    ensures i < k <= j && IsTransition(log[k].kind) && LastTransition(log, k, i)
  {
    k := i + 1;
    while !IsTransition(log[k].kind)
      decreases j - k
      invariant i < k <= j
      invariant forall m :: i < m < k ==> !IsTransition(log[m].kind)
    {
      k := k + 1;
    }
  }
}
