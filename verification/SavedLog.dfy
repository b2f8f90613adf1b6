/** The log file written when the player leaves a map. */
module SavedLogs {
  import opened Events
  import opened Evaluation
  import opened Delivery
  import opened LogGrammar

  datatype SavedLog = SavedLog(mapName: string, events: seq<Event>)

  /** The position just behind the last map change, 0 when there is none. */
  function MapStart(log: seq<Event>): (n: nat)
    ensures n <= |log|
    ensures forall k :: n <= k < |log| ==> !log[k].kind.MapChange?
    ensures n > 0 ==> log[n - 1].kind.MapChange?
    decreases |log|
  {
    if log == [] then 0
    else if log[|log| - 1].kind.MapChange? then |log|
    else MapStart(log[..|log| - 1])
  }

  function MapNameOf(log: seq<Event>): string {
    var n := MapStart(log);
    if n == 0 then "" else log[n - 1].name.GetOr(UNKNOWN_MAP)
  }

  function Saved(mapName: string, events: seq<Event>): Option<SavedLog> {
    if events == [] then None else Some(SavedLog(mapName, events))
  }

  /** What is saved of a sorted log: the entries since the last map change, under that map's name. */
  function MapLog(log: seq<Event>): Option<SavedLog> {
    Saved(MapNameOf(log), log[MapStart(log)..])
  }

  /** q lists the entries to save, when p is how the whole log was sorted. */
  ghost predicate Extracts(entries: seq<Event>, p: seq<Event>, q: seq<Event>) {
    IsSortOf(p, entries) && IsSortOf(q, p[MapStart(p)..])
  }

  /** Stands for the library sort: any sorted permutation will do. */
  method SortEvents(es: seq<Event>) returns (sorted: seq<Event>)
    ensures IsSortOf(sorted, es)
  {
    sorted := [];
    for i := 0 to |es|
      invariant IsSortOf(sorted, es[..i])
    {
      assert es[..i + 1] == es[..i] + [es[i]];
      InsertIsSort(sorted, es[i]);
      sorted := Insert(sorted, es[i]);
    }
    assert es[..|es|] == es;
  }

  method SaveLog(entries: seq<Event>, saveLogs: bool) returns (saved: Option<SavedLog>)
    ensures !saveLogs ==> saved == None
    ensures saveLogs ==> exists p, q :: Extracts(entries, p, q) && saved == Saved(MapNameOf(p), q)
    ensures StrictlySorted(entries) && saveLogs ==> saved == MapLog(entries)
  {
    var p := SortEvents(entries);
    var mapName := "";
    var collected: seq<Event> := [];
    var i := |p|;
    ghost var n := MapStart(p);
    while i > 0
      invariant n <= i <= |p| && mapName == ""
      invariant multiset(collected) == multiset(p[i..])
    {
      var entry := p[i - 1];
      if entry.kind == MapChange {
        mapName := entry.name.GetOr(UNKNOWN_MAP);
        break;
      }
      assert p[i - 1..] == [entry] + p[i..];
      collected := collected + [entry];
      i := i - 1;
    }
    var q := SortEvents(collected);
    if |q| < 1 || !saveLogs {
      saved := None;
    } else {
      saved := Some(SavedLog(mapName, q));
    }
    assert Extracts(entries, p, q);
    StrictExtract(entries, p, q);
  }

  lemma {:induction false} StrictExtract(entries: seq<Event>, p: seq<Event>, q: seq<Event>)
    requires Extracts(entries, p, q)
    ensures StrictlySorted(entries) ==> p == entries && Saved(MapNameOf(p), q) == MapLog(entries)
  {
    if StrictlySorted(entries) {
      var tail := p[MapStart(p)..];
      StrictSortsIdentify(entries);
      SortIsUnique(entries, p);
      StrictSortsIdentify(tail);
      SortIsUnique(tail, q);
    }
  }

  ghost predicate Moves(es: seq<Event>) {
    exists x :: x in es && IsTransition(x.kind)
  }

  /** From a stopped machine both runs set the start at the first transition. */
  lemma {:induction false} StartAgrees(s: Fsm, t: Fsm, es: seq<Event>)
    requires s.status == t.status && Kept(s, es) == es
    requires forall x :: x in es ==> x.uuid !in t.seen
    requires s.start == t.start || (s.status.Stopped? && Moves(es))
    ensures Run(s, es).start == Run(t, es).start
    decreases es
  {
    if es != [] {
      var e, rest := es[0], es[1..];
      assert es == [e] + rest;
      FirstIsRelevant(s, e, rest);
      StartStep(s, t, e);
      SeenIsSurvivors(Step(s, e), rest);
      assert Moves(es) ==> IsTransition(e.kind) || Moves(rest);
      StartAgrees(Step(s, e), Step(t, e), rest);
    }
  }

  lemma StartStep(s: Fsm, t: Fsm, e: Event)
    requires s.status == t.status && Relevant(s, e) && Relevant(t, e)
    ensures Step(s, e).status == Step(t, e).status && Step(t, e).seen == t.seen + {e.uuid}
    ensures s.start == t.start || (s.status.Stopped? && IsTransition(e.kind)) ==> Step(s, e).start == Step(t, e).start
    ensures s.status.Stopped? && !IsTransition(e.kind) ==> Step(s, e).status.Stopped?
  {
  }

  /** Right behind a map change, or with no map change yet at the very start, the timer is stopped. */
  lemma StoppedAtMapStart(log: seq<Event>)
    requires Pruned(log)
    ensures Run(INIT, log[..MapStart(log)]).status.Stopped?
  {
    var n := MapStart(log);
    if n > 0 {
      var init := log[..n - 1];
      assert log[..n] == init + [log[n - 1]];
      PrunedPrefix(INIT, log, n - 1);
      RunSnoc(INIT, init, log[n - 1]);
    }
  }

  /** Behind a stopped machine the entries mean what they mean on their own. */
  lemma {:induction false} TailStandsAlone(head: seq<Event>, tail: seq<Event>)
    requires Pruned(head + tail) && Run(INIT, head).status.Stopped?
    ensures Pruned(tail) && Run(INIT, tail).status == Run(INIT, head + tail).status
    ensures Moves(tail) ==> Run(INIT, tail).start == Run(INIT, head + tail).start
  {
    PrunedPrefix(INIT, head + tail, |head|);
    assert (head + tail)[..|head|] == head && (head + tail)[|head|..] == tail;
    RunAppend(INIT, head, tail);
    SameClockRuns(Run(INIT, head), INIT, tail);
    if Moves(tail) {
      StartAgrees(Run(INIT, head), INIT, tail);
    }
  }

  lemma SortedSuffix(a: seq<Event>, b: seq<Event>)
    requires Sorted(a + b)
    ensures Sorted(b)
  {
    assert forall i :: 0 <= i < |b| ==> b[i] == (a + b)[|a| + i];
  }

  /**
   * A saved log stands alone: evaluating just its entries keeps them all and ends in the status of the
   * full log, with the same start time if any of them moves the timer.
   */
  lemma {:induction false} SavedLogStandsAlone(log: seq<Event>)
    requires Settled(log)
    ensures var tail := log[MapStart(log)..];
      && Settled(tail)
      && Run(INIT, tail).status == Run(INIT, log).status
      && (Moves(tail) ==> Run(INIT, tail).start == Run(INIT, log).start)
  {
    var n := MapStart(log);
    var head, tail := log[..n], log[n..];
    StoppedAtMapStart(log);
    assert log == head + tail;
    TailStandsAlone(head, tail);
    SortedSuffix(head, tail);
  }

  lemma MapStartBehind(front: seq<Event>, change: Event, rest: seq<Event>)
    requires change.kind.MapChange? && forall x :: x in rest ==> !x.kind.MapChange?
    ensures MapStart(front + [change] + rest) == |front| + 1
  {
    var log := front + [change] + rest;
    var n := MapStart(log);
    assert log[|front|] == change;
    forall k | |front| < k < |log|
      ensures !log[k].kind.MapChange?
    {
      assert log[k] == rest[k - |front| - 1];
    }
  }

  /** On the first map everything is saved, under no name, and nothing if there is nothing. */
  lemma FirstMapIsSaved(log: seq<Event>)
    requires forall x :: x in log ==> !x.kind.MapChange?
    ensures MapLog(log) == if log == [] then None else Some(SavedLog("", log))
  {
    var n := MapStart(log);
    assert n == 0;
    assert log[0..] == log;
  }

  /** On a later map what came behind its map change is saved under its name, and nothing if nothing came. */
  lemma LaterMapIsSaved(front: seq<Event>, change: Event, rest: seq<Event>)
    requires change.kind.MapChange? && forall x :: x in rest ==> !x.kind.MapChange?
    ensures MapLog(front + [change] + rest) ==
      if rest == [] then None
      else Some(SavedLog(if change.name.Some? then change.name.value else "Unknown", rest))
  {
    var log := front + [change] + rest;
    MapStartBehind(front, change, rest);
    assert log[|front|] == change && log[|front| + 1..] == rest;
  }
}
