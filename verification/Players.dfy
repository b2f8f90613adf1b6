/**
 * Players whose clocks may put the same events in any orders. Each gets the events in its own copies and in its
 * own order of arrival; here is exactly when all of them keep the same events and the same status.
 */
module Players {
  import opened Events
  import opened Evaluation
  import opened Delivery
  import opened Orders
  import opened Echoes
  import opened Reordering
  import opened Replicas

  /**
   * The events of ds reached a player who stood as log does: in copies newer than its log, at any times, each
   * perhaps in several copies, in any order and with any repeats; entries of the log may have come once more.
   * Copies under one time and uuid differ in name only. The program then holds after.
   */
  ghost predicate Received(log: seq<Event>, ds: seq<Event>, before: seq<Event>, arrived: seq<Event>, after: seq<Event>) {
    && Settled(before) && SameStanding(Run(INIT, log), Run(INIT, before))
    && Evolves(before, arrived, after) && KeepsOrder(Nameless, before + arrived)
    && Newer(Image(before, Nameless), Image(arrived, Nameless))
    && SameCopies(NewCopies(before, arrived), ds)
  }

  /** What of the arrived events the log does not hold, without names and in the order of the player's clock. */
  ghost function NewCopies(before: seq<Event>, arrived: seq<Event>): seq<Event> {
    NewEvents(Image(before, Nameless), Image(arrived, Nameless))
  }

  // ---------- Without a clash ----------

  lemma NamelessSettles(before: seq<Event>, arrived: seq<Event>)
    requires Settled(before) && KeepsOrder(Nameless, before + arrived)
    ensures var l := Image(before, Nameless);
      Settled(l) && Uuids(l) == Run(INIT, l).seen && SameStanding(Run(INIT, before), Run(INIT, l))
  {
    assert IsView(Nameless);
    assert KeepsOrder(Nameless, before);
    ImageSettled(before, Nameless);
    SettledIsStrict(Image(before, Nameless));
    KeptImage(INIT, INIT, before, Nameless);
  }

  /** If the copies are order-free, the player's log stands as after evaluating them in the order of its clock. */
  lemma EndsInOrder(before: seq<Event>, arrived: seq<Event>, after: seq<Event>)
    requires Settled(before) && Evolves(before, arrived, after) && KeepsOrder(Nameless, before + arrived)
    requires Newer(Image(before, Nameless), Image(arrived, Nameless))
    requires OrderFree(Image(before, Nameless), NewCopies(before, arrived))
    ensures Settled(after)
    ensures SameStanding(Run(INIT, after), Run(Run(INIT, Image(before, Nameless)), NewCopies(before, arrived)))
  {
    var l, cs := Image(before, Nameless), NewCopies(before, arrived);
    var r := Run(INIT, l);
    NamelessSettles(before, arrived);
    assert IsView(Nameless);
    EvolutionIsImage(before, arrived, after, Nameless);
    NewerConverges(l, Image(arrived, Nameless));
    RunAppend(INIT, l, Kept(r, cs));
    PruningKeepsMeaning(r, cs);
    KeptImage(INIT, INIT, after, Nameless);
  }

  /** Without a clash every player's log comes to stand as after evaluating the events in any order. */
  lemma ReceivedEnds(log: seq<Event>, ds: seq<Event>, before: seq<Event>, arrived: seq<Event>, after: seq<Event>)
    requires Settled(log) && Consistent(ds) && NoClash(Run(INIT, log).status, Uuids(log), ds)
    requires Received(log, ds, before, arrived, after)
    ensures Settled(after) && SameStanding(Run(INIT, after), Run(Run(INIT, log), ds))
  {
    var l, cs := Image(before, Nameless), NewCopies(before, arrived);
    SettledIsStrict(log);
    NamelessSettles(before, arrived);
    SettledIsStrict(l);
    NewEventsSorted(l, Image(arrived, Nameless));
    RestSorted(l, cs);
    CopiesDoNotClash(Run(INIT, l), ds, cs);
    NoClashIsOrderFree(l, cs);
    EndsInOrder(before, arrived, after);
    NoClashAgrees(Run(INIT, log), Run(INIT, l), ds, cs);
  }

  /**
   * What every player is left with when no two events clash: exactly the events accepted in the status they
   * came upon, and the status any of those that move the timer leads to.
   */
  lemma PlayerOutcome(log: seq<Event>, ds: seq<Event>, before: seq<Event>, arrived: seq<Event>, after: seq<Event>)
    requires Settled(log) && Consistent(ds) && NoClash(Run(INIT, log).status, Uuids(log), ds)
    requires Received(log, ds, before, arrived, after)
    ensures forall u :: u in Uuids(after) <==>
      u in Uuids(log) || exists x :: x in ds && x.uuid == u && Accepts(Run(INIT, log).status, x.kind)
    ensures LedTo(Run(INIT, log), ds, Run(INIT, after).status)
  {
    SettledIsStrict(log);
    ReceivedEnds(log, ds, before, arrived, after);
    SettledIsStrict(after);
    NoClashCounts(Run(INIT, log), ds);
  }

  // ---------- With a clash ----------

  lemma {:induction false} DeliveryEvolves(log: seq<Event>, ds: seq<Event>)
    requires Settled(log)
    ensures Evolves(log, ds, DeliverAll(log, ds))
    decreases |ds|
  {
    if ds != [] {
      var init, e := ds[..|ds| - 1], ds[|ds| - 1];
      DeliveryEvolves(log, init);
      DeliverAllSettles(log, init);
      InsertIsSort(DeliverAll(log, init), e);
      assert MayTurn(DeliverAll(log, init), e, DeliverAll(log, ds));
    }
  }

  /** A time after every entry of a sorted log. */
  function TimeAfter(log: seq<Event>): Time {
    if log == [] then 0 else log[|log| - 1].time + 1
  }

  /** The events as a clock puts them that has them one tick apart in just this order. */
  function Clocked(p: seq<Event>, from: Time): (r: seq<Event>)
    ensures |r| == |p| && forall i :: 0 <= i < |r| ==> r[i] == p[i].(time := from + i)
  {
    seq(|p|, i requires 0 <= i < |p| => p[i].(time := from + i))
  }

  lemma ClockedIsNewer(log: seq<Event>, p: seq<Event>)
    requires StrictlySorted(log)
    ensures StrictlySorted(log + Clocked(p, TimeAfter(log)))
  {
    forall i | 0 <= i < |log|
      ensures log[i].time < TimeAfter(log)
    {
      assert i < |log| - 1 ==> Before(log[i], log[|log| - 1]);
    }
  }

  lemma NamelessKeepsStrict(es: seq<Event>)
    requires StrictlySorted(es)
    ensures KeepsOrder(Nameless, es) && StrictlySorted(Image(es, Nameless))
  {
    StrictSortsIdentify(es);
  }

  /** Every order of the events is the order of some player's clock, and its log then stands accordingly. */
  lemma SomePlayer(log: seq<Event>, ds: seq<Event>, p: seq<Event>) returns (arrived: seq<Event>, after: seq<Event>)
    requires Settled(log) && multiset(p) == multiset(ds)
    ensures Received(log, ds, log, arrived, after)
    ensures Settled(after) && SameStanding(Run(INIT, after), Run(Run(INIT, log), p))
  {
    SettledIsStrict(log);
    arrived := Clocked(p, TimeAfter(log));
    after := DeliverAll(log, arrived);
    ClockedIsNewer(log, p);
    NamelessKeepsStrict(log + arrived);
    DeliveryEvolves(log, arrived);
    NewInOrder(log, arrived);
    ClockedCopies(log, ds, p);
    IncrementalIsBatch(log, arrived);
    DeliverAllSettles(log, arrived);
    RunAppend(INIT, log, arrived);
    CopiesGoOnAlike(Run(INIT, log), Run(INIT, log), p, arrived);
  }

  lemma NewInOrder(log: seq<Event>, arrived: seq<Event>)
    requires StrictlySorted(log + arrived)
    ensures Newer(Image(log, Nameless), Image(arrived, Nameless))
    ensures forall x :: x in NewCopies(log, arrived) <==> x in Image(arrived, Nameless)
  {
    var l, a := Image(log, Nameless), Image(arrived, Nameless);
    NamelessKeepsStrict(log + arrived);
    assert Image(log + arrived, Nameless) == l + a;
    RestSorted(l, a);
    NewEventsSorted(l, a);
    forall x | x in a
      ensures x !in l
    {
      assert AllBefore(l, x);
    }
  }

  lemma ClockedCopies(log: seq<Event>, ds: seq<Event>, p: seq<Event>)
    requires multiset(p) == multiset(ds) && StrictlySorted(log + Clocked(p, TimeAfter(log)))
    ensures SameCopies(NewCopies(log, Clocked(p, TimeAfter(log))), ds)
  {
    var arrived := Clocked(p, TimeAfter(log));
    var cs := NewCopies(log, arrived);
    NewInOrder(log, arrived);
    SameMembers(p, ds);
    forall x | x in cs
      ensures exists y :: y in ds && IsCopy(y, x)
    {
      var i :| 0 <= i < |p| && Image(arrived, Nameless)[i] == x;
      assert p[i] in ds && IsCopy(p[i], x);
    }
    forall y | y in ds
      ensures exists x :: x in cs && IsCopy(x, y)
    {
      var i :| 0 <= i < |p| && p[i] == y;
      assert Image(arrived, Nameless)[i] in cs && IsCopy(Image(arrived, Nameless)[i], y);
    }
    CopiesMakeSame(cs, ds);
  }

  // ---------- The theorem ----------

  ghost predicate AgreeOn(after1: seq<Event>, after2: seq<Event>) {
    Uuids(after1) == Uuids(after2) && Run(INIT, after1).status == Run(INIT, after2).status
  }

  /** Any two players whom the events reached keep the same events and the same status. */
  ghost predicate AllPlayersAgree(log: seq<Event>, ds: seq<Event>) {
    forall b1, d1, a1, b2, d2, a2 :: Received(log, ds, b1, d1, a1) && Received(log, ds, b2, d2, a2) ==> AgreeOn(a1, a2)
  }

  /**
   * All players keep the same events and the same status, whatever their clocks, delivery orders, copies and
   * sorts, if and only if no two new events clash in the status they come upon.
   */
  lemma AllPlayersAgreeIff(log: seq<Event>, ds: seq<Event>)
    requires Settled(log) && Consistent(ds)
    ensures AllPlayersAgree(log, ds) <==> NoClash(Run(INIT, log).status, Uuids(log), ds)
  {
    var r := Run(INIT, log);
    SettledIsStrict(log);
    if NoClash(r.status, Uuids(log), ds) {
      forall b1, d1, a1, b2, d2, a2 | Received(log, ds, b1, d1, a1) && Received(log, ds, b2, d2, a2)
        ensures AgreeOn(a1, a2)
      {
        ReceivedEnds(log, ds, b1, d1, a1);
        ReceivedEnds(log, ds, b2, d2, a2);
        SettledIsStrict(a1);
        SettledIsStrict(a2);
      }
    } else {
      var a, b :| a in ds && b in ds && a.uuid != b.uuid && a.uuid !in Uuids(log) && b.uuid !in Uuids(log)
        && Clash(r.status, a.kind, b.kind);
      var p, q := ClashTears(r, ds, a, b);
      var d1, a1 := SomePlayer(log, ds, p);
      var d2, a2 := SomePlayer(log, ds, q);
      SettledIsStrict(a1);
      SettledIsStrict(a2);
      assert !AgreeOn(a1, a2);
    }
  }

  /** The case of two events that two players' clocks put in opposite orders. */
  lemma SwappedCopiesAgreeIff(log: seq<Event>, a: Event, b: Event, log': seq<Event>, a': Event, b': Event)
    requires Settled(log) && Settled(log') && SameStanding(Run(INIT, log), Run(INIT, log'))
    requires IsCopy(a', a) && IsCopy(b', b) && a.uuid != b.uuid && a.uuid !in Uuids(log) && b.uuid !in Uuids(log)
    requires AllBefore(log, a) && Before(a, b) && AllBefore(log', b') && Before(b', a')
    ensures AgreeOn(DeliverAll(log, [a, b]), DeliverAll(log', [b', a'])) <==> !Clash(Run(INIT, log).status, a.kind, b.kind)
  {
    SettledIsStrict(log);
    InOrderEnds(log, a, b);
    InOrderEnds(log', b', a');
    ClashExactly(Run(INIT, log), a, b, Run(INIT, log'), a', b');
  }

  lemma InOrderEnds(log: seq<Event>, a: Event, b: Event)
    requires Settled(log) && AllBefore(log, a) && Before(a, b)
    ensures var p := DeliverAll(log, [a, b]); var s := Step(Step(Run(INIT, log), a), b);
      Uuids(p) == s.seen && Run(INIT, p).status == s.status
  {
    StrictWithTwo(log, a, b);
    IncrementalIsBatch(log, [a, b]);
    DeliverAllSettles(log, [a, b]);
    SettledIsStrict(DeliverAll(log, [a, b]));
    assert log + [a, b] == log + [a] + [b];
    RunSnoc(INIT, log, a);
    RunSnoc(INIT, log + [a], b);
  }
}
