/** Timer events, the order the log is kept in, and what sorting a log means. */
module Events {

  datatype Option<+T> = None | Some(value: T) {
    function GetOr(default: T): T {
      match this
      case Some(v) => v
      case None => default
    }
  }

  /** Clock ticks of 100 ns since the epoch. */
  type Time = int

  /** A 16-byte uuid, read as the number whose order is the bytewise order. */
  type Uuid = nat

  datatype EventType =
    | Start | Stop | Reset | Prepare | Segment | SegmentClear | MapChange | HistoryClear | NoEvent

  datatype EventSource = Manual | Combat | Movement | Other

  datatype Event = Event(time: Time, kind: EventType, source: EventSource, uuid: Uuid, name: Option<string>)

  /** The order of the log: by time, then by uuid. */
  predicate Before(l: Event, r: Event) {
    l.time < r.time || (l.time == r.time && l.uuid < r.uuid)
  }

  predicate SameKey(l: Event, r: Event) {
    l.time == r.time && l.uuid == r.uuid
  }

  /** w is a copy of e: the same event, at its own time and perhaps without its name. */
  predicate IsCopy(w: Event, e: Event) {
    w.uuid == e.uuid && w.kind == e.kind
  }

  ghost predicate Sorted(es: seq<Event>) {
    forall i, j :: 0 <= i < j < |es| ==> !Before(es[j], es[i])
  }

  ghost predicate StrictlySorted(es: seq<Event>) {
    forall i, j :: 0 <= i < j < |es| ==> Before(es[i], es[j])
  }

  /** What a sort that need not be stable may produce from log. */
  ghost predicate IsSortOf(sorted: seq<Event>, log: seq<Event>) {
    Sorted(sorted) && multiset(sorted) == multiset(log)
  }

  /** Two events with the same time and uuid are the same event. */
  ghost predicate KeysIdentify(es: seq<Event>) {
    forall x, y :: x in es && y in es && SameKey(x, y) ==> x == y
  }

  ghost predicate AllBefore(es: seq<Event>, e: Event) {
    forall x :: x in es ==> Before(x, e)
  }

  ghost predicate DistinctUuids(es: seq<Event>) {
    forall i, j :: 0 <= i < j < |es| ==> es[i].uuid != es[j].uuid
  }

  function Uuids(es: seq<Event>): (r: set<Uuid>)
    ensures forall e :: e in es ==> e.uuid in r
  {
    set i | 0 <= i < |es| :: es[i].uuid
  }

  /** How many entries of a log stay in front of e when e is sorted in. */
  function Place(es: seq<Event>, e: Event): (k: nat)
    ensures k <= |es|
    ensures forall i :: 0 <= i < k ==> !Before(e, es[i])
    ensures k < |es| ==> Before(e, es[k])
  {
    if es == [] || Before(e, es[0]) then 0 else 1 + Place(es[1..], e)
  }

  function Insert(es: seq<Event>, e: Event): seq<Event> {
    es[..Place(es, e)] + [e] + es[Place(es, e)..]
  }

  function SortLog(es: seq<Event>): seq<Event>
    decreases |es|
  {
    if es == [] then [] else Insert(SortLog(es[..|es| - 1]), es[|es| - 1])
  }

  lemma InsertMembers(es: seq<Event>, e: Event)
    ensures forall x :: x in Insert(es, e) <==> x in es || x == e
  {
    var k := Place(es, e);
    assert es == es[..k] + es[k..];
  }

  lemma InsertSorted(es: seq<Event>, e: Event)
    requires Sorted(es)
    ensures Sorted(Insert(es, e))
  {
  }

  /** Sorting in one more event is a sort of the log with that event appended. */
  lemma InsertIsSort(es: seq<Event>, e: Event)
    requires Sorted(es)
    ensures IsSortOf(Insert(es, e), es + [e])
  {
    var k := Place(es, e);
    InsertSorted(es, e);
    assert es == es[..k] + es[k..];
  }

  lemma SortLogSorts(es: seq<Event>)
    ensures Sorted(SortLog(es))
    ensures forall x :: x in SortLog(es) <==> x in es
    decreases |es|
  {
    if es != [] {
      var init, e := es[..|es| - 1], es[|es| - 1];
      assert es == init + [e];
      SortLogSorts(init);
      InsertSorted(SortLog(init), e);
      InsertMembers(SortLog(init), e);
    }
  }

  lemma SameMembers(p: seq<Event>, q: seq<Event>)
    requires multiset(p) == multiset(q)
    ensures |p| == |q|
    ensures forall x :: x in p <==> x in q
  {
    assert |multiset(p)| == |p| && |multiset(q)| == |q|;
    forall x
      ensures x in p <==> x in q
    {
      assert x in p <==> x in multiset(p);
      assert x in q <==> x in multiset(q);
    }
  }

  /** An unstable sort has one possible result when equal keys mean equal entries. */
  lemma {:induction false} SortIsUnique(p: seq<Event>, q: seq<Event>)
    requires Sorted(p) && Sorted(q) && multiset(p) == multiset(q) && KeysIdentify(p)
    ensures p == q
  {
    SameMembers(p, q);
    if p != [] {
      SmallestFirst(p, q);
      TailMultiset(p);
      TailMultiset(q);
      SortIsUnique(p[1..], q[1..]);
      assert p == [p[0]] + p[1..] && q == [q[0]] + q[1..];
    }
  }

  lemma SmallestFirst(p: seq<Event>, q: seq<Event>)
    requires p != [] && q != [] && Sorted(p) && Sorted(q) && KeysIdentify(p)
    requires forall x :: x in p <==> x in q
    ensures p[0] == q[0]
  {
    assert p[0] in q && q[0] in p;
  }

  lemma TailMultiset(p: seq<Event>)
    requires p != []
    ensures multiset(p[1..]) == multiset(p) - multiset{p[0]}
  {
    assert p == [p[0]] + p[1..];
  }

  lemma Cancel(m: multiset<Event>, n: multiset<Event>, e: Event)
    requires m + multiset{e} == n + multiset{e}
    ensures m == n
  {
    assert m == (m + multiset{e}) - multiset{e};
  }

  lemma WithoutOne(a: seq<Event>, e: Event, b: seq<Event>)
    ensures multiset(a + [e] + b) == multiset(a + b) + multiset{e}
  {
  }

  /** The position of e is settled by what stands on either side of it. */
  lemma InsertBetween(a: seq<Event>, b: seq<Event>, e: Event)
    requires forall x :: x in a ==> !Before(e, x)
    requires forall x :: x in b ==> Before(e, x)
    ensures Insert(a + b, e) == a + [e] + b
  {
    var es := a + b;
    var k := Place(es, e);
    assert forall i :: 0 <= i < |a| ==> es[i] == a[i] && a[i] in a;
    assert b != [] ==> es[|a|] == b[0] && b[0] in b;
    assert k == |a|;
    assert es[..|a|] == a && es[|a|..] == b;
  }

  lemma InsertLast(es: seq<Event>, e: Event)
    requires AllBefore(es, e)
    ensures Insert(es, e) == es + [e]
  {
    assert es + [] == es;
    InsertBetween(es, [], e);
  }

  /** A sorted log splits around a new entry into what it follows and what it precedes. */
  lemma InsertSplits(es: seq<Event>, e: Event) returns (a: seq<Event>, b: seq<Event>)
    requires Sorted(es)
    ensures es == a + b && Insert(es, e) == a + [e] + b
    ensures forall x :: x in a ==> !Before(e, x)
    ensures forall x :: x in b ==> Before(e, x)
  {
    var k := Place(es, e);
    a, b := es[..k], es[k..];
    forall x | x in b
      ensures Before(e, x)
    {
      var i :| 0 <= i < |b| && b[i] == x;
      assert b[i] == es[k + i];
    }
  }

  lemma StrictSortsIdentify(es: seq<Event>)
    requires StrictlySorted(es)
    ensures Sorted(es) && KeysIdentify(es)
  {
  }

  /** Strictly sorted logs with the same members are the same log. */
  lemma {:induction false} StrictlySortedUnique(p: seq<Event>, q: seq<Event>)
    requires StrictlySorted(p) && StrictlySorted(q)
    requires forall x :: x in p <==> x in q
    ensures p == q
  {
    assert forall i :: 0 <= i < |p| ==> p[i] in q;
    assert forall i :: 0 <= i < |q| ==> q[i] in p;
    if p != [] && q != [] {
      assert p[0] in q && q[0] in p;
      assert p[0] == q[0];
      forall x
        ensures x in p[1..] <==> x in q[1..]
      {
        if x in p[1..] { assert x in p && Before(p[0], x); assert x in q; }
        if x in q[1..] { assert x in q && Before(q[0], x); assert x in p; }
      }
      StrictlySortedUnique(p[1..], q[1..]);
      assert p == [p[0]] + p[1..] && q == [q[0]] + q[1..];
    }
  }
}
