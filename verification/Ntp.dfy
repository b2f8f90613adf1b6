/** Clock offset estimation, after section 8 of RFC 5905. */
module Ntp {

  /** Offset and bias in seconds. */
  datatype NtpInfo = NtpInfo(offset: real, bias: real)

  datatype TimeDelta = Delta(offset: real) | ImplausibleOffset | NoSample

  /** Four millisecond stamps: client send, server receive, server send, client receive. */
  function Estimate(t0: int, t1: int, t2: int, t3: int): NtpInfo {
    NtpInfo(((t1 - t0) + (t2 - t3)) as real / 2000.0, ((t3 - t2) + (t1 - t0)) as real / 2000.0)
  }

  /** Milliseconds of a time in seconds, rounded down. */
  function FloorMs(seconds: real): int {
    (seconds * 1000.0).Floor
  }

  /**
   * An exchange as it really happened, in seconds: the client sends at sent, the request takes there, the
   * server holds it for held, the answer takes back; the server's clock is ahead by theta.
   */
  datatype Exchange = Exchange(sent: real, there: real, held: real, back: real, theta: real)

  ghost predicate Physical(x: Exchange) {
    x.there >= 0.0 && x.back >= 0.0
  }

  function Measured(x: Exchange): NtpInfo {
    var received := x.sent + x.there;
    var answered := received + x.held;
    Estimate(
      FloorMs(x.sent),
      FloorMs(received + x.theta),
      FloorMs(answered + x.theta),
      FloorMs(answered + x.back))
  }

  lemma FloorIsClose(seconds: real)
    ensures var ms := FloorMs(seconds) as real; ms <= seconds * 1000.0 < ms + 1.0
  {
  }

  /** The estimate misses the true offset by less than its bias plus one millisecond. */
  lemma OffsetErrorIsBounded(x: Exchange)
    requires Physical(x)
    ensures var m := Measured(x);
      -(m.bias + 0.001) < m.offset - x.theta < m.bias + 0.001
  {
    FloorIsClose(x.sent);
    FloorIsClose(x.sent + x.there + x.theta);
    FloorIsClose(x.sent + x.there + x.held + x.theta);
    FloorIsClose(x.sent + x.there + x.held + x.back);
  }

  /** No smaller slack will do: with no delay at all every miss below one millisecond comes with bias zero. */
  lemma MillisecondIsTight(d: real)
    requires 0.0 <= d < 0.001
    ensures var x := Exchange(0.0, 0.0, 0.0, 0.0, d);
      Physical(x) && Measured(x).bias == 0.0 && x.theta - Measured(x).offset == d
  {
    FloorIsClose(d);
    assert FloorMs(0.0) == 0 && FloorMs(d) == 0;
  }

  /**
   * The bias alone bounds the error if and only if, on the stamps, the request does not seem faster than the
   * true offset allows and the answer does not either.
   */
  lemma BiasBoundsErrorIff(x: Exchange)
    ensures var m := Measured(x);
      var received, answered := x.sent + x.there, x.sent + x.there + x.held;
      -m.bias <= m.offset - x.theta <= m.bias <==>
        && (FloorMs(received + x.theta) - FloorMs(x.sent)) as real >= 1000.0 * x.theta
        && (FloorMs(answered + x.back) - FloorMs(answered + x.theta)) as real >= -1000.0 * x.theta
  {
  }

  /** So it does whenever both ways take at least a millisecond. */
  lemma SlowEnoughNeedsNoSlack(x: Exchange)
    requires x.there >= 0.001 && x.back >= 0.001
    ensures var m := Measured(x); -m.bias <= m.offset - x.theta <= m.bias
  {
    FloorIsClose(x.sent);
    FloorIsClose(x.sent + x.there + x.theta);
    FloorIsClose(x.sent + x.there + x.held + x.theta);
    FloorIsClose(x.sent + x.there + x.held + x.back);
    BiasBoundsErrorIff(x);
  }

  /** A failed request answers with a zero offset, which is discarded. */
  function Usable(samples: seq<NtpInfo>): seq<NtpInfo> {
    if samples == [] then []
    else (if samples[0].offset != 0.0 then [samples[0]] else []) + Usable(samples[1..])
  }

  lemma {:induction false} UsableAppend(samples: seq<NtpInfo>, s: NtpInfo)
    ensures Usable(samples + [s]) == Usable(samples) + (if s.offset != 0.0 then [s] else [])
  {
    if samples == [] {
      assert [s][1..] == [];
    } else {
      assert (samples + [s])[1..] == samples[1..] + [s];
      UsableAppend(samples[1..], s);
      var first := if samples[0].offset != 0.0 then [samples[0]] else [];
      var last := if s.offset != 0.0 then [s] else [];
      assert first + (Usable(samples[1..]) + last) == (first + Usable(samples[1..])) + last;
    }
  }

  /** Picks the first sample of least bias. */
  method SelectBest(samples: seq<NtpInfo>) returns (best: NtpInfo, ghost at: nat)
    requires samples != []
    ensures at < |samples| && best == samples[at]
    ensures forall k :: 0 <= k < |samples| ==> best.bias <= samples[k].bias
    ensures forall k :: 0 <= k < at ==> best.bias < samples[k].bias
  {
    best, at := samples[0], 0;
    for i := 0 to |samples|
      invariant at < |samples| && best == samples[at] && (at < i || at == 0)
      invariant forall k :: 0 <= k < i ==> best.bias <= samples[k].bias
      invariant forall k :: 0 <= k < at ==> best.bias < samples[k].bias
    {
      if samples[i].bias < best.bias {
        best, at := samples[i], i;
      }
    }
  }

  /** The result is decided by a usable answer of least bias. */
  ghost predicate IsTimeDelta(answers: seq<NtpInfo>, r: TimeDelta) {
    if Usable(answers) == [] then r == NoSample
    else
      exists s ::
        && s in Usable(answers) && LeastBias(answers, s)
        && r == if s.offset > 10.0 then ImplausibleOffset else Delta(s.offset)
  }

  ghost predicate LeastBias(answers: seq<NtpInfo>, s: NtpInfo) {
    forall t :: t in Usable(answers) ==> s.bias <= t.bias
  }

  /**
   * The three answers are taken in turn. With no usable one the program reads past an empty list, which is
   * NoSample here. Only offsets above ten seconds are refused, not those below minus ten.
   */
  method GetTimeDelta(answers: seq<NtpInfo>) returns (r: TimeDelta)
    requires |answers| == 3
    ensures IsTimeDelta(answers, r)
  {
    var samples: seq<NtpInfo> := [];
    for i := 0 to 3
      invariant samples == Usable(answers[..i])
    {
      assert answers[..i + 1] == answers[..i] + [answers[i]];
      UsableAppend(answers[..i], answers[i]);
      if answers[i].offset != 0.0 {
        samples := samples + [answers[i]];
      }
    }
    assert answers[..3] == answers;
    if samples == [] {
      return NoSample;
    }
    var best, at := SelectBest(samples);
    assert best in samples;
    if best.offset > 10.0 {
      return ImplausibleOffset;
    }
    return Delta(best.offset);
  }

  /**
   * Several exchanges with one true offset: an estimate of least bias is within every estimate's error
   * bound, so no other choice of sample comes with a tighter guarantee.
   */
  lemma LeastBiasIsTightest(xs: seq<Exchange>, at: nat, theta: real)
    requires at < |xs| && forall k :: 0 <= k < |xs| ==> Physical(xs[k]) && xs[k].theta == theta
    requires forall k :: 0 <= k < |xs| ==> Measured(xs[at]).bias <= Measured(xs[k]).bias
    ensures forall k :: 0 <= k < |xs| ==>
      -(Measured(xs[k]).bias + 0.001) < Measured(xs[at]).offset - theta < Measured(xs[k]).bias + 0.001
  {
    OffsetErrorIsBounded(xs[at]);
  }

  lemma {:induction false} UsableMembers(samples: seq<NtpInfo>)
    ensures forall s :: s in Usable(samples) <==> s in samples && s.offset != 0.0
  {
    if samples != [] {
      UsableMembers(samples[1..]);
    }
  }

  /** What the requests answered: a measured exchange each, or the zero answer of a failed request. */
  ghost predicate AnswersOf(answers: seq<NtpInfo>, xs: seq<Exchange>) {
    |answers| == |xs| && forall k :: 0 <= k < |xs| ==> answers[k] == Measured(xs[k]) || answers[k] == NtpInfo(0.0, 0.0)
  }

  /**
   * The same of the program's result: for exchanges with one true offset, some of which may have failed, the
   * offset returned misses it by less than the bias of every usable answer plus one millisecond.
   */
  lemma TimeDeltaIsTightest(answers: seq<NtpInfo>, xs: seq<Exchange>, theta: real, offset: real)
    requires AnswersOf(answers, xs) && IsTimeDelta(answers, Delta(offset))
    requires forall k :: 0 <= k < |xs| ==> Physical(xs[k]) && xs[k].theta == theta
    ensures offset <= 10.0
    ensures forall t :: t in Usable(answers) ==> -(t.bias + 0.001) < offset - theta < t.bias + 0.001
  {
    var s :| s in Usable(answers) && LeastBias(answers, s) && s.offset == offset && s.offset <= 10.0;
    UsableMembers(answers);
    var k :| 0 <= k < |answers| && answers[k] == s;
    OffsetErrorIsBounded(xs[k]);
  }

  /**
   * The result read off the answers: none if every offset is zero; otherwise the offset of an answer of least
   * bias among those that are not, negative ones however large included, unless it is above ten seconds.
   */
  lemma TimeDeltaReads(answers: seq<NtpInfo>, r: TimeDelta)
    requires IsTimeDelta(answers, r)
    ensures r.NoSample? <==> forall k :: 0 <= k < |answers| ==> answers[k].offset == 0.0
    ensures !r.NoSample? ==> exists k ::
      && 0 <= k < |answers| && answers[k].offset != 0.0
      && (forall j :: 0 <= j < |answers| && answers[j].offset != 0.0 ==> answers[k].bias <= answers[j].bias)
      && (r.ImplausibleOffset? <==> answers[k].offset > 10.0)
      && (r.Delta? ==> r.offset == answers[k].offset)
  {
    UsableMembers(answers);
    if Usable(answers) == [] {
      forall k | 0 <= k < |answers|
        ensures answers[k].offset == 0.0
      {
        assert answers[k] !in Usable(answers);
      }
    } else {
      var s :| s in Usable(answers) && LeastBias(answers, s)
        && r == if s.offset > 10.0 then ImplausibleOffset else Delta(s.offset);
      var k :| 0 <= k < |answers| && answers[k] == s;
      assert forall j :: 0 <= j < |answers| && answers[j].offset != 0.0 ==> answers[j] in Usable(answers);
    }
  }
}
