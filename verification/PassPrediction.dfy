/**
 * The scheduler of the pass-prediction build. The prediction library is any function of
 * time that answers from a finite timeline of passes: asked for time t it returns, among
 * the passes that end after t, one that starts first. Times are milliseconds.
 */
module PassPrediction {
  import opened Machine

  datatype SatPass = SatPass(start: nat, duration: nat)

  function End(p: SatPass): nat { p.start + p.duration }

  predicate EarliestEndingAfter(timeline: seq<SatPass>, t: nat, p: SatPass) {
    p in timeline && End(p) > t && forall q :: q in timeline && End(q) > t ==> p.start <= q.start
  }

  predicate NothingEndsAfter(timeline: seq<SatPass>, t: nat) {
    forall q :: q in timeline ==> End(q) <= t
  }

  /** `next` answers like hubble_sat_next_pass_get; between passes that start together it is free. */
  ghost predicate Predictor(timeline: seq<SatPass>, next: nat -> Option<SatPass>) {
    forall t: nat ::
      if next(t).Some? then EarliestEndingAfter(timeline, t, next(t).value)
      else NothingEndsAfter(timeline, t)
  }

  /** One such function, which prefers the pass listed first. */
  function NextPass(timeline: seq<SatPass>, t: nat): (r: Option<SatPass>)
    ensures r.Some? ==> EarliestEndingAfter(timeline, t, r.value)
    ensures r.None? ==> NothingEndsAfter(timeline, t)
  {
    if timeline == [] then None
    else
      var rest := NextPass(timeline[1..], t);
      if End(timeline[0]) > t && (rest.None? || timeline[0].start <= rest.value.start)
      then Some(timeline[0]) else rest
  }

  lemma EveryTimelineHasAPredictor(timeline: seq<SatPass>)
    ensures exists next :: Predictor(timeline, next)
  {
    assert Predictor(timeline, (t: nat) => NextPass(timeline, t));
  }

  /** How many passes end after t; the search makes this smaller with every turn. */
  function EndingAfter(timeline: seq<SatPass>, t: nat): nat {
    if timeline == [] then 0
    else (if End(timeline[0]) > t then 1 else 0) + EndingAfter(timeline[1..], t)
  }

  lemma {:induction false} LaterEndsFewer(timeline: seq<SatPass>, t: nat, u: nat)
    requires t <= u
    ensures EndingAfter(timeline, u) <= EndingAfter(timeline, t)
    ensures (exists p :: p in timeline && t < End(p) <= u) ==>
              EndingAfter(timeline, u) < EndingAfter(timeline, t)
  {
    if timeline != [] {
      LaterEndsFewer(timeline[1..], t, u);
      if p :| p in timeline && t < End(p) <= u {
        assert p == timeline[0] || p in timeline[1..];
      }
    }
  }

  /** The end of the last pass under way or over at `now`, but at least `now`. */
  function Horizon(timeline: seq<SatPass>, now: nat): (h: nat)
    ensures h >= now
    ensures forall p :: p in timeline && p.start <= now ==> End(p) <= h
    ensures h == now || exists p :: p in timeline && p.start <= now && End(p) == h
  {
    if timeline == [] then now
    else
      var h := Horizon(timeline[1..], now);
      assert forall p :: p in timeline ==> p == timeline[0] || p in timeline[1..];
      if timeline[0].start <= now then Max(h, End(timeline[0])) else h
  }

  /** The pass the scheduler arms at `now`. */
  function Planned(timeline: seq<SatPass>, next: nat -> Option<SatPass>, now: nat): Option<SatPass> {
    next(Horizon(timeline, now))
  }

  /** The pass is over, or will be when one that has started by `now` is over. */
  predicate Outlasted(timeline: seq<SatPass>, now: nat, p: SatPass) {
    End(p) <= now || exists q :: q in timeline && q.start <= now && End(p) <= End(q)
  }

  /** The search gives up exactly when every pass is outlasted. */
  lemma NothingPlannedIff(timeline: seq<SatPass>, next: nat -> Option<SatPass>, now: nat)
    requires Predictor(timeline, next)
    ensures Planned(timeline, next, now).None? <==> forall p :: p in timeline ==> Outlasted(timeline, now, p)
  {
    var h := Horizon(timeline, now);
    assert next(h).None? <==> NothingEndsAfter(timeline, h);
    forall p | p in timeline
      ensures End(p) <= h <==> Outlasted(timeline, now, p)
    {
    }
  }

  /** A pass that starts after `now` and before which no other does. */
  predicate FirstAfter(timeline: seq<SatPass>, now: nat, p: SatPass) {
    p in timeline && p.start > now && forall q :: q in timeline && q.start > now ==> p.start <= q.start
  }

  predicate NoneAfter(timeline: seq<SatPass>, now: nat) {
    forall q :: q in timeline ==> q.start <= now
  }

  /** The answer the documentation promises: the next pass from the current time. */
  predicate IsNextPass(timeline: seq<SatPass>, now: nat, r: Option<SatPass>) {
    if r.Some? then FirstAfter(timeline, now, r.value) else NoneAfter(timeline, now)
  }

  /** Some first pass after `now` ends later than every pass that has already started. */
  ghost predicate NotHidden(timeline: seq<SatPass>, now: nat) {
    exists p :: FirstAfter(timeline, now, p)
      && forall q :: q in timeline && q.start <= now ==> End(q) < End(p)
  }

  /**
   * The search skips a pass under way by continuing from its end, and so loses any pass
   * that begins and ends inside it. The result is the next pass exactly when there is
   * none, or one of the first to come outlasts everything already started.
   */
  lemma SearchIsCorrectIff(timeline: seq<SatPass>, next: nat -> Option<SatPass>, now: nat)
    requires Predictor(timeline, next)
    ensures IsNextPass(timeline, now, Planned(timeline, next, now)) <==>
            NoneAfter(timeline, now) || NotHidden(timeline, now)
  {
  }

  predicate NonOverlapping(timeline: seq<SatPass>) {
    && (forall p :: p in timeline ==> p.duration > 0)
    && (forall p, q :: p in timeline && q in timeline && p.start < q.start ==> End(p) <= q.start)
  }

  lemma NonOverlappingIsCorrect(timeline: seq<SatPass>, next: nat -> Option<SatPass>, now: nat)
    requires Predictor(timeline, next) && NonOverlapping(timeline)
    ensures IsNextPass(timeline, now, Planned(timeline, next, now))
  {
  }

  const NESTED := [SatPass(0, 900_000), SatPass(300_000, 120_000)]

  /** A short pass inside a long one that is under way is never found. */
  lemma NestedPassIsLost(next: nat -> Option<SatPass>)
    requires Predictor(NESTED, next)
    ensures Planned(NESTED, next, 1000) == None && FirstAfter(NESTED, 1000, NESTED[1])
  {
  }

  // ---------------------------------------------------------- arming it again

  /**
   * Scheduled again before the armed pass has started, the scheduler picks the same start
   * once more; from the start on it picks a strictly later one.
   */
  lemma RearmedIff(timeline: seq<SatPass>, next: nat -> Option<SatPass>, now: nat, later: nat)
    requires Predictor(timeline, next)
    requires now <= later && Planned(timeline, next, now).Some?
    ensures var p := Planned(timeline, next, now).value;
            var again := Planned(timeline, next, later);
            && (again.Some? ==>
                  (again.value.start > p.start <==> later >= p.start)
                  && (again.value.start == p.start <==> later < p.start))
            && (later < p.start ==> again.Some?)
  {
  }

  // ------------------------------------------------------------------- arming

  /** The timeout in seconds: a 64-bit difference, cut to the 32-bit variable. */
  function Timeout(start: nat, now: nat): uint32 {
    (start - now) % TWO64 / MSEC_PER_SEC % TWO32
  }

  /** The timer fires at the start or less than a second before, unless the timeout wraps. */
  lemma PredictionArming(start: nat, now: nat)
    requires now < start
    ensures var fires := now + MSEC_PER_SEC * Timeout(start, now);
            start < fires + MSEC_PER_SEC && fires <= start <==> (start - now) / MSEC_PER_SEC < TWO32
  {
  }
}

/** app/src/sat_board.c as built with pass prediction. */
module PredictionBoard {
  import opened Machine
  import opened PassPrediction

  class SatBoard {
    var nextPass: SatPass
    var timer: Option<uint32>

    constructor ()
      ensures nextPass == SatPass(0, 0) && timer == None
    {
      nextPass, timer := SatPass(0, 0), None;
    }

    /** sat_schedule_next_transmission at clock `now`, asking the library `next`. */
    method ScheduleNext(now: nat, next: nat -> Option<SatPass>, ghost timeline: seq<SatPass>)
      returns (err: int)
      requires Predictor(timeline, next)
      modifies this
      ensures err == if Planned(timeline, next, now).Some? then 0 else -1
      ensures err == 0 ==>
        && nextPass == Planned(timeline, next, now).value && nextPass.start > now
        && timer == Some(Timeout(nextPass.start, now))
      ensures err != 0 ==>
        && timer == old(timer)
        && (nextPass == old(nextPass) || (nextPass in timeline && nextPass.start <= now))
    {
      var t := now;
      while true
        invariant now <= t <= Horizon(timeline, now)
        invariant timer == old(timer)
        invariant nextPass == old(nextPass) || (nextPass in timeline && nextPass.start <= now)
        decreases EndingAfter(timeline, t)
      {
        var found := next(t);
        if found.None? {
          assert t == Horizon(timeline, now);
          return -1;
        }
        nextPass := found.value;
        LaterEndsFewer(timeline, t, End(nextPass));
        if nextPass.start > now {
          assert t == Horizon(timeline, now);
          break;
        }
        t := End(nextPass);
      }
      timer := Some(Timeout(nextPass.start, now));
      return 0;
    }

    method NextTransmissionGet() returns (n: int, timestamp: uint32)
      ensures n == (if nextPass.start == 0 then -1 else 1)
      ensures n == 1 ==> timestamp == nextPass.start / MSEC_PER_SEC % TWO32
    {
      if nextPass.start == 0 {
        return -1, 0;
      }
      return 1, nextPass.start / MSEC_PER_SEC % TWO32;
    }
  }
}
