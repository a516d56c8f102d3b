/**
 * The endless loop of app/src/main.c over its timer and its semaphore, in both builds:
 * schedule, wait for timer_sem, run one satellite session, and again. The clock of the
 * scheduler can be set at any time, the timer runs on the uptime.
 */
module TransmitLoop {
  import opened Machine
  import opened Runs
  import opened PassSchedule
  import P = PassPrediction

  datatype Planner =
    | Ephemeris(table: seq<Pass>, cursor: nat)
    | Prediction(timeline: seq<P.SatPass>, next: nat -> Option<P.SatPass>)

  datatype Pc = Scheduling | Waiting | InSession

  /** One arming: clock and uptime then, length of the table, entry, its start in ms, timeout. */
  datatype Armed = Armed(at: nat, up: nat, len: nat, index: nat, start: nat, timeout: uint32)

  datatype State = State(
    planner: Planner,
    pc: Pc,
    clock: nat,            // hubble_time_get, in milliseconds
    uptime: nat,           // k_uptime_get
    timer: Option<nat>,    // the uptime at which sat_timer fires, if it runs
    sem: nat,              // timer_sem
    lost: nat,             // gives that found timer_sem full
    sessions: nat,         // satellite sessions begun
    armed: seq<Armed>
  )

  datatype Action =
    | Tick(ms: nat)
    | SetTime(ms: nat)     // a SETUTC write
    | Append(p: Pass)
    | Schedule
    | Fire
    | Take
    | EndSession

  function Init(planner: Planner, clock: nat, uptime: nat): State {
    State(planner, Scheduling, clock, uptime, None, 0, 0, 0, [])
  }

  predicate Enabled(s: State, a: Action) {
    match a
    case Tick(_) => true
    case SetTime(_) => true
    case Append(_) => s.planner.Ephemeris? && |s.planner.table| < CAPACITY
    case Schedule => s.pc.Scheduling? && (s.planner.Ephemeris? ==> s.planner.cursor <= |s.planner.table|)
    case Fire => s.timer.Some? && s.timer.value <= s.uptime
    case Take => s.pc.Waiting? && s.sem > 0
    case EndSession => s.pc.InSession?
  }

  /** k_timer_start with the timeout of `r`. */
  function Arm(s: State, r: Armed): State {
    s.(timer := Some(FiresAt(s.uptime, r.timeout)), armed := s.armed + [r])
  }

  /** sat_schedule_next_transmission; main ignores its result and goes on to wait. */
  function Plan(s: State): State
    requires Enabled(s, Schedule)
  {
    var waiting := s.(pc := Waiting);
    var sec := s.clock / MSEC_PER_SEC;
    match s.planner
    case Ephemeris(table, cursor) =>
      var i := FirstFuture(table, cursor, sec);
      var moved := waiting.(planner := Ephemeris(table, i));
      if i == |table| then moved
      else Arm(moved, Armed(s.clock, s.uptime, |table|, i, MSEC_PER_SEC * table[i].timestamp,
                            table[i].timestamp - sec))
    case Prediction(timeline, next) =>
      var r := P.Planned(timeline, next, s.clock);
      if r.None? then waiting
      else Arm(waiting, Armed(s.clock, s.uptime, 0, 0, r.value.start, P.Timeout(r.value.start, s.clock)))
  }

  function Step(s: State, a: Action): State {
    if !Enabled(s, a) then s
    else match a
      case Tick(ms) => s.(clock := s.clock + ms, uptime := s.uptime + ms)
      case SetTime(ms) => s.(clock := ms)
      case Append(p) => s.(planner := s.planner.(table := s.planner.table + [p]))
      case Schedule => Plan(s)
      case Fire =>
        var stopped := s.(timer := None);
        if s.sem < 1 then stopped.(sem := s.sem + 1) else stopped.(lost := s.lost + 1)
      case Take => s.(pc := InSession, sem := s.sem - 1, sessions := s.sessions + 1)
      case EndSession => s.(pc := Scheduling)
  }

  function Run(s: State, schedule: seq<Action>): State {
    Exec(Step, s, schedule)
  }

  // ------------------------------------------------------- one session per arming

  function Last(s: State): Armed
    requires s.armed != []
  {
    s.armed[|s.armed| - 1]
  }

  /** The uptime at which the timer of an arming is due. */
  function Due(r: Armed): nat {
    FiresAt(r.up, r.timeout)
  }

  /** The timer has been armed and its session has not begun. */
  predicate Pending(s: State) {
    s.timer.Some? || s.sem > 0
  }

  predicate TimerInv(s: State) {
    && s.lost == 0
    && One(s.timer.Some?) + s.sem <= 1
    && (Pending(s) ==> s.pc.Waiting?)
    && |s.armed| == s.sessions + One(Pending(s))
    && (s.timer.Some? ==> s.timer.value == Due(Last(s)))
    && (s.armed != [] && !s.timer.Some? ==> Due(Last(s)) <= s.uptime)
  }

  lemma TimerPlan(s: State)
    requires TimerInv(s) && Enabled(s, Schedule)
    ensures TimerInv(Plan(s))
  {
  }

  lemma TimerStep(s: State, a: Action)
    requires TimerInv(s)
    ensures TimerInv(Step(s, a))
  {
    if a.Schedule? && Enabled(s, a) {
      TimerPlan(s);
    }
  }

  lemma {:induction false} TimerRun(s: State, schedule: seq<Action>)
    requires TimerInv(s)
    ensures TimerInv(Run(s, schedule))
    decreases |schedule|
  {
    if schedule != [] {
      TimerStep(s, schedule[0]);
      TimerRun(Step(s, schedule[0]), schedule[1..]);
    }
  }

  /**
   * In both builds and over every run, however the clock is set, the timer and timer_sem
   * together hold at most one wake-up, none is lost, every session but the pending one
   * answers exactly one arming, and no session begins before its timer was due.
   */
  lemma OneSessionPerArming(planner: Planner, clock: nat, uptime: nat, schedule: seq<Action>)
    ensures var s := Run(Init(planner, clock, uptime), schedule);
            && One(s.timer.Some?) + s.sem <= 1 && s.lost == 0
            && s.sessions + One(Pending(s)) == |s.armed|
            && (s.pc.InSession? ==> s.armed != [] && Due(Last(s)) <= s.uptime)
  {
    TimerRun(Init(planner, clock, uptime), schedule);
    SessionsAreArmed(Init(planner, clock, uptime), schedule);
  }

  lemma {:induction false} SessionsAreArmed(s: State, schedule: seq<Action>)
    requires TimerInv(s) && (s.pc.InSession? ==> s.sessions > 0)
    ensures Run(s, schedule).pc.InSession? ==> Run(s, schedule).sessions > 0
    decreases |schedule|
  {
    if schedule != [] {
      TimerStep(s, schedule[0]);
      SessionsAreArmed(Step(s, schedule[0]), schedule[1..]);
    }
  }

  // -------------------------------------------------------------- parked for good

  /** Waiting for a timer that is not running. */
  predicate Parked(s: State) {
    s.pc.Waiting? && !Pending(s)
  }

  /**
   * When the scheduler finds nothing the loop is never left again: no later append, and
   * no amount of time, starts another session.
   */
  lemma {:induction false} ParkedForever(s: State, schedule: seq<Action>)
    requires Parked(s)
    ensures Parked(Run(s, schedule)) && Run(s, schedule).sessions == s.sessions
    decreases |schedule|
  {
    if schedule != [] {
      ParkedForever(Step(s, schedule[0]), schedule[1..]);
    }
  }

  /**
   * When the loop parks: in the ephemeris build when no entry from the cursor on is still
   * to come, in the prediction build when every pass is outlasted by one already started.
   */
  lemma ParksIff(s: State)
    requires TimerInv(s) && Enabled(s, Schedule)
    requires s.planner.Prediction? ==> P.Predictor(s.planner.timeline, s.planner.next)
    ensures Parked(Step(s, Schedule)) <==>
      match s.planner
      case Ephemeris(table, cursor) =>
        forall j :: cursor <= j < |table| ==> MSEC_PER_SEC * table[j].timestamp <= s.clock
      case Prediction(timeline, _) =>
        forall p :: p in timeline ==> P.Outlasted(timeline, s.clock, p)
  {
    if s.planner.Ephemeris? {
      var table := s.planner.table;
      var i := FirstFuture(table, s.planner.cursor, s.clock / MSEC_PER_SEC);
      if i < |table| {
        assert MSEC_PER_SEC * table[i].timestamp > s.clock;
      }
    } else {
      P.NothingPlannedIff(s.planner.timeline, s.planner.next, s.clock);
    }
  }

  /** The prediction build can park, and so stop for good, with a pass still to come. */
  lemma ParksTooSoon(next: nat -> Option<P.SatPass>, schedule: seq<Action>)
    requires P.Predictor(P.NESTED, next)
    ensures var s := Run(Init(Prediction(P.NESTED, next), 1000, 0), [Schedule] + schedule);
            Parked(s) && s.sessions == 0
    ensures !P.NoneAfter(P.NESTED, 1000)
  {
    var i := Init(Prediction(P.NESTED, next), 1000, 0);
    P.NestedPassIsLost(next);
    assert ([Schedule] + schedule)[1..] == schedule;
    ParkedForever(Step(i, Schedule), schedule);
  }

  // ---------------------------------------------------------- what the clocks show

  /** The clock after `schedule`: what it was last set to, and the time since. */
  function ClockAfter(clock: nat, schedule: seq<Action>): nat {
    if schedule == [] then clock
    else
      var last, before := schedule[|schedule| - 1], schedule[..|schedule| - 1];
      if last.SetTime? then last.ms
      else ClockAfter(clock, before) + if last.Tick? then last.ms else 0
  }

  function Elapsed(schedule: seq<Action>): nat {
    if schedule == [] then 0
    else
      var last := schedule[|schedule| - 1];
      Elapsed(schedule[..|schedule| - 1]) + if last.Tick? then last.ms else 0
  }

  /** Setting the clock takes effect at once, forward or back, and touches nothing else. */
  lemma {:induction false} ClocksShow(s: State, schedule: seq<Action>)
    ensures Run(s, schedule).clock == ClockAfter(s.clock, schedule)
    ensures Run(s, schedule).uptime == s.uptime + Elapsed(schedule)
    decreases |schedule|
  {
    if schedule != [] {
      var n := |schedule| - 1;
      ClocksShow(s, schedule[..n]);
      assert schedule == schedule[..n] + [schedule[n]];
      ExecSnoc(Step, s, schedule[..n], schedule[n]);
    }
  }

  // ------------------------------------------------------------- the clock goes on

  /** The clock is set forward or left alone, never back. */
  predicate ClockForward(s: State, schedule: seq<Action>)
    decreases |schedule|
  {
    schedule != [] ==>
      && (schedule[0].SetTime? ==> s.clock <= schedule[0].ms)
      && ClockForward(Step(s, schedule[0]), schedule[1..])
  }

  /** Each arming waits until the timer of the one before is due on the clock of that one. */
  predicate Waited(armed: seq<Armed>, k: nat)
    requires 0 < k < |armed|
  {
    FiresAt(armed[k - 1].at, armed[k - 1].timeout) <= armed[k].at
  }

  predicate Spaced(armed: seq<Armed>) {
    forall k :: 0 < k < |armed| ==> Waited(armed, k)
  }

  predicate ClockInv(s: State) {
    && Spaced(s.armed)
    && (s.armed != [] ==> Last(s).up <= s.uptime && s.uptime - Last(s).up <= s.clock - Last(s).at)
  }

  lemma ClockPlan(s: State)
    requires TimerInv(s) && ClockInv(s) && Enabled(s, Schedule)
    ensures ClockInv(Plan(s))
  {
    forall k | 0 < k < |Plan(s).armed|
      ensures Waited(Plan(s).armed, k)
    {
      assert k < |s.armed| ==> Waited(s.armed, k);
    }
  }

  lemma ClockStep(s: State, a: Action)
    requires TimerInv(s) && ClockInv(s) && (a.SetTime? ==> s.clock <= a.ms)
    ensures ClockInv(Step(s, a))
  {
    if a.Schedule? && Enabled(s, a) {
      ClockPlan(s);
    }
  }

  lemma {:induction false} ClockRun(s: State, schedule: seq<Action>)
    requires TimerInv(s) && ClockInv(s) && ClockForward(s, schedule)
    ensures ClockInv(Run(s, schedule))
    decreases |schedule|
  {
    if schedule != [] {
      TimerStep(s, schedule[0]);
      ClockStep(s, schedule[0]);
      ClockRun(Step(s, schedule[0]), schedule[1..]);
    }
  }

  lemma {:induction false} SpacedInTime(armed: seq<Armed>, i: nat, j: nat)
    requires Spaced(armed) && i < j < |armed|
    ensures FiresAt(armed[i].at, armed[i].timeout) <= armed[j].at
    decreases j
  {
    assert Waited(armed, j);
    if i < j - 1 {
      SpacedInTime(armed, i, j - 1);
    }
  }

  // ------------------------------------------------------- the ephemeris schedule

  /** The entry armed before the k-th, from which the search goes on. */
  function Previous(armed: seq<Armed>, k: nat): nat
    requires k <= |armed|
  {
    if k == 0 then 0 else armed[k - 1].index
  }

  /** `r` is the first future entry from `from` on in the table as it then was. */
  predicate Chosen(table: seq<Pass>, from: nat, r: Armed) {
    && from <= r.index < r.len <= |table|
    && r.index == FirstFuture(table[..r.len], from, r.at / MSEC_PER_SEC)
    && r.start == MSEC_PER_SEC * table[r.index].timestamp
    && r.timeout == table[r.index].timestamp - r.at / MSEC_PER_SEC
  }

  predicate Link(table: seq<Pass>, armed: seq<Armed>, k: nat)
    requires k < |armed|
  {
    Chosen(table, Previous(armed, k), armed[k])
  }

  predicate Chain(table: seq<Pass>, armed: seq<Armed>) {
    forall k :: 0 <= k < |armed| ==> Link(table, armed, k)
  }

  predicate EphemerisInv(s: State) {
    && s.planner.Ephemeris?
    && s.planner.cursor <= |s.planner.table| <= CAPACITY
    && Chain(s.planner.table, s.armed)
    && (!Parked(s) ==> s.planner.cursor == Previous(s.armed, |s.armed|))
  }

  lemma ChosenAfterAppend(table: seq<Pass>, p: Pass, from: nat, r: Armed)
    requires Chosen(table, from, r)
    ensures Chosen(table + [p], from, r)
  {
    assert (table + [p])[..r.len] == table[..r.len];
  }

  lemma EphemerisAppend(s: State, p: Pass)
    requires EphemerisInv(s)
    ensures EphemerisInv(Step(s, Append(p)))
  {
    if Enabled(s, Append(p)) {
      forall k | 0 <= k < |s.armed|
        ensures Link(s.planner.table + [p], s.armed, k)
      {
        assert Link(s.planner.table, s.armed, k);
        ChosenAfterAppend(s.planner.table, p, Previous(s.armed, k), s.armed[k]);
      }
    }
  }

  lemma ChainGrows(table: seq<Pass>, armed: seq<Armed>, r: Armed)
    requires Chain(table, armed) && Chosen(table, Previous(armed, |armed|), r)
    ensures Chain(table, armed + [r])
  {
    forall k | 0 <= k < |armed + [r]|
      ensures Link(table, armed + [r], k)
    {
      assert k < |armed| ==> Link(table, armed, k);
    }
  }

  lemma EphemerisPlan(s: State)
    requires TimerInv(s) && EphemerisInv(s) && s.pc.Scheduling?
    ensures EphemerisInv(Plan(s))
  {
    var table, sec := s.planner.table, s.clock / MSEC_PER_SEC;
    var i := FirstFuture(table, s.planner.cursor, sec);
    if i < |table| {
      var r := Armed(s.clock, s.uptime, |table|, i, MSEC_PER_SEC * table[i].timestamp,
                     table[i].timestamp - sec);
      assert table[..|table|] == table;
      ChainGrows(table, s.armed, r);
      assert Plan(s).armed == s.armed + [r];
    } else {
      assert Plan(s).armed == s.armed && Parked(Plan(s));
    }
  }

  lemma EphemerisOther(s: State, a: Action)
    requires TimerInv(s) && !a.Append? && !a.Schedule?
    ensures var t := Step(s, a);
            t.planner == s.planner && t.armed == s.armed && (Parked(s) ==> Parked(t))
  {
  }

  lemma EphemerisStep(s: State, a: Action)
    requires TimerInv(s) && EphemerisInv(s)
    ensures EphemerisInv(Step(s, a))
  {
    if a.Append? {
      EphemerisAppend(s, a.p);
    } else if !a.Schedule? {
      EphemerisOther(s, a);
    } else if s.pc.Scheduling? {
      EphemerisPlan(s);
    }
  }

  lemma {:induction false} EphemerisRun(s: State, schedule: seq<Action>)
    requires TimerInv(s) && EphemerisInv(s)
    ensures EphemerisInv(Run(s, schedule))
    decreases |schedule|
  {
    if schedule != [] {
      TimerStep(s, schedule[0]);
      EphemerisStep(s, schedule[0]);
      EphemerisRun(Step(s, schedule[0]), schedule[1..]);
    }
  }

  lemma {:induction false} IndicesGrow(table: seq<Pass>, armed: seq<Armed>, i: nat, j: nat)
    requires Chain(table, armed) && i <= j < |armed|
    ensures armed[i].index <= armed[j].index
    decreases j
  {
    if i < j {
      IndicesGrow(table, armed, i, j - 1);
      assert Link(table, armed, j);
    }
  }

  /** The next arming repeats the entry exactly when the clock again shows a second before it. */
  lemma RepeatsIff(table: seq<Pass>, armed: seq<Armed>, k: nat)
    requires Chain(table, armed) && 0 < k < |armed|
    ensures var r := armed[k - 1];
            && r.index < |table|
            && (armed[k].index == r.index <==> armed[k].at / MSEC_PER_SEC < table[r.index].timestamp)
  {
    assert Link(table, armed, k - 1) && Link(table, armed, k);
    var t := table[..armed[k].len];
    assert t[armed[k - 1].index] == table[armed[k - 1].index];
  }

  /**
   * Over every run, however the clock is set: indices never go back, and an entry is armed
   * again exactly when every scheduling since has found the clock set back to before it.
   */
  lemma ArmedTwiceIff(table: seq<Pass>, clock: nat, uptime: nat, schedule: seq<Action>, i: nat, j: nat)
    requires |table| <= CAPACITY
    requires i < j < |Run(Init(Ephemeris(table, 0), clock, uptime), schedule).armed|
    ensures var s := Run(Init(Ephemeris(table, 0), clock, uptime), schedule);
            && s.armed[i].index <= s.armed[j].index
            && (s.armed[i].index == s.armed[j].index <==>
                  forall k :: i < k <= j ==>
                    s.armed[k].at / MSEC_PER_SEC < s.armed[i].start / MSEC_PER_SEC)
  {
    var begin := Init(Ephemeris(table, 0), clock, uptime);
    var s := Run(begin, schedule);
    TimerRun(begin, schedule);
    EphemerisRun(begin, schedule);
    TwiceWithin(s.planner.table, s.armed, i, j);
  }

  lemma {:induction false} TwiceWithin(table: seq<Pass>, armed: seq<Armed>, i: nat, j: nat)
    requires Chain(table, armed) && i < j < |armed|
    ensures armed[i].index <= armed[j].index
    ensures armed[i].index == armed[j].index <==>
              forall k :: i < k <= j ==> armed[k].at / MSEC_PER_SEC < armed[i].start / MSEC_PER_SEC
    decreases j
  {
    assert Link(table, armed, i);
    IndicesGrow(table, armed, i, j - 1);
    IndicesGrow(table, armed, j - 1, j);
    RepeatsIff(table, armed, j);
    if i < j - 1 {
      TwiceWithin(table, armed, i, j - 1);
    }
  }

  // ----------------------------------------------- ... while the clock is not set back

  /** What the run must have armed, from the table and the clock alone: no cursor. */
  predicate Greedy(table: seq<Pass>, r: Armed) {
    Chosen(table, 0, r)
  }

  predicate Increasing(armed: seq<Armed>) {
    forall i, j :: 0 <= i < j < |armed| ==> armed[i].index < armed[j].index && armed[i].at <= armed[j].at
  }

  /** After its timer was due, an entry is no longer in the future. */
  lemma ServedIsOver(table: seq<Pass>, from: nat, r: Armed, at: nat)
    requires Chosen(table, from, r) && FiresAt(r.at, r.timeout) <= at
    ensures table[r.index].timestamp <= at / MSEC_PER_SEC
  {
    EphemerisArming(r.at, table[r.index].timestamp);
  }

  /** The pass just served is over by a second's truncation: the cursor moves past it. */
  lemma CursorMoves(s: State)
    requires TimerInv(s) && EphemerisInv(s) && ClockInv(s) && s.pc.Scheduling? && s.armed != []
    ensures s.planner.cursor == Last(s).index < |s.planner.table|
    ensures s.planner.table[s.planner.cursor].timestamp <= s.clock / MSEC_PER_SEC
    ensures Last(s).index < FirstFuture(s.planner.table, s.planner.cursor, s.clock / MSEC_PER_SEC)
  {
    var k := |s.armed| - 1;
    assert Link(s.planner.table, s.armed, k);
    ServedIsOver(s.planner.table, Previous(s.armed, k), Last(s), s.clock);
  }

  lemma {:induction false} ChainIsGreedy(table: seq<Pass>, armed: seq<Armed>, k: nat)
    requires Chain(table, armed) && Spaced(armed) && k < |armed|
    ensures Greedy(table, armed[k])
  {
    var r := armed[k];
    assert Link(table, armed, k);
    if k > 0 {
      var q := armed[k - 1];
      ChainIsGreedy(table, armed, k - 1);
      assert Waited(armed, k);
      assert forall j :: 0 <= j < q.index ==> table[..q.len][j].timestamp <= q.at / MSEC_PER_SEC;
      CursorIsRedundant(table[..r.len], q.index, r.at / MSEC_PER_SEC);
    }
  }

  lemma GreedyIncreases(table: seq<Pass>, armed: seq<Armed>, i: nat, j: nat)
    requires Chain(table, armed) && Spaced(armed) && i < j < |armed|
    ensures armed[i].index < armed[j].index && armed[i].at <= armed[j].at
  {
    SpacedInTime(armed, i, j);
    IndicesGrow(table, armed, i, j);
    TwiceWithin(table, armed, i, j);
    assert Link(table, armed, i);
    ServedIsOver(table, Previous(armed, i), armed[i], armed[j].at);
  }

  /**
   * Over every run in which the clock is not set back, with passes appended at any moment:
   * each armed entry is the first in the whole table, as it then was, that starts after the
   * current second; indices grow strictly, so no entry is served twice. In session the
   * entry under the cursor, whose duration sets the window, is the one that was armed.
   */
  lemma GreedyRun(table: seq<Pass>, clock: nat, uptime: nat, schedule: seq<Action>)
    requires |table| <= CAPACITY && ClockForward(Init(Ephemeris(table, 0), clock, uptime), schedule)
    ensures var s := Run(Init(Ephemeris(table, 0), clock, uptime), schedule);
            && s.planner.Ephemeris?
            && (forall i :: 0 <= i < |s.armed| ==> Greedy(s.planner.table, s.armed[i]))
            && Increasing(s.armed)
            && (s.pc.InSession? ==> s.armed != [] && s.planner.cursor == Last(s).index)
  {
    var begin := Init(Ephemeris(table, 0), clock, uptime);
    var s := Run(begin, schedule);
    TimerRun(begin, schedule);
    SessionsAreArmed(begin, schedule);
    EphemerisRun(begin, schedule);
    ClockRun(begin, schedule);
    forall k | 0 <= k < |s.armed|
      ensures Greedy(s.planner.table, s.armed[k])
    {
      ChainIsGreedy(s.planner.table, s.armed, k);
    }
    forall i, j | 0 <= i < j < |s.armed|
      ensures s.armed[i].index < s.armed[j].index && s.armed[i].at <= s.armed[j].at
    {
      GreedyIncreases(s.planner.table, s.armed, i, j);
    }
  }

  /** Entry `j` lies before the k-th armed entry and was not armed earlier. */
  predicate Missed(s: State, j: nat, k: nat) {
    && k < |s.armed| && j < s.armed[k].index
    && forall i :: 0 <= i < k ==> s.armed[i].index != j
  }

  /**
   * A pass is passed over only if its start second had been reached when the scheduler
   * ran, and the entry chosen instead starts later than it.
   */
  lemma MissedOnlyIfStarted(table: seq<Pass>, clock: nat, uptime: nat, schedule: seq<Action>, j: nat, k: nat)
    requires |table| <= CAPACITY && ClockForward(Init(Ephemeris(table, 0), clock, uptime), schedule)
    requires Missed(Run(Init(Ephemeris(table, 0), clock, uptime), schedule), j, k)
    ensures var s := Run(Init(Ephemeris(table, 0), clock, uptime), schedule);
            s.planner.Ephemeris? && j < |s.planner.table|
            && MSEC_PER_SEC * s.planner.table[j].timestamp <= s.armed[k].at < s.armed[k].start
  {
    GreedyRun(table, clock, uptime, schedule);
    var s := Run(Init(Ephemeris(table, 0), clock, uptime), schedule);
    var r := s.armed[k];
    assert Greedy(s.planner.table, r);
    assert s.planner.table[..r.len][j].timestamp <= r.at / MSEC_PER_SEC;
  }

  /** No entry present at an arming and still to come then starts before the one armed. */
  predicate ArmsEarliest(table: seq<Pass>, r: Armed)
    requires r.len <= |table|
  {
    forall p :: p in table[..r.len] && MSEC_PER_SEC * p.timestamp > r.at ==>
      r.start <= MSEC_PER_SEC * p.timestamp
  }

  /** When starts are listed in turn every armed pass is the earliest of those still to come. */
  lemma EarliestFirst(table: seq<Pass>, clock: nat, uptime: nat, schedule: seq<Action>, k: nat)
    requires |table| <= CAPACITY && ClockForward(Init(Ephemeris(table, 0), clock, uptime), schedule)
    requires k < |Run(Init(Ephemeris(table, 0), clock, uptime), schedule).armed|
    ensures var s := Run(Init(Ephemeris(table, 0), clock, uptime), schedule);
            && s.planner.Ephemeris? && s.armed[k].len <= |s.planner.table|
            && (StartsInTurn(s.planner.table) ==> ArmsEarliest(s.planner.table, s.armed[k]))
  {
    GreedyRun(table, clock, uptime, schedule);
    var s := Run(Init(Ephemeris(table, 0), clock, uptime), schedule);
    var r := s.armed[k];
    assert Greedy(s.planner.table, r);
    if StartsInTurn(s.planner.table) {
      InTurnBefore(s.planner.table, r.len);
      InTurnIsEarliest(s.planner.table[..r.len], r.at / MSEC_PER_SEC);
      forall p | p in s.planner.table[..r.len] && MSEC_PER_SEC * p.timestamp > r.at
        ensures r.start <= MSEC_PER_SEC * p.timestamp
      {
        assert r.at / MSEC_PER_SEC < p.timestamp;
      }
    }
  }

  lemma InTurnBefore(table: seq<Pass>, len: nat)
    requires StartsInTurn(table) && len <= |table|
    ensures StartsInTurn(table[..len])
  {
    forall j | 0 <= j < len
      ensures InTurn(table[..len], j)
    {
      assert InTurn(table, j);
    }
  }

  /** When they are not, some clock makes the very first arming miss an earlier pass. */
  lemma EarliestFirstNeeds(table: seq<Pass>, uptime: nat)
    requires |table| <= CAPACITY && !StartsInTurn(table)
    ensures exists clock ::
              var s := Run(Init(Ephemeris(table, 0), clock, uptime), [Schedule]);
              |s.armed| == 1 && s.armed[0].len <= |table| && !ArmsEarliest(table, s.armed[0])
  {
    var j :| 0 <= j < |table| && !InTurn(table, j);
    OutOfTurnIsMissed(table, j);
    var sec := table[j].timestamp - 1;
    var clock: nat := MSEC_PER_SEC * sec;
    var s := Run(Init(Ephemeris(table, 0), clock, uptime), [Schedule]);
    assert [Schedule][1..] == [];
    assert clock / MSEC_PER_SEC == sec;
    assert s == Plan(Init(Ephemeris(table, 0), clock, uptime));
    var i := FirstFuture(table, 0, sec);
    var p :| p in table && sec < p.timestamp && !(i < |table| && table[i].timestamp <= p.timestamp);
    assert table[..|table|] == table;
    assert p in table[..s.armed[0].len];
  }

  // ------------------------------------------------------ the prediction schedule

  ghost predicate Predicted(timeline: seq<P.SatPass>, next: nat -> Option<P.SatPass>, r: Armed) {
    var p := P.Planned(timeline, next, r.at);
    p.Some? && r.start == p.value.start
  }

  ghost predicate PredictionInv(s: State, timeline: seq<P.SatPass>, next: nat -> Option<P.SatPass>) {
    && s.planner == Prediction(timeline, next)
    && (forall i :: 0 <= i < |s.armed| ==> Predicted(timeline, next, s.armed[i]))
  }

  lemma PredictionStep(s: State, timeline: seq<P.SatPass>, next: nat -> Option<P.SatPass>, a: Action)
    requires PredictionInv(s, timeline, next)
    ensures PredictionInv(Step(s, a), timeline, next)
  {
    var p := P.Planned(timeline, next, s.clock);
    if a.Schedule? && s.pc.Scheduling? && p.Some? {
      var r := Armed(s.clock, s.uptime, 0, 0, p.value.start, P.Timeout(p.value.start, s.clock));
      assert Step(s, a).armed == s.armed + [r];
    } else {
      assert Step(s, a).armed == s.armed;
    }
  }

  lemma {:induction false} PredictionRun(s: State, timeline: seq<P.SatPass>, next: nat -> Option<P.SatPass>,
                                         schedule: seq<Action>)
    requires PredictionInv(s, timeline, next)
    ensures PredictionInv(Run(s, schedule), timeline, next)
    decreases |schedule|
  {
    if schedule != [] {
      PredictionStep(s, timeline, next, schedule[0]);
      PredictionRun(Step(s, schedule[0]), timeline, next, schedule[1..]);
    }
  }

  /**
   * Of two armings of a run the one with the later clock never starts earlier, and it
   * starts strictly later exactly when that clock had reached the start of the other.
   */
  lemma PredictionOrder(timeline: seq<P.SatPass>, next: nat -> Option<P.SatPass>, clock: nat, uptime: nat,
                        schedule: seq<Action>, i: nat, j: nat)
    requires P.Predictor(timeline, next)
    requires var armed := Run(Init(Prediction(timeline, next), clock, uptime), schedule).armed;
             i < |armed| && j < |armed| && armed[i].at <= armed[j].at
    ensures var s := Run(Init(Prediction(timeline, next), clock, uptime), schedule);
            && s.armed[i].start <= s.armed[j].start
            && (s.armed[i].start < s.armed[j].start <==> s.armed[i].start <= s.armed[j].at)
  {
    var begin := Init(Prediction(timeline, next), clock, uptime);
    var s := Run(begin, schedule);
    PredictionRun(begin, timeline, next, schedule);
    assert Predicted(timeline, next, s.armed[i]) && Predicted(timeline, next, s.armed[j]);
    P.RearmedIff(timeline, next, s.armed[i].at, s.armed[j].at);
  }

  /** While the clock is not set back, later armings of either build have later clocks. */
  lemma ArmedInOrder(planner: Planner, clock: nat, uptime: nat, schedule: seq<Action>, i: nat, j: nat)
    requires ClockForward(Init(planner, clock, uptime), schedule)
    requires i < j < |Run(Init(planner, clock, uptime), schedule).armed|
    ensures var armed := Run(Init(planner, clock, uptime), schedule).armed;
            FiresAt(armed[i].at, armed[i].timeout) <= armed[j].at
  {
    ClockRun(Init(planner, clock, uptime), schedule);
    SpacedInTime(Run(Init(planner, clock, uptime), schedule).armed, i, j);
  }

  /** Schedule, wait until the timer is due, begin the session. */
  function Cycle(wait: nat): seq<Action> {
    [Schedule, Tick(wait), Fire, Take]
  }

  lemma CycleServes(s: State)
    requires Enabled(s, Schedule) && s.timer.None? && s.sem == 0
    requires |Plan(s).armed| == |s.armed| + 1
    ensures var r := Last(Plan(s));
            Run(s, Cycle(MSEC_PER_SEC * r.timeout)) ==
            Plan(s).(pc := InSession, clock := s.clock + MSEC_PER_SEC * r.timeout,
                     uptime := Due(r), timer := None, sessions := s.sessions + 1)
  {
    var timeout := Last(Plan(s)).timeout;
    Exec4(Step, s, Schedule, Tick(MSEC_PER_SEC * timeout), Fire, Take);
  }

  lemma ServesOnlyPass(s: State, p: P.SatPass, next: nat -> Option<P.SatPass>, wait: nat)
    requires s.planner == Prediction([p], next) && P.Predictor([p], next)
    requires s.pc.Scheduling? && s.timer.None? && s.sem == 0 && s.clock < p.start
    requires wait == MSEC_PER_SEC * P.Timeout(p.start, s.clock)
    ensures var r := Armed(s.clock, s.uptime, 0, 0, p.start, P.Timeout(p.start, s.clock));
            Run(s, Cycle(wait)) ==
            s.(pc := InSession, clock := s.clock + wait, uptime := s.uptime + wait,
               sessions := s.sessions + 1, armed := s.armed + [r])
  {
    assert p in [p];
    assert P.Planned([p], next, s.clock) == Some(p);
    CycleServes(s);
  }

  const TWICE := Cycle(1000) + [EndSession] + Cycle(0)

  /**
   * The prediction build can serve a pass twice: the timeout is cut to whole seconds, so
   * a session that ends at once ends before the pass has begun.
   */
  lemma PredictionServesTwice(next: nat -> Option<P.SatPass>)
    requires P.Predictor([P.SatPass(2500, 60_000)], next)
    ensures var s := Run(Init(Prediction([P.SatPass(2500, 60_000)], next), 1000, 0), TWICE);
            s.sessions == 2 && |s.armed| == 2 && s.armed[0].start == s.armed[1].start
  {
    var p := P.SatPass(2500, 60_000);
    var a := Init(Prediction([p], next), 1000, 0);
    ServesOnlyPass(a, p, next, 1000);
    ExecSnoc(Step, a, Cycle(1000), EndSession);
    ServesOnlyPass(Run(a, Cycle(1000) + [EndSession]), p, next, 0);
    ExecConcat(Step, a, Cycle(1000) + [EndSession], Cycle(0));
  }

  const SET_BACK := Cycle(1000) + [SetTime(1000), EndSession] + Cycle(1000)

  /** The ephemeris build serves an entry twice when the clock is set back meanwhile. */
  lemma SetBackServesTwice()
    ensures var s := Run(Init(Ephemeris([Pass(2, 60)], 0), 1000, 0), SET_BACK);
            s.sessions == 2 && |s.armed| == 2 && s.armed[0].index == s.armed[1].index
  {
    var a := Init(Ephemeris([Pass(2, 60)], 0), 1000, 0);
    CycleServes(a);
    var b := Run(a, Cycle(1000));
    Exec2(Step, b, SetTime(1000), EndSession);
    ExecConcat(Step, a, Cycle(1000), [SetTime(1000), EndSession]);
    var c := Run(a, Cycle(1000) + [SetTime(1000), EndSession]);
    CycleServes(c);
    ExecConcat(Step, a, Cycle(1000) + [SetTime(1000), EndSession], Cycle(1000));
  }
}
