/**
 * The loop of app/src/main.c in the ephemeris build, over the table of sat_board.c:
 * scheduler, timer, and a session that runs sat_transmit, while Bluetooth appends passes.
 */
module MainLoop {
  import opened Machine
  import opened Runs
  import opened PassSchedule
  import opened TransmitWindow
  import opened TransmitLoop
  import opened EphemerisBoard

  /**
   * What a session meets: whether _sat_enable succeeds and how long it takes, what
   * hubble_sat_packet_get returns, the time between the two clock reads that open the
   * window, and the turns of its loop.
   */
  datatype Session = Session(enabled: bool, enabling: nat, packet: int, gap: nat, turns: nat -> Iteration)

  /** What one step of main meets: the passes that arrive while it schedules, or its session. */
  datatype Env = Env(arrivals: seq<seq<Pass>>, session: Session)

  /** One finished session: the arming it answers, its window, and when it sent, in uptime. */
  datatype Record = Record(cause: Armed, ready: bool, first: nat, second: nat, starts: seq<nat>)

  /** The end of the window: the duration of the armed entry after the second clock read. */
  function WindowEnd(table: seq<Pass>, w: Record): nat
    requires w.cause.index < |table|
  {
    w.second + MSEC_PER_SEC * table[w.cause.index].duration
  }

  /** The window opens after the timer was due; every send falls in it, and no more than fit. */
  predicate InWindow(table: seq<Pass>, r: byte, w: Record) {
    && w.cause.index < |table| && Due(w.cause) <= w.first <= w.second
    && (forall k :: 0 <= k < |w.starts| ==> w.first <= w.starts[k] <= WindowEnd(table, w))
    && (w.starts != [] ==> |w.starts| <= (WindowEnd(table, w) - w.first) / Pace(r) + 1)
    && (w.ready <==> w.starts != [])
  }

  /** The clock at uptime `u`, as it was when the timer was armed. */
  function ClockAt(r: Armed, u: nat): int {
    r.at + (u - r.up)
  }

  /**
   * No send before the start of the pass, nor later than its start second, the time from
   * the timer to the opening of the window, and the duration allow.
   */
  predicate OnTime(table: seq<Pass>, w: Record) {
    && w.cause.index < |table|
    && forall k :: 0 <= k < |w.starts| ==>
         w.cause.start <= ClockAt(w.cause, w.starts[k])
           < w.cause.start + MSEC_PER_SEC + (w.second - Due(w.cause))
             + MSEC_PER_SEC * table[w.cause.index].duration
  }

  lemma WindowIsOnTime(table: seq<Pass>, from: nat, r: byte, w: Record)
    requires InWindow(table, r, w) && Chosen(table, from, w.cause)
    ensures OnTime(table, w)
  {
    EphemerisArming(w.cause.at, table[w.cause.index].timestamp);
    assert w.cause.start <= ClockAt(w.cause, Due(w.cause)) < w.cause.start + MSEC_PER_SEC;
  }

  /** The k-th finished session answers the k-th arming and keeps to the window of its pass. */
  predicate SessionsInv(s: State, r: byte, records: seq<Record>) {
    && s.planner.Ephemeris?
    && |records| + One(s.pc.InSession?) == s.sessions
    && |records| <= |s.armed|
    && (forall k :: 0 <= k < |records| ==>
          && records[k].cause == s.armed[k]
          && InWindow(s.planner.table, r, records[k]) && OnTime(s.planner.table, records[k]))
  }

  lemma SessionsStep(s: State, a: Action, r: byte, records: seq<Record>)
    requires SessionsInv(s, r, records) && !a.EndSession?
    ensures SessionsInv(Step(s, a), r, records)
  {
  }

  lemma {:induction false} SessionsRun(s: State, schedule: seq<Action>, r: byte, records: seq<Record>)
    requires SessionsInv(s, r, records)
    requires forall i :: 0 <= i < |schedule| ==> !schedule[i].EndSession?
    ensures SessionsInv(Run(s, schedule), r, records)
    decreases |schedule|
  {
    if schedule != [] {
      SessionsStep(s, schedule[0], r, records);
      SessionsRun(Step(s, schedule[0]), schedule[1..], r, records);
    }
  }

  /** In a session the cursor is at the entry that was armed for it. */
  lemma SessionIsArmed(s: State, r: byte, records: seq<Record>)
    requires TimerInv(s) && EphemerisInv(s) && SessionsInv(s, r, records) && s.pc.InSession?
    ensures s.armed != [] && Last(s).index == s.planner.cursor < |s.planner.table|
  {
    assert Link(s.planner.table, s.armed, |s.armed| - 1);
  }

  lemma SessionEnds(s: State, r: byte, records: seq<Record>, w: Record)
    requires TimerInv(s) && EphemerisInv(s) && SessionsInv(s, r, records) && s.pc.InSession?
    requires s.armed != [] && w.cause == Last(s) && InWindow(s.planner.table, r, w)
    ensures var t := Step(s, EndSession);
            TimerInv(t) && EphemerisInv(t) && SessionsInv(t, r, records + [w])
  {
    TimerStep(s, EndSession);
    EphemerisStep(s, EndSession);
    var k := |s.armed| - 1;
    assert Link(s.planner.table, s.armed, k);
    WindowIsOnTime(s.planner.table, Previous(s.armed, k), r, w);
  }

  lemma SessionRuns(s: State, took: nat, r: byte, records: seq<Record>, w: Record)
    requires TimerInv(s) && EphemerisInv(s) && SessionsInv(s, r, records) && s.pc.InSession?
    requires s.armed != [] && w.cause == Last(s) && InWindow(s.planner.table, r, w)
    ensures SessionsInv(Step(Step(s, Tick(took)), EndSession), r, records + [w])
  {
    TimerStep(s, Tick(took));
    EphemerisStep(s, Tick(took));
    SessionEnds(Step(s, Tick(took)), r, records, w);
  }

  /** The passes of `ps` arrive one after the other. */
  function Appends(ps: seq<Pass>): seq<Action> {
    seq(|ps|, i requires 0 <= i < |ps| => Append(ps[i]))
  }

  lemma {:induction false} AppendsAll(s: State, ps: seq<Pass>)
    requires s.planner.Ephemeris? && |s.planner.table| <= CAPACITY
    ensures Run(s, Appends(ps)) == s.(planner := s.planner.(table := AppendAll(s.planner.table, ps)))
    decreases |ps|
  {
    if ps == [] {
      assert AppendAll(s.planner.table, ps) == s.planner.table;
    } else {
      var t := Step(s, Append(ps[0]));
      assert Appends(ps)[0] == Append(ps[0]) && Appends(ps)[1..] == Appends(ps[1..]);
      assert AppendAll(s.planner.table, [ps[0]]) == t.planner.table;
      AppendsAll(t, ps[1..]);
      AppendAllConcat(s.planner.table, [ps[0]], ps[1..]);
      assert [ps[0]] + ps[1..] == ps;
    }
  }

  /** What can come with a step: appends while the scheduler runs, time while a session does. */
  predicate ComesWith(a: Action, more: seq<Action>) {
    if a.Schedule? then forall i :: 0 <= i < |more| ==> more[i].Append?
    else if a.EndSession? then forall i :: 0 <= i < |more| ==> more[i].Tick?
    else more == []
  }

  /** The schedule with what came with each of its steps put before it. */
  function Expand(schedule: seq<Action>, during: seq<seq<Action>>): seq<Action>
    requires |during| == |schedule|
  {
    if schedule == [] then []
    else
      var n := |schedule| - 1;
      Expand(schedule[..n], during[..n]) + (during[n] + [schedule[n]])
  }

  lemma ExpandNext(s: State, schedule: seq<Action>, i: nat, during: seq<seq<Action>>, more: seq<Action>)
    requires |during| == i < |schedule|
    ensures Run(s, Expand(schedule[..i + 1], during + [more])) ==
            Run(Run(s, Expand(schedule[..i], during)), more + [schedule[i]])
  {
    assert schedule[..i + 1][..i] == schedule[..i] && (during + [more])[..i] == during;
    ExecConcat(Step, s, Expand(schedule[..i], during), more + [schedule[i]]);
  }

  class Loop {
    const board: SatBoard
    var pc: Pc
    var clock: nat
    var uptime: nat
    var expiry: Option<nat>
    var timerSem: nat
    ghost var lost: nat
    ghost var sessions: nat
    ghost var armed: seq<Armed>
    ghost var records: seq<Record>

    ghost predicate Valid()
      reads this, board
    {
      board.Valid()
    }

    ghost function View(): State
      requires Valid()
      reads this, board, board.passes
    {
      State(Ephemeris(board.Table(), board.idx), pc, clock, uptime, expiry, timerSem, lost, sessions,
            armed)
    }

    ghost predicate LoopInv()
      reads this, board, board.passes
    {
      Valid() && TimerInv(View()) && EphemerisInv(View())
      && SessionsInv(View(), board.retransmission, records)
    }

    constructor (board: SatBoard, clock: nat, uptime: nat)
      requires board.Valid() && board.idx == 0
      ensures Valid() && this.board == board
      ensures View() == Init(Ephemeris(board.Table(), 0), clock, uptime) && LoopInv() && records == []
    {
      this.board, this.clock, this.uptime := board, clock, uptime;
      pc, expiry, timerSem := Scheduling, None, 0;
      lost, sessions, armed, records := 0, 0, [], [];
    }

    /** The scheduler's result is ignored: with or without a timer main waits. */
    method ScheduleAndWait(arrivals: seq<seq<Pass>>) returns (ghost seen: nat)
      requires Valid() && pc.Scheduling?
      modifies this`pc, this`expiry, this`armed
      modifies board`idx, board`count, board`timer, board.passes
      ensures Valid() && seen <= |arrivals|
      ensures var s := old(View());
              var table := AppendAll(s.planner.table, Flatten(arrivals[..seen]));
              View() == Plan(s.(planner := s.planner.(table := table)))
    {
      var err;
      err, seen := board.ScheduleNext(clock, arrivals);
      pc := Waiting;
      if err == 0 {
        var timeout := board.timer.value;
        expiry := Some(FiresAt(uptime, timeout));
        armed := armed + [Armed(clock, uptime, |board.Table()|, board.idx,
                                MSEC_PER_SEC * board.Table()[board.idx].timestamp, timeout)];
      }
    }

    /** A pass that arrives over Bluetooth while main waits or transmits. */
    method ReceivePass(p: Pass)
      requires Valid()
      modifies board`count, board.passes
      ensures Valid() && View() == Step(old(View()), Append(p))
    {
      ghost var table := board.Table();
      var _ := board.PassAdd(p.timestamp, p.duration);
      assert board.Table() == if |table| < CAPACITY then table + [p] else table;
    }

    /** _timer_cb. */
    method TimerCallback()
      requires Valid()
      modifies this`expiry, this`timerSem, this`lost
      ensures Valid() && View() == Step(old(View()), Fire)
    {
      if expiry.Some? && expiry.value <= uptime {
        expiry := None;
        if timerSem < 1 {
          timerSem := timerSem + 1;
        } else {
          lost := lost + 1;
        }
      }
    }

    method TakeTimerSem()
      requires Valid()
      modifies this`timerSem, this`pc, this`sessions
      ensures Valid() && View() == Step(old(View()), Take)
    {
      if pc.Waiting? && timerSem > 0 {
        timerSem := timerSem - 1;
        pc, sessions := InSession, sessions + 1;
      }
    }

    /** sat_transmit; `end` closes the window of the entry under the cursor. */
    method Transmission(env: Session, first: nat, ghost end: nat) returns (starts: seq<nat>, done: nat)
      requires Valid() && board.idx < |board.Table()| && Paced(env.turns, board.retransmission)
      requires end == first + env.gap + MSEC_PER_SEC * board.Table()[board.idx].duration
      modifies board`transmitting
      ensures starts != [] ==> starts[0] == first
      ensures forall k: nat {:trigger env.turns(k)} :: k + 1 < |starts| ==>
        starts[k + 1] == starts[k] + env.turns(k).took + env.turns(k).slept
      ensures starts != [] ==>
        var last := |starts| - 1;
        && AllSent(env.turns, last)
        && (env.turns(last).ret == 0 ==> end < done)
        && done == starts[last] + env.turns(last).took
                   + if env.turns(last).ret == 0 then env.turns(last).slept else 0
      ensures starts == [] ==> done == first
      ensures forall k :: 0 <= k < |starts| ==> first <= starts[k] <= Min(done, end)
      ensures first <= done
      ensures starts != [] ==> |starts| <= (end - first) / Pace(board.retransmission) + 1
      ensures env.enabled && env.packet == 0 <==> starts != []
    {
      starts, done := [], first;
      if env.enabled {
        var ret;
        ret, starts, done := board.Transmit(env.packet, first, first + env.gap, env.turns);
      }
    }

    /**
     * A session, and back to the scheduler: _sat_enable, sat_transmit unless it failed. The
     * window is that of the pass that was armed, whatever arrived meanwhile.
     */
    method RunSession(env: Session) returns (ghost w: Record, ghost took: nat)
      requires Valid() && pc.InSession? && Paced(env.turns, board.retransmission)
      requires armed != [] && armed[|armed| - 1].index == board.idx < |board.Table()|
      requires Due(armed[|armed| - 1]) <= uptime
      modifies this`pc, this`clock, this`uptime, this`records, board`transmitting
      ensures Valid() && View() == Step(Step(old(View()), Tick(took)), EndSession)
      ensures records == old(records) + [w] && InWindow(board.Table(), board.retransmission, w)
      ensures w.cause == armed[|armed| - 1] && w.ready == (env.enabled && env.packet == 0)
      ensures w.first == old(uptime) + env.enabling && w.second == w.first + env.gap
      ensures w.starts != [] ==> w.starts[0] == w.first
      ensures forall k: nat {:trigger env.turns(k)} :: k + 1 < |w.starts| ==>
        w.starts[k + 1] == w.starts[k] + env.turns(k).took + env.turns(k).slept
      ensures w.starts != [] ==>
        var last := |w.starts| - 1;
        && AllSent(env.turns, last)
        && (env.turns(last).ret == 0 ==> WindowEnd(board.Table(), w) < uptime)
        && uptime == w.starts[last] + env.turns(last).took
                     + if env.turns(last).ret == 0 then env.turns(last).slept else 0
      ensures w.starts == [] ==> uptime == w.first
    {
      var first := uptime + env.enabling;
      ghost var end := first + env.gap + MSEC_PER_SEC * board.Table()[board.idx].duration;
      var starts, done := Transmission(env, first, end);
      w := Record(armed[|armed| - 1], env.enabled && env.packet == 0, first, first + env.gap, starts);
      took := done - uptime;
      clock, uptime := clock + (done - uptime), done;
      records, pc := records + [w], Scheduling;
    }

    /** The scheduler's turn. */
    method ScheduleTurn(arrivals: seq<seq<Pass>>) returns (ghost more: seq<Action>)
      requires Valid()
      modifies this`pc, this`expiry, this`armed
      modifies board`idx, board`count, board`timer, board.passes
      ensures Valid() && View() == Run(old(View()), more + [Schedule]) && ComesWith(Schedule, more)
    {
      ghost var s := View();
      ghost var seen := 0;
      if pc.Scheduling? {
        seen := ScheduleAndWait(arrivals);
      }
      more := Appends(Flatten(arrivals[..seen]));
      AppendsAll(s, Flatten(arrivals[..seen]));
      ExecSnoc(Step, s, more, Schedule);
    }

    /** A session's turn. */
    method SessionTurn(env: Session) returns (ghost more: seq<Action>)
      requires LoopInv() && Paced(env.turns, board.retransmission)
      modifies this`pc, this`clock, this`uptime, this`records, board`transmitting
      ensures Valid() && View() == Run(old(View()), more + [EndSession]) && ComesWith(EndSession, more)
      ensures SessionsInv(View(), board.retransmission, records)
    {
      ghost var s, was := View(), records;
      more := [Tick(0)];
      if pc.InSession? {
        SessionIsArmed(s, board.retransmission, was);
        ghost var w, took := RunSession(env);
        more := [Tick(took)];
        SessionRuns(s, took, board.retransmission, was, w);
      }
      Exec2(Step, s, more[0], EndSession);
      assert more + [EndSession] == [more[0], EndSession];
    }

    /** Any other step. */
    method OtherTurn(a: Action)
      requires Valid() && !a.Schedule? && !a.EndSession?
      modifies this`clock, this`uptime, this`pc, this`expiry, this`timerSem, this`lost, this`sessions
      modifies board`count, board.passes
      ensures Valid() && View() == Step(old(View()), a)
    {
      match a
      case Tick(ms) => clock, uptime := clock + ms, uptime + ms;
      case SetTime(ms) => clock := ms;
      case Append(p) => ReceivePass(p);
      case Fire => TimerCallback();
      case Take => TakeTimerSem();
    }

    /** One step of the loop with what it meets; `more` came with it. */
    method Perform(a: Action, env: Env) returns (ghost more: seq<Action>)
      requires LoopInv() && Paced(env.session.turns, board.retransmission)
      modifies this, board`idx, board`count, board`timer, board`transmitting, board.passes
      ensures LoopInv() && View() == Run(old(View()), more + [a]) && ComesWith(a, more)
    {
      ghost var s := View();
      if a.Schedule? {
        more := ScheduleTurn(env.arrivals);
        SessionsRun(s, more + [a], board.retransmission, records);
      } else if a.EndSession? {
        more := SessionTurn(env.session);
      } else {
        OtherTurn(a);
        more := [];
        assert more + [a] == [a] && [a][1..] == [];
        assert Run(s, [a]) == Run(Step(s, a), []);
        SessionsStep(s, a, board.retransmission, records);
      }
      TimerRun(s, more + [a]);
      EphemerisRun(s, more + [a]);
    }

    /**
     * Any run of the loop is a run of TransmitLoop with the passes and the time that came
     * with its steps. It keeps the invariants of both proofs, and every session its window.
     */
    method Interleave(schedule: seq<Action>, envs: nat -> Env) returns (ghost during: seq<seq<Action>>)
      requires LoopInv()
      requires forall i: nat :: Paced(envs(i).session.turns, board.retransmission)
      modifies this, board`idx, board`count, board`timer, board`transmitting, board.passes
      ensures |during| == |schedule|
      ensures forall i :: 0 <= i < |schedule| ==> ComesWith(schedule[i], during[i])
      ensures LoopInv() && View() == Run(old(View()), Expand(schedule, during))
    {
      ghost var begin := View();
      during := [];
      for i := 0 to |schedule|
        invariant |during| == i && LoopInv()
        invariant forall k :: 0 <= k < i ==> ComesWith(schedule[k], during[k])
        invariant View() == Run(begin, Expand(schedule[..i], during))
      {
        ghost var more := Perform(schedule[i], envs(i));
        ExpandNext(begin, schedule, i, during, more);
        during := during + [more];
      }
      assert schedule[..|schedule|] == schedule;
    }
  }
}
