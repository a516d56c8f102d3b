/** The pool of eight buffers: when the pipeline drains and when it is stuck for good. */
module SatPool {
  import opened Machine
  import opened Runs
  import opened SatPipeline
  import opened SatCall

  /** Commands accepted for which no response was handed to the transport yet. */
  function Unanswered(s: State): int {
    |s.log.sent| - |s.log.answers|
  }

  predicate PipelineEnabled(s: State) {
    || (s.receiver.RxIdle? && s.toNet != [])
    || (s.receiver.RxAlloc? && s.free > 0)
    || s.receiver.RxPut?
    || (s.worker.WkIdle? && s.txQueue != [])
    || s.worker.WkProcess? || s.worker.WkUnref?
    || (s.worker.WkAlloc? && s.free > 0)
    || s.worker.WkPut?
    || (s.responder.RsIdle? && s.rxQueue != [])
    || !s.responder.RsIdle?
  }

  /** A pipeline action that can run now, if there is one. */
  function NextAction(s: State): Action {
    if s.responder.RsUnref? then RespUnref
    else if s.responder.RsSend? then RespSend(true)
    else if s.rxQueue != [] then RespGet
    else if s.worker.WkPut? then WorkPut
    else if s.worker.WkAlloc? && s.free > 0 then WorkAlloc
    else if s.worker.WkUnref? then WorkUnref
    else if s.worker.WkProcess? then WorkProcess(0)
    else if s.worker.WkIdle? && s.txQueue != [] then WorkGet
    else if s.receiver.RxPut? then RecvPut
    else if s.receiver.RxAlloc? then RecvAlloc
    else RecvBegin
  }

  lemma PipelineEnabledMeans(s: State)
    ensures PipelineEnabled(s) <==> exists a :: IsPipelineAction(a) && Enabled(s, a)
    ensures PipelineEnabled(s) ==> IsPipelineAction(NextAction(s)) && Enabled(s, NextAction(s))
  {
    if PipelineEnabled(s) {
      var a := NextAction(s);
      assert IsPipelineAction(a) && Enabled(s, a);
    }
  }

  predicate Drained(s: State) {
    && s.toNet == [] && s.receiver.RxIdle? && s.txQueue == [] && s.worker.WkIdle?
    && s.rxQueue == [] && s.responder.RsIdle?
  }

  predicate Stuck(s: State) {
    !PipelineEnabled(s) && !Drained(s)
  }

  /**
   * The only way to be stuck: eight requests fill the pool, sat_tx_thread has released
   * its request and waits for a response buffer, and the callback can do nothing either.
   */
  lemma StuckShape(s: State)
    requires PoolInv(s)
    ensures Stuck(s) <==>
      && s.worker.WkAlloc? && s.free == 0 && |s.txQueue| == POOL_SIZE
      && (s.receiver.RxAlloc? || (s.receiver.RxIdle? && s.toNet == []))
  {
  }

  /** With at most eight unanswered commands no state of the pipeline is stuck. */
  lemma NoDeadlock(s: State, token: nat)
    requires Inv(s, token) && Unanswered(s) <= POOL_SIZE
    ensures !Stuck(s)
  {
  }

  // -------------------------------------------------------------- the pipeline drains

  /** Pipeline steps left until every accepted command is answered. */
  function Remaining(s: State): nat {
    11 * |s.toNet|
    + (match s.receiver case RxIdle => 0 case RxAlloc(_) => 10 case RxPut(_) => 9)
    + 8 * |s.txQueue|
    + (match s.worker
       case WkIdle => 0 case WkProcess(_) => 7 case WkUnref => 6 case WkAlloc => 5 case WkPut => 4)
    + 3 * |s.rxQueue|
    + (match s.responder case RsIdle => 0 case RsSend(_) => 2 case RsUnref => 1)
  }

  lemma OneStepLess(s: State, a: Action)
    requires IsPipelineAction(a)
    ensures Enabled(s, a) ==> Remaining(Step(s, a)) == Remaining(s) - 1
    ensures Unanswered(Step(s, a)) <= Unanswered(s)
    ensures Step(s, a).log.sent == s.log.sent
  {
  }

  /** A schedule of pipeline actions each of which can run when its turn comes. */
  predicate Productive(s: State, schedule: seq<Action>)
    decreases |schedule|
  {
    schedule != [] ==>
      && IsPipelineAction(schedule[0]) && Enabled(s, schedule[0])
      && Productive(Step(s, schedule[0]), schedule[1..])
  }

  /**
   * While at most eight commands are unanswered the network core makes progress by
   * itself: whatever pipeline actions run, exactly Remaining(s) of them can, and a
   * schedule that cannot be extended ends with every accepted command processed and
   * answered.
   */
  lemma {:induction false} Drains(s: State, token: nat, schedule: seq<Action>)
    requires Inv(s, token) && Unanswered(s) <= POOL_SIZE
    requires Productive(s, schedule)
    ensures |schedule| <= Remaining(s)
    ensures var t := Run(s, schedule);
            && (PipelineEnabled(t) <==> |schedule| < Remaining(s))
            && (!PipelineEnabled(t) ==>
                  && Drained(t) && t.free == POOL_SIZE
                  && t.log.sent == s.log.sent
                  && t.log.processed == s.log.sent && |t.log.answers| == |s.log.sent|)
    decreases |schedule|
  {
    if schedule == [] {
      NoDeadlock(s, token);
      PipelineEnabledMeans(s);
      if PipelineEnabled(s) {
        OneStepLess(s, NextAction(s));
      } else {
        assert Coming(s) == [];
      }
    } else {
      OneStepLess(s, schedule[0]);
      InvStep(s, schedule[0], token);
      Drains(Step(s, schedule[0]), token, schedule[1..]);
    }
  }

  // ----------------------------------------------------- how many can be unanswered

  /** Outstanding commands are bounded by the timeouts of the session. */
  lemma UnansweredBound(s: State, token: nat)
    requires Inv(s, token)
    ensures Unanswered(s) <= s.log.timeouts + token + One(!s.caller.Outside?)
  {
  }

  /** Fewer than 8 timeouts and leftover tokens in a session: never stuck. */
  lemma FewTimeoutsNeverStuck(token: nat, schedule: seq<Action>)
    requires token <= 1
    requires Run(Init(token), schedule).log.timeouts + token < POOL_SIZE
    ensures !Stuck(Run(Init(token), schedule))
  {
    var s := Run(Init(token), schedule);
    InvRun(Init(token), schedule, token);
    UnansweredBound(s, token);
    NoDeadlock(s, token);
  }

  /** In such a session whatever was accepted is processed once the network core comes to rest. */
  lemma FewTimeoutsAllProcessed(token: nat, schedule: seq<Action>, rest: seq<Action>)
    requires token <= 1
    requires Run(Init(token), schedule).log.timeouts + token < POOL_SIZE
    requires Productive(Run(Init(token), schedule), rest)
    requires !PipelineEnabled(Run(Run(Init(token), schedule), rest))
    ensures var log := Run(Run(Init(token), schedule), rest).log;
            log.processed == log.sent && |log.answers| == |log.sent|
  {
    var s := Run(Init(token), schedule);
    InvRun(Init(token), schedule, token);
    UnansweredBound(s, token);
    Drains(s, token, rest);
  }

  // ------------------------------------------------------------- the bound is tight

  const SEND_ONE := [CallSend(PING, true), SemTake]
  const RECEIVE := [RecvBegin, RecvAlloc, RecvPut]
  const FEED := SEND_ONE + RECEIVE + [TakeTimeout]

  /** One more call fills one more buffer while nobody serves tx_queue. */
  predicate Filling(s: State, n: nat) {
    && s.caller.Outside? && s.sem <= 1 && s.toNet == [] && s.toApp == []
    && s.receiver.RxIdle? && s.rxQueue == [] && s.responder.RsIdle?
    && s.log.answers == [] && |s.log.sent| == n
    && s.log.timeouts + s.log.successes == n
  }

  lemma SendOne(s: State)
    requires s.caller.Outside? && s.sem <= 1
    ensures var sent := s.(toNet := s.toNet + [PING], log := s.log.(sent := s.log.sent + [PING]));
            Run(s, SEND_ONE) ==
              if s.sem == 1 then Succeed(sent.(sem := 0)) else sent.(caller := Pended)
  {
    Exec2(Step, s, CallSend(PING, true), SemTake);
  }

  lemma ReceiveOne(s: State)
    requires s.receiver.RxIdle? && s.toNet == [PING] && s.free > 0
    ensures Run(s, RECEIVE) == s.(toNet := [], free := s.free - 1, txQueue := s.txQueue + [PING])
  {
  }

  lemma SendAndReceive(s: State, n: nat)
    requires Filling(s, n) && s.free > 0
    ensures var t := Run(s, SEND_ONE + RECEIVE);
            && t.txQueue == s.txQueue + [PING] && t.worker == s.worker
            && Filling(Step(t, TakeTimeout), n + 1) && Step(t, TakeTimeout).sem == 0
            && Step(t, TakeTimeout).log.successes == s.log.successes + s.sem
            && t.free == s.free - 1
  {
    SendOne(s);
    var u := Run(s, SEND_ONE);
    assert u.toNet == [PING];
    ReceiveOne(u);
    ExecConcat(Step, s, SEND_ONE, RECEIVE);
  }

  lemma FeedOne(s: State, n: nat)
    requires Filling(s, n) && s.free > 0
    ensures var t := Run(s, FEED);
            && Filling(t, n + 1) && t.sem == 0
            && t.log.successes == s.log.successes + s.sem
            && t.free == s.free - 1 && t.txQueue == s.txQueue + [PING] && t.worker == s.worker
  {
    SendAndReceive(s, n);
    ExecSnoc(Step, s, SEND_ONE + RECEIVE, TakeTimeout);
  }

  lemma {:induction false} FeedMany(s: State, n: nat, k: nat)
    requires Filling(s, n) && s.free >= k && s.sem == 0
    ensures var t := Run(s, Repeat(FEED, k));
            && Filling(t, n + k) && t.sem == 0 && t.log.successes == s.log.successes
            && t.free == s.free - k && |t.txQueue| == |s.txQueue| + k && t.worker == s.worker
    decreases k
  {
    if k > 0 {
      FeedOne(s, n);
      ExecConcat(Step, s, FEED, Repeat(FEED, k - 1));
      FeedMany(Run(s, FEED), n + 1, k - 1);
    }
  }

  // sat_tx_thread takes up the first command at once and is still processing it when
  // seven more calls have timed out.
  const FIRST_COMMAND := SEND_ONE + RECEIVE + [WorkGet, TakeTimeout]
  const EIGHT_COMMANDS := FIRST_COMMAND + Repeat(FEED, 7)
  // The callback waits for a buffer with the ninth command when the first is done, and
  // gets the buffer that sat_tx_thread releases.
  const NINTH_COMMAND := SEND_ONE + [RecvBegin]
  const OVERTAKEN := [WorkProcess(0), WorkUnref, RecvAlloc, RecvPut]
  const WEDGING := EIGHT_COMMANDS + NINTH_COMMAND + OVERTAKEN

  predicate Full(c: State, token: nat) {
    && Filling(c, 8) && c.sem == 0 && c.free == 0
    && |c.txQueue| == 7 && c.worker.WkProcess? && c.log.successes == token
  }

  lemma FirstIsTaken(i: State, token: nat)
    requires token <= 1 && i == Init(token)
    ensures var t := Run(i, FIRST_COMMAND);
            && Filling(t, 1) && t.sem == 0 && t.free == 7 && t.txQueue == []
            && t.worker.WkProcess? && t.log.successes == token
  {
    SendAndReceive(i, 0);
    var a := Run(i, SEND_ONE + RECEIVE);
    Exec2(Step, a, WorkGet, TakeTimeout);
    ExecConcat(Step, i, SEND_ONE + RECEIVE, [WorkGet, TakeTimeout]);
    assert Run(i, FIRST_COMMAND) == Step(a, TakeTimeout).(txQueue := [], worker := WkProcess(PING));
  }

  /** The first command is being processed while the callback queues the next seven. */
  lemma FillsPool(i: State, token: nat)
    requires token <= 1 && i == Init(token)
    ensures Full(Run(i, EIGHT_COMMANDS), token)
  {
    FirstIsTaken(i, token);
    FeedMany(Run(i, FIRST_COMMAND), 1, 7);
    ExecConcat(Step, i, FIRST_COMMAND, Repeat(FEED, 7));
  }

  /** Stuck, and no token for the next call. */
  predicate Jammed(s: State) {
    && s.worker.WkAlloc? && s.free == 0 && |s.txQueue| == POOL_SIZE && s.sem == 0
    && s.rxQueue == [] && s.responder.RsIdle?
    && (s.receiver.RxAlloc? || (s.receiver.RxIdle? && s.toNet == []))
  }

  lemma NinthIsSent(c: State)
    requires c.caller.Outside? && c.sem == 0 && c.toNet == [] && c.receiver.RxIdle?
    ensures Run(c, NINTH_COMMAND) ==
            c.(caller := Pended, receiver := RxAlloc(PING), log := c.log.(sent := c.log.sent + [PING]))
  {
    SendOne(c);
    ExecSnoc(Step, c, SEND_ONE, RecvBegin);
  }

  /** The ninth command takes the buffer that sat_tx_thread has just released. */
  lemma FillsTheGap(c: State, token: nat)
    requires Full(c, token)
    ensures var s := Run(c, NINTH_COMMAND + OVERTAKEN);
            && Jammed(s) && s.caller.Pended? && s.log.timeouts + token == 8 && Unanswered(s) == 9
  {
    NinthIsSent(c);
    Exec4(Step, Run(c, NINTH_COMMAND), WorkProcess(0), WorkUnref, RecvAlloc, RecvPut);
    ExecConcat(Step, c, NINTH_COMMAND, OVERTAKEN);
  }

  /** With 8 timeouts and leftover tokens the pipeline can be stuck on nine commands. */
  lemma NinthCommandJams(token: nat)
    requires token <= 1
    ensures var s := Run(Init(token), WEDGING);
            Jammed(s) && s.caller.Pended? && s.log.timeouts + token == 8 && Unanswered(s) == 9
  {
    var i := Init(token);
    FillsPool(i, token);
    FillsTheGap(Run(i, EIGHT_COMMANDS), token);
    ExecConcat(Step, i, EIGHT_COMMANDS, NINTH_COMMAND + OVERTAKEN);
    assert WEDGING == EIGHT_COMMANDS + (NINTH_COMMAND + OVERTAKEN);
  }

  const IN_VAIN := SEND_ONE + [RecvBegin, TakeTimeout]

  lemma {:induction false} CallsInVain(s: State, k: nat)
    requires Jammed(s) && s.caller.Outside?
    ensures var t := Run(s, Repeat(IN_VAIN, k));
            Jammed(t) && t.log.timeouts == s.log.timeouts + k
    decreases k
  {
    if k > 0 {
      SendOne(s);
      var a := Run(s, SEND_ONE);
      Exec2(Step, a, RecvBegin, TakeTimeout);
      ExecConcat(Step, s, SEND_ONE, [RecvBegin, TakeTimeout]);
      ExecConcat(Step, s, IN_VAIN, Repeat(IN_VAIN, k - 1));
      CallsInVain(Run(s, IN_VAIN), k - 1);
    }
  }

  /** A run with `timeouts` timeouts that ends stuck. */
  function StuckSchedule(token: nat, timeouts: nat): seq<Action>
    requires timeouts + token >= 8
  {
    if timeouts + token == 8 then WEDGING
    else WEDGING + [TakeTimeout] + Repeat(IN_VAIN, timeouts + token - 9)
  }

  lemma ManyTimeoutsJam(token: nat, timeouts: nat)
    requires token <= 1 && timeouts + token >= 8
    ensures var s := Run(Init(token), StuckSchedule(token, timeouts));
            Jammed(s) && s.log.timeouts == timeouts
  {
    NinthCommandJams(token);
    if timeouts + token > 8 {
      var i := Init(token);
      var more := timeouts + token - 9;
      ExecSnoc(Step, i, WEDGING, TakeTimeout);
      CallsInVain(Run(i, WEDGING + [TakeTimeout]), more);
      ExecConcat(Step, i, WEDGING + [TakeTimeout], Repeat(IN_VAIN, more));
    }
  }

  /** Some session with `timeouts` timeouts and `token` leftover tokens gets stuck. */
  ghost predicate CanGetStuck(token: nat, timeouts: nat) {
    exists schedule ::
      var s := Run(Init(token), schedule);
      s.log.timeouts == timeouts && Stuck(s)
  }

  /** The network core can be stuck exactly when timeouts and leftover tokens make 8 or more. */
  lemma StuckIff(token: nat, timeouts: nat)
    requires token <= 1
    ensures CanGetStuck(token, timeouts) <==> timeouts + token >= POOL_SIZE
  {
    if timeouts + token >= POOL_SIZE {
      ManyTimeoutsJam(token, timeouts);
      assert Stuck(Run(Init(token), StuckSchedule(token, timeouts)));
    } else {
      forall schedule | Run(Init(token), schedule).log.timeouts == timeouts
        ensures !Stuck(Run(Init(token), schedule))
      {
        FewTimeoutsNeverStuck(token, schedule);
      }
    }
  }

  /** sat_tx_thread waits for a buffer and all eight hold requests that wait for it. */
  predicate Wedged(s: State) {
    s.worker.WkAlloc? && |s.txQueue| == POOL_SIZE
  }

  /**
   * A stuck pipeline never recovers: whatever the application sends and however long it
   * waits, no further command is processed and no further response sent.
   */
  lemma {:induction false} StuckForever(s: State, schedule: seq<Action>)
    requires PoolInv(s) && Stuck(s)
    ensures var t := Run(s, schedule);
            Wedged(t) && t.log.processed == s.log.processed && t.log.answers == s.log.answers
  {
    StuckShape(s);
    WedgedForever(s, schedule);
  }

  lemma {:induction false} WedgedForever(s: State, schedule: seq<Action>)
    requires PoolInv(s) && Wedged(s)
    ensures var t := Run(s, schedule);
            Wedged(t) && t.log.processed == s.log.processed && t.log.answers == s.log.answers
    decreases |schedule|
  {
    if schedule != [] {
      PoolStep(s, schedule[0]);
      WedgedForever(Step(s, schedule[0]), schedule[1..]);
    }
  }
}
