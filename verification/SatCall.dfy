/** What a return from ipc_send says about the network core. */
module SatCall {
  import opened Machine
  import opened Runs
  import opened SatPipeline

  // ------------------------------------------------- the synchronous remote call

  datatype Phase = Free | Called(m: Message) | Executed(m: Message)

  /** A remote call as the caller would like to see it: called, executed, returned. */
  datatype Rpc = Rpc(done: seq<Message>, phase: Phase)

  predicate RpcCall(r: Rpc, m: Message, r': Rpc) {
    r.phase.Free? && r' == r.(phase := Called(m))
  }

  predicate RpcExecute(r: Rpc, r': Rpc) {
    r.phase.Called? && r' == Rpc(r.done + [r.phase.m], Executed(r.phase.m))
  }

  predicate RpcReturn(r: Rpc, r': Rpc) {
    r.phase.Executed? && r' == r.(phase := Free)
  }

  /** What the remote call may do while the pipeline performs `a`. */
  predicate RpcNext(r: Rpc, a: Action, r': Rpc) {
    || r' == r
    || (match a
        case CallSend(m, _) => RpcCall(r, m, r')
        case WorkProcess(_) => RpcExecute(r, r')
        case SemTake => RpcReturn(r, r')
        case TakeReturn => RpcReturn(r, r')
        case _ => false)
  }

  /** The remote call a pipeline state stands for. */
  function AsRpc(s: State): Rpc {
    Rpc(s.log.processed,
        if s.caller.Outside? || s.log.sent == [] then Free
        else if |s.log.processed| < |s.log.sent| then Called(s.log.sent[|s.log.sent| - 1])
        else Executed(s.log.sent[|s.log.sent| - 1]))
  }

  /** Without timeouts and leftover tokens at most the command of the current call is open. */
  lemma NothingElseOpen(s: State)
    requires Inv(s, 0) && s.log.timeouts == 0
    ensures |Coming(s)| <= One(!s.caller.Outside?)
    ensures s.caller.Granted? || s.sem > 0 ==> Coming(s) == []
    ensures s.caller.Outside? ==> s.log.processed == s.log.sent && s.sem == 0
  {
    assert |s.log.sent| == |s.log.processed| + |Coming(s)|;
    assert |s.log.answers| <= |s.log.processed|;
    if s.caller.Outside? {
      assert Coming(s) == [];
    }
  }

  /** The actions that neither call, execute nor return leave the remote call as it is. */
  lemma RefinesStutter(s: State, a: Action)
    requires !a.CallSend? && !a.WorkProcess? && !a.SemTake? && !a.TakeReturn? && !a.TakeTimeout?
    ensures AsRpc(Step(s, a)) == AsRpc(s)
  {
  }

  lemma RefinesExecute(s: State, a: Action)
    requires Inv(s, 0) && s.log.timeouts == 0 && a.WorkProcess? && Enabled(s, a)
    ensures RpcExecute(AsRpc(s), AsRpc(Step(s, a)))
  {
  }

  lemma SentInCall(s: State)
    requires Inv(s, 0) && !s.caller.Outside?
    ensures s.log.sent != []
  {
  }

  /** Returning from a call whose command has been processed. */
  lemma RefinesTake(s: State)
    requires OrderInv(s) && s.caller.Sent? && s.log.sent != []
    requires s.sem > 0 ==> Coming(s) == []
    ensures var r, r' := AsRpc(s), AsRpc(Step(s, SemTake)); r' == r || RpcReturn(r, r')
  {
  }

  lemma RefinesReturn(s: State)
    requires OrderInv(s) && s.caller.Granted? && s.log.sent != [] && Coming(s) == []
    ensures RpcReturn(AsRpc(s), AsRpc(Step(s, TakeReturn)))
  {
  }

  lemma RefinesStep(s: State, a: Action)
    requires Inv(s, 0) && Step(s, a).log.timeouts == 0
    ensures RpcNext(AsRpc(s), a, AsRpc(Step(s, a)))
  {
    if !Enabled(s, a) {
    } else if a.CallSend? {
      NothingElseOpen(s);
    } else if a.WorkProcess? {
      RefinesExecute(s, a);
    } else if a.SemTake? {
      NothingElseOpen(s);
      SentInCall(s);
      RefinesTake(s);
    } else if a.TakeReturn? {
      NothingElseOpen(s);
      SentInCall(s);
      RefinesReturn(s);
    } else if !a.TakeTimeout? {
      RefinesStutter(s, a);
    }
  }

  lemma {:induction false} TimeoutsOnlyGrow(s: State, schedule: seq<Action>)
    ensures s.log.timeouts <= Run(s, schedule).log.timeouts
    decreases |schedule|
  {
    if schedule != [] {
      TimeoutsOnlyGrow(Step(s, schedule[0]), schedule[1..]);
    }
  }

  /** Before and after every step of an interleaving. */
  ghost predicate RefinesAlong(s: State, schedule: seq<Action>)
    decreases |schedule|
  {
    schedule != [] ==>
      && RpcNext(AsRpc(s), schedule[0], AsRpc(Step(s, schedule[0])))
      && RefinesAlong(Step(s, schedule[0]), schedule[1..])
  }

  lemma {:induction false} RefinesFrom(s: State, schedule: seq<Action>)
    requires Inv(s, 0) && Run(s, schedule).log.timeouts == 0
    ensures RefinesAlong(s, schedule)
    decreases |schedule|
  {
    if schedule != [] {
      var t := Step(s, schedule[0]);
      TimeoutsOnlyGrow(t, schedule[1..]);
      RefinesStep(s, schedule[0]);
      InvStep(s, schedule[0], 0);
      RefinesFrom(t, schedule[1..]);
    }
  }

  /**
   * A session that starts with an empty sat_sem and in which no ipc_send times out is
   * a synchronous remote call: along every interleaving an accepted message calls, its
   * processing executes, a return 0 returns, in this order, and no other step is visible;
   * outside a call exactly the accepted commands are processed.
   */
  lemma SynchronousCall(schedule: seq<Action>)
    requires Run(Init(0), schedule).log.timeouts == 0
    ensures RefinesAlong(Init(0), schedule)
    ensures AsRpc(Init(0)) == Rpc([], Free)
    ensures var s := Run(Init(0), schedule);
            s.caller.Outside? ==> s.log.processed == s.log.sent
  {
    RefinesFrom(Init(0), schedule);
    InvRun(Init(0), schedule, 0);
    NothingElseOpen(Run(Init(0), schedule));
  }

  // ------------------------------------------------------------------ bounded lag

  /** Commands in the order accepted, each processed at most once. */
  lemma FifoOrder(token: nat, schedule: seq<Action>)
    requires token <= 1
    ensures var log := Run(Init(token), schedule).log;
            && log.processed <= log.sent
            && |log.answers| <= |log.processed| == |log.results|
            && forall i :: 0 <= i < |log.answers| ==> log.answers[i] == OK_MESSAGE
  {
    InvRun(Init(token), schedule, token);
  }

  /**
   * How far the network core lags behind, exactly, when the application is outside
   * ipc_send. Dropped responses and saturated gives only make the lag smaller.
   */
  lemma ExactLag(token: nat, schedule: seq<Action>)
    requires token <= 1
    ensures var s := Run(Init(token), schedule);
            var answersUnderWay := |s.log.processed| - |s.log.answers| + |s.toApp|;
            s.caller.Outside? ==>
              |s.log.sent| - |s.log.processed| ==
              s.log.timeouts + token
              - s.sem - answersUnderWay - s.log.dropped - s.log.saturated
  {
    InvRun(Init(token), schedule, token);
  }

  /** After n commands and k timeouts at least n - k - token commands are processed. */
  lemma BoundedLag(token: nat, schedule: seq<Action>)
    requires token <= 1
    ensures var s := Run(Init(token), schedule);
            s.caller.Outside? ==>
              |s.log.processed| >= |s.log.sent| - s.log.timeouts - token
  {
    InvRun(Init(token), schedule, token);
    ExactLag(token, schedule);
    var s := Run(Init(token), schedule);
    assert |s.log.answers| <= |s.log.processed|;
  }

  // -------------------------------------------------------------- the lag is tight

  const PING := Message(ENABLE, [])

  predicate Resting(s: State) {
    s.caller.Outside? && NetworkAtRest(s)
  }

  const SERVE_REQUEST := [RecvBegin, RecvAlloc, RecvPut, WorkGet]
  const SERVE_ANSWER := [RespGet, RespSend(true), RespUnref, Deliver]
  const CALL := [CallSend(PING, true), SemTake, TakeTimeout]

  function ServeProcess(board: int): seq<Action> {
    [WorkProcess(board), WorkUnref, WorkAlloc, WorkPut]
  }

  function Serve(board: int): seq<Action> {
    SERVE_REQUEST + ServeProcess(board) + SERVE_ANSWER
  }

  predicate NetworkAtRest(s: State) {
    && s.toApp == [] && s.free == POOL_SIZE
    && s.receiver.RxIdle? && s.txQueue == [] && s.worker.WkIdle?
    && s.rxQueue == [] && s.responder.RsIdle?
  }

  lemma TakesRequest(s: State)
    requires NetworkAtRest(s) && s.toNet != []
    ensures Run(s, SERVE_REQUEST) ==
            s.(toNet := s.toNet[1..], free := POOL_SIZE - 1, worker := WkProcess(s.toNet[0]))
  {
  }

  lemma ProcessesRequest(s: State, board: int)
    requires s.worker.WkProcess? && s.rxQueue == []
    ensures Run(s, ServeProcess(board)) ==
            s.(worker := WkIdle, rxQueue := [OK_MESSAGE],
               log := s.log.(processed := s.log.processed + [s.worker.m],
                             results := s.log.results + [Process(s.worker.m, board)]))
  {
    Exec4(Step, s, WorkProcess(board), WorkUnref, WorkAlloc, WorkPut);
  }

  lemma AnswersRequest(s: State)
    requires s.rxQueue == [OK_MESSAGE] && s.responder.RsIdle? && s.toApp == []
    ensures Run(s, SERVE_ANSWER) ==
            Give(s.(rxQueue := [], free := s.free + 1,
                    log := s.log.(answers := s.log.answers + [OK_MESSAGE])))
  {
  }

  /** The network core serves the oldest command in one go. */
  lemma ServeOne(s: State, board: int)
    requires NetworkAtRest(s) && s.toNet != []
    ensures Run(s, Serve(board)) ==
            Give(s.(toNet := s.toNet[1..],
                    log := s.log.(processed := s.log.processed + [s.toNet[0]],
                                  results := s.log.results + [Process(s.toNet[0], board)],
                                  answers := s.log.answers + [OK_MESSAGE])))
  {
    TakesRequest(s);
    var u := Run(s, SERVE_REQUEST);
    ProcessesRequest(u, board);
    var v := Run(u, ServeProcess(board));
    AnswersRequest(v);
    ExecConcat(Step, s, SERVE_REQUEST + ServeProcess(board), SERVE_ANSWER);
    ExecConcat(Step, s, SERVE_REQUEST, ServeProcess(board));
  }

  /** One call with the network core at rest: it takes a waiting token or times out. */
  lemma CallOnce(s: State)
    requires Resting(s) && s.sem <= 1
    ensures var t := Run(s, CALL);
            && Resting(t) && t.toNet == s.toNet + [PING] && t.sem == 0
            && |t.log.sent| == |s.log.sent| + 1 && t.log.processed == s.log.processed
            && t.log.timeouts == s.log.timeouts + (1 - s.sem)
            && t.log.successes == s.log.successes + s.sem
  {
    Exec3(Step, s, CallSend(PING, true), SemTake, TakeTimeout);
  }

  function Repeat<A>(part: seq<A>, n: nat): seq<A> {
    if n == 0 then [] else part + Repeat(part, n - 1)
  }

  lemma {:induction false} CallsTimeOut(s: State, k: nat)
    requires Resting(s) && s.sem == 0
    ensures var t := Run(s, Repeat(CALL, k));
            && Resting(t) && t.sem == 0 && |t.toNet| == |s.toNet| + k
            && |t.log.sent| == |s.log.sent| + k && t.log.processed == s.log.processed
            && t.log.timeouts == s.log.timeouts + k && t.log.successes == s.log.successes
    decreases k
  {
    if k > 0 {
      CallOnce(s);
      ExecConcat(Step, s, CALL, Repeat(CALL, k - 1));
      CallsTimeOut(Run(s, CALL), k - 1);
    }
  }

  lemma ServeAndCall(s: State)
    requires Resting(s) && s.toNet != [] && s.sem == 0
    ensures var t := Run(s, Serve(0) + CALL);
            && Resting(t) && t.sem == 0 && |t.toNet| == |s.toNet|
            && |t.log.sent| == |s.log.sent| + 1
            && |t.log.processed| == |s.log.processed| + 1
            && t.log.timeouts == s.log.timeouts && t.log.successes == s.log.successes + 1
  {
    ServeOne(s, 0);
    ExecConcat(Step, s, Serve(0), CALL);
    var t := Run(s, Serve(0));
    assert Resting(t) && t.sem == 1;
    CallOnce(t);
  }

  lemma {:induction false} ServesAndCalls(s: State, j: nat)
    requires Resting(s) && s.toNet != [] && s.sem == 0
    ensures var t := Run(s, Repeat(Serve(0) + CALL, j));
            && Resting(t) && t.sem == 0
            && |t.log.sent| == |s.log.sent| + j
            && |t.log.processed| == |s.log.processed| + j
            && t.log.timeouts == s.log.timeouts && t.log.successes == s.log.successes + j
    decreases j
  {
    if j > 0 {
      ServeAndCall(s);
      ExecConcat(Step, s, Serve(0) + CALL, Repeat(Serve(0) + CALL, j - 1));
      ServesAndCalls(Run(s, Serve(0) + CALL), j - 1);
    }
  }

  function LaggingSchedule(token: nat, k: nat, j: nat): seq<Action> {
    Repeat(CALL, token) + Repeat(CALL, k) + Repeat(Serve(0) + CALL, j)
  }

  /**
   * The bound of BoundedLag is met: for every number of timeouts k and every j there is
   * an interleaving with n = token + k + j commands, k timeouts, every other call
   * successful (the last one too when j > 0), and only j = n - k - token processed.
   */
  lemma LagIsTight(token: nat, k: nat, j: nat)
    requires token <= 1 && token + k > 0
    ensures var s := Run(Init(token), LaggingSchedule(token, k, j));
            && s.caller.Outside?
            && |s.log.sent| == token + k + j && s.log.timeouts == k
            && s.log.successes == token + j
            && |s.log.processed| == j == |s.log.sent| - s.log.timeouts - token
  {
    var i := Init(token);
    var a := Run(i, Repeat(CALL, token));
    if token == 1 {
      CallOnce(i);
      assert Repeat(CALL, 1) == CALL + Repeat(CALL, 0) == CALL;
    } else {
      assert a == i;
    }
    assert Resting(a) && a.sem == 0 && |a.toNet| == token;
    CallsTimeOut(a, k);
    var b := Run(a, Repeat(CALL, k));
    ServesAndCalls(b, j);
    ExecConcat(Step, i, Repeat(CALL, token) + Repeat(CALL, k), Repeat(Serve(0) + CALL, j));
    ExecConcat(Step, i, Repeat(CALL, token), Repeat(CALL, k));
  }

  // ------------------------------------------------- SAT_CMD_OK does not mean success

  /**
   * The header calls SAT_CMD_OK the acknowledgement of a command that succeeded. The
   * network core sends it whatever hubble_sat_process returned: for every message and
   * every result of the radio there is a session in which the command is processed with
   * that result and ipc_send returns 0.
   */
  lemma OkWhateverTheResult(m: Message, board: int)
    ensures exists schedule ::
              var s := Run(Init(0), schedule);
              && s.caller.Outside? && s.log.successes == 1 && s.log.processed == [m]
              && s.log.results == [if m.cmd == OK || m.cmd == FAIL then -EINVAL else board]
  {
    var i, ask := Init(0), [CallSend(m, true), SemTake];
    Exec2(Step, i, CallSend(m, true), SemTake);
    var waiting := Run(i, ask);
    assert waiting.toNet == [m];
    ServeOne(waiting, board);
    ExecConcat(Step, i, ask, Serve(board));
    ExecSnoc(Step, i, ask + Serve(board), TakeReturn);
    var s := Run(i, ask + Serve(board) + [TakeReturn]);
    assert s.log.processed == [m] && s.log.results == [Process(m, board)];
  }
}
