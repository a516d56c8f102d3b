/**
 * What crosses between the cores in a session, told from its schedule: which calls the
 * transport takes, which responses it takes or refuses, and which the application gets.
 */
module SatResponses {
  import opened Machine
  import opened Runs
  import opened SatPipeline
  import opened SatCall

  /** The messages of the calls that the transport takes. */
  function Accepted(s: State, schedule: seq<Action>): seq<Message>
    decreases |schedule|
  {
    if schedule == [] then []
    else
      var a := schedule[0];
      (if a.CallSend? && a.accepted && s.caller.Outside? then [a.m] else [])
      + Accepted(Step(s, a), schedule[1..])
  }

  /** The response that the transport takes in this step. */
  function TakenBy(s: State, a: Action): seq<Message> {
    if a.RespSend? && a.accepted && s.responder.RsSend? then [s.responder.m] else []
  }

  /** The response that reaches the application's receive callback in this step. */
  function ReceivedBy(s: State, a: Action): seq<Message> {
    if a.Deliver? && s.toApp != [] then [s.toApp[0]] else []
  }

  /** The responses that the transport takes. */
  function HandedOn(s: State, schedule: seq<Action>): seq<Message>
    decreases |schedule|
  {
    if schedule == [] then []
    else TakenBy(s, schedule[0]) + HandedOn(Step(s, schedule[0]), schedule[1..])
  }

  /** How many responses it refuses. */
  function Refused(s: State, schedule: seq<Action>): nat
    decreases |schedule|
  {
    if schedule == [] then 0
    else
      var a := schedule[0];
      One(a.RespSend? && !a.accepted && s.responder.RsSend?) + Refused(Step(s, a), schedule[1..])
  }

  /** The responses that reach the application's receive callback. */
  function Received(s: State, schedule: seq<Action>): seq<Message>
    decreases |schedule|
  {
    if schedule == [] then []
    else ReceivedBy(s, schedule[0]) + Received(Step(s, schedule[0]), schedule[1..])
  }

  function Oks(q: seq<Message>): nat {
    if q == [] then 0 else One(q[0].cmd == OK) + Oks(q[1..])
  }

  /** Where tokens of sat_sem are, or went. */
  function Tokens(s: State): nat {
    s.sem + s.log.successes + One(s.caller.Granted?) + s.log.saturated
  }

  /** From any state, the messages sent are those of the calls that were taken. */
  lemma {:induction false} SentIsAccepted(s: State, schedule: seq<Action>)
    ensures Run(s, schedule).log.sent == s.log.sent + Accepted(s, schedule)
    decreases |schedule|
  {
    if schedule != [] {
      SentIsAccepted(Step(s, schedule[0]), schedule[1..]);
    }
  }

  /** The schedule without the calls that the transport refuses. */
  function WithoutRefusals(schedule: seq<Action>): seq<Action> {
    if schedule == [] then []
    else
      (if schedule[0].CallSend? && !schedule[0].accepted then [] else [schedule[0]])
      + WithoutRefusals(schedule[1..])
  }

  /** An ipc_send that the transport refuses leaves no trace in any run. */
  lemma {:induction false} RefusedCallsVanish(s: State, schedule: seq<Action>)
    ensures Run(s, schedule) == Run(s, WithoutRefusals(schedule))
    decreases |schedule|
  {
    if schedule != [] {
      var a, rest := schedule[0], WithoutRefusals(schedule[1..]);
      RefusedCallsVanish(Step(s, a), schedule[1..]);
      if a.CallSend? && !a.accepted {
        assert WithoutRefusals(schedule) == rest;
      } else {
        assert ([a] + rest)[1..] == rest;
        assert WithoutRefusals(schedule) == [a] + rest;
      }
    }
  }

  lemma TakenOrReceivedBy(s: State, a: Action)
    ensures s.toApp + TakenBy(s, a) == ReceivedBy(s, a) + Step(s, a).toApp
  {
  }

  lemma QueueChain<T>(q: seq<T>, q': seq<T>, q'': seq<T>, put: seq<T>, put': seq<T>, got: seq<T>, got': seq<T>)
    requires q + put == got + q' && q' + put' == got' + q''
    ensures q + (put + put') == (got + got') + q''
  {
    assert q + (put + put') == (q + put) + put';
    assert (got + q') + put' == got + (q' + put');
    assert got + (got' + q'') == (got + got') + q'';
  }

  /** Responses waiting for the application are those taken and not yet received, in order. */
  lemma {:induction false} TakenOrReceived(s: State, schedule: seq<Action>)
    ensures s.toApp + HandedOn(s, schedule) == Received(s, schedule) + Run(s, schedule).toApp
    decreases |schedule|
  {
    if schedule != [] {
      var a, rest := schedule[0], schedule[1..];
      var t := Step(s, a);
      TakenOrReceivedBy(s, a);
      TakenOrReceived(t, rest);
      QueueChain(s.toApp, t.toApp, Run(t, rest).toApp, TakenBy(s, a), HandedOn(t, rest),
                 ReceivedBy(s, a), Received(t, rest));
    }
  }

  /** A response is taken, or refused and lost; the log knows which. */
  lemma {:induction false} AnsweredOrDropped(s: State, schedule: seq<Action>)
    ensures var t := Run(s, schedule);
            && t.log.dropped == s.log.dropped + Refused(s, schedule)
            && |t.log.answers| == |s.log.answers| + |HandedOn(s, schedule)| + Refused(s, schedule)
    decreases |schedule|
  {
    if schedule != [] {
      AnsweredOrDropped(Step(s, schedule[0]), schedule[1..]);
    }
  }

  lemma TokenOfStep(s: State, a: Action)
    ensures Tokens(Step(s, a)) == Tokens(s) + Oks(ReceivedBy(s, a))
  {
    if a.Deliver? && s.toApp != [] {
      assert Oks([s.toApp[0]]) == One(s.toApp[0].cmd == OK) + Oks([]);
    }
  }

  lemma OksConcat(first: seq<Message>, rest: seq<Message>)
    requires |first| <= 1
    ensures Oks(first + rest) == Oks(first) + Oks(rest)
  {
    if first == [] {
      assert first + rest == rest;
    } else {
      assert (first + rest)[1..] == rest && first[1..] == [];
    }
  }

  /** From any state, a token comes of every SAT_CMD_OK received, and of nothing else. */
  lemma {:induction false} TokensAreOks(s: State, schedule: seq<Action>)
    ensures Tokens(Run(s, schedule)) == Tokens(s) + Oks(Received(s, schedule))
    decreases |schedule|
  {
    if schedule != [] {
      TokenOfStep(s, schedule[0]);
      TokensAreOks(Step(s, schedule[0]), schedule[1..]);
      OksConcat(ReceivedBy(s, schedule[0]), Received(Step(s, schedule[0]), schedule[1..]));
    }
  }

  /** The responses on their way to the transport, oldest first. */
  function Outgoing(s: State): seq<Message> {
    (if s.responder.RsSend? then [s.responder.m] else []) + s.rxQueue
  }

  /** The response that sat_tx_thread puts in this step. */
  function PutBy(s: State, a: Action): seq<Message> {
    if a.WorkPut? && s.worker.WkPut? then [OK_MESSAGE] else []
  }

  function AllPut(s: State, schedule: seq<Action>): seq<Message>
    decreases |schedule|
  {
    if schedule == [] then [] else PutBy(s, schedule[0]) + AllPut(Step(s, schedule[0]), schedule[1..])
  }

  lemma OutgoingStep(s: State, a: Action)
    ensures var t := Step(s, a);
            t.log.answers + Outgoing(t) == s.log.answers + Outgoing(s) + PutBy(s, a)
  {
    var t := Step(s, a);
    if a.RespGet? && Enabled(s, a) {
      assert s.rxQueue == [s.rxQueue[0]] + s.rxQueue[1..];
      assert Outgoing(t) == Outgoing(s);
    } else if a.RespSend? && Enabled(s, a) {
      assert t.log.answers + Outgoing(t) == s.log.answers + ([s.responder.m] + s.rxQueue);
    } else if a.WorkPut? && Enabled(s, a) {
      assert Outgoing(t) == Outgoing(s) + [OK_MESSAGE];
    } else {
      assert Outgoing(t) == Outgoing(s) && PutBy(s, a) == [] && t.log.answers == s.log.answers;
    }
  }

  /** From any state, responses are sent in the order they were put. */
  lemma {:induction false} AnswersInOrder(s: State, schedule: seq<Action>)
    ensures var t := Run(s, schedule);
            t.log.answers + Outgoing(t) == s.log.answers + Outgoing(s) + AllPut(s, schedule)
    decreases |schedule|
  {
    if schedule != [] {
      var a, t := schedule[0], Step(s, schedule[0]);
      OutgoingStep(s, a);
      AnswersInOrder(t, schedule[1..]);
      var so := s.log.answers + Outgoing(s);
      assert so + PutBy(s, a) + AllPut(t, schedule[1..]) == so + (PutBy(s, a) + AllPut(t, schedule[1..]));
    }
  }

  predicate NoneTaken(schedule: seq<Action>) {
    forall i :: 0 <= i < |schedule| ==> !(schedule[i].RespSend? && schedule[i].accepted)
  }

  lemma {:induction false} NothingHandedOn(s: State, schedule: seq<Action>)
    requires NoneTaken(schedule)
    ensures HandedOn(s, schedule) == []
    decreases |schedule|
  {
    if schedule != [] {
      NothingHandedOn(Step(s, schedule[0]), schedule[1..]);
    }
  }

  /**
   * While the transport takes no response the application gets none: a session ends no
   * more calls with 0 than it had tokens left over, and every other call has timed out or
   * is still open.
   */
  lemma LostResponsesTimeOut(token: nat, schedule: seq<Action>)
    requires token <= 1 && NoneTaken(schedule)
    ensures var s := Run(Init(token), schedule);
            && s.toApp == [] && !s.caller.Granted?
            && s.log.successes + s.sem == token && |s.log.answers| == s.log.dropped
            && |s.log.sent| == s.log.successes + s.log.timeouts + One(!s.caller.Outside?)
  {
    var i := Init(token);
    InvRun(i, schedule, token);
    NothingHandedOn(i, schedule);
    TakenOrReceived(i, schedule);
    AnsweredOrDropped(i, schedule);
    NeverGranted(i, schedule);
    TokensAreOks(i, schedule);
  }

  lemma {:induction false} NeverGranted(s: State, schedule: seq<Action>)
    requires s.toApp == [] && NoneTaken(schedule) && !s.caller.Granted? && s.log.saturated == 0
    ensures !Run(s, schedule).caller.Granted? && Run(s, schedule).log.saturated == 0
    decreases |schedule|
  {
    if schedule != [] {
      var t := Step(s, schedule[0]);
      assert t.toApp == [];
      NeverGranted(t, schedule[1..]);
    }
  }

  const ANSWER_LOST := [RespGet, RespSend(false), RespUnref, Deliver]

  lemma LosesAnswer(s: State)
    requires s.rxQueue == [OK_MESSAGE] && s.responder.RsIdle? && s.toApp == []
    ensures Run(s, ANSWER_LOST) ==
            s.(rxQueue := [], free := s.free + 1,
               log := s.log.(answers := s.log.answers + [OK_MESSAGE], dropped := s.log.dropped + 1))
  {
    Exec4(Step, s, RespGet, RespSend(false), RespUnref, Deliver);
  }

  /** A call whose response is refused: processed, not answered, and about to time out. */
  lemma LostResponse(s: State)
    requires s.caller.Pended? && s.sem == 0 && NetworkAtRest(s) && |s.toNet| == 1
    ensures var t := Run(s, SERVE_REQUEST + ServeProcess(0) + ANSWER_LOST);
            && t.log.processed == s.log.processed + s.toNet && t.log.dropped == s.log.dropped + 1
            && t.caller.Pended? && t.sem == 0 && NetworkAtRest(t) && t.toNet == []
  {
    TakesRequest(s);
    var b := Run(s, SERVE_REQUEST);
    ProcessesRequest(b, 0);
    LosesAnswer(Run(b, ServeProcess(0)));
    ExecConcat(Step, s, SERVE_REQUEST + ServeProcess(0), ANSWER_LOST);
    ExecConcat(Step, s, SERVE_REQUEST, ServeProcess(0));
  }
}
