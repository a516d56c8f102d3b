/**
 * The satellite command pipeline between the two cores, as a step function.
 *
 * The application thread calls ipc_send and waits on the binary semaphore sat_sem.
 * On the network core the receive callback, sat_tx_thread and the response loop of
 * main move buffers of one fixed pool through tx_queue and rx_queue.
 */
module SatPipeline {
  import opened Machine
  import opened Runs

  // The pool of the network core, shared by requests and responses.
  const POOL_SIZE: nat := 8

  const EINVAL: int := 22

  datatype Command = SEND | INIT | ENABLE | DISABLE | OK | FAIL

  datatype Message = Message(cmd: Command, frame: seq<byte>)

  const OK_MESSAGE := Message(OK, [])

  // The application thread inside ipc_send.
  datatype Caller =
    | Outside   // not in ipc_send
    | Sent      // the transport accepted the message, sat_sem not yet tried
    | Pended    // waiting on sat_sem
    | Granted   // woken by a give, about to return 0

  // The receive callback ep_recv.
  datatype Receiver = RxIdle | RxAlloc(m: Message) | RxPut(m: Message)

  // sat_tx_thread. It holds a buffer everywhere but in WkIdle and WkAlloc.
  datatype Worker = WkIdle | WkProcess(m: Message) | WkUnref | WkAlloc | WkPut

  // The response loop of the network core's main.
  datatype Responder = RsIdle | RsSend(m: Message) | RsUnref

  // What happened so far; no step reads it.
  datatype Log = Log(
    sent: seq<Message>,       // accepted by the transport
    processed: seq<Message>,  // handed to hubble_sat_process
    results: seq<int>,        // what hubble_sat_process returned
    answers: seq<Message>,    // handed to the transport as responses
    successes: nat,           // ipc_send returned 0
    timeouts: nat,            // ipc_send returned -EAGAIN
    dropped: nat,             // responses the transport refused
    saturated: nat            // gives that found the semaphore full
  )

  datatype State = State(
    caller: Caller,
    sem: nat,
    toNet: seq<Message>,
    toApp: seq<Message>,
    free: nat,
    receiver: Receiver,
    txQueue: seq<Message>,
    worker: Worker,
    rxQueue: seq<Message>,
    responder: Responder,
    log: Log
  )

  datatype Action =
    // application core
    | CallSend(m: Message, accepted: bool)
    | SemTake
    | TakeTimeout
    | TakeReturn
    | Deliver
    // network core
    | RecvBegin
    | RecvAlloc
    | RecvPut
    | WorkGet
    | WorkProcess(board: int)
    | WorkUnref
    | WorkAlloc
    | WorkPut
    | RespGet
    | RespSend(accepted: bool)
    | RespUnref

  /** The state when a session starts, with `token` left over in sat_sem. */
  function Init(token: nat): State {
    State(Outside, token, [], [], POOL_SIZE, RxIdle, [], WkIdle, [], RsIdle,
          Log([], [], [], [], 0, 0, 0, 0))
  }

  predicate Enabled(s: State, a: Action) {
    match a
    case CallSend(_, accepted) => s.caller.Outside? && accepted
    case SemTake => s.caller.Sent?
    case TakeTimeout => s.caller.Pended?
    case TakeReturn => s.caller.Granted?
    case Deliver => s.toApp != []
    case RecvBegin => s.receiver.RxIdle? && s.toNet != []
    case RecvAlloc => s.receiver.RxAlloc? && s.free > 0
    case RecvPut => s.receiver.RxPut?
    case WorkGet => s.worker.WkIdle? && s.txQueue != []
    case WorkProcess(_) => s.worker.WkProcess?
    case WorkUnref => s.worker.WkUnref?
    case WorkAlloc => s.worker.WkAlloc? && s.free > 0
    case WorkPut => s.worker.WkPut?
    case RespGet => s.responder.RsIdle? && s.rxQueue != []
    case RespSend(_) => s.responder.RsSend?
    case RespUnref => s.responder.RsUnref?
  }

  /** The actions of the three network-core contexts. */
  predicate IsPipelineAction(a: Action) {
    !a.CallSend? && !a.SemTake? && !a.TakeTimeout? && !a.TakeReturn? && !a.Deliver?
  }

  /** hubble_sat_process: `board` is what the board call would return. */
  function Process(m: Message, board: int): int {
    match m.cmd
    case SEND => board
    case INIT => board
    case ENABLE => board
    case DISABLE => board
    case OK => -EINVAL
    case FAIL => -EINVAL
  }

  /** k_sem_give on a semaphore of limit 1: a waiting thread gets the token directly. */
  function Give(s: State): State {
    if s.caller.Pended? then s.(caller := Granted)
    else if s.sem < 1 then s.(sem := s.sem + 1)
    else s.(log := s.log.(saturated := s.log.saturated + 1))
  }

  function Succeed(s: State): State {
    s.(caller := Outside, log := s.log.(successes := s.log.successes + 1))
  }

  function Effect(s: State, a: Action): State
    requires Enabled(s, a)
  {
    match a
    case CallSend(m, _) =>
      s.(caller := Sent, toNet := s.toNet + [m], log := s.log.(sent := s.log.sent + [m]))
    case SemTake =>
      if s.sem > 0 then Succeed(s.(sem := s.sem - 1)) else s.(caller := Pended)
    case TakeTimeout =>
      s.(caller := Outside, log := s.log.(timeouts := s.log.timeouts + 1))
    case TakeReturn => Succeed(s)
    case Deliver =>
      var rest := s.(toApp := s.toApp[1..]);
      if s.toApp[0].cmd == OK then Give(rest) else rest
    case RecvBegin => s.(toNet := s.toNet[1..], receiver := RxAlloc(s.toNet[0]))
    case RecvAlloc => s.(free := s.free - 1, receiver := RxPut(s.receiver.m))
    case RecvPut => s.(txQueue := s.txQueue + [s.receiver.m], receiver := RxIdle)
    case WorkGet => s.(txQueue := s.txQueue[1..], worker := WkProcess(s.txQueue[0]))
    case WorkProcess(board) =>
      s.(worker := WkUnref,
         log := s.log.(processed := s.log.processed + [s.worker.m],
                       results := s.log.results + [Process(s.worker.m, board)]))
    case WorkUnref => s.(free := s.free + 1, worker := WkAlloc)
    case WorkAlloc => s.(free := s.free - 1, worker := WkPut)
    case WorkPut => s.(rxQueue := s.rxQueue + [OK_MESSAGE], worker := WkIdle)
    case RespGet => s.(rxQueue := s.rxQueue[1..], responder := RsSend(s.rxQueue[0]))
    case RespSend(accepted) =>
      var answered := s.log.(answers := s.log.answers + [s.responder.m]);
      if accepted
      then s.(toApp := s.toApp + [s.responder.m], responder := RsUnref, log := answered)
      else s.(responder := RsUnref, log := answered.(dropped := answered.dropped + 1))
    case RespUnref => s.(free := s.free + 1, responder := RsIdle)
  }

  function Step(s: State, a: Action): State {
    if Enabled(s, a) then Effect(s, a) else s
  }

  function Run(s: State, schedule: seq<Action>): State {
    Exec(Step, s, schedule)
  }

  // ---------------------------------------------------------------- the invariant

  function Held(s: State): nat {
    One(s.receiver.RxPut?) + One(!s.worker.WkIdle? && !s.worker.WkAlloc?) + One(!s.responder.RsIdle?)
  }

  /** Free, queued and held buffers add up to the pool; SatCores tells them apart. */
  predicate PoolInv(s: State) {
    s.free + |s.txQueue| + |s.rxQueue| + Held(s) == POOL_SIZE
  }

  function InReceiver(s: State): seq<Message> {
    if s.receiver.RxIdle? then [] else [s.receiver.m]
  }

  function InWorker(s: State): seq<Message> {
    if s.worker.WkProcess? then [s.worker.m] else []
  }

  /** The commands on their way to hubble_sat_process, oldest first. */
  function Coming(s: State): seq<Message> {
    InWorker(s) + s.txQueue + InReceiver(s) + s.toNet
  }

  /** Commands are processed in the order they were accepted, none lost or repeated. */
  predicate OrderInv(s: State) {
    s.log.sent == s.log.processed + Coming(s)
  }

  predicate AllOk(q: seq<Message>) {
    forall i :: 0 <= i < |q| ==> q[i] == OK_MESSAGE
  }

  /** Every processed command has exactly one SAT_CMD_OK, answered or on its way out. */
  predicate AnswerInv(s: State) {
    && |s.log.processed| == |s.log.results|
    && |s.log.processed| == One(s.worker.WkUnref? || s.worker.WkAlloc? || s.worker.WkPut?)
                            + |s.rxQueue| + One(s.responder.RsSend?) + |s.log.answers|
    && AllOk(s.rxQueue) && AllOk(s.toApp) && AllOk(s.log.answers)
    && (s.responder.RsSend? ==> s.responder.m == OK_MESSAGE)
  }

  /** A semaphore token is an initial token or one answer, and is spent at most once. */
  predicate TokenInv(s: State, token: nat) {
    && s.sem <= 1
    && (s.caller.Pended? ==> s.sem == 0)
    && s.log.successes + s.sem + One(s.caller.Granted?) + |s.toApp|
       + s.log.dropped + s.log.saturated == token + |s.log.answers|
    && |s.log.sent| == s.log.successes + s.log.timeouts + One(!s.caller.Outside?)
  }

  predicate Inv(s: State, token: nat) {
    PoolInv(s) && OrderInv(s) && AnswerInv(s) && TokenInv(s, token)
  }

  lemma PoolStep(s: State, a: Action)
    requires PoolInv(s)
    ensures PoolInv(Step(s, a))
  {
  }

  lemma ReceiverKeepsComing(s: State, a: Action)
    requires Enabled(s, a) && (a.RecvBegin? || a.RecvAlloc? || a.RecvPut?)
    ensures Coming(Step(s, a)) == Coming(s)
  {
    var t := Step(s, a);
    match a {
      case RecvBegin =>
        assert s.toNet == [s.toNet[0]] + s.toNet[1..];
      case _ =>
    }
  }

  lemma WorkerTakesComing(s: State, a: Action)
    requires Enabled(s, a) && (a.WorkGet? || a.WorkProcess?)
    ensures Coming(s) == (if a.WorkGet? then [] else [s.worker.m]) + Coming(Step(s, a))
  {
    if a.WorkGet? {
      assert s.txQueue == [s.txQueue[0]] + s.txQueue[1..];
    }
  }

  lemma OthersKeepComing(s: State, a: Action)
    requires !a.CallSend? && !a.RecvBegin? && !a.RecvAlloc? && !a.RecvPut?
    requires !a.WorkGet? && !a.WorkProcess?
    ensures Coming(Step(s, a)) == Coming(s)
    ensures Step(s, a).log.sent == s.log.sent && Step(s, a).log.processed == s.log.processed
  {
  }

  lemma OrderStep(s: State, a: Action)
    requires OrderInv(s)
    ensures OrderInv(Step(s, a))
  {
    if !Enabled(s, a) {
    } else if a.CallSend? {
      assert Coming(Step(s, a)) == Coming(s) + [a.m];
    } else if a.RecvBegin? || a.RecvAlloc? || a.RecvPut? {
      ReceiverKeepsComing(s, a);
    } else if a.WorkGet? || a.WorkProcess? {
      WorkerTakesComing(s, a);
    } else {
      OthersKeepComing(s, a);
    }
  }

  lemma AnswerStepWorker(s: State, a: Action)
    requires AnswerInv(s) && (a.WorkProcess? || a.WorkUnref? || a.WorkAlloc? || a.WorkPut?)
    ensures AnswerInv(Step(s, a))
  {
  }

  lemma AnswerStepResponder(s: State, a: Action)
    requires AnswerInv(s) && (a.RespGet? || a.RespSend? || a.RespUnref?)
    ensures AnswerInv(Step(s, a))
  {
  }

  lemma AnswerStepOther(s: State, a: Action)
    requires AnswerInv(s) && !a.WorkProcess? && !a.WorkUnref? && !a.WorkAlloc? && !a.WorkPut?
    requires !a.RespGet? && !a.RespSend? && !a.RespUnref?
    ensures AnswerInv(Step(s, a))
  {
  }

  lemma AnswerStep(s: State, a: Action)
    requires AnswerInv(s)
    ensures AnswerInv(Step(s, a))
  {
    if a.WorkProcess? || a.WorkUnref? || a.WorkAlloc? || a.WorkPut? {
      AnswerStepWorker(s, a);
    } else if a.RespGet? || a.RespSend? || a.RespUnref? {
      AnswerStepResponder(s, a);
    } else {
      AnswerStepOther(s, a);
    }
  }

  lemma TokenStepPipeline(s: State, a: Action, token: nat)
    requires TokenInv(s, token) && IsPipelineAction(a)
    ensures TokenInv(Step(s, a), token)
  {
  }

  lemma TokenStepDeliver(s: State, token: nat)
    requires AllOk(s.toApp) && TokenInv(s, token) && s.toApp != []
    ensures TokenInv(Step(s, Deliver), token)
  {
  }

  lemma TokenStepCall(s: State, a: Action, token: nat)
    requires TokenInv(s, token) && !IsPipelineAction(a) && !a.Deliver?
    ensures TokenInv(Step(s, a), token)
  {
  }

  lemma TokenStep(s: State, a: Action, token: nat)
    requires AnswerInv(s) && TokenInv(s, token)
    ensures TokenInv(Step(s, a), token)
  {
    if IsPipelineAction(a) {
      TokenStepPipeline(s, a, token);
    } else if !a.Deliver? {
      TokenStepCall(s, a, token);
    } else if s.toApp != [] {
      TokenStepDeliver(s, token);
    }
  }

  lemma InvStep(s: State, a: Action, token: nat)
    requires Inv(s, token)
    ensures Inv(Step(s, a), token)
  {
    PoolStep(s, a);
    OrderStep(s, a);
    AnswerStep(s, a);
    TokenStep(s, a, token);
  }

  /** Conservation over every interleaving. */
  lemma {:induction false} InvRun(s: State, schedule: seq<Action>, token: nat)
    requires Inv(s, token)
    ensures Inv(Run(s, schedule), token)
    decreases |schedule|
  {
    if schedule != [] {
      InvStep(s, schedule[0], token);
      InvRun(Step(s, schedule[0]), schedule[1..], token);
    }
  }
}
